/** Fixed-width words, the common status codes, and the big-endian packing that
    every frame and record goes through. */
module Words {

  type byte = n: int | 0 <= n < 0x100

  type u16 = n: int | 0 <= n < 0x1_0000

  /** An unsigned 32-bit word; arithmetic on one is written out with its wrap. */
  type u32 = n: int | 0 <= n < 0x1_0000_0000

  const TWO_32: int := 0x1_0000_0000
  const TWO_64: int := 0x1_0000_0000_0000_0000

  /** Stages of the mission, which commands and the stage sequence both count. */
  const STAGES: nat := 13

  function Wrap(n: int): (r: u32)
  {
    n % TWO_32
  }

  lemma WrapSmall(n: u32)
    ensures Wrap(n) == n
  {
  }

  lemma WrapAdd(a: int, b: int)
    ensures Wrap(Wrap(a) + b) == Wrap(a + b)
  {
  }

  lemma WrapSum(a: int, b: int)
    ensures Wrap(Wrap(a) + Wrap(b)) == Wrap(a + b)
  {
  }

  lemma WrapDifference(a: int, b: int)
    ensures Wrap((Wrap(a) as int) - Wrap(b)) == Wrap(a - b)
  {
  }

  function Pow2(k: nat): (r: nat)
    ensures r >= 1
  {
    if k == 0 then 1 else 2 * Pow2(k - 1)
  }

  lemma {:induction false} Pow2Divides(j: nat, k: nat)
    requires j <= k
    ensures Pow2(k) == Pow2(j) * Pow2(k - j)
    decreases k
  {
    if j < k {
      Pow2Divides(j, k - 1);
    }
  }

  lemma {:induction false} Pow2Grows(j: nat, k: nat)
    requires j <= k
    ensures Pow2(j) <= Pow2(k)
    decreases k
  {
    if j < k {
      Pow2Grows(j, k - 1);
    }
  }

  lemma Pow2Is32()
    ensures Pow2(32) == TWO_32
  {
    assert Pow2(8) == 256;
    Pow2Divides(8, 16);
    Pow2Divides(16, 32);
  }

  datatype Option<T> = None | Some(value: T)

  /** How often a number occurs in a list. */
  function Times(log: seq<nat>, r: nat): nat
  {
    if log == [] then 0 else Times(log[..|log| - 1], r) + (if log[|log| - 1] == r then 1 else 0)
  }

  datatype Status =
    | Ok
    | ErrParam
    | ErrState
    | ErrTimeout
    | ErrHardware
    | ErrRange
    | ErrIntegrity
    | ErrBusy
    | ErrUnsupported

  // ---------- packing, most significant octet first ----------

  function Put16(v: u16): (r: seq<byte>)
    ensures |r| == 2
  {
    [v / 0x100, v % 0x100]
  }

  function Put32(v: u32): (r: seq<byte>)
    ensures |r| == 4
  {
    [v / 0x100_0000, (v / 0x1_0000) % 0x100, (v / 0x100) % 0x100, v % 0x100]
  }

  /** A 32-bit word in memory, least significant octet first. */
  function InMemory(w: u32): (r: seq<byte>)
    ensures |r| == 4
  {
    [w % 0x100, (w / 0x100) % 0x100, (w / 0x1_0000) % 0x100, w / 0x100_0000]
  }

  function Get16(s: seq<byte>, at: nat): (r: u16)
    requires at + 2 <= |s|
  {
    0x100 * (s[at] as int) + s[at + 1]
  }

  function Get32(s: seq<byte>, at: nat): (r: u32)
    requires at + 4 <= |s|
  {
    0x100_0000 * (s[at] as int) + 0x1_0000 * (s[at + 1] as int) + 0x100 * (s[at + 2] as int) + s[at + 3]
  }

  lemma OctetsOf(v: u32)
    ensures v == 0x100_0000 * (v / 0x100_0000) + 0x1_0000 * ((v / 0x1_0000) % 0x100) + 0x100 * ((v / 0x100) % 0x100) + v % 0x100
  {
    var a := v / 0x100;
    var b := a / 0x100;
    assert b == v / 0x1_0000;
    assert b / 0x100 == v / 0x100_0000;
  }

  /** What was packed is read back, whatever surrounds it. */
  lemma GetAfterPut16(s: seq<byte>, at: nat, v: u16)
    requires at + 2 <= |s| && s[at..at + 2] == Put16(v)
    ensures Get16(s, at) == v
  {
    assert s[at] == s[at..at + 2][0] && s[at + 1] == s[at..at + 2][1];
  }

  lemma GetAfterPut32(s: seq<byte>, at: nat, v: u32)
    requires at + 4 <= |s| && s[at..at + 4] == Put32(v)
    ensures Get32(s, at) == v
  {
    var w := s[at..at + 4];
    assert s[at] == w[0] && s[at + 1] == w[1] && s[at + 2] == w[2] && s[at + 3] == w[3];
    OctetsOf(v);
  }

  /** And packing what was read gives the octets back, so neither loses anything. */
  lemma PutAfterGet16(s: seq<byte>, at: nat)
    requires at + 2 <= |s|
    ensures Put16(Get16(s, at)) == s[at..at + 2]
  {
  }

  lemma PutAfterGet32(s: seq<byte>, at: nat)
    requires at + 4 <= |s|
    ensures Put32(Get32(s, at)) == s[at..at + 4]
  {
    var w := Get32(s, at);
    assert w / 0x100 == 0x1_0000 * (s[at] as int) + 0x100 * (s[at + 1] as int) + s[at + 2];
    assert w / 0x1_0000 == 0x100 * (s[at] as int) + s[at + 1];
  }

  lemma Put32Injective(a: u32, b: u32)
    requires Put32(a) == Put32(b)
    ensures a == b
  {
    GetAfterPut32(Put32(a), 0, a);
    GetAfterPut32(Put32(b), 0, b);
  }
}
