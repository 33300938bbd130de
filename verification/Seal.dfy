/** Octet strings that end in their own checksum, stored most significant octet first, as
    telecommand frames and the data fields of packets do: which damage they catch when it
    may fall on the data, on the checksum, or across the boundary between them. */
module Seal {
  import opened Words
  import opened Crc
  import opened SealBits

  /** The last four octets are the checksum of the rest. */
  predicate Sealed(s: seq<byte>)
  {
    |s| >= 4 && Get32(s, |s| - 4) == Checksum(s[..|s| - 4])
  }

  /** The one change within four consecutive octets that a seal does not show: 61 D8 in
      the last two octets of the data, F4 EE in the first two of the checksum. */
  function Slipped(s: seq<byte>): (r: seq<byte>)
    requires |s| >= 6
    ensures |r| == |s|
  {
    var n := |s|;
    s[..n - 6] + [Mixed(s[n - 6], 0x61), Mixed(s[n - 5], 0xD8), Mixed(s[n - 4], 0xF4), Mixed(s[n - 3], 0xEE)] + s[n - 2..]
  }

  // ---------- the stored checksum, octet by octet ----------

  /** The register after the data, complemented: the checksum as a word. */
  function Final(data: seq<byte>): bv32
  {
    Xor(Register(INIT, data), 0xFFFF_FFFF)
  }

  function BigEndian(w: bv32): (r: seq<byte>)
    ensures |r| == 4
  {
    [LowOctet(Drop8(Drop8(Drop8(w)))), LowOctet(Drop8(Drop8(w))), LowOctet(Drop8(w)), LowOctet(w)]
  }

  lemma SealIsBigEndian(s: seq<byte>)
    requires |s| >= 4
    ensures Sealed(s) <==> s[|s| - 4..] == BigEndian(Final(s[..|s| - 4]))
  {
    hide LowOctet, Drop8, Register, Xor;
    var m := |s| - 4;
    var r := BigEndian(Final(s[..m]));
    if Sealed(s) {
      Base256(s[m], s[m + 1], s[m + 2], s[m + 3], r[0], r[1], r[2], r[3]);
      assert s[m..] == r;
    }
    if s[m..] == r {
      assert s[m] == s[m..][0] && s[m + 1] == s[m..][1] && s[m + 2] == s[m..][2] && s[m + 3] == s[m..][3];
    }
  }

  lemma FinalDifference(a: seq<byte>, b: seq<byte>)
    requires |a| == |b|
    ensures Xor(Final(a), Final(b)) == Divide(0, XorBits(BitStream(a), BitStream(b)))
  {
    hide Xor, Divide, BitStream;
    DivideLinear(INIT, BitStream(a), INIT, BitStream(b));
    XorSelf(INIT);
    XorCancels(Register(INIT, a), Register(INIT, b), 0xFFFF_FFFF);
  }

  lemma MasksCancel(v: bv32, w: bv32)
    requires v & 0xFF == w & 0xFF
    ensures Xor(v, w) & 0xFF == 0
  {
  }

  lemma SameLowOctet(v: bv32, w: bv32)
    requires LowOctet(v) == LowOctet(w)
    ensures Xor(v, w) & 0xFF == 0
  {
    hide Xor;
    IntOfOctet((v & 0xFF) as bv8, (w & 0xFF) as bv8);
    MaskedOctet(v, w);
    MasksCancel(v, w);
  }

  lemma DropDistributes(v: bv32, w: bv32)
    ensures Drop8(Xor(v, w)) == Xor(Drop8(v), Drop8(w))
  {
  }

  lemma LowTwo(d: bv32)
    requires d & 0xFF == 0 && Drop8(d) & 0xFF == 0
    ensures d & 0xFFFF == 0
  {
  }

  lemma LowThree(d: bv32)
    requires d & 0xFFFF == 0 && Drop8(Drop8(d)) & 0xFF == 0
    ensures d & 0xFF_FFFF == 0
  {
  }

  /** Where the last r stored octets agree, the last 8r bits of the difference are clear. */
  lemma AgreeingTail(v: bv32, w: bv32, r: nat)
    requires 1 <= r <= 3 && BigEndian(v)[4 - r..] == BigEndian(w)[4 - r..]
    ensures var d := Xor(v, w);
      (if r == 1 then d & 0xFF else if r == 2 then d & 0xFFFF else d & 0xFF_FFFF) == 0
  {
    hide Xor, LowOctet, Drop8;
    var d := Xor(v, w);
    var a, b := BigEndian(v), BigEndian(w);
    assert a[3] == a[4 - r..][r - 1] == b[3];
    SameLowOctet(v, w);
    if r >= 2 {
      assert a[2] == a[4 - r..][r - 2] == b[2];
      SameLowOctet(Drop8(v), Drop8(w));
      DropDistributes(v, w);
      LowTwo(d);
    }
    if r == 3 {
      assert a[1] == a[4 - r..][0] == b[1];
      SameLowOctet(Drop8(Drop8(v)), Drop8(Drop8(w)));
      DropDistributes(Drop8(v), Drop8(w));
      LowThree(d);
    }
  }

  // ---------- what a straddling change leaves ----------

  lemma XorBitsTail(a: seq<bool>, b: seq<bool>, c: seq<bool>, d: seq<bool>)
    requires |a| == |b| && |c| == |d|
    ensures XorBits(a + c, b + d)[|a|..] == XorBits(c, d)
    ensures a == b ==> forall i :: 0 <= i < |a| ==> !XorBits(a + c, b + d)[i]
  {
    hide XorBits;
    forall i | 0 <= i < |c|
      ensures XorBits(a + c, b + d)[|a|..][i] == XorBits(c, d)[i]
    {
      assert (a + c)[|a| + i] == c[i] && (b + d)[|a| + i] == d[i];
    }
  }

  /** The bits in which the last octets of two strings differ. */
  lemma JoinedBits(a: seq<byte>, b: seq<byte>, a1: seq<byte>, b1: seq<byte>, a2: seq<byte>, b2: seq<byte>)
    requires |a1| == |b1| && |a2| == |b2| && a == a1 + a2 && b == b1 + b2
    ensures |a| == |b|
    ensures XorBits(BitStream(a), BitStream(b))[8 * |a1|..] == XorBits(BitStream(a2), BitStream(b2))
    ensures a1 == b1 ==> forall i :: 0 <= i < 8 * |a1| ==> !XorBits(BitStream(a), BitStream(b))[i]
  {
    hide BitStream, XorBits;
    BitStreamConcat(a1, a2);
    BitStreamConcat(b1, b2);
    XorBitsTail(BitStream(a1), BitStream(b1), BitStream(a2), BitStream(b2));
  }

  lemma CutInTwo(a: seq<byte>, n: nat)
    requires n <= |a|
    ensures |a[..n]| == n && |a[n..]| == |a| - n && a == a[..n] + a[n..]
  {
  }

  lemma TailBits(a: seq<byte>, b: seq<byte>, r: nat)
    requires |a| == |b| && r <= |a|
    ensures XorBits(BitStream(a), BitStream(b))[8 * (|a| - r)..] == XorBits(BitStream(a[|a| - r..]), BitStream(b[|a| - r..]))
    ensures a[..|a| - r] == b[..|a| - r] ==>
      forall i :: 0 <= i < 8 * (|a| - r) ==> !XorBits(BitStream(a), BitStream(b))[i]
  {
    hide BitStream, XorBits;
    var n := |a| - r;
    CutInTwo(a, n);
    CutInTwo(b, n);
    JoinedBits(a, b, a[..n], b[..n], a[n..], b[n..]);
  }

  lemma NoBitsDiffer(a: seq<byte>, b: seq<byte>)
    requires |a| == |b| && XorBits(BitStream(a), BitStream(b)) == Falses(8 * |a|)
    ensures a == b
  {
    hide BitStream;
    var e := XorBits(BitStream(a), BitStream(b));
    forall i | 0 <= i < 8 * |a|
      ensures BitStream(a)[i] == BitStream(b)[i]
    {
      assert !e[i];
    }
    BitStreamInjective(a, b);
  }

  lemma BitsOfTwo(a: seq<byte>)
    requires |a| == 2
    ensures BitStream(a) == Bits(Widen(a[0]), 8) + Bits(Widen(a[1]), 8)
  {
    hide Widen, Bits;
    assert BitStream(a[1..][1..]) == [];
    assert BitStream(a[1..]) == Bits(Widen(a[1]), 8);
  }

  lemma XorBitsHead(a: seq<bool>, b: seq<bool>, c: seq<bool>, d: seq<bool>)
    requires |a| == |b| && |c| == |d|
    ensures XorBits(a + c, b + d) == XorBits(a, b) + XorBits(c, d)
  {
    hide XorBits;
    forall i | 0 <= i < |a| + |c|
      ensures XorBits(a + c, b + d)[i] == (XorBits(a, b) + XorBits(c, d))[i]
    {
      assert (a + c)[i] == if i < |a| then a[i] else c[i - |a|];
      assert (b + d)[i] == if i < |a| then b[i] else d[i - |a|];
    }
  }

  lemma OctetMixed(a: byte, b: byte, d: byte)
    ensures XorBits(Bits(Widen(a), 8), Bits(Widen(b), 8)) == Bits(Widen(d), 8) <==> b == Mixed(a, d)
  {
    hide Widen, Bits, Mixed, XorBits;
    if XorBits(Bits(Widen(a), 8), Bits(Widen(b), 8)) == Bits(Widen(d), 8) {
      MixedFromBits(a, b, d);
    }
    BitsOfMixed(a, d);
  }

  lemma TwoMixed(a: seq<byte>, b: seq<byte>)
    requires |a| == |b| == 2
    ensures XorBits(BitStream(a), BitStream(b)) == Bits(0xD861, 16) <==> b == [Mixed(a[0], 0x61), Mixed(a[1], 0xD8)]
  {
    hide Widen, Bits, Mixed, BitStream, XorBits;
    BitsOfTwo(a);
    BitsOfTwo(b);
    ExceptionBits();
    var u0, u1 := Bits(Widen(a[0]), 8), Bits(Widen(a[1]), 8);
    var v0, v1 := Bits(Widen(b[0]), 8), Bits(Widen(b[1]), 8);
    XorBitsHead(u0, v0, u1, v1);
    OctetMixed(a[0], b[0], 0x61);
    OctetMixed(a[1], b[1], 0xD8);
    EqualParts(XorBits(u0, v0), XorBits(u1, v1), Bits(Widen(0x61), 8), Bits(Widen(0xD8), 8));
  }

  lemma EqualParts(a: seq<bool>, b: seq<bool>, c: seq<bool>, d: seq<bool>)
    requires |a| == |c|
    ensures a + b == c + d <==> a == c && b == d
  {
    if a + b == c + d {
      assert a == (a + b)[..|a|] == c && b == (a + b)[|a|..] == d;
    }
  }

  /** Strings that differ only in their last r octets, while the last r stored octets of
      their checksums agree, differ by the exception. */
  lemma StraddleShows(a: seq<byte>, b: seq<byte>, r: nat)
    requires |a| == |b| && 1 <= r <= 3 && r <= |a| && a != b
    requires a[..|a| - r] == b[..|a| - r]
    requires BigEndian(Final(a))[4 - r..] == BigEndian(Final(b))[4 - r..]
    ensures r == 2 && b[|a| - 2..] == [Mixed(a[|a| - 2], 0x61), Mixed(a[|a| - 1], 0xD8)]
  {
    hide Final, BigEndian, BitStream, Xor, Divide, Bits, WordOf, Mixed;
    var n := |a| - r;
    var e := XorBits(BitStream(a), BitStream(b));
    AgreeingTail(Final(a), Final(b), r);
    FinalDifference(a, b);
    TailBits(a, b, r);
    OnlyTheTail(e, 8 * n);
    ShortStringShows(e[8 * n..], r);
    BitsOfWord(e[8 * n..]);
    assert a == a[..n] + a[n..] && b == b[..n] + b[n..];
    if WordOf(e[8 * n..]) == 0 {
      BitsOfZero(8 * r);
      NoBitsDiffer(a[n..], b[n..]);
    } else {
      TwoMixed(a[n..], b[n..]);
    }
  }

  lemma DroppedException()
    ensures Drop8(Drop8(0xF4EE_0000)) == 0xF4EE && Drop8(0xF4EE_0000) == 0xF4_EE00 && Drop8(0xF4EE) == 0xF4
    ensures 0xF4EE & 0xFF == 0xEE as bv32 && 0xF4 & 0xFF == 0xF4 as bv32
  {
  }

  lemma SameMask(v: bv32, w: bv32)
    requires v & 0xFF == w & 0xFF
    ensures LowOctet(v) == LowOctet(w)
  {
  }

  lemma MaskThrough(y: bv32, d: bv32)
    ensures Xor(y & 0xFF, d & 0xFF) & 0xFF == Xor(y, d) & 0xFF
  {
  }

  /** Mixing a low octet mixes the word under it. */
  lemma MixedLow(y: bv32, d: bv32)
    ensures Mixed(LowOctet(y), LowOctet(d)) == LowOctet(Xor(y, d))
  {
    hide Xor, Widen, LowOctet;
    WidenedLow(y);
    WidenedLow(d);
    MaskThrough(y, d);
    SameMask(Xor(y & 0xFF, d & 0xFF), Xor(y, d));
  }

  lemma LowOctetIs(x: bv8, w: bv32)
    requires w & 0xFF == x as bv32
    ensures LowOctet(w) == x as int
  {
    assert (w & 0xFF) as bv8 == x;
  }

  lemma ExceptionOctets()
    ensures BigEndian(0xF4EE_0000) == [0xF4, 0xEE, 0, 0]
  {
    hide LowOctet, Drop8;
    DroppedException();
    LowOctetIs(0xF4, 0xF4);
    LowOctetIs(0xEE, 0xF4EE);
    LowOctetIs(0, 0xF4_EE00);
    LowOctetIs(0, 0xF4EE_0000);
  }

  lemma BigEndianOfXor(v: bv32, d: bv32)
    ensures forall j :: 0 <= j < 4 ==> BigEndian(Xor(v, d))[j] == Mixed(BigEndian(v)[j], BigEndian(d)[j])
  {
    hide Xor, LowOctet, Drop8, Mixed;
    DropDistributes(v, d);
    DropDistributes(Drop8(v), Drop8(d));
    DropDistributes(Drop8(Drop8(v)), Drop8(Drop8(d)));
    MixedLow(v, d);
    MixedLow(Drop8(v), Drop8(d));
    MixedLow(Drop8(Drop8(v)), Drop8(Drop8(d)));
    MixedLow(Drop8(Drop8(Drop8(v))), Drop8(Drop8(Drop8(d))));
  }

  /** Data that differ by the exception have checksums that differ by F4 EE 00 00. */
  lemma ExceptionInChecksum(a: seq<byte>, b: seq<byte>)
    requires |a| == |b| >= 2 && a[..|a| - 2] == b[..|a| - 2]
    requires b[|a| - 2..] == [Mixed(a[|a| - 2], 0x61), Mixed(a[|a| - 1], 0xD8)]
    ensures var c := BigEndian(Final(a));
      BigEndian(Final(b)) == [Mixed(c[0], 0xF4), Mixed(c[1], 0xEE), c[2], c[3]]
  {
    hide Final, BigEndian, BitStream, Xor, Divide, Bits, WordOf, Mixed, Shift4, Folds;
    var n := |a| - 2;
    var e := XorBits(BitStream(a), BitStream(b));
    FinalDifference(a, b);
    TailBits(a, b, 2);
    OnlyTheTail(e, 8 * n);
    TwoMixed(a[n..], b[n..]);
    DivideIsFold(e[8 * n..], 4);
    WordOfException(e[8 * n..]);
    FoldsAreShifts(0xD861);
    TheException();
    assert Xor(Final(a), Final(b)) == 0xF4EE_0000;
    XorAssociates(Final(a), Final(a), Final(b));
    XorSelf(Final(a));
    XorSelf(Final(b));
    BigEndianOfXor(Final(a), 0xF4EE_0000);
    ExceptionOctets();
    MixedChanges(BigEndian(Final(a))[2], 0);
    MixedChanges(BigEndian(Final(a))[3], 0);
  }

  lemma WordOfException(e: seq<bool>)
    requires e == Bits(0xD861, 16)
    ensures WordOf(e) == 0xD861
  {
    hide WordOf, Bits, Halves;
    BitsOfWord(e);
    HalvesByNibble(0xD861, 4);
    NibbleBound(0xD861);
    EqualBits(WordOf(e), 0xD861, 16);
  }

  // ---------- what a seal shows ----------

  lemma DamageOnOneSide(f: seq<byte>, g: seq<byte>)
    requires Sealed(f) && Sealed(g) && DamagedWithinFour(f, g)
    ensures f[..|f| - 4] != g[..|f| - 4] && f[|f| - 4..] != g[|f| - 4..]
  {
    hide Checksum, Final, BigEndian;
    var m := |f| - 4;
    assert f == f[..m] + f[m..] && g == g[..m] + g[m..];
    SealIsBigEndian(f);
    SealIsBigEndian(g);
    if f[m..] == g[m..] {
      var k: int :| WithinFour(f, g, k);
      assert WithinFour(f[..m], g[..m], k);
      assert f[m] == f[m..][0] && f[m + 1] == f[m..][1] && f[m + 2] == f[m..][2] && f[m + 3] == f[m..][3];
      assert g[m] == g[m..][0] && g[m + 1] == g[m..][1] && g[m + 2] == g[m..][2] && g[m + 3] == g[m..][3];
      assert Get32(f, m) == Get32(g, m);
      FourOctetDamageDetected(f[..m], g[..m]);
    }
  }

  /** Damage on both sides of the boundary: how many octets of data it can reach, and
      where the stored checksums still agree. */
  lemma AcrossTheBoundary(f: seq<byte>, g: seq<byte>) returns (r: nat)
    requires |f| == |g| >= 4 && DamagedWithinFour(f, g)
    requires f[..|f| - 4] != g[..|f| - 4] && f[|f| - 4..] != g[|f| - 4..]
    ensures 1 <= r <= 3 && r <= |f| - 4
    ensures f[..|f| - 4 - r] == g[..|f| - 4 - r] && f[|f| - r..] == g[|f| - r..]
  {
    var m := |f| - 4;
    var k: int :| WithinFour(f, g, k);
    assert exists i :: 0 <= i < m && f[..m][i] != g[..m][i];
    var i :| 0 <= i < m && f[..m][i] != g[..m][i];
    assert exists j :: 0 <= j < 4 && f[m..][j] != g[m..][j];
    var j :| 0 <= j < 4 && f[m..][j] != g[m..][j];
    assert f[i] != g[i] && f[m + j] != g[m + j];
    r := if m - k <= m then m - k else m;
  }

  /** Of a sealed string and a change within four consecutive octets, wherever it falls:
      the changed string is sealed again exactly if the change is 61 D8 F4 EE across the
      boundary of data and checksum. */
  lemma UndetectedExactly(f: seq<byte>, g: seq<byte>)
    requires Sealed(f) && DamagedWithinFour(f, g)
    ensures Sealed(g) <==> |f| >= 6 && g == Slipped(f)
  {
    hide Sealed, Final, BigEndian, DamagedWithinFour, Mixed;
    LongEnough(f);
    SameLength(f, g);
    if Sealed(g) {
      var m := |f| - 4;
      DamageOnOneSide(f, g);
      var r := AcrossTheBoundary(f, g);
      SealIsBigEndian(f);
      SealIsBigEndian(g);
      assert f[m..][4 - r..] == f[|f| - r..] && g[m..][4 - r..] == g[|f| - r..];
      assert f[..m][..m - r] == f[..m - r] && g[..m][..m - r] == g[..m - r];
      StraddleShows(f[..m], g[..m], r);
      ExceptionInChecksum(f[..m], g[..m]);
      SlippedFromParts(f, g);
    }
    if |f| >= 6 && g == Slipped(f) {
      SlippedIsSealed(f);
    }
  }

  lemma LongEnough(f: seq<byte>)
    requires Sealed(f)
    ensures |f| >= 4
  {
  }

  lemma SameLength(f: seq<byte>, g: seq<byte>)
    requires DamagedWithinFour(f, g)
    ensures |f| == |g|
  {
  }

  lemma SlippedFromParts(f: seq<byte>, g: seq<byte>)
    requires |f| == |g| >= 6
    requires f[..|f| - 6] == g[..|f| - 6]
    requires g[..|f| - 4][|f| - 6..] == [Mixed(f[|f| - 6], 0x61), Mixed(f[|f| - 5], 0xD8)]
    requires g[|f| - 4..] == [Mixed(f[|f| - 4..][0], 0xF4), Mixed(f[|f| - 4..][1], 0xEE), f[|f| - 4..][2], f[|f| - 4..][3]]
    ensures g == Slipped(f)
  {
    hide Mixed;
    var n := |f|;
    assert g == g[..n - 6] + g[..n - 4][n - 6..] + g[n - 4..];
    assert f[n - 2..] == [f[n - 4..][2], f[n - 4..][3]];
  }

  /** And that change does leave every sealed string sealed. */
  lemma SlippedIsSealed(f: seq<byte>)
    requires Sealed(f) && |f| >= 6
    ensures Sealed(Slipped(f)) && DamagedWithinFour(f, Slipped(f))
  {
    hide Sealed, Final, BigEndian, Mixed;
    var n := |f|;
    var g := Slipped(f);
    var m := n - 4;
    SealIsBigEndian(f);
    SealIsBigEndian(g);
    assert g[..m][..m - 2] == f[..m][..m - 2];
    assert g[..m][m - 2..] == [Mixed(f[n - 6], 0x61), Mixed(f[n - 5], 0xD8)];
    ExceptionInChecksum(f[..m], g[..m]);
    assert g[m..] == [Mixed(f[m..][0], 0xF4), Mixed(f[m..][1], 0xEE), f[m..][2], f[m..][3]];
    MixedChanges(f[n - 6], 0x61);
    assert g[n - 6] != f[n - 6];
    assert WithinFour(f, g, n - 6);
  }
}
