/** The checksum service: CRC-32 as serial division, the nibble-table code that
    computes it, and what it detects. */
module Crc {
  import opened Words

  const POLYNOMIAL: bv32 := 0xEDB88320
  const INIT: bv32 := 0xFFFF_FFFF

  // ---------- reference: reflected division, one message bit at a time ----------

  // The bit operations are named so that proofs can work from their laws.

  function Xor(x: bv32, y: bv32): bv32
  {
    x ^ y
  }

  function Half(x: bv32): bv32
  {
    x >> 1
  }

  predicate Odd(x: bv32)
  {
    x & 1 == 1
  }

  /** Shift out the low bit, subtracting the polynomial when that bit was set. */
  function Reduce(crc: bv32): bv32
  {
    if Odd(crc) then Xor(Half(crc), POLYNOMIAL) else Half(crc)
  }

  /** One step of the division register on one message bit. */
  function ShiftBit(crc: bv32, bit: bool): bv32
  {
    Reduce(if bit then Xor(crc, 1) else crc)
  }

  /** The register after a whole bit string. */
  function Divide(crc: bv32, bits: seq<bool>): bv32
    decreases |bits|
  {
    if bits == [] then crc else Divide(ShiftBit(crc, bits[0]), bits[1..])
  }

  /** The low n bits of a word, least significant first. */
  function Bits(w: bv32, n: nat): (r: seq<bool>)
    ensures |r| == n
  {
    if n == 0 then [] else [Odd(w)] + Bits(Half(w), n - 1)
  }

  function Push(w: bv32, bit: bool): bv32
  {
    (w << 1) | (if bit then 1 else 0)
  }

  /** The word whose low bits are the binary digits of n. */
  function FromBinary(n: nat, width: nat): bv32
  {
    if width == 0 then 0 else Push(FromBinary(n / 2, width - 1), n % 2 == 1)
  }

  /** An octet as a register-wide word. */
  function Widen(b: byte): bv32
  {
    FromBinary(b, 8)
  }

  /** Octets go through the register least significant bit first. */
  function BitStream(data: seq<byte>): (r: seq<bool>)
    ensures |r| == 8 * |data|
  {
    if data == [] then [] else Bits(Widen(data[0]), 8) + BitStream(data[1..])
  }

  /** svc_crc32_update: the register carried over a run of octets. */
  function Register(crc: bv32, data: seq<byte>): bv32
  {
    Divide(crc, BitStream(data))
  }

  /** The low octet of a word as an unsigned integer. */
  function LowOctet(w: bv32): byte
  {
    ((w & 0xFF) as bv8) as int
  }

  function Drop8(w: bv32): bv32
  {
    w >> 8
  }

  /** A register value as an unsigned integer. */
  function Value(w: bv32): (r: u32)
  {
    var b3: int, b2: int, b1: int := LowOctet(Drop8(Drop8(Drop8(w)))), LowOctet(Drop8(Drop8(w))), LowOctet(Drop8(w));
    0x100_0000 * b3 + 0x1_0000 * b2 + 0x100 * b1 + LowOctet(w)
  }

  /** svc_crc32: seeded with ones, complemented at the end. */
  function Checksum(data: seq<byte>): u32
  {
    Value(Xor(Register(INIT, data), 0xFFFF_FFFF))
  }

  // ---------- laws of the bit operations ----------

  lemma XorCommutes(x: bv32, y: bv32)
    ensures Xor(x, y) == Xor(y, x)
  {
  }

  lemma XorAssociates(x: bv32, y: bv32, p: bv32)
    ensures Xor(x, Xor(y, p)) == Xor(Xor(x, y), p)
  {
  }

  lemma XorSelf(x: bv32)
    ensures Xor(x, x) == 0 && Xor(x, 0) == x && Xor(0, x) == x
  {
  }

  lemma XorSlides(x: bv32, y: bv32, p: bv32)
    ensures Xor(Xor(x, p), y) == Xor(Xor(x, y), p)
  {
    hide Xor;
    XorAssociates(x, p, y);
    XorCommutes(p, y);
    XorAssociates(x, y, p);
  }

  lemma XorCancels(x: bv32, y: bv32, p: bv32)
    ensures Xor(Xor(x, p), Xor(y, p)) == Xor(x, y)
  {
    hide Xor;
    XorAssociates(Xor(x, p), y, p);
    XorSlides(x, y, p);
    XorAssociates(Xor(x, y), p, p);
    XorSelf(p);
    XorSelf(Xor(x, y));
  }

  lemma HalfDistributes(x: bv32, y: bv32)
    ensures Half(Xor(x, y)) == Xor(Half(x), Half(y))
  {
  }

  lemma OddOfXor(x: bv32, y: bv32)
    ensures Odd(Xor(x, y)) <==> Odd(x) != Odd(y)
  {
  }

  lemma HalfAndOddDetermine(x: bv32, y: bv32)
    requires Half(x) == Half(y) && Odd(x) == Odd(y)
    ensures x == y
  {
  }

  lemma FlipLowBit(x: bv32)
    ensures Half(Xor(x, 1)) == Half(x) && Odd(Xor(x, 1)) != Odd(x)
  {
  }

  // ---------- the register is linear ----------

  lemma ReduceLinear(x: bv32, y: bv32)
    ensures Reduce(Xor(x, y)) == Xor(Reduce(x), Reduce(y))
  {
    hide Xor, Half, Odd;
    HalfDistributes(x, y);
    OddOfXor(x, y);
    XorCancels(Half(x), Half(y), POLYNOMIAL);
    XorSlides(Half(x), Half(y), POLYNOMIAL);
    XorAssociates(Half(x), Half(y), POLYNOMIAL);
  }

  lemma StepLinear(x: bv32, a: bool, y: bv32, b: bool)
    ensures ShiftBit(Xor(x, y), a != b) == Xor(ShiftBit(x, a), ShiftBit(y, b))
  {
    hide Xor, Reduce;
    XorCancels(x, y, 1);
    XorSlides(x, y, 1);
    XorAssociates(x, y, 1);
    ReduceLinear(if a then Xor(x, 1) else x, if b then Xor(y, 1) else y);
  }

  /** Bitwise exclusive-or of two equally long bit strings. */
  function XorBits(a: seq<bool>, b: seq<bool>): (r: seq<bool>)
    requires |a| == |b|
    ensures |r| == |a|
    ensures forall i :: 0 <= i < |a| ==> (r[i] <==> a[i] != b[i])
  {
    seq(|a|, i requires 0 <= i < |a| => a[i] != b[i])
  }

  /** The difference of two registers depends only on the difference of what they absorbed. */
  lemma {:induction false} DivideLinear(x: bv32, a: seq<bool>, y: bv32, b: seq<bool>)
    requires |a| == |b|
    ensures Divide(Xor(x, y), XorBits(a, b)) == Xor(Divide(x, a), Divide(y, b))
    decreases |a|
  {
    hide Xor, ShiftBit;
    if a != [] {
      StepLinear(x, a[0], y, b[0]);
      assert XorBits(a, b)[1..] == XorBits(a[1..], b[1..]);
      DivideLinear(ShiftBit(x, a[0]), a[1..], ShiftBit(y, b[0]), b[1..]);
    }
  }

  /** Division carries over concatenation, so a checksum may be taken in pieces. */
  lemma {:induction false} DivideConcat(crc: bv32, a: seq<bool>, b: seq<bool>)
    ensures Divide(crc, a + b) == Divide(Divide(crc, a), b)
    decreases |a|
  {
    hide ShiftBit;
    if a == [] {
      assert a + b == b;
    } else {
      assert (a + b)[1..] == a[1..] + b;
      DivideConcat(ShiftBit(crc, a[0]), a[1..], b);
    }
  }

  lemma {:induction false} BitStreamConcat(a: seq<byte>, b: seq<byte>)
    ensures BitStream(a + b) == BitStream(a) + BitStream(b)
  {
    if a == [] {
      assert a + b == b;
    } else {
      assert (a + b)[1..] == a[1..] + b;
      BitStreamConcat(a[1..], b);
    }
  }

  lemma RegisterConcat(crc: bv32, a: seq<byte>, b: seq<byte>)
    ensures Register(crc, a + b) == Register(Register(crc, a), b)
  {
    BitStreamConcat(a, b);
    DivideConcat(crc, BitStream(a), BitStream(b));
  }

  // ---------- the table-driven code ----------

  const K_NIBBLE: seq<bv32> := [
    0x00000000, 0x1DB71064, 0x3B6E20C8, 0x26D930AC,
    0x76DC4190, 0x6B6B51F4, 0x4DB26158, 0x5005713C,
    0xEDB88320, 0xF00F9344, 0xD6D6A3E8, 0xCB61B38C,
    0x9B64C2B0, 0x86D3D2D4, 0xA00AE278, 0xBDBDF21C
  ]

  /** The table entry selected by the low four bits. */
  function Nibble(crc: bv32): bv32
  {
    var i := ((crc & 0x0F) as bv8) as int;
    assert i < 16 by { assert (crc & 0x0F) as bv8 < 16; }
    K_NIBBLE[i]
  }

  function FourReductions(crc: bv32): bv32
  {
    Reduce(Reduce(Reduce(Reduce(crc))))
  }

  lemma LowTableEntry(n: bv32)
    requires n < 8
    ensures Nibble(n) == FourReductions(n)
  {
    if n < 4 {
      assert n == 0 || n == 1 || n == 2 || n == 3;
    } else {
      assert n == 4 || n == 5 || n == 6 || n == 7;
    }
  }

  lemma HighTableEntry(n: bv32)
    requires 8 <= n < 16
    ensures Nibble(n) == FourReductions(n)
  {
    if n < 12 {
      assert n == 8 || n == 9 || n == 10 || n == 11;
    } else {
      assert n == 12 || n == 13 || n == 14 || n == 15;
    }
  }

  lemma FourReductionsLinear(x: bv32, y: bv32)
    ensures FourReductions(Xor(x, y)) == Xor(FourReductions(x), FourReductions(y))
  {
    hide Xor, Reduce;
    ReduceLinear(x, y);
    ReduceLinear(Reduce(x), Reduce(y));
    ReduceLinear(Reduce(Reduce(x)), Reduce(Reduce(y)));
    ReduceLinear(Reduce(Reduce(Reduce(x))), Reduce(Reduce(Reduce(y))));
  }

  lemma SplitNibble(crc: bv32)
    ensures crc == Xor(crc & 0x0F, crc & 0xFFFF_FFF0)
  {
  }

  lemma NibbleMasks(crc: bv32)
    ensures crc & 0x0F < 16
    ensures (crc & 0x0F) & 0x0F == crc & 0x0F
  {
  }

  lemma HighPartIsEven(crc: bv32)
    ensures !Odd(crc & 0xFFFF_FFF0) && !Odd(Half(crc & 0xFFFF_FFF0))
  {
  }

  lemma HighPartIsEvenAgain(crc: bv32)
    ensures !Odd(Half(Half(crc & 0xFFFF_FFF0)))
  {
  }

  lemma HighPartIsEvenStill(crc: bv32)
    ensures !Odd(Half(Half(Half(crc & 0xFFFF_FFF0))))
  {
  }

  lemma HighPartHalved(crc: bv32)
    ensures Half(Half(Half(Half(crc & 0xFFFF_FFF0)))) == crc >> 4
  {
  }

  lemma HighBitsShiftOut(crc: bv32)
    ensures FourReductions(crc & 0xFFFF_FFF0) == crc >> 4
  {
    hide Odd, Half, Xor;
    HighPartIsEven(crc);
    HighPartIsEvenAgain(crc);
    HighPartIsEvenStill(crc);
    HighPartHalved(crc);
  }

  function Lookup(crc: bv32): bv32
  {
    Xor(Nibble(crc), crc >> 4)
  }

  /** One table lookup is four division steps, for every register value. */
  lemma LookupIsFourReductions(crc: bv32)
    ensures Lookup(crc) == FourReductions(crc)
  {
    hide Xor, FourReductions;
    NibbleMasks(crc);
    if crc & 0x0F < 8 {
      LowTableEntry(crc & 0x0F);
    } else {
      HighTableEntry(crc & 0x0F);
    }
    SplitNibble(crc);
    FourReductionsLinear(crc & 0x0F, crc & 0xFFFF_FFF0);
    HighBitsShiftOut(crc);
  }

  lemma {:induction false} NoBitsReduce(crc: bv32)
    ensures Divide(crc, [false, false, false, false]) == FourReductions(crc)
  {
    hide Reduce;
    var s := [false, false, false, false];
    assert s[1..] == [false, false, false] && s[1..][1..] == [false, false] && s[1..][1..][1..] == [false];
    assert Divide(crc, s) == Divide(Reduce(Reduce(crc)), [false, false]);
  }

  /** n halvings. */
  function Halves(w: bv32, n: nat): bv32
  {
    if n == 0 then w else Halves(Half(w), n - 1)
  }

  lemma OwnBit(w: bv32)
    ensures ShiftBit(w, Odd(w)) == Half(w)
  {
    hide Xor, Half, Odd;
    FlipLowBit(w);
  }

  /** Absorbing its own low bits only shifts the register. */
  lemma {:induction false} OwnBits(w: bv32, n: nat)
    ensures Divide(w, Bits(w, n)) == Halves(w, n)
    decreases n
  {
    hide ShiftBit, Half, Odd;
    if n > 0 {
      OwnBit(w);
      OwnBits(Half(w), n - 1);
    }
  }

  lemma {:induction false} EqualBits(v: bv32, w: bv32, n: nat)
    requires Bits(v, n) == Bits(w, n) && Halves(v, n) == Halves(w, n)
    ensures v == w
    decreases n
  {
    hide Half, Odd;
    if n > 0 {
      assert Bits(v, n)[0] == Bits(w, n)[0];
      assert Bits(v, n)[1..] == Bits(w, n)[1..];
      EqualBits(Half(v), Half(w), n - 1);
      HalfAndOddDetermine(v, w);
    }
  }

  lemma {:induction false} HalvesOfZero(n: nat)
    ensures Halves(0, n) == 0
  {
    if n > 0 {
      assert Half(0) == 0;
      HalvesOfZero(n - 1);
    }
  }

  lemma {:induction false} HalvesAdd(w: bv32, m: nat, n: nat)
    ensures Halves(w, m + n) == Halves(Halves(w, m), n)
    decreases m
  {
    hide Half;
    if m > 0 {
      HalvesAdd(Half(w), m - 1, n);
    }
  }

  lemma HalfMonotone(x: bv32, y: bv32)
    requires x <= y
    ensures Half(x) <= Half(y)
  {
  }

  lemma {:induction false} HalvesMonotone(x: bv32, y: bv32, n: nat)
    requires x <= y
    ensures Halves(x, n) <= Halves(y, n)
    decreases n
  {
    hide Half;
    if n > 0 {
      HalfMonotone(x, y);
      HalvesMonotone(Half(x), Half(y), n - 1);
    }
  }

  lemma FourHalvesShift(w: bv32)
    ensures Half(Half(Half(Half(w)))) == w >> 4
  {
  }

  lemma {:induction false} FourHalves(w: bv32)
    ensures Halves(w, 4) == w >> 4
  {
    hide Half;
    var x := Half(Half(w));
    assert Halves(w, 4) == Halves(x, 2) == Halves(Half(Half(x)), 0);
    FourHalvesShift(w);
  }

  lemma TopBitSurvives()
    ensures Halves(0x8000_0000, 31) != 0
  {
    assert Halves(8, 3) == 1 by {
      assert Halves(8, 3) == Halves(Half(8), 2);
    }
    hide Half, Halves;
    HalvesAdd(0x8000_0000, 4, 27);
    FourHalves(0x8000_0000);
    HalvesAdd(0x0800_0000, 4, 23);
    FourHalves(0x0800_0000);
    HalvesAdd(0x0080_0000, 4, 19);
    FourHalves(0x0080_0000);
    HalvesAdd(0x0008_0000, 4, 15);
    FourHalves(0x0008_0000);
    HalvesAdd(0x8000, 4, 11);
    FourHalves(0x8000);
    HalvesAdd(0x0800, 4, 7);
    FourHalves(0x0800);
    HalvesAdd(0x80, 4, 3);
    FourHalves(0x80);
  }

  /** A word with its top bit set is not halved away in 31 steps. */
  lemma TopBitLasts(w: bv32, n: nat)
    requires w >= 0x8000_0000 && n <= 31
    ensures Halves(w, n) != 0
  {
    TopBitSurvives();
    HalvesAdd(0x8000_0000, n, 31 - n);
    HalvesOfZero(31 - n);
    HalvesMonotone(0x8000_0000, w, n);
  }

  lemma PushHalf(w: bv32, bit: bool)
    requires w < 0x8000_0000
    ensures Half(Push(w, bit)) == w && Odd(Push(w, bit)) == bit
  {
  }

  lemma {:induction false} BinaryHalvesAway(n: nat, width: nat)
    requires width <= 31
    ensures Halves(FromBinary(n, width), width) == 0
    ensures FromBinary(n, width) < 0x8000_0000
  {
    hide Half, Odd, Push;
    if width > 0 {
      BinaryHalvesAway(n / 2, width - 1);
      PushHalf(FromBinary(n / 2, width - 1), n % 2 == 1);
    }
    if FromBinary(n, width) >= 0x8000_0000 {
      TopBitLasts(FromBinary(n, width), width);
    }
  }

  lemma {:induction false} BinaryInjective(m: nat, n: nat, width: nat)
    requires width <= 31 && m < Pow2(width) && n < Pow2(width)
    requires FromBinary(m, width) == FromBinary(n, width)
    ensures m == n
  {
    hide Half, Odd, Push;
    if width > 0 {
      BinaryHalvesAway(m / 2, width - 1);
      BinaryHalvesAway(n / 2, width - 1);
      PushHalf(FromBinary(m / 2, width - 1), m % 2 == 1);
      PushHalf(FromBinary(n / 2, width - 1), n % 2 == 1);
      BinaryInjective(m / 2, n / 2, width - 1);
    }
  }

  /** One octet through the table twice is eight division steps on its bits. */
  lemma OctetByTable(crc: bv32, b: byte)
    ensures Divide(crc, Bits(Widen(b), 8)) == FourReductions(FourReductions(Xor(crc, Widen(b))))
  {
    hide Xor, ShiftBit, FourReductions, FromBinary;
    var v := Widen(b);
    var own := Bits(v, 8);
    var x := Xor(crc, v);
    DivideLinear(crc, own, v, own);
    OwnBits(v, 8);
    BinaryHalvesAway(b, 8);
    XorSelf(Divide(crc, own));
    assert XorBits(own, own) == [false, false, false, false] + [false, false, false, false];
    DivideConcat(x, [false, false, false, false], [false, false, false, false]);
    NoBitsReduce(x);
    NoBitsReduce(FourReductions(x));
  }

  lemma {:induction false} RegisterOfOne(crc: bv32, b: byte)
    ensures Register(crc, [b]) == Divide(crc, Bits(Widen(b), 8))
  {
    assert BitStream([b]) == Bits(Widen(b), 8) + BitStream([]) == Bits(Widen(b), 8);
  }

  lemma EmptyRegister(crc: bv32)
    ensures Register(crc, []) == crc
  {
  }

  /** The loop of svc_crc32_update: two lookups for each octet. */
  method Update(crc: bv32, data: seq<byte>) returns (r: bv32)
    ensures r == Register(crc, data)
  {
    hide Xor, Lookup, Widen, Register;
    r := crc;
    EmptyRegister(crc);
    for i := 0 to |data|
      invariant r == Register(crc, data[..i])
    {
      ghost var before := r;
      r := Xor(r, Widen(data[i]));
      LookupIsFourReductions(r);
      r := Lookup(r);
      LookupIsFourReductions(r);
      r := Lookup(r);
      OctetByTable(before, data[i]);
      RegisterOfOne(before, data[i]);
      assert data[..i + 1] == data[..i] + [data[i]];
      RegisterConcat(crc, data[..i], [data[i]]);
    }
    assert data[..|data|] == data;
  }

  // ---------- the standard's check value ----------

  /** The octets of "123456789". */
  const CHECK: seq<byte> := [0x31, 0x32, 0x33, 0x34, 0x35, 0x36, 0x37, 0x38, 0x39]

  /** The register after each of them. */
  const K_CHECK: seq<bv32> := [
    0xFFFF_FFFF, 0x7C23_1048, 0xB0AC_BB32, 0x77B7_9C2D, 0x641C_1F5C,
    0x340A_C5E3, 0xF68D_2C9E, 0xAFFC_9660, 0x651F_2550, 0x340B_C6D9
  ]

  /** Four more binary digits of a number. */
  lemma FourDigits(n: nat, w: nat)
    requires w >= 4
    ensures FromBinary(n, w) == Push(Push(Push(Push(FromBinary(n / 16, w - 4), n / 8 % 2 == 1), n / 4 % 2 == 1), n / 2 % 2 == 1), n % 2 == 1)
  {
    hide Push;
    var half := FromBinary(n / 2, w - 1);
    var quarter := FromBinary(n / 4, w - 2);
    assert n / 2 / 2 == n / 4 && n / 4 / 2 == n / 8 && n / 8 / 2 == n / 16;
    assert half == Push(quarter, n / 2 % 2 == 1);
    assert quarter == Push(FromBinary(n / 8, w - 3), n / 4 % 2 == 1);
  }

  lemma HighDigits()
    ensures FromBinary(3, 4) == 3
  {
    FourDigits(3, 4);
    hide FromBinary;
  }

  /** The word of an ASCII digit, from its binary digits. */
  function DigitWord(d3: bool, d2: bool, d1: bool, d0: bool): bv32
  {
    Push(Push(Push(Push(3, d3), d2), d1), d0)
  }

  lemma DigitOf(d: nat)
    requires d < 10
    ensures var n := 0x30 + d;
      && n / 16 == 3 && (n / 8 % 2 == 1 <==> d / 8 % 2 == 1) && (n / 4 % 2 == 1 <==> d / 4 % 2 == 1)
      && (n / 2 % 2 == 1 <==> d / 2 % 2 == 1) && (n % 2 == 1 <==> d % 2 == 1)
  {
  }

  lemma Digit(d: nat)
    requires d < 10
    ensures Widen(0x30 + d) == DigitWord(d / 8 % 2 == 1, d / 4 % 2 == 1, d / 2 % 2 == 1, d % 2 == 1)
  {
    hide Push, FromBinary;
    DigitOf(d);
    FourDigits(0x30 + d, 8);
    HighDigits();
  }

  lemma DigitWords()
    ensures DigitWord(false, false, false, true) == 0x31 && DigitWord(false, false, true, false) == 0x32
    ensures DigitWord(false, false, true, true) == 0x33 && DigitWord(false, true, false, false) == 0x34
    ensures DigitWord(false, true, false, true) == 0x35 && DigitWord(false, true, true, false) == 0x36
    ensures DigitWord(false, true, true, true) == 0x37 && DigitWord(true, false, false, false) == 0x38
    ensures DigitWord(true, false, false, true) == 0x39
  {
  }

  lemma CheckWord(k: nat)
    requires k < 9
    ensures Widen(0x31 + k) == [0x31, 0x32, 0x33, 0x34, 0x35, 0x36, 0x37, 0x38, 0x39][k]
  {
    hide Widen, DigitWord;
    Digit(k + 1);
    DigitWords();
  }

  lemma CheckSteps()
    ensures Lookup(Lookup(Xor(0xFFFF_FFFF, 0x31))) == 0x7C23_1048
    ensures Lookup(Lookup(Xor(0x7C23_1048, 0x32))) == 0xB0AC_BB32
    ensures Lookup(Lookup(Xor(0xB0AC_BB32, 0x33))) == 0x77B7_9C2D
    ensures Lookup(Lookup(Xor(0x77B7_9C2D, 0x34))) == 0x641C_1F5C
    ensures Lookup(Lookup(Xor(0x641C_1F5C, 0x35))) == 0x340A_C5E3
    ensures Lookup(Lookup(Xor(0x340A_C5E3, 0x36))) == 0xF68D_2C9E
    ensures Lookup(Lookup(Xor(0xF68D_2C9E, 0x37))) == 0xAFFC_9660
    ensures Lookup(Lookup(Xor(0xAFFC_9660, 0x38))) == 0x651F_2550
    ensures Lookup(Lookup(Xor(0x651F_2550, 0x39))) == 0x340B_C6D9
  {
  }

  lemma CheckOctet(k: nat)
    requires k < 9
    ensures Lookup(Lookup(Xor(K_CHECK[k], Widen(CHECK[k])))) == K_CHECK[k + 1]
  {
    hide Widen, Lookup, Xor;
    CheckSteps();
    CheckWord(k);
  }

  lemma RegisterOfOctet(crc: bv32, b: byte)
    ensures Register(crc, [b]) == Lookup(Lookup(Xor(crc, Widen(b))))
  {
    hide Xor, Lookup, Widen, Register;
    var w := Xor(crc, Widen(b));
    LookupIsFourReductions(w);
    LookupIsFourReductions(Lookup(w));
    OctetByTable(crc, b);
    RegisterOfOne(crc, b);
  }

  lemma OneMoreCheck(k: nat)
    requires k < 9
    ensures CHECK[..k + 1] == CHECK[..k] + [CHECK[k]]
  {
  }

  lemma {:induction false} CheckRegister(k: nat)
    requires k <= 9
    ensures Register(INIT, CHECK[..k]) == K_CHECK[k]
  {
    hide Xor, Lookup, Widen, Register;
    if k == 0 {
      EmptyRegister(INIT);
    } else {
      CheckRegister(k - 1);
      CheckOctet(k - 1);
      OneMoreCheck(k - 1);
      RegisterOfOctet(K_CHECK[k - 1], CHECK[k - 1]);
      RegisterConcat(INIT, CHECK[..k - 1], [CHECK[k - 1]]);
    }
  }

  lemma LastCheck()
    ensures Value(Xor(0x340B_C6D9, 0xFFFF_FFFF)) == 0xCBF4_3926
  {
  }

  /** It is the CRC-32 of the standard: the check value of "123456789" is 0xCBF43926. */
  lemma CheckValue()
    ensures Checksum(CHECK) == 0xCBF4_3926
  {
    hide Register, Value, Xor;
    CheckRegister(9);
    assert CHECK[..9] == CHECK;
    LastCheck();
  }

  method Crc32(data: seq<byte>) returns (r: u32)
    ensures r == Checksum(data)
  {
    var c := Update(INIT, data);
    r := Value(Xor(c, 0xFFFF_FFFF));
  }

  // ---------- what the checksum detects ----------

  lemma SubtractingSetsTop(w: bv32)
    ensures Xor(Half(w), POLYNOMIAL) >= 0x8000_0000
  {
  }

  lemma EvenNonzero(w: bv32)
    requires w != 0 && !Odd(w)
    ensures Half(w) != 0
  {
  }

  lemma ReduceKeepsNonzero(w: bv32)
    requires w != 0
    ensures Reduce(w) != 0
  {
    hide Half, Odd, Xor;
    if Odd(w) {
      SubtractingSetsTop(w);
    } else {
      EvenNonzero(w);
    }
  }

  /** A difference that would survive n halvings survives n - 1 more arbitrary bits. */
  lemma StepKeepsDifference(w: bv32, bit: bool, n: nat)
    requires 0 < n <= 31 && Halves(w, n) != 0
    ensures Halves(ShiftBit(w, bit), n - 1) != 0
  {
    hide Half, Odd, Xor;
    var c := if bit then Xor(w, 1) else w;
    FlipLowBit(w);
    assert Halves(w, n) == Halves(Half(c), n - 1);
    if Odd(c) {
      SubtractingSetsTop(c);
      TopBitLasts(Reduce(c), n - 1);
    }
  }

  /** After n arbitrary bits and any number of zeros the register is still nonzero. */
  lemma {:induction false} DifferenceSurvives(w: bv32, e: seq<bool>, n: nat)
    requires n <= 31 && Halves(w, n) != 0
    requires forall i :: n <= i < |e| ==> !e[i]
    ensures Divide(w, e) != 0
    decreases |e|
  {
    hide Half, Odd, Xor, Reduce;
    if e == [] {
      HalvesOfZero(n);
    } else if n == 0 {
      ReduceKeepsNonzero(w);
      DifferenceSurvives(ShiftBit(w, e[0]), e[1..], 0);
    } else {
      StepKeepsDifference(w, e[0], n);
      DifferenceSurvives(ShiftBit(w, e[0]), e[1..], n - 1);
    }
  }

  lemma FirstBits()
    ensures ShiftBit(0, false) == 0
    ensures ShiftBit(0, true) >= 0x8000_0000
  {
  }

  lemma {:induction false} BurstLeavesResidue(e: seq<bool>, k: int)
    requires true in e
    requires forall i :: 0 <= i < |e| && e[i] ==> k <= i < k + 32
    ensures Divide(0, e) != 0
    decreases |e|
  {
    hide ShiftBit;
    FirstBits();
    var w := ShiftBit(0, e[0]);
    if e[0] {
      TopBitLasts(w, 31);
      DifferenceSurvives(w, e[1..], 31);
    } else {
      BurstLeavesResidue(e[1..], k - 1);
    }
  }

  /** Two bit strings that differ only within 32 consecutive bits leave different registers. */
  lemma BitBurstDetected(crc: bv32, a: seq<bool>, b: seq<bool>, k: int)
    requires |a| == |b| && a != b
    requires forall i :: 0 <= i < |a| && a[i] != b[i] ==> k <= i < k + 32
    ensures Divide(crc, a) != Divide(crc, b)
  {
    hide Xor;
    var e := XorBits(a, b);
    assert exists i :: 0 <= i < |a| && a[i] != b[i];
    var i :| 0 <= i < |a| && a[i] != b[i];
    assert e[i];
    BurstLeavesResidue(e, k);
    DivideLinear(crc, a, crc, b);
    XorSelf(crc);
    XorSelf(Divide(crc, a));
  }

  lemma {:induction false} BitStreamAt(data: seq<byte>, i: nat, j: nat)
    requires i < |data| && j < 8
    ensures BitStream(data)[8 * i + j] == Bits(Widen(data[i]), 8)[j]
  {
    if i > 0 {
      BitStreamAt(data[1..], i - 1, j);
    }
  }

  lemma OctetBitsInjective(a: byte, b: byte)
    requires Bits(Widen(a), 8) == Bits(Widen(b), 8)
    ensures a == b
  {
    hide FromBinary, Bits;
    BinaryHalvesAway(a, 8);
    BinaryHalvesAway(b, 8);
    EqualBits(Widen(a), Widen(b), 8);
    assert Pow2(8) == 256;
    BinaryInjective(a, b, 8);
  }

  lemma IntOfOctet(x: bv8, y: bv8)
    requires x as int == y as int
    ensures x == y
  {
  }

  lemma MaskedOctet(v: bv32, w: bv32)
    requires (v & 0xFF) as bv8 == (w & 0xFF) as bv8
    ensures v & 0xFF == w & 0xFF
  {
  }

  lemma JoinOctet(v: bv32, w: bv32)
    requires v & 0xFF == w & 0xFF && Drop8(v) == Drop8(w)
    ensures v == w
  {
  }

  lemma LowOctetDetermines(v: bv32, w: bv32)
    requires LowOctet(v) == LowOctet(w) && Drop8(v) == Drop8(w)
    ensures v == w
  {
    IntOfOctet((v & 0xFF) as bv8, (w & 0xFF) as bv8);
    MaskedOctet(v, w);
    JoinOctet(v, w);
  }

  lemma FourDropsEmpty(w: bv32)
    ensures Drop8(Drop8(Drop8(Drop8(w)))) == 0
  {
  }

  lemma Base256(a: byte, b: byte, c: byte, d: byte, e: byte, f: byte, g: byte, h: byte)
    requires 0x100_0000 * (a as int) + 0x1_0000 * (b as int) + 0x100 * (c as int) + d
          == 0x100_0000 * (e as int) + 0x1_0000 * (f as int) + 0x100 * (g as int) + h
    ensures a == e && b == f && c == g && d == h
  {
  }

  lemma ValueInjective(v: bv32, w: bv32)
    requires Value(v) == Value(w)
    ensures v == w
  {
    hide LowOctet, Drop8;
    var v1, w1 := Drop8(v), Drop8(w);
    var v2, w2 := Drop8(v1), Drop8(w1);
    var v3, w3 := Drop8(v2), Drop8(w2);
    Base256(LowOctet(v3), LowOctet(v2), LowOctet(v1), LowOctet(v), LowOctet(w3), LowOctet(w2), LowOctet(w1), LowOctet(w));
    FourDropsEmpty(v);
    FourDropsEmpty(w);
    LowOctetDetermines(v3, w3);
    LowOctetDetermines(v2, w2);
    LowOctetDetermines(v1, w1);
    LowOctetDetermines(v, w);
  }

  /** Two registers give the same checksum only if they are the same register. */
  lemma ChecksumReflectsRegister(a: seq<byte>, b: seq<byte>)
    requires Register(INIT, a) != Register(INIT, b)
    ensures Checksum(a) != Checksum(b)
  {
    hide Xor, Value, Register;
    var x, y := Register(INIT, a), Register(INIT, b);
    if Checksum(a) == Checksum(b) {
      ValueInjective(Xor(x, 0xFFFF_FFFF), Xor(y, 0xFFFF_FFFF));
      XorCancels(x, y, 0xFFFF_FFFF);
      XorSelf(Xor(x, 0xFFFF_FFFF));
      XorAssociates(x, y, y);
      XorSelf(y);
      XorSelf(x);
    }
  }

  /** Equal-length buffers whose bit streams differ, but only within 32 consecutive
      bits, have different checksums. */
  lemma BurstDetected(a: seq<byte>, b: seq<byte>, k: int)
    requires |a| == |b| && a != b
    requires forall n :: 0 <= n < 8 * |a| && BitStream(a)[n] != BitStream(b)[n] ==> k <= n < k + 32
    ensures Checksum(a) != Checksum(b)
  {
    hide Widen;
    var i :| 0 <= i < |a| && a[i] != b[i];
    if BitStream(a) == BitStream(b) {
      forall j | 0 <= j < 8
        ensures Bits(Widen(a[i]), 8)[j] == Bits(Widen(b[i]), 8)[j]
      {
        BitStreamAt(a, i, j);
        BitStreamAt(b, i, j);
      }
      assert Bits(Widen(a[i]), 8) == Bits(Widen(b[i]), 8);
      OctetBitsInjective(a[i], b[i]);
    }
    BitBurstDetected(INIT, BitStream(a), BitStream(b), k);
    ChecksumReflectsRegister(a, b);
  }

  /** Equal-length buffers that differ, but only within some four consecutive octets. */
  ghost predicate DamagedWithinFour(a: seq<byte>, b: seq<byte>)
  {
    && |a| == |b|
    && a != b
    && exists k: int :: WithinFour(a, b, k)
  }

  ghost predicate WithinFour(a: seq<byte>, b: seq<byte>, k: int)
    requires |a| == |b|
  {
    forall i :: 0 <= i < |a| && a[i] != b[i] ==> k <= i < k + 4
  }

  lemma FourOctetDamageDetected(a: seq<byte>, b: seq<byte>)
    requires DamagedWithinFour(a, b)
    ensures Checksum(a) != Checksum(b)
  {
    var k: int :| WithinFour(a, b, k);
    forall n | 0 <= n < 8 * |a| && BitStream(a)[n] != BitStream(b)[n]
      ensures 8 * k <= n < 8 * k + 32
    {
      BitStreamAt(a, n / 8, n % 8);
      BitStreamAt(b, n / 8, n % 8);
      assert a[n / 8] != b[n / 8];
    }
    BurstDetected(a, b, 8 * k);
  }
}
