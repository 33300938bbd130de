/** Bit-level facts behind the seals: octets as low bits of words, and what is left of a
    short string divided from an empty register. */
module SealBits {
  import opened Words
  import opened Crc

  /** Exclusive-or of octets. */
  function Mixed(a: byte, d: byte): byte
  {
    LowOctet(Xor(Widen(a), Widen(d)))
  }

  // ---------- octets and words ----------

  lemma HalvedOctet(x: bv8)
    ensures (x >> 1) as int == (x as int) / 2 && ((x as int) % 2 == 1 <==> x & 1 == 1)
  {
  }

  lemma PushedOctet(x: bv8)
    ensures Push((x >> 1) as bv32, x & 1 == 1) == x as bv32
  {
  }

  predicate Narrow(x: bv8, k: nat)
  {
    if k == 0 then x == 0 else Narrow(x >> 1, k - 1)
  }

  lemma EightShifts(x: bv8)
    ensures x >> 1 >> 1 >> 1 >> 1 >> 1 >> 1 >> 1 >> 1 == 0
  {
  }

  lemma EveryOctetIsNarrow(x: bv8)
    ensures Narrow(x, 8)
  {
    var a, b, c := x >> 1, x >> 1 >> 1, x >> 1 >> 1 >> 1;
    var d, e, f := c >> 1, c >> 1 >> 1, c >> 1 >> 1 >> 1;
    EightShifts(x);
    assert Narrow(f >> 1, 1) by {
      assert Narrow(f >> 1 >> 1, 0);
    }
    assert Narrow(f, 2);
    assert Narrow(e, 3);
    assert Narrow(d, 4);
    assert Narrow(c, 5);
    assert Narrow(b, 6);
    assert Narrow(a, 7);
  }

  lemma {:induction false} OctetAsWord(x: bv8, k: nat)
    requires Narrow(x, k)
    ensures FromBinary(x as int, k) == x as bv32
  {
    hide Push;
    if k > 0 {
      HalvedOctet(x);
      OctetAsWord(x >> 1, k - 1);
      PushedOctet(x);
    }
  }

  lemma MaskAsOctet(w: bv32)
    ensures ((w & 0xFF) as bv8) as bv32 == w & 0xFF
  {
  }

  /** Taking the low octet of a word and widening it keeps the low eight bits. */
  lemma WidenedLow(w: bv32)
    ensures Widen(LowOctet(w)) == w & 0xFF
  {
    var x := (w & 0xFF) as bv8;
    EveryOctetIsNarrow(x);
    OctetAsWord(x, 8);
    MaskAsOctet(w);
  }

  lemma SmallByHalves(w: bv32)
    requires (w >> 4) >> 4 == 0
    ensures w & 0xFF == w
  {
  }

  lemma SmallWord(w: bv32)
    requires Halves(w, 8) == 0
    ensures w & 0xFF == w
  {
    hide Halves;
    HalvesAdd(w, 4, 4);
    FourHalves(w);
    FourHalves(w >> 4);
    SmallByHalves(w);
  }

  lemma WidenedIsSmall(b: byte)
    ensures Widen(b) & 0xFF == Widen(b)
  {
    hide FromBinary, Halves;
    BinaryHalvesAway(b, 8);
    SmallWord(Widen(b));
  }

  /** An octet is its own low octet. */
  lemma LowOfWidened(b: byte)
    ensures LowOctet(Widen(b)) == b
  {
    hide FromBinary, LowOctet;
    WidenedLow(Widen(b));
    WidenedIsSmall(b);
    assert Pow2(8) == 256;
    BinaryInjective(LowOctet(Widen(b)), b, 8);
  }

  // ---------- dividing a short string from an empty register ----------

  /** The word with these low bits, least significant first. */
  function WordOf(e: seq<bool>): bv32
  {
    if e == [] then 0 else Push(WordOf(e[1..]), e[0])
  }

  lemma {:induction false} BitsOfWord(e: seq<bool>)
    requires |e| <= 31
    ensures Bits(WordOf(e), |e|) == e
    ensures Halves(WordOf(e), |e|) == 0
  {
    hide Push, Half, Odd;
    if e != [] {
      BitsOfWord(e[1..]);
      WordIsSmall(WordOf(e[1..]), |e| - 1);
      PushHalf(WordOf(e[1..]), e[0]);
    }
  }

  lemma WordIsSmall(w: bv32, n: nat)
    requires n <= 31 && Halves(w, n) == 0
    ensures w < 0x8000_0000
  {
    hide Halves;
    if w >= 0x8000_0000 {
      TopBitLasts(w, n);
    }
  }

  function Falses(n: nat): (r: seq<bool>)
    ensures |r| == n && forall i :: 0 <= i < n ==> !r[i]
  {
    if n == 0 then [] else [false] + Falses(n - 1)
  }

  function Folds(w: bv32, k: nat): bv32
    decreases k
  {
    if k == 0 then w else Folds(FourReductions(w), k - 1)
  }

  lemma {:induction false} FalsesFold(w: bv32, k: nat)
    ensures Divide(w, Falses(4 * k)) == Folds(w, k)
    decreases k
  {
    hide FourReductions, ShiftBit;
    if k > 0 {
      assert Falses(4 * k) == [false, false, false, false] + Falses(4 * (k - 1));
      DivideConcat(w, [false, false, false, false], Falses(4 * (k - 1)));
      NoBitsReduce(w);
      FalsesFold(FourReductions(w), k - 1);
    }
  }

  /** Dividing a short string is reducing its word. */
  lemma DivideIsFold(e: seq<bool>, k: nat)
    requires |e| == 4 * k <= 31
    ensures Divide(0, e) == Folds(WordOf(e), k)
  {
    hide Xor, Divide, Folds, WordOf, Halves, Bits;
    var w := WordOf(e);
    BitsOfWord(e);
    OwnBits(w, |e|);
    DivideLinear(0, e, w, e);
    XorSelf(w);
    XorSelf(Divide(0, e));
    assert XorBits(e, e) == Falses(4 * k);
    FalsesFold(w, k);
  }

  // ---------- the three ways damage can straddle the boundary ----------

  /** FourReductions as one bit-vector expression. */
  function Shift1(x: bv32): bv32
  {
    if x & 1 == 1 then (x >> 1) ^ 0xEDB8_8320 else x >> 1
  }

  function Shift4(x: bv32): bv32
  {
    Shift1(Shift1(Shift1(Shift1(x))))
  }

  lemma ReduceIsShift1(x: bv32)
    ensures Reduce(x) == Shift1(x)
  {
  }

  lemma FourAreShift4(x: bv32)
    ensures FourReductions(x) == Shift4(x)
  {
    hide Reduce, Shift1;
    ReduceIsShift1(x);
    ReduceIsShift1(Shift1(x));
    ReduceIsShift1(Shift1(Shift1(x)));
    ReduceIsShift1(Shift1(Shift1(Shift1(x))));
  }

  lemma FoldsAreShifts(x: bv32)
    ensures Folds(x, 2) == Shift4(Shift4(x))
    ensures Folds(x, 4) == Shift4(Shift4(Shift4(Shift4(x))))
    ensures Folds(x, 6) == Shift4(Shift4(Shift4(Shift4(Shift4(Shift4(x))))))
  {
    hide FourReductions, Shift4;
    var a, b, c := Shift4(x), Shift4(Shift4(x)), Shift4(Shift4(Shift4(x)));
    var d, e := Shift4(c), Shift4(Shift4(c));
    FourAreShift4(x);
    FourAreShift4(a);
    FourAreShift4(b);
    FourAreShift4(c);
    FourAreShift4(d);
    FourAreShift4(e);
    assert Folds(b, 0) == b && Folds(a, 1) == b;
    assert Folds(d, 0) == d && Folds(c, 1) == d && Folds(b, 2) == d && Folds(a, 3) == d;
    assert Folds(Shift4(e), 0) == Shift4(e) && Folds(e, 1) == Shift4(e) && Folds(d, 2) == Shift4(e);
    assert Folds(c, 3) == Shift4(e) && Folds(b, 4) == Shift4(e) && Folds(a, 5) == Shift4(e);
  }

  /** Damage to one octet of data shows in the last octet of the checksum. */
  lemma OneOctet(x: bv32)
    requires x <= 0xFF && Shift4(Shift4(x)) & 0xFF == 0
    ensures x == 0
  {
  }

  /** Damage to two octets of data shows in the last two of the checksum, but for one. */
  lemma TwoOctets(x: bv32)
    requires x <= 0xFFFF && Shift4(Shift4(Shift4(Shift4(x)))) & 0xFFFF == 0
    ensures x == 0 || x == 0xD861
  {
  }

  lemma TheException()
    ensures Shift4(Shift4(Shift4(Shift4(0xD861)))) == 0xF4EE_0000
  {
  }

  /** A reduction undone. */
  function Undo1(x: bv32): bv32
  {
    if x >= 0x8000_0000 then ((x ^ 0xEDB8_8320) << 1) | 1 else x << 1
  }

  function Undo4(x: bv32): bv32
  {
    Undo1(Undo1(Undo1(Undo1(x))))
  }

  lemma Undone1(x: bv32)
    ensures Undo1(Shift1(x)) == x
  {
  }

  lemma Undone4(x: bv32)
    ensures Undo4(Shift4(x)) == x
  {
    hide Shift1, Undo1;
    Undone1(x);
    Undone1(Shift1(x));
    Undone1(Shift1(Shift1(x)));
    Undone1(Shift1(Shift1(Shift1(x))));
  }

  lemma OnlyHighOctet(y: bv32)
    requires y & 0xFF_FFFF == 0 && Undo4(Undo4(Undo4(Undo4(Undo4(Undo4(y)))))) <= 0xFF_FFFF
    ensures y == 0
  {
  }

  lemma ZeroUndone()
    ensures Undo4(Undo4(Undo4(Undo4(Undo4(Undo4(0)))))) == 0
  {
  }

  /** Damage to three octets of data always shows in the last three of the checksum. */
  lemma ThreeOctets(x: bv32)
    requires x <= 0xFF_FFFF && Shift4(Shift4(Shift4(Shift4(Shift4(Shift4(x)))))) & 0xFF_FFFF == 0
    ensures x == 0
  {
    hide Shift4, Undo4;
    var a := Shift4(x);
    var b := Shift4(a);
    var c := Shift4(b);
    var d := Shift4(c);
    var e := Shift4(d);
    var y := Shift4(e);
    Undone4(x);
    Undone4(a);
    Undone4(b);
    Undone4(c);
    Undone4(d);
    Undone4(e);
    OnlyHighOctet(y);
    ZeroUndone();
  }

  // ---------- the data's end ----------

  lemma {:induction false} FalsesKeepEmpty(e: seq<bool>)
    requires forall i :: 0 <= i < |e| ==> !e[i]
    ensures Divide(0, e) == 0
    decreases |e|
  {
    hide ShiftBit;
    if e != [] {
      FirstBits();
      FalsesKeepEmpty(e[1..]);
    }
  }

  lemma OnlyTheTail(e: seq<bool>, n: nat)
    requires n <= |e| && forall i :: 0 <= i < n ==> !e[i]
    ensures Divide(0, e) == Divide(0, e[n..])
  {
    hide Divide;
    assert e == e[..n] + e[n..];
    DivideConcat(0, e[..n], e[n..]);
    FalsesKeepEmpty(e[..n]);
  }

  lemma BitStreamInjective(a: seq<byte>, b: seq<byte>)
    requires |a| == |b| && BitStream(a) == BitStream(b)
    ensures a == b
  {
    hide Widen, BitStream, Bits;
    forall i | 0 <= i < |a|
      ensures a[i] == b[i]
    {
      forall j | 0 <= j < 8
        ensures Bits(Widen(a[i]), 8)[j] == Bits(Widen(b[i]), 8)[j]
      {
        BitStreamAt(a, i, j);
        BitStreamAt(b, i, j);
      }
      assert Bits(Widen(a[i]), 8) == Bits(Widen(b[i]), 8);
      OctetBitsInjective(a[i], b[i]);
    }
  }

  function Drop4(w: bv32): bv32
  {
    w >> 4
  }

  lemma ShiftsBound(w: bv32)
    ensures Drop4(Drop4(w)) == 0 ==> w <= 0xFF
    ensures Drop4(Drop4(Drop4(Drop4(w)))) == 0 ==> w <= 0xFFFF
    ensures Drop4(Drop4(Drop4(Drop4(Drop4(Drop4(w)))))) == 0 ==> w <= 0xFF_FFFF
  {
  }

  /** Halving in fours. */
  function Nibbles(w: bv32, k: nat): bv32
    decreases k
  {
    if k == 0 then w else Nibbles(Drop4(w), k - 1)
  }

  lemma FourHalvesDrop(w: bv32)
    ensures Halves(w, 4) == Drop4(w)
  {
    hide Halves;
    FourHalves(w);
  }

  lemma {:induction false} HalvesByNibble(w: bv32, k: nat)
    ensures Halves(w, 4 * k) == Nibbles(w, k)
    decreases k
  {
    hide Halves, Drop4;
    if k == 0 {
      NoHalves(w);
    } else {
      HalvesAdd(w, 4, 4 * (k - 1));
      FourHalvesDrop(w);
      HalvesByNibble(Drop4(w), k - 1);
    }
  }

  lemma NoHalves(w: bv32)
    ensures Halves(w, 0) == w
  {
  }

  lemma NibbleBound(w: bv32)
    ensures Nibbles(w, 2) == Drop4(Drop4(w))
    ensures Nibbles(w, 4) == Drop4(Drop4(Drop4(Drop4(w))))
    ensures Nibbles(w, 6) == Drop4(Drop4(Drop4(Drop4(Drop4(Drop4(w))))))
  {
    hide Drop4;
    var b := Drop4(Drop4(w));
    var d := Drop4(Drop4(b));
    TwoNibbles(w, 0);
    TwoNibbles(w, 2);
    TwoNibbles(b, 0);
    TwoNibbles(w, 4);
    TwoNibbles(b, 2);
    TwoNibbles(d, 0);
  }

  lemma TwoNibbles(w: bv32, k: nat)
    ensures Nibbles(w, k + 2) == Nibbles(Drop4(Drop4(w)), k)
    ensures Nibbles(w, 0) == w
  {
    hide Drop4;
  }

  lemma HalvesBound(w: bv32, r: nat)
    requires 1 <= r <= 3 && Halves(w, 8 * r) == 0
    ensures w <= if r == 1 then 0xFF else if r == 2 then 0xFFFF else 0xFF_FFFF
  {
    hide Halves, Nibbles, Drop4;
    HalvesByNibble(w, 2 * r);
    NibbleBound(w);
    ShiftsBound(w);
  }

  /** A short nonzero string of whole octets leaves low bits set, with one exception. */
  lemma ShortStringShows(e: seq<bool>, r: nat)
    requires 1 <= r <= 3 && |e| == 8 * r
    requires var d := Divide(0, e);
      (if r == 1 then d & 0xFF else if r == 2 then d & 0xFFFF else d & 0xFF_FFFF) == 0
    ensures WordOf(e) == 0 || (r == 2 && WordOf(e) == 0xD861)
  {
    hide Divide, Shift4, Folds, WordOf, Halves, Bits;
    var w := WordOf(e);
    DivideIsFold(e, 2 * r);
    BitsOfWord(e);
    HalvesBound(w, r);
    FoldsAreShifts(w);
    if r == 1 {
      OneOctet(w);
    } else if r == 2 {
      TwoOctets(w);
    } else {
      ThreeOctets(w);
    }
  }

  lemma {:induction false} BitsOfZero(n: nat)
    ensures Bits(0, n) == Falses(n)
  {
    if n > 0 {
      assert Half(0) == 0 && !Odd(0);
      BitsOfZero(n - 1);
    }
  }

  // ---------- bits of octets ----------

  lemma {:induction false} BitsOfXor(v: bv32, w: bv32, n: nat)
    ensures Bits(Xor(v, w), n) == XorBits(Bits(v, n), Bits(w, n))
    decreases n
  {
    hide Xor, Half, Odd;
    if n > 0 {
      HalfDistributes(v, w);
      OddOfXor(v, w);
      BitsOfXor(Half(v), Half(w), n - 1);
    }
  }

  lemma {:induction false} HalvesOfXor(v: bv32, w: bv32, n: nat)
    ensures Halves(Xor(v, w), n) == Xor(Halves(v, n), Halves(w, n))
    decreases n
  {
    hide Xor, Half;
    if n > 0 {
      HalfDistributes(v, w);
      HalvesOfXor(Half(v), Half(w), n - 1);
    }
  }

  lemma {:induction false} BitsAdd(w: bv32, m: nat, n: nat)
    ensures Bits(w, m + n) == Bits(w, m) + Bits(Halves(w, m), n)
    decreases m
  {
    hide Half, Odd;
    if m > 0 {
      BitsAdd(Half(w), m - 1, n);
    }
  }

  /** Two octets whose bits differ in the bits of d differ by d. */
  lemma MixedFromBits(a: byte, b: byte, d: byte)
    requires XorBits(Bits(Widen(a), 8), Bits(Widen(b), 8)) == Bits(Widen(d), 8)
    ensures b == Mixed(a, d)
  {
    hide Xor, Widen, LowOctet, Bits, Halves;
    var v, w, x := Widen(a), Widen(b), Widen(d);
    BitsOfXor(v, x, 8);
    HalvesOfXor(v, x, 8);
    WidenedHalvesAway(a);
    WidenedHalvesAway(b);
    WidenedHalvesAway(d);
    XorSelf(0);
    forall j | 0 <= j < 8
      ensures Bits(w, 8)[j] == Bits(Xor(v, x), 8)[j]
    {
      assert Bits(x, 8)[j] == (Bits(v, 8)[j] != Bits(w, 8)[j]);
    }
    assert Bits(w, 8) == Bits(Xor(v, x), 8);
    EqualBits(w, Xor(v, x), 8);
    LowOfWidened(b);
  }

  lemma WidenedHalvesAway(b: byte)
    ensures Halves(Widen(b), 8) == 0
  {
    hide FromBinary, Halves;
    BinaryHalvesAway(b, 8);
  }

  /** And an octet mixed with d differs from it in the bits of d. */
  lemma BitsOfMixed(a: byte, d: byte)
    ensures XorBits(Bits(Widen(a), 8), Bits(Widen(Mixed(a, d)), 8)) == Bits(Widen(d), 8)
  {
    hide Xor, Widen, LowOctet, Bits, Halves;
    WidenedMixed(a, d);
    BitsOfXor(Widen(a), Widen(d), 8);
  }

  lemma MaskOfXor(v: bv32, w: bv32)
    requires v & 0xFF == v && w & 0xFF == w
    ensures Xor(v, w) & 0xFF == Xor(v, w)
  {
  }

  lemma WidenedMixed(a: byte, d: byte)
    ensures Widen(Mixed(a, d)) == Xor(Widen(a), Widen(d))
  {
    hide Xor, Widen, LowOctet;
    WidenedLow(Xor(Widen(a), Widen(d)));
    WidenedIsSmall(a);
    WidenedIsSmall(d);
    MaskOfXor(Widen(a), Widen(d));
  }

  /** Mixing with a nonzero octet changes an octet, mixing with zero does not. */
  lemma MixedChanges(a: byte, d: byte)
    ensures Mixed(a, d) == a <==> d == 0
  {
    hide Xor, Widen, LowOctet;
    WidenedMixed(a, d);
    LowOfWidened(a);
    LowOfWidened(d);
    XorSelf(Widen(a));
    WidenedZero();
    if Mixed(a, d) == a {
      XorAssociates(Widen(a), Widen(a), Widen(d));
      XorSelf(Widen(d));
      LowOfWidened(0);
    }
  }

  lemma MixedWithZero(d: byte)
    ensures Mixed(0, d) == d
  {
    hide Xor, Widen, LowOctet;
    WidenedZero();
    XorSelf(Widen(d));
    LowOfWidened(d);
  }

  lemma WidenedZero()
    ensures Widen(0) == 0
  {
    WidenedConstant(0);
  }

  lemma WidenedConstant(x: bv8)
    ensures Widen(x as int) == x as bv32
  {
    EveryOctetIsNarrow(x);
    OctetAsWord(x, 8);
  }

  lemma FourBits(w: bv32)
    ensures Bits(w, 4) == [Odd(w), Odd(Half(w)), Odd(Half(Half(w))), Odd(Half(Half(Half(w))))]
  {
    hide Half, Odd;
    var a, b, c := Half(w), Half(Half(w)), Half(Half(Half(w)));
    assert Bits(Half(c), 0) == [];
    assert Bits(c, 1) == [Odd(c)];
    assert Bits(b, 2) == [Odd(b), Odd(c)];
    assert Bits(a, 3) == [Odd(a), Odd(b), Odd(c)];
  }

  /** The exception as octets. */
  lemma ExceptionBits()
    ensures Bits(0xD861, 16) == Bits(Widen(0x61), 8) + Bits(Widen(0xD8), 8)
  {
    hide Widen, Halves, Bits;
    WidenedConstant(0x61);
    WidenedConstant(0xD8);
    BitsAdd(0xD861, 8, 8);
    HalvesByNibble(0xD861, 2);
    NibbleBound(0xD861);
    BitsAdd(0xD861, 4, 4);
    FourHalves(0xD861);
    FourBits(0xD861);
    FourBits(0xD86);
    BitsAdd(0x61, 4, 4);
    FourHalves(0x61);
    FourBits(0x61);
    FourBits(0x6);
  }
}
