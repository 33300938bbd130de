/** Structures that end in their own checksum as memory holds it, least significant octet
    first, as stored configuration and calibration do: here the order of the octets agrees
    with the order of the bits, and the boundary between data and checksum is no weak spot. */
module StoredChecksum {
  import opened Words
  import opened Crc
  import opened SealBits

  /** The last four octets are the checksum of the rest, as a structure in memory ends. */
  predicate SealedInMemory(s: seq<byte>)
  {
    |s| >= 4 && s[|s| - 4..] == InMemory(Checksum(s[..|s| - 4]))
  }

  predicate AllOnes(m: bv32, n: nat)
  {
    n == 0 || (Odd(m) && AllOnes(Half(m), n - 1))
  }

  lemma MaskHalves(w: bv32, m: bv32)
    ensures Half(w & m) == Half(w) & Half(m)
    ensures Odd(w & m) <==> Odd(w) && Odd(m)
  {
  }

  /** Masking with n ones keeps the low n bits. */
  lemma {:induction false} MaskedBits(w: bv32, m: bv32, n: nat)
    requires AllOnes(m, n)
    ensures Bits(w & m, n) == Bits(w, n)
    decreases n
  {
    hide Half, Odd;
    MaskHalves(w, m);
    if n > 0 {
      MaskedBits(Half(w), Half(m), n - 1);
    }
  }

  lemma EightOnes()
    ensures AllOnes(0xFF, 8)
  {
    hide AllOnes;
    OnesAfter(0xFF, 8);
    OnesAfter(0x7F, 7);
    OnesAfter(0x3F, 6);
    OnesAfter(0x1F, 5);
    OnesAfter(0xF, 4);
    OnesAfter(0x7, 3);
    OnesAfter(0x3, 2);
    OnesAfter(0x1, 1);
    OnesAfter(0, 0);
  }

  lemma OnesAfter(m: bv32, n: nat)
    ensures n == 0 ==> AllOnes(m, n)
    ensures n > 0 && Odd(m) && AllOnes(Half(m), n - 1) ==> AllOnes(m, n)
  {
  }

  lemma NibbleTwice(w: bv32)
    ensures Drop4(Drop4(w)) == Drop8(w)
  {
  }

  lemma EightHalves(w: bv32)
    ensures Halves(w, 8) == Drop8(w)
  {
    hide Halves, Drop8, Drop4;
    HalvesAdd(w, 4, 4);
    FourHalvesDrop(w);
    FourHalvesDrop(Drop4(w));
    NibbleTwice(w);
  }

  /** The low eight bits of a word are the stream of its low octet, and the rest follow. */
  lemma OctetThenRest(w: bv32, n: nat)
    ensures Bits(w, 8 + n) == BitStream([LowOctet(w)]) + Bits(Drop8(w), n)
  {
    hide LowOctet, Drop8, Widen, AllOnes, Halves, Bits;
    BitsAdd(w, 8, n);
    EightHalves(w);
    WidenedLow(w);
    EightOnes();
    MaskedBits(w, 0xFF, 8);
    OneOctetStream(LowOctet(w));
  }

  lemma OneOctetStream(b: byte)
    ensures BitStream([b]) == Bits(Widen(b), 8)
  {
    hide Widen, Bits;
    assert [b][1..] == [];
    assert BitStream([b][1..]) == [];
  }

  lemma MemoryOfValue(w: bv32)
    ensures InMemory(Value(w)) == [LowOctet(w), LowOctet(Drop8(w)), LowOctet(Drop8(Drop8(w))), LowOctet(Drop8(Drop8(Drop8(w))))]
  {
    hide LowOctet, Drop8;
    Base256Digits(LowOctet(Drop8(Drop8(Drop8(w)))), LowOctet(Drop8(Drop8(w))), LowOctet(Drop8(w)), LowOctet(w));
  }

  lemma Base256Digits(a: byte, b: byte, c: byte, d: byte)
    ensures var v: u32 := 0x100_0000 * (a as int) + 0x1_0000 * (b as int) + 0x100 * (c as int) + d;
      InMemory(v) == [d, c, b, a]
  {
    var v: u32 := 0x100_0000 * (a as int) + 0x1_0000 * (b as int) + 0x100 * (c as int) + d;
    assert v / 0x100 == 0x1_0000 * (a as int) + 0x100 * (b as int) + c;
    assert v / 0x1_0000 == 0x100 * (a as int) + b;
  }

  /** A word stored least significant octet first puts its own bits into the stream. */
  lemma MemoryBits(w: bv32)
    ensures BitStream(InMemory(Value(w))) == Bits(w, 32)
  {
    hide LowOctet, Drop8, BitStream, Bits, InMemory, Value;
    var w1 := Drop8(w);
    var w2 := Drop8(w1);
    var w3 := Drop8(w2);
    MemoryOfValue(w);
    OctetThenRest(w, 24);
    OctetThenRest(w1, 16);
    OctetThenRest(w2, 8);
    OctetThenRest(w3, 0);
    NoBits(Drop8(w3));
    BitStreamConcat([LowOctet(w)], [LowOctet(w1), LowOctet(w2), LowOctet(w3)]);
    BitStreamConcat([LowOctet(w1)], [LowOctet(w2), LowOctet(w3)]);
    BitStreamConcat([LowOctet(w2)], [LowOctet(w3)]);
    assert [LowOctet(w)] + [LowOctet(w1), LowOctet(w2), LowOctet(w3)] == InMemory(Value(w));
    assert [LowOctet(w1)] + [LowOctet(w2), LowOctet(w3)] == [LowOctet(w1), LowOctet(w2), LowOctet(w3)];
    assert [LowOctet(w2)] + [LowOctet(w3)] == [LowOctet(w2), LowOctet(w3)];
    assert BitStream([LowOctet(w3)]) + [] == BitStream([LowOctet(w3)]);
  }

  lemma NoBits(w: bv32)
    ensures Bits(w, 0) == []
  {
  }

  lemma AllHalved(w: bv32)
    ensures Halves(w, 32) == 0
  {
    hide Halves, Drop8;
    HalvesAdd(w, 8, 24);
    EightHalves(w);
    HalvesAdd(Drop8(w), 8, 16);
    EightHalves(Drop8(w));
    HalvesAdd(Drop8(Drop8(w)), 8, 8);
    EightHalves(Drop8(Drop8(w)));
    EightHalves(Drop8(Drop8(Drop8(w))));
    FourDropsEmpty(w);
  }

  lemma Complemented(r: bv32)
    ensures Xor(Xor(r, 0xFFFF_FFFF), 0xFFFF_FFFF) == r && Xor(0, r) == r
  {
  }

  /** What the register is left with after any string sealed this way. */
  const RESIDUE: bv32 := Divide(0xFFFF_FFFF, Falses(32))

  lemma OwnChecksum(r: bv32)
    ensures Divide(r, Bits(Xor(r, 0xFFFF_FFFF), 32)) == RESIDUE
  {
    hide Xor, Divide, Bits, Halves;
    var v := Xor(r, 0xFFFF_FFFF);
    Complemented(r);
    Complemented(RESIDUE);
    OwnBits(v, 32);
    AllHalved(v);
    DivideLinear(v, Bits(v, 32), 0xFFFF_FFFF, Falses(32));
    assert XorBits(Bits(v, 32), Falses(32)) == Bits(v, 32);
  }

  lemma SealedResidue(s: seq<byte>)
    requires SealedInMemory(s)
    ensures Register(INIT, s) == RESIDUE
  {
    hide Xor, Divide, Bits, InMemory, Value, BitStream;
    var data, tail := s[..|s| - 4], s[|s| - 4..];
    assert s == data + tail;
    RegisterConcat(INIT, data, tail);
    var r := Register(INIT, data);
    MemoryBits(Xor(r, 0xFFFF_FFFF));
    OwnChecksum(r);
  }

  /** Stored this way round the checksum protects the whole string, itself and the boundary
      included: no change within four consecutive octets goes unnoticed. */
  lemma InMemoryDamageShows(s: seq<byte>, t: seq<byte>)
    requires SealedInMemory(s) && DamagedWithinFour(s, t)
    ensures !SealedInMemory(t)
  {
    hide Register, Value, Xor, DamagedWithinFour;
    if SealedInMemory(t) {
      SealedResidue(s);
      SealedResidue(t);
      FourOctetDamageDetected(s, t);
    }
  }
}
