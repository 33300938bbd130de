/** The power-on memory test, run over a memory whose address lines may lead anywhere
    and whose bits may be stuck. */
module MemoryTest {
  import opened Words

  const BITS: nat := 32

  /** A memory word, least significant bit first. */
  type Word = w: seq<bool> | |w| == BITS witness seq(BITS, k => false)

  datatype BitFault = Sound | StuckAt(value: bool)

  function Binary(n: nat, width: nat): (r: seq<bool>)
    ensures |r| == width
  {
    if width == 0 then [] else [n % 2 == 1] + Binary(n / 2, width - 1)
  }

  /** A 32-bit value as the word that holds it. */
  function Bits(n: u32): Word
  {
    Binary(n, BITS)
  }

  function Complement(w: Word): (r: Word)
    ensures forall k :: 0 <= k < BITS ==> (r[k] <==> !w[k])
  {
    seq(BITS, k requires 0 <= k < BITS => !w[k])
  }

  function Xor(v: Word, w: Word): Word
  {
    seq(BITS, k requires 0 <= k < BITS => v[k] != w[k])
  }

  lemma {:induction false} BinaryInjective(m: nat, n: nat, width: nat)
    requires m < Pow2(width) && n < Pow2(width)
    requires Binary(m, width) == Binary(n, width)
    ensures m == n
  {
    if width > 0 {
      assert Binary(m, width)[0] == Binary(n, width)[0];
      assert Binary(m, width)[1..] == Binary(n, width)[1..];
      BinaryInjective(m / 2, n / 2, width - 1);
    }
  }

  lemma BitsInjective(m: u32, n: u32)
    requires Bits(m) == Bits(n)
    ensures m == n
  {
    hide Binary;
    Pow2Is32();
    BinaryInjective(m, n, BITS);
  }

  // ---------- the memory under test ----------

  class Memory {
    /** Which cell each word offset reaches. */
    const cellOf: seq<nat>
    /** The faults of each cell's bits. */
    const faults: seq<seq<BitFault>>
    const cells: array<Word>

    ghost predicate Valid()
    {
      && |faults| == cells.Length
      && (forall c :: 0 <= c < |faults| ==> |faults[c]| == BITS)
      && (forall i :: 0 <= i < |cellOf| ==> cellOf[i] < cells.Length)
    }

    constructor (cellOf: seq<nat>, faults: seq<seq<BitFault>>, cells: array<Word>)
      requires |faults| == cells.Length && forall c :: 0 <= c < |faults| ==> |faults[c]| == BITS
      requires forall i :: 0 <= i < |cellOf| ==> cellOf[i] < cells.Length
      ensures Valid() && this.cellOf == cellOf && this.faults == faults && this.cells == cells
    {
      this.cellOf := cellOf;
      this.faults := faults;
      this.cells := cells;
    }

    /** What a cell shows of a word put into it. */
    function Forced(c: nat, w: Word): (r: Word)
      requires Valid() && c < cells.Length
      ensures forall k :: 0 <= k < BITS ==> r[k] == if faults[c][k].Sound? then w[k] else faults[c][k].value
    {
      seq(BITS, k requires 0 <= k < BITS => if faults[c][k].Sound? then w[k] else faults[c][k].value)
    }

    function Read(i: nat): Word
      requires Valid() && i < |cellOf|
      reads cells
    {
      Forced(cellOf[i], cells[cellOf[i]])
    }

    method Write(i: nat, w: Word)
      requires Valid() && i < |cellOf|
      modifies cells
      ensures Read(i) == Forced(cellOf[i], w)
      ensures forall j :: 0 <= j < |cellOf| && cellOf[j] != cellOf[i] ==> Read(j) == old(Read(j))
    {
      cells[cellOf[i]] := w;
    }

    /** Nothing wrong within the region: no two offsets share a cell, and no bit that any
        offset reaches is stuck. */
    ghost predicate Healthy(words: nat)
      requires Valid() && words <= |cellOf|
    {
      && (forall i, j :: 0 <= i < j < words ==> cellOf[i] != cellOf[j])
      && (forall i, k :: 0 <= i < words && 0 <= k < BITS ==> faults[cellOf[i]][k].Sound?)
    }

    lemma SoundCellKeeps(i: nat, words: nat, w: Word)
      requires Valid() && i < words <= |cellOf| && Healthy(words)
      ensures Forced(cellOf[i], w) == w
    {
    }

    /** What test_cells writes to offset i in a pass: its own index, then the complement. */
    function Expect(i: nat, pass: nat): Word
      requires i < TWO_32
    {
      if pass == 0 then Bits(i) else Complement(Bits(i))
    }

    /** The bits offset i reaches can show the value a pass expects. */
    ghost predicate Shows(i: nat, pass: nat)
      requires Valid() && i < |cellOf| && i < TWO_32
    {
      forall k :: 0 <= k < BITS ==> faults[cellOf[i]][k].Sound? || faults[cellOf[i]][k].value == Expect(i, pass)[k]
    }

    lemma ReadShows(i: nat, pass: nat)
      requires Valid() && i < |cellOf| && i < TWO_32
      requires Read(i) == Expect(i, pass)
      ensures Shows(i, pass)
    {
      hide Binary;
      var e := Expect(i, pass);
      forall k | 0 <= k < BITS
        ensures faults[cellOf[i]][k].Sound? || faults[cellOf[i]][k].value == e[k]
      {
        assert Read(i)[k] == e[k];
      }
    }

    lemma BothPassesMeanSound(i: nat)
      requires Valid() && i < |cellOf| && i < TWO_32
      requires Shows(i, 0) && Shows(i, 1)
      ensures forall k :: 0 <= k < BITS ==> faults[cellOf[i]][k].Sound?
    {
      hide Binary;
      assert forall k :: 0 <= k < BITS ==> Expect(i, 0)[k] != Expect(i, 1)[k];
    }

    lemma SharedCellShows(i: nat, j: nat, words: nat)
      requires Valid() && i < j < words <= |cellOf| && words <= TWO_32
      requires forall m :: 0 <= m < words ==> Read(m) == Expect(m, 0)
      ensures cellOf[i] != cellOf[j]
    {
      hide Binary;
      if cellOf[i] == cellOf[j] {
        assert Read(i) == Read(j);
        BitsInjective(i, j);
      }
    }

    /** The stuck bits offset i reaches, if any, agree with a word. */
    ghost predicate Agrees(i: nat, w: Word)
      requires Valid() && i < |cellOf|
    {
      forall k :: 0 <= k < BITS ==> faults[cellOf[i]][k].Sound? || faults[cellOf[i]][k].value == w[k]
    }

    lemma AgreesIffShown(i: nat, w: Word)
      requires Valid() && i < |cellOf|
      ensures Agrees(i, w) <==> Forced(cellOf[i], w) == w
    {
      var r := Forced(cellOf[i], w);
      if r == w {
        forall k | 0 <= k < BITS
          ensures faults[cellOf[i]][k].Sound? || faults[cellOf[i]][k].value == w[k]
        {
          assert r[k] == w[k];
        }
      }
    }

    function OneBit(bit: nat): Word
    {
      seq(BITS, k => k == bit)
    }

    /** Agreeing with every walking one leaves no bit stuck. */
    lemma WalkedMeansSound()
      requires Valid() && 0 < |cellOf| && forall bit :: 0 <= bit < BITS ==> Agrees(0, OneBit(bit))
      ensures Healthy(1)
    {
      forall k | 0 <= k < BITS
        ensures faults[cellOf[0]][k].Sound?
      {
        assert Agrees(0, OneBit(k)) && Agrees(0, OneBit((k + 1) % BITS));
        assert OneBit(k)[k] && !OneBit((k + 1) % BITS)[k];
      }
    }

    /** Walking a one through every bit at offset 0: it passes exactly if no bit there is
        stuck. */
    method TestDataLines() returns (st: Status, failOffset: nat)
      requires Valid() && 0 < |cellOf|
      modifies cells
      ensures st == Ok || st == ErrHardware
      ensures st == Ok <==> Healthy(1)
      ensures st == Ok ==> failOffset == 0
      ensures st == ErrHardware ==> failOffset < BITS && !Agrees(0, OneBit(failOffset))
    {
      for bit := 0 to BITS
        invariant forall b :: 0 <= b < bit ==> Agrees(0, OneBit(b))
      {
        var pattern := OneBit(bit);
        Write(0, pattern);
        AgreesIffShown(0, pattern);
        if Read(0) != pattern {
          assert !Healthy(1);
          return ErrHardware, bit;
        }
      }
      WalkedMeansSound();
      return Ok, 0;
    }

    /** The pattern test_address_lines puts at a power-of-two offset, and at offset 0. */
    function AddressPattern(offset: u32): Word
    {
      if offset == 0 then seq(BITS, k => k % 2 == 0) else Xor(seq(BITS, k => k % 2 == 1), Bits(offset))
    }

    /** The offsets the address test uses. */
    ghost predicate Probed(i: nat, words: nat)
    {
      i < words && (i == 0 || exists j: nat :: i == Pow2(j))
    }

    /** The probed offsets reach different cells, and no stuck bit there disagrees with the
        pattern put there. */
    ghost predicate AddressesSound(words: nat)
      requires Valid() && words <= |cellOf| && words <= TWO_32
    {
      && (forall i: nat, j: nat :: Probed(i, words) && Probed(j, words) && i != j ==> cellOf[i] != cellOf[j])
      && (forall i: nat :: Probed(i, words) ==> Agrees(i, AddressPattern(i)))
    }

    lemma LowBits(n: u32)
      ensures Bits(n)[0] == (n % 2 == 1) && Bits(n)[1] == (n / 2 % 2 == 1)
    {
      assert Binary(n, 32) == [n % 2 == 1] + Binary(n / 2, 31);
      assert Binary(n / 2, 31) == [n / 2 % 2 == 1] + Binary(n / 2 / 2, 30);
    }

    lemma PatternsDiffer(i: nat, j: nat, words: nat)
      requires words <= TWO_32 && Probed(i, words) && Probed(j, words) && i < j
      ensures AddressPattern(i) != AddressPattern(j)
    {
      hide Binary, Bits;
      var p, q := AddressPattern(i), AddressPattern(j);
      if i == 0 {
        var m: nat :| j == Pow2(m);
        assert m > 0 ==> j == 2 * Pow2(m - 1);
        var b := if j == 1 then 1 else 0;
        LowBits(j);
        assert p[b] != q[b];
      } else {
        assert p == q ==> Bits(i) == Bits(j) by {
          forall k | 0 <= k < BITS && p == q
            ensures Bits(i)[k] == Bits(j)[k]
          {
            assert p[k] == q[k];
          }
        }
        if p == q {
          BitsInjective(i, j);
        }
      }
    }

    /** The power-of-two offsets below `upTo` hold their patterns. */
    ghost predicate PowersHold(words: nat, upTo: nat)
      requires Valid() && words <= |cellOf| && words <= TWO_32
      reads cells
    {
      forall i :: 0 < i < upTo && Probed(i, words) ==> Read(i) == AddressPattern(i)
    }

    lemma SoundAgrees(words: nat, i: nat)
      requires Valid() && words <= |cellOf| && words <= TWO_32 && AddressesSound(words) && Probed(i, words)
      ensures Forced(cellOf[i], AddressPattern(i)) == AddressPattern(i)
    {
      hide Binary;
      AgreesIffShown(i, AddressPattern(i));
    }

    /** No power of two stands strictly between one and the next. */
    lemma NextPower(k: nat, i: nat, words: nat)
      requires Probed(i, words) && Pow2(k) < i
      ensures 2 * Pow2(k) <= i
    {
      var j: nat :| i == Pow2(j);
      if j <= k {
        Pow2Grows(j, k);
      }
      Pow2Grows(k + 1, j);
    }

    lemma HealthyAddresses(words: nat)
      requires Valid() && words <= |cellOf| && words <= TWO_32 && Healthy(words)
      ensures AddressesSound(words)
    {
      hide Binary;
    }

    /** Reading every pattern back shows the addresses sound. */
    lemma HeldMeansSound(words: nat)
      requires Valid() && 0 < words <= |cellOf| && words <= TWO_32
      requires Read(0) == AddressPattern(0) && PowersHold(words, words)
      ensures AddressesSound(words)
    {
      hide Binary, AddressPattern;
      forall i: nat | Probed(i, words)
        ensures Agrees(i, AddressPattern(i))
      {
        forall k | 0 <= k < BITS
          ensures faults[cellOf[i]][k].Sound? || faults[cellOf[i]][k].value == AddressPattern(i)[k]
        {
          assert Read(i)[k] == AddressPattern(i)[k];
        }
      }
      forall i: nat, j: nat | Probed(i, words) && Probed(j, words) && i < j
        ensures cellOf[i] != cellOf[j]
      {
        PatternsDiffer(i, j, words);
      }
    }

    /** test_address_lines: different patterns at offset 0 and the powers of two. It passes
        exactly if no two of those offsets reach one cell and no stuck bit there disagrees
        with its pattern. */
    method TestAddressLines(words: nat) returns (st: Status, failOffset: nat)
      requires Valid() && 0 < words <= |cellOf| && words <= 0x8000_0000
      modifies cells
      ensures st == Ok || st == ErrHardware
      ensures st == Ok <==> AddressesSound(words)
      ensures st == Ok ==> failOffset == 0
      ensures st == ErrHardware ==> Probed(failOffset, words)
    {
      hide Binary, AddressPattern;
      WriteAddresses(words);
      if Read(0) != AddressPattern(0) {
        return ErrHardware, 0;
      }
      var offset := 1;
      ghost var m := 0;
      while offset < words
        invariant offset == Pow2(m)
        invariant PowersHold(words, offset)
        decreases words - offset
      {
        assert Probed(offset, words);
        if Read(offset) != AddressPattern(offset) {
          return ErrHardware, offset;
        }
        forall i | offset < i < 2 * offset
          ensures !Probed(i, words)
        {
          if Probed(i, words) {
            NextPower(m, i, words);
          }
        }
        offset := 2 * offset;
        m := m + 1;
      }
      HeldMeansSound(words);
      return Ok, 0;
    }

    /** The writes of test_address_lines: every pattern, the one at offset 0 last. */
    method WriteAddresses(words: nat)
      requires Valid() && 0 < words <= |cellOf| && words <= 0x8000_0000
      modifies cells
      ensures AddressesSound(words) ==> Read(0) == AddressPattern(0) && PowersHold(words, words)
    {
      hide Binary, AddressPattern;
      var offset := 1;
      ghost var k := 0;
      while offset < words
        invariant offset == Pow2(k)
        invariant AddressesSound(words) ==> PowersHold(words, offset)
        decreases words - offset
      {
        assert Probed(offset, words);
        Write(offset, AddressPattern(offset));
        if AddressesSound(words) {
          SoundAgrees(words, offset);
          forall i | offset < i < 2 * offset
            ensures !Probed(i, words)
          {
            if Probed(i, words) {
              NextPower(k, i, words);
            }
          }
        }
        offset := 2 * offset;
        k := k + 1;
      }
      assert Probed(0, words);
      Write(0, AddressPattern(0));
      if AddressesSound(words) {
        SoundAgrees(words, 0);
      }
    }

    /** Every cell with its own address, then with the complement. */
    method TestCells(words: nat) returns (st: Status, failOffset: nat)
      requires Valid() && words <= |cellOf| && words <= TWO_32
      modifies cells
      ensures st == Ok || st == ErrHardware
      ensures st == Ok <==> Healthy(words)
      ensures st == Ok ==> failOffset == 0 && forall i :: 0 <= i < words ==> Read(i) == Complement(Bits(i))
      ensures st == ErrHardware ==> failOffset < words
    {
      hide Binary;
      for pass := 0 to 2
        invariant pass >= 1 ==> forall i :: 0 <= i < words ==> Shows(i, 0)
        invariant pass >= 1 ==> forall i, j :: 0 <= i < j < words ==> cellOf[i] != cellOf[j]
        invariant pass == 2 ==> forall i :: 0 <= i < words ==> Shows(i, 1) && Read(i) == Expect(i, 1)
      {
        WritePass(words, pass);
        var bad := ReadPass(words, pass);
        if bad < words {
          return ErrHardware, bad;
        }
        forall i | 0 <= i < words
          ensures Shows(i, pass)
        {
          ReadShows(i, pass);
        }
        if pass == 0 {
          forall i, j | 0 <= i < j < words
            ensures cellOf[i] != cellOf[j]
          {
            SharedCellShows(i, j, words);
          }
        }
      }
      forall i, k | 0 <= i < words && 0 <= k < BITS
        ensures faults[cellOf[i]][k].Sound?
      {
        BothPassesMeanSound(i);
      }
      return Ok, 0;
    }

    method WritePass(words: nat, pass: nat)
      requires Valid() && words <= |cellOf| && words <= TWO_32
      modifies cells
      ensures Healthy(words) ==> forall i :: 0 <= i < words ==> Read(i) == Expect(i, pass)
    {
      hide Binary;
      for i := 0 to words
        invariant Healthy(words) ==> forall j :: 0 <= j < i ==> Read(j) == Expect(j, pass)
      {
        Write(i, Expect(i, pass));
        if Healthy(words) {
          SoundCellKeeps(i, words, Expect(i, pass));
        }
      }
    }

    /** The first offset that does not read back, or `words`. */
    method ReadPass(words: nat, pass: nat) returns (bad: nat)
      requires Valid() && words <= |cellOf| && words <= TWO_32
      ensures bad <= words
      ensures bad < words ==> Read(bad) != Expect(bad, pass)
      ensures forall i :: 0 <= i < bad ==> Read(i) == Expect(i, pass)
    {
      hide Binary;
      bad := 0;
      while bad < words
        invariant bad <= words
        invariant forall i :: 0 <= i < bad ==> Read(i) == Expect(i, pass)
      {
        if Read(bad) != Expect(bad, pass) {
          return;
        }
        bad := bad + 1;
      }
    }

    /** plat_post_memory_test: for a region of 2 to 2^31 words it passes exactly when the
        memory is healthy, and leaves every word holding the complement of its offset. */
    method Test(words: nat) returns (st: Status, failOffset: nat)
      requires Valid() && words <= |cellOf| && words <= 0x8000_0000
      modifies cells
      ensures st == ErrParam <==> words < 2
      ensures words >= 2 ==> (st == Ok <==> Healthy(words))
      ensures words >= 2 ==> st == Ok || st == ErrHardware
      ensures st == Ok ==> failOffset == 0 && forall i :: 0 <= i < words ==> Read(i) == Complement(Bits(i))
    {
      if words < 2 {
        return ErrParam, 0;
      }
      if Healthy(words) {
        HealthyAddresses(words);
      }
      st, failOffset := TestDataLines();
      if st != Ok {
        return;
      }
      st, failOffset := TestAddressLines(words);
      if st != Ok {
        return;
      }
      st, failOffset := TestCells(words);
    }
  }
}
