/** Assembly of telecommand frames out of the serial byte stream, and the batch
    scan it has to agree with however the stream is cut into reads. */
module FrameAssembler {
  import opened Words
  import Crc
  import Seal

  const MARKER: byte := 0xC5
  const FRAME: nat := 13
  const CHUNK: nat := 64

  /** A whole frame: the start marker, and a checksum over all but the last four octets. */
  predicate FrameOk(w: seq<byte>)
    requires |w| == FRAME
  {
    w[0] == MARKER && Seal.Sealed(w)
  }

  // ---------- the batch scan of a whole stream ----------

  /** The leftmost non-overlapping windows that are whole frames. */
  function Scan(s: seq<byte>): seq<seq<byte>>
  {
    if |s| < FRAME then []
    else if FrameOk(s[..FRAME]) then [s[..FRAME]] + Scan(s[FRAME..])
    else Scan(s[1..])
  }

  /** What is left from the first start marker on. */
  function FromMarker(s: seq<byte>): seq<byte>
  {
    if s == [] || s[0] == MARKER then s else FromMarker(s[1..])
  }

  /** What the scan cannot decide yet. */
  function Leftover(s: seq<byte>): seq<byte>
  {
    if |s| < FRAME then FromMarker(s)
    else if FrameOk(s[..FRAME]) then Leftover(s[FRAME..])
    else Leftover(s[1..])
  }

  /** How many marker-led windows the scan turned down. */
  function Rejected(s: seq<byte>): nat
  {
    if |s| < FRAME then 0
    else if FrameOk(s[..FRAME]) then Rejected(s[FRAME..])
    else (if s[0] == MARKER then 1 else 0) + Rejected(s[1..])
  }

  function Joined(chunks: seq<seq<byte>>): seq<byte>
  {
    if chunks == [] then [] else chunks[0] + Joined(chunks[1..])
  }

  /** What the assembly buffer may hold: nothing, or the start of a frame. */
  predicate MarkerLed(s: seq<byte>)
  {
    |s| < FRAME && (s != [] ==> s[0] == MARKER)
  }

  lemma {:induction false} FromMarkerIsSuffix(s: seq<byte>)
    ensures |FromMarker(s)| <= |s|
    ensures FromMarker(s) == s[|s| - |FromMarker(s)|..]
    ensures FromMarker(s) != [] ==> FromMarker(s)[0] == MARKER
    ensures MARKER !in s[..|s| - |FromMarker(s)|]
  {
    if s != [] && s[0] != MARKER {
      FromMarkerIsSuffix(s[1..]);
      var k := |s[1..]| - |FromMarker(s[1..])|;
      assert s[..k + 1] == [s[0]] + s[1..][..k];
    }
  }

  /** The buffer is always a marker-led suffix of the stream shorter than a frame. */
  lemma {:induction false} LeftoverIsSuffix(s: seq<byte>)
    ensures MarkerLed(Leftover(s))
    ensures |Leftover(s)| <= |s|
    ensures Leftover(s) == s[|s| - |Leftover(s)|..]
  {
    hide FrameOk, FromMarker;
    if |s| < FRAME {
      FromMarkerIsSuffix(s);
    } else if FrameOk(s[..FRAME]) {
      LeftoverIsSuffix(s[FRAME..]);
    } else {
      LeftoverIsSuffix(s[1..]);
    }
  }

  /** Octets before the first marker never matter. */
  lemma {:induction false} MarkerDecides(a: seq<byte>, b: seq<byte>)
    ensures Scan(a + b) == Scan(FromMarker(a) + b)
    ensures Leftover(a + b) == Leftover(FromMarker(a) + b)
    ensures Rejected(a + b) == Rejected(FromMarker(a) + b)
    decreases |a|
  {
    if a != [] && a[0] != MARKER {
      assert (a + b)[1..] == a[1..] + b;
      MarkerDecides(a[1..], b);
    }
  }

  /** The scan can be stopped anywhere and resumed from what it could not decide. */
  lemma {:induction false} ScanResumes(a: seq<byte>, b: seq<byte>)
    ensures Scan(a + b) == Scan(a) + Scan(Leftover(a) + b)
    ensures Leftover(a + b) == Leftover(Leftover(a) + b)
    ensures Rejected(a + b) == Rejected(a) + Rejected(Leftover(a) + b)
    decreases |a|
  {
    hide FrameOk, FromMarker;
    if |a| < FRAME {
      MarkerDecides(a, b);
    } else if FrameOk(a[..FRAME]) {
      assert (a + b)[..FRAME] == a[..FRAME] && (a + b)[FRAME..] == a[FRAME..] + b;
      ScanResumes(a[FRAME..], b);
    } else {
      assert (a + b)[..FRAME] == a[..FRAME] && (a + b)[1..] == a[1..] + b;
      ScanResumes(a[1..], b);
      assert Scan(a) == Scan(a[1..]) && Leftover(a) == Leftover(a[1..]);
    }
  }

  // ---------- which frames the scan loses ----------

  predicate FrameAt(s: seq<byte>, p: nat)
  {
    p + FRAME <= |s| && FrameOk(s[p..p + FRAME])
  }

  /** Where the accepted windows start. */
  function Accepted(s: seq<byte>, from: nat): (r: seq<nat>)
    decreases |s| - from
  {
    if from + FRAME > |s| then []
    else if FrameAt(s, from) then [from] + Accepted(s, from + FRAME)
    else Accepted(s, from + 1)
  }

  lemma {:induction false} ScanTakesAccepted(s: seq<byte>, from: nat)
    requires from <= |s|
    ensures |Scan(s[from..])| == |Accepted(s, from)|
    ensures forall i :: 0 <= i < |Accepted(s, from)| ==>
      && FrameAt(s, Accepted(s, from)[i])
      && Scan(s[from..])[i] == s[Accepted(s, from)[i]..Accepted(s, from)[i] + FRAME]
    decreases |s| - from
  {
    hide FrameOk;
    if from + FRAME <= |s| {
      assert s[from..][..FRAME] == s[from..from + FRAME];
      if FrameAt(s, from) {
        assert s[from..][FRAME..] == s[from + FRAME..];
        ScanTakesAccepted(s, from + FRAME);
      } else {
        assert s[from..][1..] == s[from + 1..];
        ScanTakesAccepted(s, from + 1);
      }
    }
  }

  lemma {:induction false} AcceptedAreApart(s: seq<byte>, from: nat)
    ensures forall i :: 0 <= i < |Accepted(s, from)| ==> from <= Accepted(s, from)[i]
    ensures forall i, j :: 0 <= i < j < |Accepted(s, from)| ==> Accepted(s, from)[i] + FRAME <= Accepted(s, from)[j]
    decreases |s| - from
  {
    if from + FRAME <= |s| {
      AcceptedAreApart(s, if FrameAt(s, from) then from + FRAME else from + 1);
    }
  }

  /** A whole frame in the stream is delivered, or an earlier delivered frame overlaps it. */
  lemma {:induction false} LostOnlyToOverlap(s: seq<byte>, from: nat, p: nat)
    requires from <= p && FrameAt(s, p)
    ensures p in Accepted(s, from) || exists q :: q in Accepted(s, from) && q < p < q + FRAME
    decreases |s| - from
  {
    hide FrameOk;
    var acc := Accepted(s, from);
    if FrameAt(s, from) {
      if from + FRAME <= p {
        LostOnlyToOverlap(s, from + FRAME, p);
        var rest := Accepted(s, from + FRAME);
        assert acc == [from] + rest;
        assert forall q :: q in rest ==> q in acc;
      } else {
        assert acc[0] == from && from in acc;
      }
    } else {
      assert from != p;
      LostOnlyToOverlap(s, from + 1, p);
      assert acc == Accepted(s, from + 1);
    }
  }

  /** Frames sent back to back all arrive, in order, and leave nothing behind. */
  lemma {:induction false} BackToBackFramesArrive(fs: seq<seq<byte>>)
    requires forall f :: f in fs ==> |f| == FRAME && FrameOk(f)
    ensures Scan(Joined(fs)) == fs && Leftover(Joined(fs)) == [] && Rejected(Joined(fs)) == 0
  {
    if fs != [] {
      var s := Joined(fs);
      assert s[..FRAME] == fs[0] && s[FRAME..] == Joined(fs[1..]);
      BackToBackFramesArrive(fs[1..]);
    }
  }

  lemma MarkerLedIsLeftover(s: seq<byte>)
    requires MarkerLed(s)
    ensures Scan(s) == [] && Leftover(s) == s && Rejected(s) == 0
  {
  }

  lemma StrayOctet(b: byte)
    requires b != MARKER
    ensures Scan([b]) == [] && Leftover([b]) == [] && Rejected([b]) == 0
  {
    assert FromMarker([b]) == FromMarker([b][1..]);
  }

  lemma WholeWindow(s: seq<byte>)
    requires |s| == FRAME && s[0] == MARKER
    ensures FrameOk(s) ==> Scan(s) == [s] && Leftover(s) == [] && Rejected(s) == 0
    ensures !FrameOk(s) ==> Scan(s) == [] && Leftover(s) == FromMarker(s[1..]) && Rejected(s) == 1
  {
    hide FrameOk, FromMarker;
    assert s[..FRAME] == s && s[FRAME..] == [];
    assert FromMarker([]) == [] by { FromMarkerIsSuffix([]); }
  }

  /** A frame damaged within four consecutive octets, wherever they are, is no frame any
      more, with one exception: 61 D8 F4 EE across the sequence number and the checksum. */
  lemma DamagedFrameExactly(f: seq<byte>, g: seq<byte>)
    requires |f| == |g| == FRAME && FrameOk(f) && Crc.DamagedWithinFour(f, g)
    ensures FrameOk(g) <==> g == Seal.Slipped(f)
  {
    hide Seal.Sealed, Crc.DamagedWithinFour;
    Seal.UndetectedExactly(f, g);
  }

  /** And every frame has that other frame within four octets of it. */
  lemma SlippedFrameIsFrame(f: seq<byte>)
    requires |f| == FRAME && FrameOk(f)
    ensures FrameOk(Seal.Slipped(f)) && Crc.DamagedWithinFour(f, Seal.Slipped(f))
  {
    hide Seal.Sealed, Crc.DamagedWithinFour;
    Seal.SlippedIsSealed(f);
  }

  // ---------- the incremental assembler ----------

  class Assembler {
    const asm: array<byte>
    var len: nat
    var resyncs: u32
    /** Frames handed to the command sequence, oldest first. */
    var delivered: seq<seq<byte>>

    ghost predicate Valid()
      reads this, asm
    {
      asm.Length == FRAME && len < FRAME && MarkerLed(Buffer())
    }

    ghost function Buffer(): (r: seq<byte>)
      requires len <= asm.Length
      reads this, asm
    {
      asm[..len]
    }

    constructor ()
      ensures Valid() && Buffer() == [] && delivered == [] && resyncs == 0
      ensures fresh(asm)
    {
      asm := new byte[FRAME](i => 0);
      len := 0;
      resyncs := 0;
      delivered := [];
    }

    /** Drops the leading octet and any more up to the next start marker, in place. */
    method Resync()
      requires asm.Length == FRAME && len == FRAME
      modifies this`len, this`resyncs, asm
      ensures len < FRAME
      ensures Buffer() == FromMarker(old(asm[1..]))
      ensures resyncs == Wrap(old(resyncs) + 1)
    {
      hide Wrap;
      var keep := 0;
      resyncs := Wrap(resyncs + 1);
      ghost var was := asm[..];
      assert asm[1..] == was[1..];
      var i := 1;
      while i < len
        invariant 1 <= i <= len == FRAME && keep == 0
        invariant asm[..] == was && resyncs == Wrap(old(resyncs) + 1)
        invariant FromMarker(was[1..]) == FromMarker(was[i..])
      {
        if asm[i] == MARKER {
          keep := len - i;
          for j := 0 to keep
            invariant resyncs == Wrap(old(resyncs) + 1)
            invariant forall m :: 0 <= m < j ==> asm[m] == was[i + m]
            invariant forall m :: j <= m < FRAME ==> asm[m] == was[m]
          {
            asm[j] := asm[i + j];
          }
          assert asm[..keep] == was[i..];
          assert FromMarker(was[i..]) == was[i..];
          break;
        }
        assert was[i..][1..] == was[i + 1..];
        i := i + 1;
      }
      len := keep;
    }

    /** The buffer has filled: a frame is handed on, anything else resynchronised. */
    method Complete()
      requires asm.Length == FRAME && len == FRAME && asm[0] == MARKER
      modifies this`len, this`resyncs, this`delivered, asm
      ensures Valid()
      ensures delivered == old(delivered) + Scan(old(asm[..]))
      ensures Buffer() == Leftover(old(asm[..]))
      ensures resyncs == Wrap(old(resyncs) + Rejected(old(asm[..])))
    {
      hide Crc.Checksum, Scan, Leftover, Rejected, FromMarker;
      ghost var s := asm[..];
      WholeWindow(s);
      assert asm[..FRAME - 4] == s[..FRAME - 4] && asm[1..] == s[1..];
      var stored := Get32(asm[..], FRAME - 4);
      var sum := Crc.Crc32(asm[..FRAME - 4]);
      if stored == sum {
        delivered := delivered + [asm[..]];
        len := 0;
      } else {
        Resync();
        FromMarkerIsSuffix(s[1..]);
      }
    }

    /** One octet of the inner loop of assemble(). */
    method Feed(b: byte)
      requires Valid()
      modifies this`len, this`resyncs, this`delivered, asm
      ensures Valid()
      ensures delivered == old(delivered) + Scan(old(Buffer()) + [b])
      ensures Buffer() == Leftover(old(Buffer()) + [b])
      ensures resyncs == Wrap(old(resyncs) + Rejected(old(Buffer()) + [b]))
    {
      hide FrameOk, Scan, Leftover, Rejected, FromMarker;
      ghost var s := Buffer() + [b];
      if len == 0 && b != MARKER {
        StrayOctet(b);
        assert s == [b];
        return;
      }
      asm[len] := b;
      len := len + 1;
      assert Buffer() == s;
      if len == FRAME {
        assert asm[..] == s;
        Complete();
      } else {
        MarkerLedIsLeftover(s);
      }
    }

    /** One read's worth of octets. */
    method FeedChunk(chunk: seq<byte>)
      requires Valid()
      modifies this`len, this`resyncs, this`delivered, asm
      ensures Valid()
      ensures delivered == old(delivered) + Scan(old(Buffer()) + chunk)
      ensures Buffer() == Leftover(old(Buffer()) + chunk)
      ensures resyncs == Wrap(old(resyncs) + Rejected(old(Buffer()) + chunk))
    {
      hide Scan, Leftover, Rejected, MarkerLed, Wrap;
      ghost var start := Buffer();
      ghost var count := resyncs;
      WrapSmall(count);
      assert start + chunk[..0] == start;
      MarkerLedIsLeftover(start);
      for i := 0 to |chunk|
        invariant Valid()
        invariant delivered == old(delivered) + Scan(start + chunk[..i])
        invariant Buffer() == Leftover(start + chunk[..i])
        invariant resyncs == Wrap(old(resyncs) + Rejected(start + chunk[..i]))
      {
        ScanResumes(start + chunk[..i], [chunk[i]]);
        assert start + chunk[..i] + [chunk[i]] == start + chunk[..i + 1];
        WrapAdd(count + Rejected(start + chunk[..i]), Rejected(Leftover(start + chunk[..i]) + [chunk[i]]));
        Feed(chunk[i]);
      }
      assert chunk[..|chunk|] == chunk;
    }

    /** assemble(): reads follow each other while the chunk comes back full. Whatever the
        cut, the frames delivered are the batch scan of the octets received. */
    method Assemble(chunks: seq<seq<byte>>)
      requires Valid()
      requires chunks != [] && |chunks[|chunks| - 1]| < CHUNK
      requires forall i :: 0 <= i < |chunks| - 1 ==> |chunks[i]| == CHUNK
      modifies this`len, this`resyncs, this`delivered, asm
      ensures Valid()
      ensures delivered == old(delivered) + Scan(old(Buffer()) + Joined(chunks))
      ensures Buffer() == Leftover(old(Buffer()) + Joined(chunks))
      ensures resyncs == Wrap(old(resyncs) + Rejected(old(Buffer()) + Joined(chunks)))
    {
      hide Scan, Leftover, Rejected, MarkerLed, Wrap;
      ghost var start := Buffer();
      ghost var count := resyncs;
      WrapSmall(count);
      assert start + Joined(chunks[..0]) == start;
      MarkerLedIsLeftover(start);
      var k := 0;
      var more := true;
      while more
        invariant 0 <= k <= |chunks| && (more <==> k < |chunks|)
        invariant Valid()
        invariant delivered == old(delivered) + Scan(start + Joined(chunks[..k]))
        invariant Buffer() == Leftover(start + Joined(chunks[..k]))
        invariant resyncs == Wrap(old(resyncs) + Rejected(start + Joined(chunks[..k])))
        decreases |chunks| - k
      {
        var chunk := chunks[k];
        ScanResumes(start + Joined(chunks[..k]), chunk);
        JoinedAppend(chunks[..k], chunk);
        assert chunks[..k] + [chunk] == chunks[..k + 1];
        assert start + Joined(chunks[..k]) + chunk == start + Joined(chunks[..k + 1]);
        WrapAdd(count + Rejected(start + Joined(chunks[..k])), Rejected(Leftover(start + Joined(chunks[..k])) + chunk));
        FeedChunk(chunk);
        more := |chunk| == CHUNK;
        k := k + 1;
      }
      assert chunks[..|chunks|] == chunks;
    }

    /** An idle gap on the link abandons a partly received frame. */
    method Gap()
      requires Valid()
      modifies this`len, this`resyncs
      ensures Valid() && Buffer() == []
      ensures resyncs == if old(Buffer()) == [] then old(resyncs) else Wrap(old(resyncs) + 1)
    {
      if len != 0 {
        len := 0;
        resyncs := Wrap(resyncs + 1);
      }
    }
  }

  lemma {:induction false} JoinedAppend(chunks: seq<seq<byte>>, chunk: seq<byte>)
    ensures Joined(chunks + [chunk]) == Joined(chunks) + chunk
  {
    if chunks == [] {
      assert Joined([chunk]) == chunk + Joined([]);
    } else {
      assert (chunks + [chunk])[1..] == chunks[1..] + [chunk];
      JoinedAppend(chunks[1..], chunk);
    }
  }

}
