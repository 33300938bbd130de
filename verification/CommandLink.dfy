/** The serial command path end to end: octets the interrupt pushes into the ring, read
    in chunks while it goes on pushing, assembled into frames, each frame processed and
    answered. */
module CommandLink {
  import opened Words
  import opened Handoff
  import opened InterruptRing
  import opened FrameAssembler
  import opened CommandSequence

  /** QIRAN_UART_RX_RING_BYTES. */
  const RING_BYTES: nat := 256

  type Stage = n: nat | n < STAGES

  /** What a command meets: the stage in force, the clock, and its handler's answer. */
  datatype Moment = Moment(stage: Stage, now: u32, st: Status)

  ghost predicate Whole(frames: seq<seq<byte>>)
  {
    forall f :: f in frames ==> |f| == FRAME && FrameOk(f)
  }

  lemma {:induction false} ScanIsWhole(s: seq<byte>)
    ensures Whole(Scan(s))
  {
    hide FrameOk;
    if |s| >= FRAME {
      if FrameOk(s[..FRAME]) {
        ScanIsWhole(s[FRAME..]);
      } else {
        ScanIsWhole(s[1..]);
      }
    }
  }

  /** One octet completes at most one frame. */
  lemma OneAtATime(s: seq<byte>)
    requires |s| <= FRAME
    ensures |Scan(s)| <= 1
  {
    hide FrameOk;
    if |s| == FRAME {
      assert |Scan(s[FRAME..])| == |Scan(s[1..])| == 0;
    }
  }

  /** The frames of each stretch of octets between idle gaps. */
  function Scans(stretches: seq<seq<byte>>): seq<seq<byte>>
  {
    if stretches == [] then [] else Scans(stretches[..|stretches| - 1]) + Scan(stretches[|stretches| - 1])
  }

  /** One more frame processed. */
  function Then(before: (seq<Result>, Option<Running>), f: seq<byte>, handler: seq<bool>, m: Moment): (r: (seq<Result>, Option<Running>))
    requires |handler| == COMMANDS && |f| == FRAME
    ensures |r.0| == |before.0| + 1
  {
    var r := ResultOf(f, m.now, before.1, handler, m.stage, m.st);
    (before.0 + [r], if r.verdict.Accepted? then Some(Running(TagOf(f, m.now), Get32(f, 3))) else before.1)
  }

  /** The results frames get one after another, and the command then left running; `at` is
      how many commands came before them. */
  function Answers(frames: seq<seq<byte>>, running: Option<Running>, handler: seq<bool>, world: nat -> Moment, at: nat): (r: (seq<Result>, Option<Running>))
    requires |handler| == COMMANDS && forall f :: f in frames ==> |f| == FRAME
    ensures |r.0| == |frames|
  {
    if frames == [] then ([], running)
    else
      var n := |frames| - 1;
      Then(Answers(frames[..n], running, handler, world, at), frames[n], handler, world(at + n))
  }

  lemma ThenLater(rs: seq<Result>, before: (seq<Result>, Option<Running>), f: seq<byte>, handler: seq<bool>, m: Moment)
    requires |handler| == COMMANDS && |f| == FRAME
    ensures var y := Then(before, f, handler, m);
      Then((rs + before.0, before.1), f, handler, m) == (rs + y.0, y.1)
  {
    hide ResultOf, TagOf, Get32;
    var r := ResultOf(f, m.now, before.1, handler, m.stage, m.st);
    assert rs + before.0 + [r] == rs + (before.0 + [r]);
  }

  lemma AnswersThen(frames: seq<seq<byte>>, f: seq<byte>, running: Option<Running>, handler: seq<bool>, world: nat -> Moment, at: nat)
    requires |handler| == COMMANDS && Whole(frames + [f])
    ensures Whole(frames) && |f| == FRAME
    ensures Answers(frames + [f], running, handler, world, at)
      == Then(Answers(frames, running, handler, world, at), f, handler, world(at + |frames|))
  {
    hide Then, FrameOk;
    var all := frames + [f];
    assert all[..|frames|] == frames && all[|frames|] == f;
    assert f in all && forall g :: g in frames ==> g in all;
  }

  lemma {:induction false} AnswersConcat(a: seq<seq<byte>>, b: seq<seq<byte>>, running: Option<Running>, handler: seq<bool>, world: nat -> Moment, at: nat)
    requires |handler| == COMMANDS && Whole(a) && Whole(b)
    ensures Whole(a + b)
    ensures var x := Answers(a, running, handler, world, at);
      var y := Answers(b, x.1, handler, world, at + |a|);
      Answers(a + b, running, handler, world, at) == (x.0 + y.0, y.1)
    decreases |b|
  {
    hide Then, FrameOk, Answers;
    var x := Answers(a, running, handler, world, at);
    if b == [] {
      NoAnswers(x.1, handler, world, at + |a|);
      assert a + b == a && x.0 + [] == x.0 && x == (x.0, x.1);
    } else {
      var n := |b| - 1;
      var c, f := b[..n], b[n];
      assert b == c + [f] && a + b == (a + c) + [f];
      AnswersThen(c, f, x.1, handler, world, at + |a|);
      AnswersConcat(a, c, running, handler, world, at);
      AnswersThen(a + c, f, running, handler, world, at);
      ThenLater(x.0, Answers(c, x.1, handler, world, at + |a|), f, handler, world(at + |a| + n));
    }
  }

  lemma OneAnswer(f: seq<byte>, running: Option<Running>, handler: seq<bool>, world: nat -> Moment, at: nat)
    requires |handler| == COMMANDS && |f| == FRAME
    ensures Answers([f], running, handler, world, at) == Then(([], running), f, handler, world(at))
  {
    hide Then;
    assert [f][..0] == [];
    assert Answers([f][..0], running, handler, world, at) == ([], running);
  }

  lemma Received(f: seq<byte>, now: u32)
    requires |f| == FRAME
    ensures TagOf(f, now).receiptMs == now
  {
  }

  /** Command i was received as frame i. */
  ghost predicate Paired(frames: seq<seq<byte>>, commands: seq<Tag>)
  {
    |frames| == |commands| && forall i :: 0 <= i < |frames| ==> |frames[i]| == FRAME && commands[i] == TagOf(frames[i], commands[i].receiptMs)
  }

  lemma NoAnswers(running: Option<Running>, handler: seq<bool>, world: nat -> Moment, at: nat)
    requires |handler| == COMMANDS
    ensures Answers([], running, handler, world, at) == ([], running)
  {
  }

  lemma ScansAppend(stretches: seq<seq<byte>>, s: seq<byte>)
    ensures Scans(stretches + [s]) == Scans(stretches) + Scan(s)
  {
    hide Scan;
    assert (stretches + [s])[..|stretches|] == stretches;
  }

  lemma CutAtPrefix(s: seq<byte>, p: seq<byte>)
    requires p <= s
    ensures p + s[|p|..] == s
  {
  }

  lemma NothingScanned()
    ensures Scan([]) == [] && Leftover([]) == []
  {
  }

  function Still(k: nat): Preemption<byte>
  {
    Preemption([], [], [], [])
  }

  lemma TakenWithin<T>(q: Queue<T>)
    requires Inv(q)
    ensures |q.taken| <= |q.accepted|
  {
  }

  lemma WithinRing<T>(q: Queue<T>)
    requires Inv(q)
    ensures |q.taken| <= |q.accepted| <= |q.taken| + |q.slots|
  {
  }

  /** Before each octet is read another one arrives, for as many reads as this is long. */
  ghost predicate KeepsArriving(isr: seq<nat -> Preemption<byte>>)
  {
    forall k, j: nat :: 0 <= k < |isr| ==> isr[k](j).beforeTail != []
  }

  lemma StillIsCalm()
    ensures forall k :: Calm(Still(k))
  {
  }

  /** What is seen of the assembler and the sequence. */
  datatype View = View(delivered: seq<seq<byte>>, buffer: seq<byte>, results: seq<Result>, running: Option<Running>, handler: seq<bool>)

  /** What is seen once the command in hand has been tracked. */
  function AfterTrack(p: View, st: Status, expired: bool): View
    requires InHand(p.running)
  {
    var r := Tracked(p.running, st, expired);
    if r.None? then p else p.(results := p.results + [r.value], running := None)
  }

  /** From p to q some octets were assembled and their frames processed and answered. */
  ghost predicate Advanced(p: View, q: View, octets: seq<byte>, world: nat -> Moment)
  {
    var frames := Scan(p.buffer + octets);
    && |p.handler| == COMMANDS && q.handler == p.handler && Whole(frames)
    && q.delivered == p.delivered + frames && q.buffer == Leftover(p.buffer + octets)
    && var a := Answers(frames, p.running, p.handler, world, |p.delivered|);
       q.results == p.results + a.0 && q.running == a.1
  }

  lemma NotAdvanced(p: View, world: nat -> Moment)
    requires |p.handler| == COMMANDS && MarkerLed(p.buffer)
    ensures Advanced(p, p, [], world)
  {
    hide FrameOk;
    assert p.buffer + [] == p.buffer;
    MarkerLedIsLeftover(p.buffer);
  }

  lemma AdvancedTwice(p: View, q: View, r: View, a: seq<byte>, b: seq<byte>, world: nat -> Moment)
    requires Advanced(p, q, a, world) && Advanced(q, r, b, world)
    ensures Advanced(p, r, a + b, world)
  {
    hide Scan, Leftover, Rejected, FrameOk, Answers;
    assert p.buffer + (a + b) == (p.buffer + a) + b;
    ScanResumes(p.buffer + a, b);
    AnswersConcat(Scan(p.buffer + a), Scan(q.buffer + b), p.running, p.handler, world, |p.delivered|);
  }

  /** The results of a service: first the one, if any, that tracking gives the command in
      hand, as it would have been given at once, or for running out of time; then one for
      every frame. */
  ghost predicate Replied(p: View, q: View, st: Status, expired: bool)
  {
    var ends := p.running.Some? && (st != ErrBusy || expired);
    && p.results <= q.results && p.delivered <= q.delivered
    && |q.results| == |p.results| + (if ends then 1 else 0) + |q.delivered| - |p.delivered|
    && (ends ==>
          var late := q.results[|p.results|];
          && late.tag == p.running.value.tag
          && (late.verdict.TimedOut? <==> st == ErrBusy)
          && (late.verdict.Completed? <==> st == Ok)
          && (st != ErrBusy ==> late == Dispatched(p.running.value.tag, true, st)))
  }

  lemma AdvancedAnswers(p: View, q: View, st: Status, expired: bool, octets: seq<byte>, world: nat -> Moment)
    requires InHand(p.running) && Advanced(AfterTrack(p, st, expired), q, octets, world)
    ensures Replied(p, q, st, expired)
  {
    hide Scan, Leftover, FrameOk, Answers, Tracked, Dispatched;
    if p.running.Some? {
      LateAsAtOnce(p.running.value, st, expired);
    } else {
      NoneTracked(st, expired);
    }
  }

  lemma NoneTracked(st: Status, expired: bool)
    ensures Tracked(None, st, expired) == None
  {
  }

  class Link {
    const ring: Ring<byte>
    const asm: Assembler
    const svc: CommandService
    /** The octets taken in each stretch that an idle gap has ended. */
    ghost var stretches: seq<seq<byte>>

    /** The octets accepted and not yet taken: what `Ring.Free` leaves of the ring's length. */
    ghost function Waiting(): int
      reads ring
    {
      |ring.accepted| - |ring.taken|
    }

    /** The octets taken since the last gap. */
    ghost function Current(): seq<byte>
      requires Joined(stretches) <= ring.taken
      reads this, ring
    {
      ring.taken[|Joined(stretches)|..]
    }

    ghost function Seen(): View
      requires Sound()
      reads asm, asm.asm, svc
    {
      View(asm.delivered, asm.Buffer(), svc.results, svc.running, svc.handler)
    }

    ghost predicate Sound()
      reads asm, asm.asm, svc
    {
      asm.Valid() && svc.Valid() && Whole(asm.delivered) && Paired(asm.delivered, svc.commands)
    }

    /** The frames handed on are the scan of each stretch, and every one is a command. */
    ghost predicate Valid()
      reads this, ring, ring.buf, asm, asm.asm, svc
    {
      && ring.Valid() && ring.loop.Outside? && ring.buf != asm.asm
      && Sound()
      && Joined(stretches) <= ring.taken
      && asm.delivered == Scans(stretches) + Scan(Current())
      && asm.Buffer() == Leftover(Current())
    }

    constructor (storage: array<byte>)
      requires IsPowerOfTwo(storage.Length) && storage.Length < TWO_32
      ensures Valid() && stretches == [] && fresh(ring) && fresh(asm) && fresh(asm.asm) && fresh(svc) && ring.buf == storage
      ensures ring.taken == [] && ring.accepted == [] && svc.results == []
    {
      ring := new Ring<byte>(storage);
      asm := new Assembler();
      svc := new CommandService();
      stretches := [];
    }

    /** The receive interrupt, while the loop is elsewhere: its octets are accepted in order as
        far as there is room. */
    method Arrive(octets: seq<byte>)
      requires Valid()
      modifies ring, ring.buf
      ensures Valid() && ring.taken == old(ring.taken) && ring.buf == old(ring.buf)
      ensures var k := if |octets| <= ring.buf.Length - old(Waiting()) then |octets| else ring.buf.Length - old(Waiting());
        0 <= k && ring.accepted == old(ring.accepted) + octets[..k]
    {
      hide Inv, Handoff.Next, Run, Scan, Leftover, Sound;
      WithinRing(ring.State());
      ring.Interrupt(octets);
    }

    /** One octet of assemble(): a frame it completes is processed at once. */
    method Octet(b: byte, world: nat -> Moment)
      requires Sound()
      modifies asm, asm.asm, svc
      ensures Sound() && Advanced(old(Seen()), Seen(), [b], world)
    {
      hide Scan, Leftover, Rejected, FrameOk, ResultOf, MarkerLed, Wrap, Terminated, Completions, Rejections, Failures, TagOf, CallsOf, Told, InFlight;
      ghost var s := asm.Buffer() + [b];
      ScanIsWhole(s);
      OneAtATime(s);
      var before := |asm.delivered|;
      asm.Feed(b);
      if |asm.delivered| > before {
        var frame := asm.delivered[before];
        var m := world(before);
        Received(frame, m.now);
        OneAnswer(frame, svc.running, svc.handler, world, before);
        assert Scan(s) == [frame];
        svc.Process(frame, m.stage, m.now, m.st);
      }
    }

    /** One read's worth of octets. */
    method Chunk(chunk: seq<byte>, world: nat -> Moment)
      requires Sound()
      modifies asm, asm.asm, svc
      ensures Sound() && Advanced(old(Seen()), Seen(), chunk, world)
    {
      hide Advanced, Sound;
      ghost var p := Seen();
      SoundMeans();
      NotAdvanced(p, world);
      for i := 0 to |chunk|
        invariant Sound() && Advanced(p, Seen(), chunk[..i], world)
      {
        ghost var q := Seen();
        Octet(chunk[i], world);
        AdvancedTwice(p, q, Seen(), chunk[..i], [chunk[i]], world);
        assert chunk[..i] + [chunk[i]] == chunk[..i + 1];
      }
      assert chunk[..|chunk|] == chunk;
    }

    lemma SoundMeans()
      requires Sound()
      ensures asm.Valid() && MarkerLed(asm.Buffer()) && |svc.handler| == COMMANDS && |svc.commands| == |asm.delivered|
    {
    }

    /** track(), as one step of what is seen. */
    method TrackInHand(st: Status, expired: bool)
      requires Valid()
      modifies svc`completed, svc`rejected, svc`failed, svc`running, svc`results, svc`wire, svc`calls
      ensures Valid() && InHand(old(svc.running))
      ensures Seen() == AfterTrack(old(Seen()), st, expired)
    {
      hide Scan, Leftover, FrameOk, MarkerLed, Wrap, Inv, Joined, Terminated, Completions, Rejections, Failures, Tracked, Paired, Whole;
      svc.Track(st, expired);
    }

    /** An idle gap on the link: what was partly received is given up. */
    method Gap()
      requires Valid()
      modifies this`stretches, asm`len, asm`resyncs
      ensures Valid() && asm.delivered == old(asm.delivered) && asm.Buffer() == []
      ensures stretches == old(stretches) + [old(Current())]
    {
      hide Scan, Scans, FrameOk, Inv, Wrap, Joined, Paired, Whole, Leftover, MarkerLed;
      ghost var more := stretches + [Current()];
      JoinedAppend(stretches, Current());
      CutAtPrefix(ring.taken, Joined(stretches));
      ScansAppend(stretches, Current());
      NothingScanned();
      asm.Gap();
      stretches := more;
      assert Joined(more) == ring.taken && Current() == [];
    }

    /** One read of the ring, and what the octets it hands over lead to. */
    method ReadOnce(isr: nat -> Preemption<byte>, world: nat -> Moment) returns (n: nat)
      requires Valid()
      modifies ring, ring.buf, asm, asm.asm, svc
      ensures Valid() && ring.buf == old(ring.buf)
      ensures n <= CHUNK && old(ring.taken) <= ring.taken && |ring.taken| == |old(ring.taken)| + n
      ensures |ring.taken| <= |ring.accepted| && (n < CHUNK ==> Contents(ring.State()) == [])
      ensures (forall k :: Calm(isr(k))) ==> ring.accepted == old(ring.accepted)
      ensures (forall k :: isr(k).beforeTail != []) ==> n == CHUNK
      ensures Advanced(old(Seen()), Seen(), ring.taken[|old(ring.taken)|..], world)
    {
      hide Scan, Scans, Leftover, Rejected, FrameOk, MarkerLed, Answers, Inv, Sound, Joined, Contents, Calm;
      var chunk := ring.Read(CHUNK, isr);
      assert Current() == old(Current()) + chunk;
      ScanResumes(old(Current()), chunk);
      SoundMeans();
      TakenWithin(ring.State());
      Chunk(chunk, world);
      assert ring.taken[|old(ring.taken)|..] == chunk;
      n := |chunk|;
    }

    /** assemble(): the ring is read until it is found empty, while the interrupt goes on
        pushing for as many reads as `isr` is long. The octets taken are those waiting at the
        start and those accepted meanwhile, so the work stays within the size of the ring
        exactly if no more are accepted meanwhile than were free at the start; while an octet
        arrives before each one is taken, every read comes back full and another follows. */
    method Drain(isr: seq<nat -> Preemption<byte>>, world: nat -> Moment)
      requires Valid()
      modifies ring, ring.buf, asm, asm.asm, svc
      ensures Valid() && ring.buf == old(ring.buf)
      ensures old(ring.taken) <= ring.taken && |ring.taken| <= |ring.accepted| && Contents(ring.State()) == []
      ensures Advanced(old(Seen()), Seen(), ring.taken[|old(ring.taken)|..], world)
      ensures |ring.taken| - |old(ring.taken)| == old(Waiting()) + (|ring.accepted| - |old(ring.accepted)|)
      ensures |ring.taken| - |old(ring.taken)| <= ring.buf.Length <==>
        |ring.accepted| - |old(ring.accepted)| <= ring.buf.Length - old(Waiting())
      ensures KeepsArriving(isr) ==> |ring.taken| - |old(ring.taken)| >= CHUNK * |isr|
    {
      hide Sound, Contents, Advanced, Inv, Scan, Scans, Leftover, MarkerLed, FrameOk, Joined, Calm;
      SoundMeans();
      TakenWithin(ring.State());
      StillIsCalm();
      ghost var p, start := Seen(), ring.taken;
      NotAdvanced(p, world);
      assert ring.taken[|start|..] == [];
      var k := 0;
      var n := CHUNK;
      while n == CHUNK
        invariant 0 <= k && n <= CHUNK && Valid() && ring.buf == old(ring.buf)
        invariant start <= ring.taken && |ring.taken| <= |ring.accepted| && (n < CHUNK ==> Contents(ring.State()) == [])
        invariant Advanced(p, Seen(), ring.taken[|start|..], world)
        invariant KeepsArriving(isr) && k <= |isr| ==> n == CHUNK && |ring.taken| - |start| == CHUNK * k
        invariant KeepsArriving(isr) && k > |isr| ==> |ring.taken| - |start| >= CHUNK * |isr|
        decreases if k < |isr| then |isr| - k else 0, |ring.accepted| - |ring.taken|, n
      {
        ghost var q, taken := Seen(), ring.taken;
        n := ReadOnce(if k < |isr| then isr[k] else Still, world);
        AdvancedTwice(p, q, Seen(), taken[|start|..], ring.taken[|taken|..], world);
        assert taken[|start|..] + ring.taken[|taken|..] == ring.taken[|start|..];
        k := k + 1;
      }
      NothingWaits(ring.State());
    }

    /** comm_cmd_service(): the command in hand is tracked, then the stream is assembled. */
    method Service(st: Status, expired: bool, isr: seq<nat -> Preemption<byte>>, world: nat -> Moment)
      requires Valid()
      modifies ring, ring.buf, asm, asm.asm, svc
      ensures Valid() && ring.buf == old(ring.buf)
      ensures old(ring.taken) <= ring.taken && |ring.taken| <= |ring.accepted| && Contents(ring.State()) == []
      ensures InHand(old(svc.running))
      ensures Advanced(AfterTrack(old(Seen()), st, expired), Seen(), ring.taken[|old(ring.taken)|..], world)
      ensures Replied(old(Seen()), Seen(), st, expired)
      ensures |ring.taken| - |old(ring.taken)| == old(Waiting()) + (|ring.accepted| - |old(ring.accepted)|)
      ensures |ring.taken| - |old(ring.taken)| <= ring.buf.Length <==>
        |ring.accepted| - |old(ring.accepted)| <= ring.buf.Length - old(Waiting())
      ensures KeepsArriving(isr) ==> |ring.taken| - |old(ring.taken)| >= CHUNK * |isr|
    {
      hide Sound, Contents, Advanced, Inv, Scan, Scans, Leftover, MarkerLed, FrameOk, Joined, AfterTrack, Calm, KeepsArriving;
      ghost var p := Seen();
      TrackInHand(st, expired);
      Drain(isr, world);
      AdvancedAnswers(p, Seen(), st, expired, ring.taken[|old(ring.taken)|..], world);
    }

    /** What every reachable state of the link promises: the frames handed on are the scan of
        the octets taken, stretch by stretch; each is one command; and there is exactly one
        terminal result, or the one command in hand, for each of them. */
    lemma EveryFrameAnswered()
      requires Valid()
      ensures ring.taken <= ring.accepted && Joined(stretches) + Current() == ring.taken
      ensures asm.delivered == Scans(stretches) + Scan(Current())
      ensures |svc.commands| == |asm.delivered|
      ensures forall i :: 0 <= i < |svc.commands| ==>
        && |asm.delivered[i]| == FRAME && FrameOk(asm.delivered[i])
        && svc.commands[i].id == asm.delivered[i][2] && svc.commands[i].sequence == Get16(asm.delivered[i], 7)
      ensures multiset(svc.commands) == Terminated(svc.results) + InFlight(svc.running)
      ensures |asm.delivered| == Completions(svc.results) + Rejections(svc.results) + Failures(svc.results) + (if svc.running.Some? then 1 else 0)
    {
      hide Scan, Leftover, FrameOk, Wrap, Joined, Get16, Terminated, Completions, Rejections, Failures;
      TerminatedCount(svc.results);
      assert |multiset(svc.commands)| == |svc.commands|;
    }

    /** Without gaps, once the ring has been found empty, the frames answered are those a
        receiver would find that had every accepted octet in one piece; so frames sent back
        to back are all answered, in order. */
    lemma EveryFrameSentIsAnswered(frames: seq<seq<byte>>)
      requires Valid() && stretches == [] && |ring.taken| <= |ring.accepted| && Contents(ring.State()) == []
      requires forall f :: f in frames ==> |f| == FRAME && FrameOk(f)
      ensures asm.delivered == Scan(ring.accepted) && asm.Buffer() == Leftover(ring.accepted)
      ensures ring.accepted == Joined(frames) ==> asm.delivered == frames && asm.Buffer() == []
    {
      hide Scan, Leftover, FrameOk, MarkerLed;
      assert ring.taken == ring.accepted;
      assert Current() == ring.accepted;
      BackToBackFramesArrive(frames);
    }
  }

  /** One octet arrives before each octet read. */
  function OneBefore(k: nat): Preemption<byte>
  {
    Preemption([0], [], [], [])
  }

  lemma StoragePower()
    ensures IsPowerOfTwo(RING_BYTES)
  {
    assert IsPowerOfTwo(16);
    assert IsPowerOfTwo(64);
  }

  /** On the receive ring of 256 octets, five reads during which octets keep arriving take
      more than the ring holds. */
  method MoreThanTheRingHolds(storage: array<byte>, world: nat -> Moment) returns (link: Link)
    requires storage.Length == RING_BYTES
    modifies storage
    ensures fresh(link) && link.Valid() && link.ring.buf.Length == RING_BYTES
    ensures |link.ring.taken| > RING_BYTES
  {
    hide Advanced, Inv, Scan, Scans, Leftover, Joined, Contents, FrameOk, MarkerLed, Paired, Whole, Terminated, Completions, Rejections, Failures;
    StoragePower();
    link := new Link(storage);
    var isr := seq(5, i => OneBefore);
    link.Drain(isr, world);
  }
}
