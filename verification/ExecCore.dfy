/** The cyclic executive's timebase: ticks counted by the interrupt, consumed by the loop
    by difference, with the interrupt landing between any two of the loop's accesses. */
module ExecCore {
  import opened Words

  const MINOR_PER_MAJOR: nat := 25

  type u64 = n: int | 0 <= n < 0x1_0000_0000_0000_0000

  function Wrap64(n: int): u64
  {
    n % TWO_64
  }

  /** Where the loop is inside a wait or a resync; with a raw count goes the number of
      ticks there had been when it was read. */
  datatype Loop =
    | Running
    | Polling
    | Read(raw: u32, at: nat)
    | Advanced(from: nat)
    | ResyncRead(raw: u32, at: nat)
    | ResyncAdvanced

  /** One wait that returned: the ticks it consumed, the major boundaries it passed. */
  datatype Wait = Wait(tickFrom: nat, tickTo: nat, majorFrom: nat, majorTo: nat, due: bool)

  /** The history: ticks so far, how many the loop has consumed, boundaries it has seen,
      waits, cycles lost to overruns, ticks absorbed by resyncs, how many ticks there had
      been at the two loads of the last resync, and the waits since then. */
  datatype Past = Past(
    ticks: nat,
    seen: nat,
    majorsSeen: nat,
    waits: nat,
    lost: nat,
    absorbed: nat,
    resyncedFrom: nat,
    resyncedAt: nat,
    log: seq<Wait>)

  /** The counters the code keeps, the loop's position, and the history. */
  datatype Exec = Exec(
    isrTicks: u32,
    isrMajors: u32,
    isrPosition: byte,
    consumed: u32,
    consumedMajors: u32,
    elapsed: u64,
    slot: u32,
    majorCycles: u64,
    majorDue: bool,
    overrunEvents: u32,
    overrunLost: u32,
    overrunWorst: u32,
    loop: Loop,
    past: Past)

  const NO_PAST: Past := Past(0, 0, 0, 0, 0, 0, 0, 0, [])

  const INITIAL: Exec := Exec(0, 0, 0, 0, 0, 0, 0, 0, false, 0, 0, 0, Running, NO_PAST)

  datatype Step =
    | Tick            // exec_on_minor_tick
    | BeginWait       // exec_wait_for_minor_tick
    | ReadTicks
    | Consume
    | ReadMajors
    | BeginResync     // exec_resync
    | ResyncConsume
    | ResyncMajors

  /** How many major boundaries there are in this many ticks. */
  function BoundariesBy(ticks: nat): nat
  {
    ticks / MINOR_PER_MAJOR
  }

  /** The slot advance() leaves: the sum in 32 bits, then 25 subtracted while possible. */
  function AdvancedSlot(slot: u32, pending: u32): u32
  {
    Wrap(slot + pending) % MINOR_PER_MAJOR
  }

  function Advance(e: Exec, pending: u32): Exec
  {
    e.(slot := AdvancedSlot(e.slot, pending), elapsed := Wrap64(e.elapsed + pending))
  }

  /** The overrun record for a wait that finds `pending` ticks. */
  function Overrun(e: Exec, pending: u32): Exec
  {
    if pending <= 1 then e
    else e.(
      overrunEvents := Wrap(e.overrunEvents + 1),
      overrunLost := Wrap(e.overrunLost + (pending - 1)),
      overrunWorst := if pending - 1 > e.overrunWorst then pending - 1 else e.overrunWorst,
      past := e.past.(lost := e.past.lost + (pending - 1)))
  }

  function ConsumeTicks(e: Exec, raw: u32, at: nat): Exec
  {
    var pending := Wrap((raw as int) - e.consumed);
    var o := Overrun(e, pending);
    Advance(o.(consumed := raw), pending).(loop := Advanced(o.past.seen), past := o.past.(seen := at, waits := o.past.waits + 1))
  }

  function TakeMajors(e: Exec, from: nat): Exec
  {
    var due := e.isrMajors != e.consumedMajors;
    e.(
      consumedMajors := e.isrMajors,
      majorDue := due,
      majorCycles := if due then Wrap64(e.majorCycles + 1) else e.majorCycles,
      loop := Running,
      past := e.past.(
        majorsSeen := BoundariesBy(e.past.ticks),
        log := e.past.log + [Wait(from, e.past.seen, e.past.majorsSeen, BoundariesBy(e.past.ticks), due)]))
  }

  /** A resync's second load: the boundaries so far count as seen. */
  function Resynced(e: Exec): Exec
  {
    e.(
      consumedMajors := e.isrMajors,
      majorDue := false,
      loop := Running,
      past := e.past.(
        majorsSeen := BoundariesBy(e.past.ticks),
        resyncedFrom := e.past.seen,
        resyncedAt := e.past.ticks,
        log := []))
  }

  function Next(e: Exec, step: Step): Exec
  {
    match step
    case Tick =>
      var position: byte := (e.isrPosition + 1) % 0x100;
      e.(
        isrTicks := Wrap(e.isrTicks + 1),
        isrPosition := if position >= MINOR_PER_MAJOR then 0 else position,
        isrMajors := if position >= MINOR_PER_MAJOR then Wrap(e.isrMajors + 1) else e.isrMajors,
        past := e.past.(ticks := e.past.ticks + 1))
    case BeginWait =>
      if e.loop.Running? then e.(loop := Polling, majorDue := false) else e
    case ReadTicks =>
      if e.loop.Polling? && e.isrTicks != e.consumed then e.(loop := Read(e.isrTicks, e.past.ticks)) else e
    case Consume =>
      if e.loop.Read? then ConsumeTicks(e, e.loop.raw, e.loop.at) else e
    case ReadMajors =>
      if e.loop.Advanced? then TakeMajors(e, e.loop.from) else e
    case BeginResync =>
      if e.loop.Running? then e.(loop := ResyncRead(e.isrTicks, e.past.ticks)) else e
    case ResyncConsume =>
      if e.loop.ResyncRead? then
        Advance(e, Wrap((e.loop.raw as int) - e.consumed)).(
          consumed := e.loop.raw, loop := ResyncAdvanced,
          past := e.past.(seen := e.loop.at, absorbed := e.past.absorbed + Wrap((e.loop.raw as int) - e.consumed)))
      else e
    case ResyncMajors =>
      if e.loop.ResyncAdvanced? then Resynced(e) else e
  }

  function Run(e: Exec, steps: seq<Step>): Exec
  {
    if steps == [] then e else Next(Run(e, steps[..|steps| - 1]), steps[|steps| - 1])
  }

  /** The loop has not fallen two years and more behind the interrupt. */
  predicate Prompt(e: Exec)
  {
    e.past.ticks - e.past.seen + MINOR_PER_MAJOR <= TWO_32
  }

  predicate PromptRun(e: Exec, steps: seq<Step>)
  {
    Prompt(Run(e, steps)) && (steps != [] ==> PromptRun(e, steps[..|steps| - 1]))
  }

  // ---------- what the slot costs ----------

  /** The 32-bit sum in advance() is the one place the slot can lose its phase: it keeps
      it exactly when slot and backlog together fit in 32 bits. */
  lemma SlotKeepsPhaseIff(slot: u32, pending: u32)
    requires slot < MINOR_PER_MAJOR
    ensures AdvancedSlot(slot, pending) == (slot + pending) % MINOR_PER_MAJOR <==> slot + pending < TWO_32
  {
    if slot + pending >= TWO_32 {
      var r := slot + pending - TWO_32;
      assert Wrap(slot + pending) == r;
      assert slot + pending == r + 25 * 171798691 + 21;
    }
  }

  // ---------- accounting ----------

  ghost predicate Counts(e: Exec)
  {
    && e.isrTicks == Wrap(e.past.ticks)
    && e.isrPosition == e.past.ticks % MINOR_PER_MAJOR
    && e.isrMajors == Wrap(e.past.ticks / MINOR_PER_MAJOR)
    && e.consumed == Wrap(e.past.seen)
    && e.consumedMajors == Wrap(e.past.majorsSeen)
    && e.past.seen <= e.past.ticks
    && e.past.majorsSeen <= e.past.ticks / MINOR_PER_MAJOR
    && e.elapsed == Wrap64(e.past.seen)
    && e.slot == e.past.seen % MINOR_PER_MAJOR
    && e.past.seen == e.past.waits + e.past.lost + e.past.absorbed
    && e.overrunLost == Wrap(e.past.lost)
    && (e.loop.Read? ==> e.loop.raw == Wrap(e.loop.at) && e.past.seen < e.loop.at <= e.past.ticks)
    && (e.loop.ResyncRead? ==> e.loop.raw == Wrap(e.loop.at) && e.past.seen <= e.loop.at <= e.past.ticks)
    && (e.loop.Advanced? ==> e.loop.from < e.past.seen)
  }

  lemma Backlog(later: nat, earlier: nat)
    requires earlier <= later < earlier + TWO_32
    ensures Wrap((Wrap(later) as int) - Wrap(earlier)) == later - earlier
    ensures Wrap(later) == Wrap(earlier) <==> later == earlier
  {
  }

  lemma Wrap64Add(a: int, b: int)
    ensures Wrap64(Wrap64(a) + b) == Wrap64(a + b)
  {
  }

  lemma SlotAfter(seen: nat, pending: nat)
    requires pending + MINOR_PER_MAJOR <= TWO_32
    ensures AdvancedSlot(seen % MINOR_PER_MAJOR, pending) == (seen + pending) % MINOR_PER_MAJOR
  {
    SlotKeepsPhaseIff(seen % MINOR_PER_MAJOR, pending);
  }

  lemma TickCounts(e: Exec)
    requires Counts(e)
    ensures Counts(Next(e, Tick))
  {
    hide Wrap, Wrap64;
    WrapAdd(e.past.ticks, 1);
    WrapAdd(e.past.ticks / MINOR_PER_MAJOR, 1);
  }

  lemma ConsumeCounts(e: Exec)
    requires Counts(e) && Prompt(e) && e.loop.Read?
    ensures Counts(Next(e, Consume))
  {
    hide Wrap, Wrap64, AdvancedSlot;
    var at := e.loop.at;
    Backlog(at, e.past.seen);
    var pending := at - e.past.seen;
    SlotAfter(e.past.seen, pending);
    Wrap64Add(e.past.seen, pending);
    WrapAdd(e.past.lost, pending - 1);
    WrapAdd(e.past.lost, 0);
  }

  lemma ResyncCounts(e: Exec)
    requires Counts(e) && Prompt(e) && e.loop.ResyncRead?
    ensures Counts(Next(e, ResyncConsume))
  {
    hide Wrap, Wrap64, AdvancedSlot;
    Backlog(e.loop.at, e.past.seen);
    SlotAfter(e.past.seen, e.loop.at - e.past.seen);
    Wrap64Add(e.past.seen, e.loop.at - e.past.seen);
  }

  lemma CountsKept(e: Exec, step: Step)
    requires Counts(e) && Prompt(e)
    ensures Counts(Next(e, step))
  {
    match step
    case Tick => TickCounts(e);
    case Consume =>
      if e.loop.Read? {
        ConsumeCounts(e);
      }
    case ResyncConsume =>
      if e.loop.ResyncRead? {
        ResyncCounts(e);
      }
    case ReadTicks =>
      Backlog(e.past.ticks, e.past.seen);
    case ReadMajors =>
    case BeginWait =>
    case BeginResync =>
    case ResyncMajors =>
  }

  lemma {:induction false} RunCounts(steps: seq<Step>)
    requires PromptRun(INITIAL, steps)
    ensures Counts(Run(INITIAL, steps))
  {
    hide Counts, Next, Prompt;
    if steps == [] {
      InitialCounts();
    } else {
      RunCounts(steps[..|steps| - 1]);
      CountsKept(Run(INITIAL, steps[..|steps| - 1]), steps[|steps| - 1]);
    }
  }

  lemma InitialCounts()
    ensures Counts(INITIAL)
  {
  }

  /** At every point of every run: the slot is elapsed time modulo 25, and every tick
      consumed is a wait that returned, a cycle lost to an overrun, or absorbed by a resync. */
  lemma TimeIsAccountedFor(steps: seq<Step>)
    requires PromptRun(INITIAL, steps)
    ensures var e := Run(INITIAL, steps);
      && e.elapsed == Wrap64(e.past.seen)
      && e.slot == e.past.seen % MINOR_PER_MAJOR
      && e.past.seen == e.past.waits + e.past.lost + e.past.absorbed
      && e.overrunLost == Wrap(e.past.lost)
  {
    hide Run, Wrap, Wrap64;
    RunCounts(steps);
  }

  // ---------- major boundaries ----------

  ghost predicate Recorded(w: Wait)
  {
    && w.tickFrom < w.tickTo
    && w.majorFrom <= w.majorTo
    && w.tickTo / MINOR_PER_MAJOR <= w.majorTo
    && (w.due <==> w.majorFrom < w.majorTo)
  }

  ghost predicate Follows(v: Wait, w: Wait)
  {
    w.tickFrom == v.tickTo && w.majorFrom == v.majorTo && MINOR_PER_MAJOR * v.majorTo <= w.tickTo
  }

  ghost predicate Chained(log: seq<Wait>)
  {
    && (forall k :: 0 <= k < |log| ==> Recorded(log[k]))
    && (forall k :: 0 < k < |log| ==> Follows(log[k - 1], log[k]))
  }

  /** How far the last wait that returned had consumed. */
  function Settled(e: Exec): nat
  {
    if e.loop.Advanced? then e.loop.from else e.past.seen
  }

  ghost predicate Boundaries(e: Exec)
  {
    && Chained(e.past.log)
    && MINOR_PER_MAJOR * e.past.majorsSeen <= e.past.ticks
    && (e.past.log != [] ==> e.past.log[|e.past.log| - 1].majorTo == e.past.majorsSeen)
    && (!e.loop.ResyncAdvanced? ==>
          && (e.past.log != [] ==> e.past.log[|e.past.log| - 1].tickTo == Settled(e))
          && Settled(e) / MINOR_PER_MAJOR <= e.past.majorsSeen)
    && (if e.past.log == [] then e.past.majorsSeen else e.past.log[0].majorFrom) == e.past.resyncedAt / MINOR_PER_MAJOR
    && (!e.loop.ResyncAdvanced? || e.past.log != [] ==> (if e.past.log == [] then Settled(e) else e.past.log[0].tickFrom) == e.past.resyncedFrom)
    && (e.loop.Read? ==> MINOR_PER_MAJOR * e.past.majorsSeen <= e.loop.at)
    && (e.loop.Advanced? ==> MINOR_PER_MAJOR * e.past.majorsSeen <= e.past.seen && e.past.seen - e.loop.from <= TWO_32)
  }

  lemma WaitRecorded(e: Exec)
    requires Counts(e) && Boundaries(e) && Prompt(e) && e.loop.Advanced?
    ensures Boundaries(Next(e, ReadMajors))
  {
    hide Wrap, Wrap64;
    Backlog(e.past.ticks / MINOR_PER_MAJOR, e.past.majorsSeen);
    var w := Wait(e.loop.from, e.past.seen, e.past.majorsSeen, e.past.ticks / MINOR_PER_MAJOR, e.isrMajors != e.consumedMajors);
    assert Recorded(w);
    assert e.past.log != [] ==> Follows(e.past.log[|e.past.log| - 1], w);
  }

  lemma BoundariesKept(e: Exec, step: Step)
    requires Counts(e) && Boundaries(e) && Prompt(e)
    ensures Boundaries(Next(e, step))
  {
    hide Chained;
    match step
    case ReadMajors =>
      if e.loop.Advanced? {
        WaitRecorded(e);
      }
    case Tick =>
    case BeginWait =>
    case ReadTicks =>
    case Consume =>
    case BeginResync =>
    case ResyncConsume =>
    case ResyncMajors =>
      assert Chained([]) by { EmptyChained(); }
  }

  lemma EmptyChained()
    ensures Chained([])
  {
  }

  lemma {:induction false} RunBoundaries(steps: seq<Step>)
    requires PromptRun(INITIAL, steps)
    ensures Boundaries(Run(INITIAL, steps))
  {
    hide Counts, Next, Prompt, Boundaries;
    if steps == [] {
      InitialBoundaries();
    } else {
      RunBoundaries(steps[..|steps| - 1]);
      RunCounts(steps[..|steps| - 1]);
      BoundariesKept(Run(INITIAL, steps[..|steps| - 1]), steps[|steps| - 1]);
    }
  }

  lemma InitialBoundaries()
    ensures Boundaries(INITIAL)
  {
  }

  /** A wait announces boundary b when it returns with the major task set due and b is
      among the boundaries it passed. */
  predicate Announces(w: Wait, b: nat)
  {
    w.due && w.majorFrom < b <= w.majorTo
  }

  lemma {:induction false} MajorsAdvance(log: seq<Wait>, i: nat, j: nat)
    requires Chained(log) && i < j < |log|
    ensures log[i].majorTo <= log[j].majorFrom
    decreases j
  {
    assert Follows(log[j - 1], log[j]) && Recorded(log[j - 1]);
    if i < j - 1 {
      MajorsAdvance(log, i, j - 1);
    }
  }

  lemma NeverTwice(log: seq<Wait>, i: nat, j: nat, b: nat)
    requires Chained(log) && i < |log| && j < |log|
    requires Announces(log[i], b) && Announces(log[j], b)
    ensures i == j
  {
    if i < j {
      MajorsAdvance(log, i, j);
    } else if j < i {
      MajorsAdvance(log, j, i);
    }
  }

  lemma {:induction false} TicksAdvance(log: seq<Wait>, i: nat, j: nat)
    requires Chained(log) && i <= j < |log|
    ensures log[i].tickFrom <= log[j].tickFrom
    decreases j
  {
    if i < j {
      assert Follows(log[j - 1], log[j]) && Recorded(log[j - 1]);
      TicksAdvance(log, i, j - 1);
    }
  }

  /** A boundary whose tick a wait consumed is announced by that wait or the one before it,
      exactly if the first wait did not find it counted already. */
  lemma AnnouncedNearby(log: seq<Wait>, k: nat, b: nat)
    requires Chained(log) && k < |log|
    requires log[k].tickFrom < MINOR_PER_MAJOR * b <= log[k].tickTo
    ensures log[0].majorFrom < b <==> exists i :: 0 <= i < |log| && Announces(log[i], b)
    ensures log[0].majorFrom < b ==> Announces(log[k], b) || (k > 0 && Announces(log[k - 1], b))
  {
    assert Recorded(log[k]);
    if log[0].majorFrom >= b {
      forall i | 0 <= i < |log|
        ensures !Announces(log[i], b)
      {
        if i > 0 {
          assert Recorded(log[0]);
          MajorsAdvance(log, 0, i);
        }
      }
    } else if b <= log[k].majorFrom {
      assert Follows(log[k - 1], log[k]) && Recorded(log[k - 1]);
      if k > 1 {
        assert Follows(log[k - 2], log[k - 1]);
      }
    }
  }

  /** Since the last resync, of a major boundary whose tick a wait has consumed: the caller
      finds the flag set for it, after exactly one wait, the one that consumed its tick or the
      one just before, also across overruns; except, and only then, when its tick landed
      between the two loads of the resync, which counts it as seen while its tick is still to
      be consumed. */
  lemma BoundaryAnnouncedIff(steps: seq<Step>, k: nat, b: nat)
    requires PromptRun(INITIAL, steps)
    requires k < |Run(INITIAL, steps).past.log|
    requires Run(INITIAL, steps).past.log[k].tickFrom < MINOR_PER_MAJOR * b <= Run(INITIAL, steps).past.log[k].tickTo
    ensures var e := Run(INITIAL, steps); var at := MINOR_PER_MAJOR * b;
      && ((exists i :: ToldOf(steps, i, b)) <==> !(e.past.resyncedFrom < at <= e.past.resyncedAt))
      && (!(e.past.resyncedFrom < at <= e.past.resyncedAt) ==> ToldOf(steps, k, b) || (k > 0 && ToldOf(steps, k - 1, b)))
      && forall i, j :: ToldOf(steps, i, b) && ToldOf(steps, j, b) ==> i == j
  {
    hide Run, Returns;
    RunBoundaries(steps);
    ToldIsAnnounced(steps, b);
    var e := Run(INITIAL, steps);
    var log := e.past.log;
    TicksAdvance(log, 0, k);
    AnnouncedNearby(log, k, b);
    assert forall i :: 0 <= i < |log| && Announces(log[i], b) ==> ToldOf(steps, i, b);
    forall i, j | ToldOf(steps, i, b) && ToldOf(steps, j, b)
      ensures i == j
    {
      NeverTwice(log, i, j, b);
    }
  }

  // ---------- what the caller finds at each return ----------

  /** A wait that returned: the ticks it consumed, and the flag as the caller then reads it. */
  datatype Return = Return(from: nat, upto: nat, due: bool)

  function ReturnOf(e: Exec, step: Step): seq<Return>
  {
    if step.ReadMajors? && e.loop.Advanced? then [Return(e.loop.from, e.past.seen, Next(e, step).majorDue)] else []
  }

  /** The waits of a run from the start, in the order they returned. */
  function Returns(steps: seq<Step>): seq<Return>
  {
    if steps == [] then []
    else Returns(steps[..|steps| - 1]) + ReturnOf(Run(INITIAL, steps[..|steps| - 1]), steps[|steps| - 1])
  }

  /** The flags read as due, and the waits that found more than one tick, among returns. */
  function Dues(rs: seq<Return>): nat
  {
    if rs == [] then 0 else Dues(rs[..|rs| - 1]) + (if rs[|rs| - 1].due then 1 else 0)
  }

  function Missed(r: Return): nat
  {
    if r.upto > r.from then r.upto - r.from - 1 else 0
  }

  function Overruns(rs: seq<Return>): nat
  {
    if rs == [] then 0 else Overruns(rs[..|rs| - 1]) + (if Missed(rs[|rs| - 1]) > 0 then 1 else 0)
  }

  function MissedInAll(rs: seq<Return>): nat
  {
    if rs == [] then 0 else MissedInAll(rs[..|rs| - 1]) + Missed(rs[|rs| - 1])
  }

  function Max(a: nat, b: nat): nat
  {
    if a < b then b else a
  }

  function MostMissed(rs: seq<Return>): nat
  {
    if rs == [] then 0 else Max(MostMissed(rs[..|rs| - 1]), Missed(rs[|rs| - 1]))
  }

  lemma OneMoreReturn(rs: seq<Return>, r: Return)
    ensures Dues(rs + [r]) == Dues(rs) + (if r.due then 1 else 0)
    ensures Overruns(rs + [r]) == Overruns(rs) + (if Missed(r) > 0 then 1 else 0)
    ensures MissedInAll(rs + [r]) == MissedInAll(rs) + Missed(r)
    ensures MostMissed(rs + [r]) == Max(MostMissed(rs), Missed(r))
  {
    assert (rs + [r])[..|rs|] == rs;
  }

  /** The waits returned, and the one about to return. */
  function WithPending(e: Exec, rs: seq<Return>): seq<Return>
  {
    if e.loop.Advanced? then rs + [Return(e.loop.from, e.past.seen, false)] else rs
  }

  /** The executive's records as the returns tell them. */
  ghost predicate Recounted(e: Exec, rs: seq<Return>)
  {
    var all := WithPending(e, rs);
    && e.majorCycles == Wrap64(Dues(rs))
    && e.past.waits == |all|
    && e.past.lost == MissedInAll(all)
    && e.overrunEvents == Wrap(Overruns(all))
    && e.overrunWorst == MostMissed(all)
  }

  ghost predicate Same(w: Wait, r: Return)
  {
    r.from == w.tickFrom && r.upto == w.tickTo && r.due == w.due
  }

  /** The waits since the last resync are the last that returned, and the flag stays as the
      last of them left it until the loop waits or resyncs again. */
  ghost predicate Logged(e: Exec, rs: seq<Return>)
  {
    && |e.past.log| <= |rs|
    && (forall k :: 0 <= k < |e.past.log| ==> Same(e.past.log[k], rs[|rs| - |e.past.log| + k]))
    && (e.loop.Running? && e.past.log != [] ==> e.majorDue == rs[|rs| - 1].due)
  }

  lemma ConsumeRecounts(e: Exec, rs: seq<Return>)
    requires Counts(e) && Prompt(e) && e.loop.Read? && Recounted(e, rs)
    ensures Recounted(Next(e, Consume), rs)
  {
    hide Wrap, Wrap64, AdvancedSlot, Dues, Overruns, MissedInAll, MostMissed;
    var r := Return(e.past.seen, e.loop.at, false);
    Backlog(e.loop.at, e.past.seen);
    OneMoreReturn(rs, r);
    WrapAdd(Overruns(rs), 1);
  }

  lemma MajorsRecounts(e: Exec, rs: seq<Return>)
    requires e.loop.Advanced? && Recounted(e, rs) && Logged(e, rs)
    ensures var all := rs + ReturnOf(e, ReadMajors); Recounted(Next(e, ReadMajors), all) && Logged(Next(e, ReadMajors), all)
  {
    hide Wrap, Wrap64, Dues, Overruns, MissedInAll, MostMissed;
    var r := Return(e.loop.from, e.past.seen, Next(e, ReadMajors).majorDue);
    OneMoreReturn(rs, r);
    OneMoreReturn(rs, Return(e.loop.from, e.past.seen, false));
    Wrap64Add(Dues(rs), 1);
    Wrap64Add(Dues(rs), 0);
    var log := Next(e, ReadMajors).past.log;
    assert Same(log[|log| - 1], r);
  }

  lemma StepRecounts(e: Exec, rs: seq<Return>, step: Step)
    requires Counts(e) && Prompt(e) && Recounted(e, rs) && Logged(e, rs)
    ensures var all := rs + ReturnOf(e, step); Recounted(Next(e, step), all) && Logged(Next(e, step), all)
  {
    hide Wrap, Wrap64, AdvancedSlot, Dues, Overruns, MissedInAll, MostMissed;
    assert rs + [] == rs;
    match step
    case Consume =>
      if e.loop.Read? {
        ConsumeRecounts(e, rs);
      }
    case ReadMajors =>
      if e.loop.Advanced? {
        MajorsRecounts(e, rs);
      }
    case Tick =>
    case BeginWait =>
    case ReadTicks =>
    case BeginResync =>
    case ResyncConsume =>
    case ResyncMajors =>
  }

  lemma {:induction false} RunRecounts(steps: seq<Step>)
    requires PromptRun(INITIAL, steps)
    ensures Recounted(Run(INITIAL, steps), Returns(steps)) && Logged(Run(INITIAL, steps), Returns(steps))
  {
    hide Next, Counts, Prompt, Recounted, Logged, ReturnOf;
    if steps == [] {
      NothingReturned();
    } else {
      var early := steps[..|steps| - 1];
      RunRecounts(early);
      RunCounts(early);
      StepRecounts(Run(INITIAL, early), Returns(early), steps[|steps| - 1]);
    }
  }

  lemma NothingReturned()
    ensures Recounted(INITIAL, []) && Logged(INITIAL, [])
  {
    hide *;
    InitialRecounted();
    InitialLogged();
  }

  lemma InitialLogged()
    ensures Logged(INITIAL, [])
  {
  }

  lemma InitialRecounted()
    ensures Recounted(INITIAL, [])
  {
  }

  /** What the records of a run say, told by its returns alone: how many waits returned, how
      many of them said a major cycle is due, how many found more than one tick, how many
      ticks those missed together and how many the worst of them did. */
  lemma RecordsAreTrue(steps: seq<Step>)
    requires PromptRun(INITIAL, steps) && Run(INITIAL, steps).loop.Running?
    ensures var e, rs := Run(INITIAL, steps), Returns(steps);
      && e.past.waits == |rs|
      && e.majorCycles == Wrap64(Dues(rs))
      && e.overrunEvents == Wrap(Overruns(rs))
      && e.overrunLost == Wrap(MissedInAll(rs))
      && e.overrunWorst == MostMissed(rs)
      && (e.past.log != [] ==> rs != [] && (e.majorDue <==> rs[|rs| - 1].due))
  {
    hide Run, Returns, Dues, Overruns, MissedInAll, MostMissed, Wrap, Wrap64;
    RunRecounts(steps);
    RunCounts(steps);
  }

  /** The i-th wait since the last resync has returned with the flag set, having passed
      boundary b. */
  ghost predicate ToldOf(steps: seq<Step>, i: nat, b: nat)
  {
    var log, rs := Run(INITIAL, steps).past.log, Returns(steps);
    i < |log| <= |rs| && rs[|rs| - |log| + i].due && log[i].majorFrom < b <= log[i].majorTo
  }

  lemma ToldIsAnnounced(steps: seq<Step>, b: nat)
    requires PromptRun(INITIAL, steps)
    ensures var log := Run(INITIAL, steps).past.log;
      forall i :: 0 <= i < |log| ==> (ToldOf(steps, i, b) <==> Announces(log[i], b))
  {
    hide Run, Returns, Recounted;
    RunRecounts(steps);
    var log, rs := Run(INITIAL, steps).past.log, Returns(steps);
    forall i | 0 <= i < |log|
      ensures ToldOf(steps, i, b) <==> Announces(log[i], b)
    {
      assert Same(log[i], rs[|rs| - |log| + i]);
    }
  }

  /** A wait returns with the flag set exactly if it passed a boundary not seen before. */
  lemma DueIff(steps: seq<Step>, i: nat)
    requires PromptRun(INITIAL, steps) && i < |Run(INITIAL, steps).past.log|
    ensures var log, rs := Run(INITIAL, steps).past.log, Returns(steps);
      |log| <= |rs| && (rs[|rs| - |log| + i].due <==> exists b :: ToldOf(steps, i, b))
  {
    hide Run, Returns, Recounted;
    RunRecounts(steps);
    RunBoundaries(steps);
    var log, rs := Run(INITIAL, steps).past.log, Returns(steps);
    assert Same(log[i], rs[|rs| - |log| + i]) && Recorded(log[i]);
    if log[i].due {
      assert ToldOf(steps, i, log[i].majorTo);
    }
  }

  const STARTED: Exec := INITIAL.(isrTicks := 24, isrPosition := 24, past := NO_PAST.(ticks := 24))

  lemma OneFirstTick(n: nat)
    requires n + 1 < MINOR_PER_MAJOR
    ensures Next(INITIAL.(isrTicks := n, isrPosition := n, past := NO_PAST.(ticks := n)), Tick)
         == INITIAL.(isrTicks := n + 1, isrPosition := n + 1, past := NO_PAST.(ticks := n + 1))
  {
    WrapSmall(n + 1);
  }

  /** The first ticks of all. */
  lemma {:induction false} FirstTicks(n: nat)
    requires n < MINOR_PER_MAJOR
    ensures Run(INITIAL, Ticks(n)) == INITIAL.(isrTicks := n, isrPosition := n, past := NO_PAST.(ticks := n))
  {
    hide Next, Run;
    if n == 0 {
      RunNone(INITIAL);
    } else {
      FirstTicks(n - 1);
      RunThen(INITIAL, Ticks(n - 1), Tick);
      OneFirstTick(n - 1);
    }
  }

  lemma RunNone(e: Exec)
    ensures Run(e, []) == e
  {
  }

  const LOSING: seq<Step> := [BeginResync, Tick, ResyncConsume, ResyncMajors]
  const MISSING: seq<Step> := [BeginWait, ReadTicks, Consume, ReadMajors]

  lemma RunFour(e: Exec, a: Step, b: Step, c: Step, d: Step)
    ensures Run(e, [a, b, c, d]) == Next(Next(Next(Next(e, a), b), c), d)
  {
    hide Next;
    hide Run;
    RunOne(e, a);
    RunThen(e, [a], b);
    RunThen(e, [a, b], c);
    RunThen(e, [a, b, c], d);
    assert [a] + [b] == [a, b] && [a, b] + [c] == [a, b, c] && [a, b, c] + [d] == [a, b, c, d];
  }

  const TORN: Exec := INITIAL.(
    isrTicks := 25, isrMajors := 1, past := NO_PAST.(ticks := 25), loop := ResyncRead(24, 24))

  const LOST: Exec := INITIAL.(
    isrTicks := 25, isrMajors := 1, consumed := 24, slot := 24, elapsed := 24, consumedMajors := 1,
    past := Past(25, 24, 1, 0, 0, 24, 24, 25, []))

  const MISSED: Exec := LOST.(
    consumed := 25, slot := 0, elapsed := 25, past := Past(25, 25, 1, 1, 0, 24, 24, 25, [Wait(24, 25, 1, 1, false)]))

  lemma TornByTick()
    ensures Next(Next(STARTED, BeginResync), Tick) == TORN
  {
    assert Next(STARTED, BeginResync) == STARTED.(loop := ResyncRead(24, 24));
  }

  const HALF_RESYNCED: Exec := TORN.(
    consumed := 24, slot := 24, elapsed := 24, loop := ResyncAdvanced,
    past := NO_PAST.(ticks := 25, absorbed := 24, seen := 24))

  /** A resync that is not behind by more than 32 bits takes the whole backlog at once. */
  lemma BacklogAbsorbed(e: Exec, n: nat)
    requires e.loop.ResyncRead? && e.loop.raw == e.consumed + n && e.slot + n < MINOR_PER_MAJOR && e.elapsed + n < TWO_32
    ensures Next(e, ResyncConsume) == e.(
      consumed := e.loop.raw, slot := e.slot + n, elapsed := e.elapsed + n, loop := ResyncAdvanced,
      past := e.past.(seen := e.loop.at, absorbed := e.past.absorbed + n))
  {
    hide Wrap, Wrap64, AdvancedSlot;
    WrapSmall(n);
    SlotKeepsPhaseIff(e.slot, n);
    Wrap64Small(e.elapsed + n);
  }

  lemma TornIsLost()
    ensures Next(HALF_RESYNCED, ResyncMajors) == LOST
  {
  }

  lemma LosingResync()
    ensures Run(STARTED, LOSING) == LOST
  {
    hide Run, Next;
    RunFour(STARTED, BeginResync, Tick, ResyncConsume, ResyncMajors);
    TornByTick();
    BacklogAbsorbed(TORN, 24);
    assert Next(TORN, ResyncConsume) == HALF_RESYNCED;
    TornIsLost();
  }

  lemma LostIsRead()
    ensures Next(Next(LOST, BeginWait), ReadTicks) == LOST.(loop := Read(25, 25))
  {
  }

  lemma LostIsMissed()
    ensures Next(Next(LOST.(loop := Read(25, 25)), Consume), ReadMajors) == MISSED
  {
    assert AdvancedSlot(24, 1) == 0;
    assert Next(LOST.(loop := Read(25, 25)), Consume) == LOST.(
      consumed := 25, slot := 0, elapsed := 25, loop := Advanced(24),
      past := Past(25, 25, 1, 1, 0, 24, 24, 25, []));
  }

  lemma MissingWait()
    ensures Run(LOST, MISSING) == MISSED
  {
    hide Run, Next;
    RunFour(LOST, BeginWait, ReadTicks, Consume, ReadMajors);
    LostIsRead();
    LostIsMissed();
  }

  /** It happens: the 25th tick lands between the two loads of a resync. The next wait
      consumes it and reaches slot 0, and the boundary is never announced. */
  lemma ResyncCanLoseABoundary()
    ensures var e := Run(INITIAL, Ticks(24) + LOSING + MISSING);
      && e.past.log == [Wait(24, 25, 1, 1, false)]
      && e.slot == 0 && !e.majorDue && e.majorCycles == 0 && e.isrMajors == 1
      && e.past.resyncedFrom == 24 && e.past.resyncedAt == 25
  {
    hide Run, Next, Ticks;
    FirstTicks(24);
    RunConcat(INITIAL, Ticks(24), LOSING);
    RunConcat(INITIAL, Ticks(24) + LOSING, MISSING);
    LosingResync();
    MissingWait();
  }

  // ---------- the cycles reported as executed ----------

  /** exec_stats_get's difference, in 64 bits. */
  function CyclesReported(e: Exec): u64
  {
    Wrap64(e.elapsed - e.overrunLost)
  }

  lemma CyclesReportedAre(e: Exec)
    requires Counts(e)
    ensures CyclesReported(e) == Wrap64(e.past.waits + e.past.absorbed + e.past.lost - Wrap(e.past.lost))
  {
    hide Wrap, Wrap64;
    Wrap64Add(e.past.seen, -(Wrap(e.past.lost) as int));
  }

  /** They are the cycles executed, one for each wait, exactly if no resync has absorbed a
      tick and the overrun count has not wrapped. */
  lemma CyclesAreWaitsIff(e: Exec)
    requires Counts(e) && e.past.seen < TWO_64
    ensures CyclesReported(e) == e.past.waits <==> e.past.absorbed == 0 && e.past.lost < TWO_32
  {
    hide Counts, CyclesReported;
    CyclesReportedAre(e);
    SeenAddsUp(e);
    assert e.past.lost < TWO_32 <==> e.past.lost == Wrap(e.past.lost);
  }

  lemma SeenAddsUp(e: Exec)
    requires Counts(e)
    ensures e.past.seen == e.past.waits + e.past.lost + e.past.absorbed
  {
  }

  /** So without a single wait, ticks a resync absorbs are reported as cycles executed. */
  lemma AbsorbedTicksAreReported(n: nat)
    requires n < MINOR_PER_MAJOR
    ensures var e := Run(INITIAL, Ticks(n) + [BeginResync] + [ResyncConsume] + [ResyncMajors]);
      CyclesReported(e) == n && e.past.waits == 0
  {
    hide Run, Wrap, Wrap64, AdvancedSlot;
    var t := Run(INITIAL, Ticks(n));
    TicksOnlyTick(INITIAL, n);
    WrapSmall(n);
    RunThen(INITIAL, Ticks(n), BeginResync);
    RunThen(INITIAL, Ticks(n) + [BeginResync], ResyncConsume);
    RunThen(INITIAL, Ticks(n) + [BeginResync] + [ResyncConsume], ResyncMajors);
    BacklogAbsorbed(Next(t, BeginResync), n);
    Wrap64Small(n);
  }

  lemma Wrap64Small(n: u64)
    ensures Wrap64(n) == n
  {
  }

  // ---------- a run in which the slot loses its phase ----------

  const WAIT: seq<Step> := [BeginWait, ReadTicks, Consume, ReadMajors]

  lemma WholeWait(e: Exec)
    requires e.loop.Running? && e.isrTicks != e.consumed
    ensures var r := Run(e, WAIT);
      && r.loop.Running? && r.isrTicks == r.consumed == e.isrTicks
      && r.past.ticks == r.past.seen == e.past.ticks
      && r.slot == AdvancedSlot(e.slot, Wrap((e.isrTicks as int) - e.consumed))
  {
    hide Run, Wrap, Wrap64, AdvancedSlot;
    RunOne(e, BeginWait);
    RunThen(e, [BeginWait], ReadTicks);
    RunThen(e, [BeginWait, ReadTicks], Consume);
    RunThen(e, [BeginWait, ReadTicks, Consume], ReadMajors);
    assert WAIT == [BeginWait, ReadTicks, Consume] + [ReadMajors];
    assert [BeginWait, ReadTicks, Consume] == [BeginWait, ReadTicks] + [Consume];
    assert [BeginWait, ReadTicks] == [BeginWait] + [ReadTicks];
  }

  lemma LostPhase()
    ensures Wrap(24) == 24 && AdvancedSlot(0, 24) == 24
    ensures Wrap(24 + (TWO_32 - 1)) == 23 && Wrap(23 - 24) == TWO_32 - 1 && AdvancedSlot(24, TWO_32 - 1) == 23
    ensures (24 + (TWO_32 - 1)) % MINOR_PER_MAJOR == 19
  {
  }

  /** A wait after 24 ticks, and the next one 2^32 - 1 ticks later: everything is consumed,
      and the slot is 23 where the ticks say 19. */
  lemma SlotLosesPhase()
    ensures var e := Run(INITIAL, Ticks(24) + WAIT + (Ticks(TWO_32 - 1) + WAIT));
      e.past.seen == e.past.ticks && e.past.ticks % MINOR_PER_MAJOR == 19 && e.slot == 23
  {
    hide Run, Ticks, Wrap, AdvancedSlot;
    LostPhase();
    var a := Run(INITIAL, Ticks(24));
    TicksOnlyTick(INITIAL, 24);
    var b := Run(a, WAIT);
    WholeWait(a);
    RunConcat(INITIAL, Ticks(24), WAIT);
    var c := Run(b, Ticks(TWO_32 - 1));
    TicksOnlyTick(b, TWO_32 - 1);
    WholeWait(c);
    RunConcat(b, Ticks(TWO_32 - 1), WAIT);
    RunConcat(INITIAL, Ticks(24) + WAIT, Ticks(TWO_32 - 1) + WAIT);
  }

  // ---------- the executive in place ----------

  function Ticks(n: nat): seq<Step>
  {
    if n == 0 then [] else Ticks(n - 1) + [Tick]
  }

  lemma RunThen(e: Exec, a: seq<Step>, step: Step)
    ensures Run(e, a + [step]) == Next(Run(e, a), step)
  {
    assert (a + [step])[..|a + [step]| - 1] == a;
  }

  lemma RunOne(e: Exec, step: Step)
    ensures Run(e, [step]) == Next(e, step)
  {
    RunThen(e, [], step);
    assert [] + [step] == [step];
  }

  lemma {:induction false} RunConcat(e: Exec, a: seq<Step>, b: seq<Step>)
    ensures Run(e, a + b) == Run(Run(e, a), b)
    decreases |b|
  {
    if b == [] {
      assert a + b == a;
    } else {
      assert (a + b)[..|a + b| - 1] == a + b[..|b| - 1];
      RunConcat(e, a, b[..|b| - 1]);
    }
  }

  lemma {:induction false} TicksOnlyTick(e: Exec, n: nat)
    ensures var f := Run(e, Ticks(n));
      && f.past.ticks == e.past.ticks + n && f.isrTicks == Wrap(e.isrTicks + n)
      && f == e.(past := e.past.(ticks := f.past.ticks), isrTicks := f.isrTicks, isrMajors := f.isrMajors, isrPosition := f.isrPosition)
  {
    hide Wrap;
    WrapSmall(e.isrTicks);
    if n > 0 {
      TicksOnlyTick(e, n - 1);
      RunThen(e, Ticks(n - 1), Tick);
      WrapAdd(e.isrTicks + n - 1, 1);
    }
  }

  function Looks(arrivals: nat -> nat, n: nat): seq<Step>
  {
    if n == 0 then [] else Looks(arrivals, n - 1) + Ticks(arrivals(n - 1)) + [ReadTicks]
  }

  lemma NoLooks(e: Exec, arrivals: nat -> nat)
    ensures Run(e, Looks(arrivals, 0)) == e
  {
  }

  lemma OneMoreLook(e: Exec, arrivals: nat -> nat, n: nat)
    ensures Run(e, Looks(arrivals, n + 1)) == Run(Run(e, Looks(arrivals, n)), Ticks(arrivals(n)) + [ReadTicks])
  {
    hide Run, Ticks;
    RunConcat(e, Looks(arrivals, n), Ticks(arrivals(n)) + [ReadTicks]);
    assert Looks(arrivals, n + 1) == Looks(arrivals, n) + (Ticks(arrivals(n)) + [ReadTicks]);
  }

  /** The steps of a wait that finds a tick at its last look. */
  function WaitSteps(arrivals: nat -> nat, looks: nat, before: nat, after: nat): seq<Step>
  {
    [BeginWait] + Looks(arrivals, looks) + Ticks(before) + [Consume] + Ticks(after) + [ReadMajors]
  }

  lemma NextInPlace(e: Exec)
    ensures e.loop.Read? ==> Next(e, Consume) == ConsumeTicks(e, e.loop.raw, e.loop.at)
    ensures e.loop.Advanced? ==> Next(e, ReadMajors) == TakeMajors(e, e.loop.from)
    ensures e.loop.ResyncAdvanced? ==> Next(e, ResyncMajors) == Resynced(e)
  {
  }

  class Executive {
    var isrTicks: u32
    var isrMajors: u32
    var isrPosition: byte
    var consumed: u32
    var consumedMajors: u32
    var elapsed: u64
    var slot: u32
    var majorCycles: u64
    var majorDue: bool
    var overrunEvents: u32
    var overrunLost: u32
    var overrunWorst: u32

    ghost var loop: Loop
    ghost var past: Past

    ghost function State(): Exec
      reads this
    {
      Exec(isrTicks, isrMajors, isrPosition, consumed, consumedMajors, elapsed, slot, majorCycles, majorDue,
           overrunEvents, overrunLost, overrunWorst, loop, past)
    }

    constructor ()
      ensures State() == INITIAL
    {
      isrTicks, isrMajors, isrPosition := 0, 0, 0;
      consumed, consumedMajors, elapsed, slot, majorCycles, majorDue := 0, 0, 0, 0, 0, false;
      overrunEvents, overrunLost, overrunWorst := 0, 0, 0;
      loop, past := Running, NO_PAST;
    }

    /** exec_on_minor_tick. */
    method OnMinorTick()
      modifies this
      ensures State() == Next(old(State()), Tick)
    {
      hide Wrap;
      isrTicks := Wrap(isrTicks + 1);
      isrPosition := (isrPosition + 1) % 0x100;
      if isrPosition >= MINOR_PER_MAJOR {
        isrPosition := 0;
        isrMajors := Wrap(isrMajors + 1);
      }
      past := past.(ticks := past.ticks + 1);
    }

    method Interrupt(n: nat)
      modifies this
      ensures State() == Run(old(State()), Ticks(n))
      ensures past.ticks == old(past.ticks) + n && isrTicks == Wrap(old(isrTicks) + n)
      ensures loop == old(loop) && consumed == old(consumed) && past.seen == old(past.seen) && majorDue == old(majorDue)
      ensures consumedMajors == old(consumedMajors) && majorCycles == old(majorCycles)
    {
      hide Next, Wrap;
      TicksOnlyTick(State(), n);
      ghost var e := State();
      for i := 0 to n
        invariant State() == Run(e, Ticks(i))
      {
        RunThen(e, Ticks(i), Tick);
        OnMinorTick();
      }
    }

    method AdvanceBy(pending: u32)
      modifies this`slot, this`elapsed
      ensures State() == Advance(old(State()), pending)
    {
      hide Wrap64;
      var s := Wrap(slot + pending);
      ghost var sum := s;
      while s >= MINOR_PER_MAJOR
        invariant 0 <= s < TWO_32
        invariant s % MINOR_PER_MAJOR == sum % MINOR_PER_MAJOR
      {
        s := s - MINOR_PER_MAJOR;
      }
      slot := s;
      elapsed := Wrap64(elapsed + pending);
    }

    // The accesses a wait and a resync make, in order.

    method Start()
      requires loop.Running?
      modifies this`majorDue, this`loop
      ensures State() == Next(old(State()), BeginWait) && loop.Polling? && !majorDue
      ensures isrTicks == old(isrTicks) && consumed == old(consumed) && past.ticks == old(past.ticks) && past.seen == old(past.seen)
    {
      majorDue := false;
      loop := Polling;
    }

    method Look() returns (raw: u32, pending: u32)
      requires loop.Polling?
      modifies this`loop
      ensures State() == Next(old(State()), ReadTicks)
      ensures raw == isrTicks && pending == Wrap((raw as int) - consumed)
      ensures if pending == 0 then loop.Polling? else loop == Read(raw, past.ticks)
    {
      raw := isrTicks;
      pending := Wrap((raw as int) - consumed);
      loop := if pending == 0 then Polling else Read(raw, past.ticks);
    }

    /** More than one tick pending: the missed cycles are dropped and recorded. */
    method RecordOverrun(pending: u32)
      modifies this`overrunEvents, this`overrunLost, this`overrunWorst, this`past
      ensures State() == Overrun(old(State()), pending)
    {
      hide Wrap;
      if pending > 1 {
        var l := pending - 1;
        overrunEvents := Wrap(overrunEvents + 1);
        overrunLost := Wrap(overrunLost + l);
        if l > overrunWorst {
          overrunWorst := l;
        }
        past := past.(lost := past.lost + l);
      }
    }

    method ConsumePending(raw: u32, pending: u32)
      requires loop.Read? && loop.raw == raw && pending == Wrap((raw as int) - consumed) && pending > 0
      modifies this
      ensures State() == Next(old(State()), Consume) && loop.Advanced? && majorDue == old(majorDue)
      ensures consumedMajors == old(consumedMajors) && majorCycles == old(majorCycles)
    {
      hide Wrap, Wrap64, AdvancedSlot, Next, Overrun, Advance;
      NextInPlace(State());
      RecordOverrun(pending);
      consumed := raw;
      AdvanceBy(pending);
      loop, past := Advanced(past.seen), past.(seen := loop.at, waits := past.waits + 1);
    }

    method CheckMajor()
      requires loop.Advanced?
      requires !majorDue
      modifies this
      ensures State() == Next(old(State()), ReadMajors) && loop.Running?
      ensures consumedMajors == isrMajors && (majorDue <==> isrMajors != old(consumedMajors))
      ensures majorCycles == if majorDue then Wrap64(old(majorCycles) + 1) else old(majorCycles)
    {
      hide Wrap64, Next, BoundariesBy;
      NextInPlace(State());
      var majors := isrMajors;
      past := past.(log := past.log + [Wait(loop.from, past.seen, past.majorsSeen, BoundariesBy(past.ticks), majors != consumedMajors)]);
      if majors != consumedMajors {
        consumedMajors := majors;
        majorDue := true;
        majorCycles := Wrap64(majorCycles + 1);
      }
      loop, past := Running, past.(majorsSeen := BoundariesBy(past.ticks));
    }

    /** Ticks landing before a look at the count. */
    method LookAfter(n: nat) returns (raw: u32, pending: u32)
      requires loop.Polling? && isrTicks == Wrap(past.ticks) && consumed == Wrap(past.seen) && past.seen <= past.ticks
      requires past.ticks - past.seen + n < TWO_32
      modifies this
      ensures State() == Run(old(State()), Ticks(n) + [ReadTicks])
      ensures majorDue == old(majorDue) && consumed == old(consumed) && past.seen == old(past.seen)
      ensures consumedMajors == old(consumedMajors) && majorCycles == old(majorCycles)
      ensures past.ticks == old(past.ticks) + n && isrTicks == Wrap(past.ticks)
      ensures raw == isrTicks && pending == Wrap((raw as int) - consumed)
      ensures if pending == 0 then loop.Polling? else loop == Read(raw, past.ticks)
      ensures n > 0 ==> pending > 0
    {
      hide Next, Ticks, Wrap, Run;
      ghost var e := State();
      WrapAdd(past.ticks, n);
      Interrupt(n);
      Backlog(past.ticks, past.seen);
      RunThen(e, Ticks(n), ReadTicks);
      raw, pending := Look();
    }

    /** The polling loop: `arrivals(n)` ticks land before its n-th look at the count. */
    method Poll(arrivals: nat -> nat, ghost soon: nat) returns (raw: u32, pending: u32, ghost looks: nat)
      requires loop.Polling? && isrTicks == Wrap(past.ticks) && consumed == Wrap(past.seen) && past.seen <= past.ticks
      requires arrivals(soon) > 0 && (forall n: nat :: n < soon ==> arrivals(n) == 0)
      requires past.ticks - past.seen + arrivals(soon) < TWO_32
      modifies this
      ensures loop.Read? && loop.raw == raw && pending == Wrap((raw as int) - consumed) && pending > 0
      ensures majorDue == old(majorDue) && looks > 0
      ensures consumedMajors == old(consumedMajors) && majorCycles == old(majorCycles)
      ensures State() == Run(old(State()), Looks(arrivals, looks))
    {
      hide Run, Looks, Ticks, Wrap;
      ghost var e := State();
      NoLooks(e, arrivals);
      raw, pending := 0, 0;
      var n := 0;
      while pending == 0
        invariant majorDue == old(majorDue) && consumed == old(consumed) && past.seen == old(past.seen)
        invariant consumedMajors == old(consumedMajors) && majorCycles == old(majorCycles)
        invariant pending == 0 ==> n <= soon && loop.Polling? && past.ticks == old(past.ticks) && isrTicks == Wrap(past.ticks)
        invariant pending != 0 ==> n > 0 && loop.Read? && loop.raw == raw && pending == Wrap((raw as int) - consumed)
        invariant State() == Run(e, Looks(arrivals, n))
        decreases pending == 0, soon - n
      {
        OneMoreLook(e, arrivals, n);
        raw, pending := LookAfter(arrivals(n));
        n := n + 1;
      }
      looks := n;
    }

    /** exec_wait_for_minor_tick: `before` and `after` ticks land around the consumption
        of what the polling loop found. */
    method WaitForMinorTick(arrivals: nat -> nat, before: nat, after: nat, ghost soon: nat) returns (ghost looks: nat)
      requires loop.Running? && isrTicks == Wrap(past.ticks) && consumed == Wrap(past.seen) && past.seen <= past.ticks
      requires arrivals(soon) > 0 && (forall n: nat :: n < soon ==> arrivals(n) == 0)
      requires past.ticks - past.seen + arrivals(soon) < TWO_32
      modifies this
      ensures loop.Running? && looks > 0
      ensures State() == Run(old(State()), WaitSteps(arrivals, looks, before, after))
      ensures consumedMajors == isrMajors && (majorDue <==> isrMajors != old(consumedMajors))
      ensures majorCycles == if majorDue then Wrap64(old(majorCycles) + 1) else old(majorCycles)
    {
      hide Next, Run, Ticks, Wrap, Looks;
      ghost var e := State();
      RunOne(e, BeginWait);
      Start();
      var raw, pending;
      raw, pending, looks := Poll(arrivals, soon);
      RunConcat(e, [BeginWait], Looks(arrivals, looks));
      ghost var steps := [BeginWait] + Looks(arrivals, looks);
      RunConcat(e, steps, Ticks(before));
      Interrupt(before);
      RunThen(e, steps + Ticks(before), Consume);
      ConsumePending(raw, pending);
      steps := steps + Ticks(before) + [Consume];
      RunConcat(e, steps, Ticks(after));
      Interrupt(after);
      RunThen(e, steps + Ticks(after), ReadMajors);
      CheckMajor();
    }

    method BeginAbsorbing() returns (raw: u32)
      requires loop.Running?
      modifies this`loop
      ensures State() == Next(old(State()), BeginResync) && loop == ResyncRead(raw, past.ticks)
    {
      raw := isrTicks;
      loop := ResyncRead(raw, past.ticks);
    }

    method Absorb(raw: u32)
      requires loop.ResyncRead? && loop.raw == raw
      modifies this
      ensures State() == Next(old(State()), ResyncConsume) && loop.ResyncAdvanced?
    {
      hide Wrap, Advance;
      var pending := Wrap((raw as int) - consumed);
      AdvanceBy(pending);
      consumed := raw;
      loop, past := ResyncAdvanced, past.(seen := loop.at, absorbed := past.absorbed + pending);
    }

    method EndResync()
      requires loop.ResyncAdvanced?
      modifies this`consumedMajors, this`majorDue, this`loop, this`past
      ensures State() == Next(old(State()), ResyncMajors) && loop.Running? && !majorDue && consumedMajors == isrMajors
    {
      hide Next, BoundariesBy;
      NextInPlace(State());
      ghost var e := State();
      consumedMajors := isrMajors;
      majorDue := false;
      loop, past := Running, past.(majorsSeen := BoundariesBy(past.ticks), resyncedFrom := past.seen, resyncedAt := past.ticks, log := []);
    }

    /** exec_resync, with ticks landing between its accesses. */
    method Resync(before: nat, after: nat)
      requires loop.Running?
      modifies this
      ensures loop.Running? && !majorDue && consumedMajors == isrMajors
      ensures State() == Run(old(State()), [BeginResync] + Ticks(before) + [ResyncConsume] + Ticks(after) + [ResyncMajors])
    {
      hide Next, Run, Ticks, Wrap;
      ghost var e := State();
      RunOne(e, BeginResync);
      var raw := BeginAbsorbing();
      ghost var steps := [BeginResync];
      RunConcat(e, steps, Ticks(before));
      Interrupt(before);
      RunThen(e, steps + Ticks(before), ResyncConsume);
      Absorb(raw);
      steps := steps + Ticks(before) + [ResyncConsume];
      RunConcat(e, steps, Ticks(after));
      Interrupt(after);
      RunThen(e, steps + Ticks(after), ResyncMajors);
      EndResync();
    }

    /** exec_stats_get: what it gives as cycles executed also contains the ticks resyncs
        have absorbed, and the lost cycles that the 32-bit overrun count no longer shows. */
    method MinorCycles() returns (n: u64)
      requires Counts(State())
      ensures n == CyclesReported(State())
      ensures n == Wrap64(past.waits + past.absorbed + past.lost - Wrap(past.lost))
    {
      CyclesReportedAre(State());
      n := Wrap64(elapsed - overrunLost);
    }
  }
}
