/** The setup and operations sequence: a position in a list of stages, moved by what each
    stage's step reports, with the fault counters as its retry counters. */
module Mission {
  import opened Words
  import opened FaultClass
  import opened FaultService

  const SPAD_ENABLE: nat := 7
  const STAGE_TIMEOUT: nat := 13

  type FaultId = n: nat | n < CLASSES

  type Stage = n: nat | n < STAGES

  /** The fault class of each stage, whose limit is the stage's retry limit. */
  const K_STAGE_FAULT: seq<FaultId> := [4, 14, 19, 21, 22, 23, 24, 26, 25, 25, 36, 36, 37]

  function FaultOf(stage: Stage): FaultId
  {
    K_STAGE_FAULT[stage]
  }

  /** A stage's retries are counted by a class of its own, but for the two verification stages
      and for the two that run the experiment, which share one; each allows three, but for the
      detector stage, whose class escalates at once and allows no limit to reach. What has a
      time budget is that stage and every one that acquires a lock, preconditioning apart. */
  lemma StagesBlame(s: Stage, t: Stage)
    ensures FaultOf(s) == FaultOf(t) <==> s == t || {s, t} == {8, 9} || {s, t} == {10, 11}
    ensures FaultOf(s) in STAGE_LOCKS <==> 1 <= s <= 9 && s != SPAD_ENABLE
    ensures FaultOf(s) == SPAD_OPTICAL_POWER <==> s == SPAD_ENABLE
    ensures PolicyOf(FaultOf(s)).limit == if s == SPAD_ENABLE then 0 else 3
    ensures 3 <= s <= t <= 6 ==> FaultOf(t) - FaultOf(s) == t - s
    ensures FaultOf(s) in BOOT_STEPS <==> s == 0
    ensures FaultOf(s) == DEVINIT <==> s == 0
    ensures FaultOf(s) == PRECOND <==> s == 1
    ensures FaultOf(s) == LASER_TEC <==> s == 2
    ensures FaultOf(s) == MRR_LOCK <==> s == 3
    ensures FaultOf(s) == MRR_RELOCK <==> s in {8, 9}
    ensures FaultOf(s) == DDR_OVERRUN <==> s in {10, 11}
    ensures FaultOf(s) == NAND_WRITE <==> s == STAGES - 1
    ensures Timed(s) <==> (FaultOf(s) in STAGE_LOCKS && s != 1) || s == SPAD_ENABLE
  {
  }

  /** Stages from the laser's bring-up to the second sweep have a time budget. */
  predicate Timed(stage: Stage)
  {
    2 <= stage <= 9
  }

  datatype Result = Working | Done | Retry | Back | Abort

  /** What a stage's step fills in; class 0 stands for the stage's own fault. */
  datatype Outcome = Outcome(result: Result, backTo: nat, fault: FaultId)

  /** One applied outcome: from where, and the stage it entered if it entered one. */
  datatype Turn = Turn(from: Stage, result: Result, entered: bool, into: Stage)

  /** The sequence's own variables and, in `log`, every outcome applied so far. */
  datatype Sequence = Sequence(
    stage: Stage,
    attempts: u32,
    entries: seq<u32>,
    timedOut: bool,
    stalled: bool,
    aborted: bool,
    cause: FaultId,
    reentries: u32,
    operational: bool,
    log: seq<Turn>)

  /** The sequence with the fault service it reports to; `noted` is that service's count of
      re-entries, `retried` how often each class was retried since it was last cleared. */
  datatype World = World(m: Sequence, f: Faults, noted: u32, retried: seq<nat>)

  // ---------- one turn ----------

  /** check_budget: an overrun is reported once per entry. */
  function Late(w: World, overBudget: bool): World
    requires |w.f.table| == CLASSES
  {
    if Timed(w.m.stage) && !w.m.timedOut && overBudget
    then w.(m := w.m.(timedOut := true), f := Reported(w.f, STAGE_TIMEOUT))
    else w
  }

  function Entered(m: Sequence, stage: Stage): Sequence
    requires |m.entries| == STAGES
  {
    m.(stage := stage, timedOut := false, entries := m.entries[stage := Wrap((m.entries[stage] as int) + 1)])
  }

  /** Which way an outcome moves the sequence; `spent` is whether its class has no retry left. */
  function TurnOf(at: Stage, out: Outcome, spent: bool): Turn
  {
    match out.result
    case Working => Turn(at, Working, false, at)
    case Done => if at < STAGES - 1 then Turn(at, Done, true, at + 1) else Turn(at, Done, false, at)
    case Retry => Turn(at, Retry, !spent, at)
    case Back => if out.backTo < at then Turn(at, Back, true, out.backTo) else Turn(at, Back, false, at)
    case Abort => Turn(at, Abort, false, at)
  }

  predicate Returns(t: Turn)
  {
    t.result.Back? && t.entered
  }

  function Taken(m: Sequence, t: Turn): (r: Sequence)
    requires |m.entries| == STAGES
    ensures |r.entries| == STAGES
  {
    (if t.entered then Entered(m, t.into) else m).(
      attempts := if t.result.Done? || Returns(t) then 0 else if t.result.Retry? then Wrap(m.attempts + 1) else m.attempts,
      reentries := if Returns(t) then Wrap(m.reentries + 1) else m.reentries,
      operational := m.operational || (t.result.Done? && t.from == SPAD_ENABLE),
      stalled := m.stalled || ((t.result.Retry? || t.result.Back? || t.result.Abort?) && !t.entered),
      log := m.log + [t])
  }

  function Moved(m: Sequence, out: Outcome, spent: bool): (r: Sequence)
    requires |m.entries| == STAGES
    ensures |r.entries| == STAGES
  {
    Taken(m, TurnOf(m.stage, out, spent))
  }

  /** svc_fdir_reentry_note. */
  function Noted(f: Faults, noted: u32, fault: FaultId, accepted: bool): (r: Faults)
    requires |f.table| == CLASSES
    ensures |r.table| == CLASSES && r.seen == f.seen
  {
    if noted > REENTRY_LIMIT then Delivered(Counted(f, fault), fault, accepted) else f
  }

  function Cause(m: Sequence, out: Outcome): FaultId
  {
    if out.fault != 0 then out.fault else FaultOf(m.stage)
  }

  /** The outcome applied: what it reports or clears, and then how the sequence moves. */
  function Applied(w: World, out: Outcome, landing: seq<nat>, accepted: bool): World
    requires |w.f.table| == CLASSES && |w.m.entries| == STAGES && |w.retried| == CLASSES
  {
    var fault := Cause(w.m, out);
    var reported := Landed(Reported(w.f, fault), landing);
    match out.result
    case Working => w.(m := Moved(w.m, out, false))
    case Done => w.(m := Moved(w.m, out, false), f := Landed(Cleared(w.f, fault), landing), retried := w.retried[fault := 0])
    case Retry =>
      w.(m := Moved(w.m, out, Exhausted(PolicyOf(fault), reported.table[fault])),
         f := reported,
         retried := w.retried[fault := w.retried[fault] + 1])
    case Back =>
      var m := Moved(w.m, out, false);
      if out.backTo >= w.m.stage then w.(m := m, f := reported)
      else
        var noted := Wrap(w.noted + 1);
        w.(m := m, f := Noted(reported, noted, fault, accepted), noted := noted)
    case Abort => w.(m := Moved(w.m, out, false), f := reported)
  }

  /** mission_seq_step: `step` is what the current stage's step answers, None if the stage
      has none; `landing` are the interrupts' reports while the outcome is being applied. */
  function Stepped(w: World, overBudget: bool, step: Option<Outcome>, landing: seq<nat>, accepted: bool): World
    requires |w.f.table| == CLASSES && |w.m.entries| == STAGES && |w.retried| == CLASSES
  {
    if w.m.aborted || w.m.stalled then w
    else
      var v := Late(w, overBudget);
      if step.None? then v else Applied(v, step.value, landing, accepted)
  }

  /** mission_abort. */
  function AbortedFor(m: Sequence, cause: FaultId): Sequence
  {
    if m.aborted then m else m.(aborted := true, cause := cause, operational := false)
  }

  // ---------- runs ----------

  datatype Event =
    | Step(overBudget: bool, step: Option<Outcome>, landing: seq<nat>, accepted: bool)
    | AbortRequest(cause: FaultId)
    | Touch(id: FaultId, access: FaultClass.Step)  // by interrupts, fault service, other clients

  ghost predicate AtRest(f: Faults)
  {
    forall i :: 0 <= i < |f.table| ==> f.table[i].loop.Outside?
  }

  ghost predicate Sized(w: World)
  {
    |w.f.table| == CLASSES && |w.f.seen.irqDropped| == IRQ_SOURCES && |w.m.entries| == STAGES && |w.retried| == CLASSES
  }

  function Touched(w: World, id: FaultId, access: FaultClass.Step): World
    requires |w.f.table| == CLASSES && |w.retried| == CLASSES
  {
    var e := w.f.table[id];
    w.(f := w.f.(table := w.f.table[id := FaultClass.Next(PolicyOf(id), e, access)]),
       retried := if access.ClearServiced? && e.loop.Outside? then w.retried[id := 0] else w.retried)
  }

  /** The sequence steps only while the loop is not inside the fault service. */
  ghost function NextWorld(w: World, event: Event): World
    requires Sized(w)
  {
    match event
    case Step(overBudget, step, landing, accepted) =>
      if AtRest(w.f) then Stepped(w, overBudget, step, landing, accepted) else w
    case AbortRequest(cause) => w.(m := AbortedFor(w.m, cause))
    case Touch(id, access) => Touched(w, id, access)
  }

  lemma AppliedSize(w: World, out: Outcome, landing: seq<nat>, accepted: bool)
    requires Sized(w)
    ensures Sized(Applied(w, out, landing, accepted))
  {
    hide PolicyOf, Wrap, Landed, Reported, Exhausted, FaultOf, Noted, Moved;
  }

  lemma SizeKept(w: World, event: Event)
    requires Sized(w)
    ensures Sized(NextWorld(w, event))
  {
    hide PolicyOf, FaultClass.Next, AtRest, Reported, Applied;
    if event.Step? && event.step.Some? {
      AppliedSize(Late(w, event.overBudget), event.step.value, event.landing, event.accepted);
    }
  }

  ghost function Run(w: World, events: seq<Event>): (r: World)
    requires Sized(w)
    ensures Sized(r)
  {
    if events == [] then w
    else
      var v := Run(w, events[..|events| - 1]);
      SizeKept(v, events[|events| - 1]);
      NextWorld(v, events[|events| - 1])
  }

  const NO_FAULTS: Faults := Faults(seq(CLASSES, i => NEW), false, 0, Platform(0, 0, seq(IRQ_SOURCES, i => 0)), [])

  const READY: Sequence := Sequence(0, 0, [1] + seq(STAGES - 1, i => 0), false, false, false, 0, 0, false, [])

  const START: World := World(READY, NO_FAULTS, 0, seq(CLASSES, i => 0))

  // ---------- no stage is skipped, and the counts add up ----------

  /** The last outcome applied while the position was at or below stage j. */
  function LastAtOrBelow(log: seq<Turn>, j: nat): Option<Turn>
  {
    if log == [] then None
    else if log[|log| - 1].from <= j then Some(log[|log| - 1])
    else LastAtOrBelow(log[..|log| - 1], j)
  }

  function EntriesInto(log: seq<Turn>, j: nat): nat
  {
    if log == [] then 0
    else EntriesInto(log[..|log| - 1], j) + (if log[|log| - 1].entered && log[|log| - 1].into == j then 1 else 0)
  }

  function Count(log: seq<Turn>, result: Result): nat
  {
    if log == [] then 0
    else Count(log[..|log| - 1], result) + (if log[|log| - 1].entered && log[|log| - 1].result == result then 1 else 0)
  }

  /** Retries applied since the sequence last advanced or returned. */
  function RetryRun(log: seq<Turn>): nat
  {
    if log == [] then 0
    else
      var t := log[|log| - 1];
      if t.result.Done? || Returns(t) then 0
      else RetryRun(log[..|log| - 1]) + (if t.result.Retry? then 1 else 0)
  }

  ghost predicate NoneSkipped(m: Sequence)
  {
    forall j :: 0 <= j < m.stage ==>
      var t := LastAtOrBelow(m.log, j);
      t.Some? && t.value.from == j && t.value.result.Done?
  }

  ghost predicate Accounted(m: Sequence)
  {
    && |m.entries| == STAGES
    && (forall j :: 0 <= j < STAGES ==> m.entries[j] == Wrap(EntriesInto(m.log, j) + (if j == 0 then 1 else 0)))
    && m.reentries == Wrap(Count(m.log, Back))
    && m.attempts == Wrap(RetryRun(m.log))
    && (m.operational ==> !m.aborted && PoweredUp(m.log))
  }

  ghost predicate OnlyMovesEnter(log: seq<Turn>)
  {
    forall k :: 0 <= k < |log| && log[k].entered ==> log[k].result.Done? || log[k].result.Retry? || log[k].result.Back?
  }

  ghost predicate Orderly(m: Sequence)
  {
    NoneSkipped(m) && Accounted(m) && OnlyMovesEnter(m.log)
  }

  lemma EntriesAfter(log: seq<Turn>, t: Turn, j: nat)
    ensures EntriesInto(log + [t], j) == EntriesInto(log, j) + (if t.entered && t.into == j then 1 else 0)
  {
    assert (log + [t])[..|log|] == log;
  }

  lemma CountAfter(log: seq<Turn>, t: Turn, result: Result)
    ensures Count(log + [t], result) == Count(log, result) + (if t.entered && t.result == result then 1 else 0)
  {
    assert (log + [t])[..|log|] == log;
  }

  lemma RetryRunAfter(log: seq<Turn>, t: Turn)
    ensures RetryRun(log + [t]) ==
      (if t.result.Done? || Returns(t) then 0 else RetryRun(log) + (if t.result.Retry? then 1 else 0))
  {
    assert (log + [t])[..|log|] == log;
  }

  lemma LastAfter(log: seq<Turn>, t: Turn, j: nat)
    ensures LastAtOrBelow(log + [t], j) == if t.from <= j then Some(t) else LastAtOrBelow(log, j)
  {
    assert (log + [t])[..|log|] == log;
  }

  lemma TurnSkipsNone(m: Sequence, t: Turn)
    requires |m.entries| == STAGES && NoneSkipped(m) && t.from == m.stage
    requires t.entered ==> t.into <= t.from || (t.result.Done? && t.into == t.from + 1)
    ensures NoneSkipped(Taken(m, t))
  {
    hide LastAtOrBelow, Wrap;
    var r := Taken(m, t);
    forall j | 0 <= j < r.stage
      ensures var u := LastAtOrBelow(r.log, j); u.Some? && u.value.from == j && u.value.result.Done?
    {
      LastAfter(m.log, t, j);
    }
  }

  lemma TurnIsAccounted(m: Sequence, t: Turn)
    requires Accounted(m) && !m.aborted && t.from == m.stage
    ensures Accounted(Taken(m, t))
  {
    hide Wrap, EntriesInto, Count, RetryRun, PoweredUp;
    var r := Taken(m, t);
    forall j | 0 <= j < STAGES
      ensures r.entries[j] == Wrap(EntriesInto(r.log, j) + (if j == 0 then 1 else 0))
    {
      EntriesAfter(m.log, t, j);
      WrapAdd(EntriesInto(m.log, j) + (if j == 0 then 1 else 0), 1);
    }
    CountAfter(m.log, t, Back);
    WrapAdd(Count(m.log, Back), 1);
    RetryRunAfter(m.log, t);
    WrapAdd(RetryRun(m.log), 1);
    WrapSmall(0);
    TurnPowersUp(m.log, t);
  }

  ghost predicate PoweredUp(log: seq<Turn>)
  {
    exists k :: 0 <= k < |log| && log[k].from == SPAD_ENABLE && log[k].result.Done?
  }

  lemma TurnPowersUp(log: seq<Turn>, t: Turn)
    ensures PoweredUp(log) || (t.from == SPAD_ENABLE && t.result.Done?) ==> PoweredUp(log + [t])
  {
    var r := log + [t];
    if PoweredUp(log) {
      var k :| 0 <= k < |log| && log[k].from == SPAD_ENABLE && log[k].result.Done?;
      assert r[k] == log[k];
    }
    assert r[|log|] == t;
  }

  lemma MoveIsOrderly(m: Sequence, out: Outcome, spent: bool)
    requires Orderly(m) && !m.aborted
    ensures Orderly(Moved(m, out, spent))
  {
    hide NoneSkipped, Accounted, Taken, OnlyMovesEnter;
    var t := TurnOf(m.stage, out, spent);
    EntriesPerStage(m);
    TurnSkipsNone(m, t);
    TurnIsAccounted(m, t);
    TurnEntersByMoving(m, t);
  }

  lemma TurnEntersByMoving(m: Sequence, t: Turn)
    requires |m.entries| == STAGES && OnlyMovesEnter(m.log)
    requires t.entered ==> t.result.Done? || t.result.Retry? || t.result.Back?
    ensures OnlyMovesEnter(Taken(m, t).log)
  {
  }

  lemma EntriesPerStage(m: Sequence)
    requires Accounted(m)
    ensures |m.entries| == STAGES
  {
  }

  /** A budget overrun and an abort leave the course alone. */
  lemma AsideIsOrderly(m: Sequence, cause: FaultId)
    requires Orderly(m)
    ensures Orderly(m.(timedOut := true)) && Orderly(AbortedFor(m, cause))
  {
    hide PoweredUp, EntriesInto, Count, RetryRun, Wrap, LastAtOrBelow;
  }

  lemma WorldIsOrderly(w: World, event: Event)
    requires Sized(w) && Orderly(w.m)
    ensures Orderly(NextWorld(w, event).m)
  {
    hide Orderly, Moved, AtRest, Exhausted, PolicyOf, Landed, Reported, Noted, Cleared, FaultOf, FaultClass.Next;
    AsideIsOrderly(w.m, if event.AbortRequest? then event.cause else 0);
    if event.Step? && AtRest(w.f) && !w.m.aborted && !w.m.stalled && event.step.Some? {
      var v := Late(w, event.overBudget);
      var out := event.step.value;
      MoveIsOrderly(v.m, out, true);
      MoveIsOrderly(v.m, out, false);
    }
  }

  lemma ReadyIsOrderly()
    ensures Sized(START) && Orderly(START.m)
  {
  }

  lemma {:induction false} RunIsOrderly(events: seq<Event>)
    ensures Orderly(Run(START, events).m)
  {
    hide Orderly, NextWorld;
    ReadyIsOrderly();
    if events != [] {
      RunIsOrderly(events[..|events| - 1]);
      WorldIsOrderly(Run(START, events[..|events| - 1]), events[|events| - 1]);
    }
  }

  /** At every point of every run, for each stage below the current one, the last outcome
      applied while the sequence was at or below that stage is that stage's own completion. */
  lemma NoStageIsSkipped(events: seq<Event>, j: nat)
    requires j < Run(START, events).m.stage
    ensures var t := LastAtOrBelow(Run(START, events).m.log, j);
      t.Some? && t.value.from == j && t.value.result.Done?
  {
    hide Run, LastAtOrBelow, Accounted;
    RunIsOrderly(events);
  }

  // ---------- where a step leads ----------

  /** Where an outcome leads: a completion to the next stage unless there is none, a return to
      the earlier stage it names, anything else nowhere; what is counted on the way; and what
      stops the sequence. The retry that finds no retry left is `RetryStallsIff`. */
  ghost predicate Leads(m: Sequence, overBudget: bool, out: Outcome, r: Sequence)
  {
    var s := m.stage;
    var advances := out.result.Done? && s + 1 < STAGES;
    var goesBack := out.result.Back? && out.backTo < s;
    var again := out.result.Retry? && !r.stalled;
    var enters := advances || goesBack || again;
    && |m.entries| == |r.entries| == STAGES
    && (advances ==> r.stage == s + 1)
    && (goesBack ==> r.stage == out.backTo)
    && (!advances && !goesBack ==> r.stage == s)
    && (forall j :: 0 <= j < STAGES ==> r.entries[j] == if enters && j == r.stage then Wrap((m.entries[j] as int) + 1) else m.entries[j])
    && (out.result.Abort? || (out.result.Back? && !goesBack) ==> r.stalled)
    && (out.result.Working? || out.result.Done? || goesBack ==> !r.stalled)
    && r.attempts == (if out.result.Done? || goesBack then 0 else if out.result.Retry? then Wrap(m.attempts + 1) else m.attempts)
    && r.reentries == (if goesBack then Wrap(m.reentries + 1) else m.reentries)
    && (r.operational <==> m.operational || (out.result.Done? && s == SPAD_ENABLE))
    && (r.timedOut <==> !enters && (m.timedOut || (Timed(s) && overBudget)))
    && !r.aborted
  }

  lemma StepLeads(w: World, overBudget: bool, out: Outcome, landing: seq<nat>, accepted: bool)
    requires |w.f.table| == CLASSES && |w.m.entries| == STAGES && |w.retried| == CLASSES
    requires !w.m.stalled && !w.m.aborted
    ensures Leads(w.m, overBudget, out, Stepped(w, overBudget, Some(out), landing, accepted).m)
  {
    hide PolicyOf, Wrap, Landed, Reported, Cleared, Exhausted, FaultOf, Noted, Moved, Leads;
    var v := Late(w, overBudget);
    MoveLeads(v.m, out, false);
    MoveLeads(v.m, out, true);
    LateLeads(w, overBudget, out, Stepped(w, overBudget, Some(out), landing, accepted).m);
  }

  lemma MoveLeads(m: Sequence, out: Outcome, spent: bool)
    requires |m.entries| == STAGES && !m.stalled && !m.aborted
    ensures Leads(m, false, out, Moved(m, out, spent))
  {
    hide Wrap;
  }

  lemma LateLeads(w: World, overBudget: bool, out: Outcome, r: Sequence)
    requires |w.f.table| == CLASSES && Leads(Late(w, overBudget).m, false, out, r)
    ensures Leads(w.m, overBudget, out, r)
  {
    hide Wrap, Reported;
  }

  lemma NotedMakes(f: Faults, noted: u32, fault: FaultId, accepted: bool, c: FaultId)
    requires |f.table| == CLASSES
    ensures var r := Noted(f, noted, fault, accepted);
      var refused := if c == HK_TRANSMIT && noted > REENTRY_LIMIT && PolicyOf(fault).escalation != LogOnly && f.uplinkSet && !accepted then 1 else 0;
      r.table[c].made == f.table[c].made + refused && r.table[c].clearedAt == f.table[c].clearedAt
  {
    hide PolicyOf, Wrap, Reported;
    ReportedOn(Counted(f, fault), HK_TRANSMIT, c);
  }

  /** Whom a step blames: with no outcome but work and completion nobody; otherwise the class
      the outcome names, or the stage's own, once; and once per entry a stage over its budget
      the timeout class. A completion clears the class instead. Nothing else reports but the
      interrupts, and the link if it refuses the escalation of a return past the limit. */
  lemma StepBlames(w: World, overBudget: bool, out: Outcome, landing: seq<nat>, accepted: bool, c: FaultId)
    requires |w.f.table| == CLASSES && |w.m.entries| == STAGES && |w.retried| == CLASSES
    requires !w.m.stalled && !w.m.aborted
    ensures var r := Stepped(w, overBudget, Some(out), landing, accepted);
      var fault := if out.fault != 0 then out.fault else K_STAGE_FAULT[w.m.stage];
      var late := if c == STAGE_TIMEOUT && Timed(w.m.stage) && !w.m.timedOut && overBudget then 1 else 0;
      var own := if c == fault && (out.result.Retry? || out.result.Back? || out.result.Abort?) then 1 else 0;
      var refused := if c == HK_TRANSMIT && out.result.Back? && out.backTo < w.m.stage && Wrap(w.noted + 1) > REENTRY_LIMIT
        && PolicyOf(fault).escalation != LogOnly && w.f.uplinkSet && !accepted then 1 else 0;
      var landed := if out.result.Working? then 0 else Times(landing, c);
      && |r.f.table| == CLASSES
      && r.f.table[c].made == w.f.table[c].made + late + own + landed + refused
      && r.f.table[c].clearedAt == (if out.result.Done? && c == fault then w.f.table[c].made + late else w.f.table[c].clearedAt)
  {
    hide PolicyOf, Wrap, Applied, Reported, Times;
    ReportedOn(w.f, STAGE_TIMEOUT, c);
    OutcomeBlames(Late(w, overBudget), out, landing, accepted, c);
  }

  lemma OutcomeBlames(w: World, out: Outcome, landing: seq<nat>, accepted: bool, c: FaultId)
    requires |w.f.table| == CLASSES && |w.m.entries| == STAGES && |w.retried| == CLASSES
    ensures var r := Applied(w, out, landing, accepted);
      var fault := if out.fault != 0 then out.fault else K_STAGE_FAULT[w.m.stage];
      var own := if c == fault && (out.result.Retry? || out.result.Back? || out.result.Abort?) then 1 else 0;
      var refused := if c == HK_TRANSMIT && out.result.Back? && out.backTo < w.m.stage && Wrap(w.noted + 1) > REENTRY_LIMIT
        && PolicyOf(fault).escalation != LogOnly && w.f.uplinkSet && !accepted then 1 else 0;
      var landed := if out.result.Working? then 0 else Times(landing, c);
      && |r.f.table| == CLASSES
      && r.f.table[c].made == w.f.table[c].made + own + landed + refused
      && r.f.table[c].clearedAt == (if out.result.Done? && c == fault then w.f.table[c].made else w.f.table[c].clearedAt)
  {
    hide PolicyOf, Wrap, Landed, Reported, Cleared, Exhausted, Times, Moved, Noted;
    var fault := Cause(w.m, out);
    ReportedLanded(w.f, fault, landing, c);
    ClearedLanded(w.f, fault, landing, c);
    NotedMakes(Landed(Reported(w.f, fault), landing), Wrap(w.noted + 1), fault, accepted, c);
  }

  lemma ReportedLanded(f: Faults, fault: FaultId, landing: seq<nat>, c: FaultId)
    requires |f.table| == CLASSES
    ensures var r := Landed(Reported(f, fault), landing);
      && r.table[c].made == f.table[c].made + (if c == fault then 1 else 0) + Times(landing, c)
      && r.table[c].clearedAt == f.table[c].clearedAt && r.uplinkSet == f.uplinkSet
  {
    hide PolicyOf, Wrap, Landed, Reported, Times;
    ReportedOn(f, fault, c);
    LandedOn(Reported(f, fault), landing, c);
  }

  lemma ClearedLanded(f: Faults, fault: FaultId, landing: seq<nat>, c: FaultId)
    requires |f.table| == CLASSES
    ensures var r := Landed(Cleared(f, fault), landing);
      && r.table[c].made == f.table[c].made + Times(landing, c)
      && r.table[c].clearedAt == if c == fault then f.table[c].made else f.table[c].clearedAt
  {
    hide PolicyOf, Wrap, Landed, Times;
    LandedOn(Cleared(f, fault), landing, c);
  }

  // ---------- a sequence whose every stage completes ----------

  const COMPLETION: Event := Step(false, Some(Outcome(Done, 0, 0)), [], false)

  function Completions(n: nat): seq<Event>
  {
    if n == 0 then [] else Completions(n - 1) + [COMPLETION]
  }

  /** After n completions the sequence stands in stage n, or in the last; it has entered each
      stage up to there once, and is operational once the detector stage is behind it. */
  ghost predicate Arrived(w: World, n: nat)
  {
    && Sized(w) && AtRest(w.f) && !w.m.stalled && !w.m.aborted
    && w.m.stage == (if n < STAGES then n else STAGES - 1)
    && (forall j :: 0 <= j < STAGES ==> w.m.entries[j] == if j <= w.m.stage then 1 else 0)
    && (w.m.operational <==> n > SPAD_ENABLE)
    && w.m.attempts == 0
  }

  lemma OneCompletion(w: World, n: nat)
    requires Arrived(w, n)
    ensures Arrived(NextWorld(w, COMPLETION), n + 1)
  {
    hide PolicyOf, FaultOf, Wrap, Landed;
    SizeKept(w, COMPLETION);
    var out := Outcome(Done, 0, 0);
    StepLeads(w, false, out, [], false);
    EmptyLanded(Cleared(w.f, Cause(w.m, out)));
    WrapSmall(1);
  }

  lemma {:induction false} CompletionsArrive(n: nat)
    ensures Arrived(Run(START, Completions(n)), n)
  {
    hide Run, Arrived, NextWorld;
    if n == 0 {
      NoEvents(START);
      StartHasArrived();
    } else {
      CompletionsArrive(n - 1);
      RunThen(START, Completions(n - 1), COMPLETION);
      OneCompletion(Run(START, Completions(n - 1)), n - 1);
    }
  }

  lemma StartHasArrived()
    ensures Arrived(START, 0)
  {
  }

  // ---------- how often stages were entered ----------

  function TotalInto(log: seq<Turn>, n: nat): nat
  {
    if n == 0 then 0 else TotalInto(log, n - 1) + EntriesInto(log, n - 1)
  }

  function Sum(s: seq<u32>): nat
  {
    if s == [] then 0 else Sum(s[..|s| - 1]) + s[|s| - 1]
  }

  lemma {:induction false} TotalAfter(log: seq<Turn>, t: Turn, n: nat)
    ensures TotalInto(log + [t], n) == TotalInto(log, n) + (if t.entered && t.into < n then 1 else 0)
  {
    hide EntriesInto;
    if n > 0 {
      TotalAfter(log, t, n - 1);
      EntriesAfter(log, t, n - 1);
    }
  }

  lemma {:induction false} NothingEntered(n: nat)
    ensures TotalInto([], n) == 0
  {
    if n > 0 {
      NothingEntered(n - 1);
    }
  }

  lemma {:induction false} EveryEntryIsAMove(log: seq<Turn>)
    requires OnlyMovesEnter(log)
    ensures TotalInto(log, STAGES) == Count(log, Done) + Count(log, Retry) + Count(log, Back)
  {
    hide TotalInto;
    if log == [] {
      NothingEntered(STAGES);
    } else {
      var rest, t := log[..|log| - 1], log[|log| - 1];
      assert rest + [t] == log;
      EveryEntryIsAMove(rest);
      TotalAfter(rest, t, STAGES);
    }
  }

  lemma {:induction false} SumOfEntries(m: Sequence, n: nat)
    requires Accounted(m) && n <= STAGES
    ensures Wrap(Sum(m.entries[..n])) == Wrap(TotalInto(m.log, n) + (if n == 0 then 0 else 1))
  {
    hide Wrap, EntriesInto, Count, RetryRun, PoweredUp;
    if n > 0 {
      var s := m.entries[..n];
      assert s[..n - 1] == m.entries[..n - 1];
      SumOfEntries(m, n - 1);
      var k := EntriesInto(m.log, n - 1) + (if n == 1 then 1 else 0);
      WrapSum(Sum(s[..n - 1]), k);
      WrapSum(TotalInto(m.log, n - 1) + (if n == 1 then 0 else 1), k);
      WrapAdd(k, Sum(s[..n - 1]));
    }
  }

  /** The entry counts add up to the first entry, the advances, the retries that did not
      stall and the returns that were accepted, and the re-entry count is those returns. */
  lemma EntriesAddUp(events: seq<Event>)
    ensures var m := Run(START, events).m;
      && Wrap(Sum(m.entries)) == Wrap(1 + Count(m.log, Done) + Count(m.log, Retry) + Count(m.log, Back))
      && m.reentries == Wrap(Count(m.log, Back))
  {
    hide Run, NoneSkipped, Wrap, Sum, TotalInto, Count, EntriesInto, RetryRun, PoweredUp;
    RunIsOrderly(events);
    var m := Run(START, events).m;
    SumOfEntries(m, STAGES);
    assert m.entries[..STAGES] == m.entries;
    EveryEntryIsAMove(m.log);
  }

  // ---------- a sequence that has stopped stays stopped ----------

  ghost predicate SameCourse(m: Sequence, r: Sequence)
  {
    && r.stage == m.stage && r.log == m.log && r.entries == m.entries
    && r.attempts == m.attempts && r.reentries == m.reentries
    && r.stalled == m.stalled && (m.aborted ==> r.aborted && r.cause == m.cause)
  }

  lemma StoppedStep(w: World, event: Event)
    requires Sized(w) && (w.m.stalled || w.m.aborted)
    ensures SameCourse(w.m, NextWorld(w, event).m)
  {
    hide AtRest, PolicyOf, FaultClass.Next, Applied, Late;
  }

  /** Once stalled or aborted, no later call runs a stage, moves the position or counts. */
  lemma {:induction false} StoppedStaysPut(w: World, events: seq<Event>)
    requires Sized(w) && (w.m.stalled || w.m.aborted)
    ensures SameCourse(w.m, Run(w, events).m)
  {
    hide NextWorld;
    if events != [] {
      StoppedStaysPut(w, events[..|events| - 1]);
      StoppedStep(Run(w, events[..|events| - 1]), events[|events| - 1]);
    }
  }

  // ---------- retries are bounded, whatever the fault service does meanwhile ----------

  ghost predicate Sound(f: Faults)
  {
    |f.table| == CLASSES && forall i :: 0 <= i < CLASSES ==> Counts(f.table[i])
  }

  /** Nothing but reports happened to a class: it was neither cleared nor entered. */
  ghost predicate OnlyReported(e: Entry, r: Entry)
  {
    r.clearedAt == e.clearedAt && r.made >= e.made && (e.loop.Outside? ==> r.loop.Outside?)
  }

  ghost predicate Grown(f: Faults, g: Faults)
  {
    && |f.table| == |g.table| == CLASSES
    && forall i :: 0 <= i < CLASSES ==> OnlyReported(f.table[i], g.table[i])
  }

  lemma ReportGrows(f: Faults, id: nat)
    requires Sound(f)
    ensures Sound(Reported(f, id)) && Grown(f, Reported(f, id))
    ensures id < CLASSES ==> Reported(f, id).table[id].made == f.table[id].made + 1
  {
    hide Counts, PolicyOf, Wrap;
    if id < CLASSES {
      CountsKept(PolicyOf(id), f.table[id], FaultClass.Report);
    }
  }

  lemma {:induction false} LandingGrows(f: Faults, ids: seq<nat>)
    requires Sound(f)
    ensures Sound(Landed(f, ids)) && Grown(f, Landed(f, ids))
  {
    hide Counts, Reported;
    if ids != [] {
      LandingGrows(f, ids[..|ids| - 1]);
      ReportGrows(Landed(f, ids[..|ids| - 1]), ids[|ids| - 1]);
    }
  }

  lemma CountedGrows(f: Faults, id: nat)
    requires Sound(f) && id < CLASSES
    ensures Sound(Counted(f, id)) && Grown(f, Counted(f, id))
  {
    hide Wrap;
  }

  lemma NotingGrows(f: Faults, noted: u32, fault: FaultId, accepted: bool)
    requires Sound(f)
    ensures Sound(Noted(f, noted, fault, accepted)) && Grown(f, Noted(f, noted, fault, accepted))
  {
    hide Counts, Reported, Counted, PolicyOf, Wrap;
    if noted > REENTRY_LIMIT {
      CountedGrows(f, fault);
      ReportGrows(Counted(f, fault), HK_TRANSMIT);
    }
  }

  lemma ClearingCounts(f: Faults, id: FaultId)
    requires Sound(f) && f.table[id].loop.Outside?
    ensures Sound(Cleared(f, id)) && Cleared(f, id).table[id].loop.Outside?
  {
    hide Counts, FaultClass.Next, ClearedEntry, PolicyOf;
    var e := f.table[id];
    ClearIsTwoSteps(PolicyOf(id), e);
    CountsKept(PolicyOf(id), e, ClearServiced);
    CountsKept(PolicyOf(id), FaultClass.Next(PolicyOf(id), e, ClearServiced), ClearRecord);
    ClearedIsOutside(e);
  }

  lemma ClearedIsOutside(e: Entry)
    requires e.loop.Outside?
    ensures ClearedEntry(e).loop.Outside?
  {
  }

  lemma GrownTwice(f: Faults, g: Faults, h: Faults)
    requires Grown(f, g) && Grown(g, h)
    ensures Grown(f, h)
  {
  }

  lemma ReportThenLanding(f: Faults, id: FaultId, ids: seq<nat>)
    requires Sound(f)
    ensures var r := Landed(Reported(f, id), ids);
      Sound(r) && Grown(f, r) && r.table[id].made > f.table[id].made
  {
    hide Sound, Landed, Reported, OnlyReported;
    ReportGrows(f, id);
    LandingGrows(Reported(f, id), ids);
    MadeGrows(f, Reported(f, id), id);
    MadeGrows(Reported(f, id), Landed(Reported(f, id), ids), id);
    GrownTwice(f, Reported(f, id), Landed(Reported(f, id), ids));
  }

  lemma MadeGrows(f: Faults, g: Faults, id: FaultId)
    requires Grown(f, g)
    ensures OnlyReported(f.table[id], g.table[id]) && g.table[id].made >= f.table[id].made
  {
  }

  /** The number of retries counted against a class never passes its limit, and reaching
      it takes the retry that stalls. */
  ghost predicate Bounded(p: Policy, e: Entry, retried: nat, stalled: bool)
  {
    && retried <= ReportsSinceClear(e)
    && (p.limit > 0 && ReportsSinceClear(e) < TWO_32 ==> retried < p.limit || (retried == p.limit && stalled))
  }

  lemma GrowthKeepsBound(p: Policy, e: Entry, r: Entry, retried: nat, before: bool, after: bool)
    requires Bounded(p, e, retried, before) && r.clearedAt == e.clearedAt && r.made >= e.made && (before ==> after)
    ensures Bounded(p, r, retried, after)
  {
  }

  /** One more retry, reported: it stalls if it is the last the limit allows. */
  lemma RetryKeepsBound(p: Policy, e: Entry, r: Entry, retried: nat)
    requires Bounded(p, e, retried, false) && OnlyReported(e, r) && r.made > e.made
    requires Counts(r) && r.loop.Outside?
    ensures Bounded(p, r, retried + 1, Exhausted(p, r))
  {
    hide Counts, Exhausted, Wrap;
    ExhaustedExactly(p, r);
    if ReportsSinceClear(r) < TWO_32 {
      WrapSmall(ReportsSinceClear(r));
    }
  }

  ghost predicate BoundedAt(w: World, id: FaultId)
    requires |w.f.table| == CLASSES && |w.retried| == CLASSES
  {
    Bounded(PolicyOf(id), w.f.table[id], w.retried[id], w.m.stalled)
  }

  lemma WorldGrowthKeepsBound(w: World, r: World, id: FaultId)
    requires |w.f.table| == CLASSES && |w.retried| == CLASSES && |r.retried| == CLASSES
    requires Grown(w.f, r.f) && r.retried[id] == w.retried[id] && (w.m.stalled ==> r.m.stalled)
    requires BoundedAt(w, id)
    ensures BoundedAt(r, id)
  {
    hide Bounded, PolicyOf;
    GrowthKeepsBound(PolicyOf(id), w.f.table[id], r.f.table[id], w.retried[id], w.m.stalled, r.m.stalled);
  }

  lemma DoneKeepsBound(w: World, out: Outcome, landing: seq<nat>, accepted: bool, id: FaultId)
    requires Sized(w) && Sound(w.f) && AtRest(w.f) && BoundedAt(w, id) && !w.m.stalled && out.result.Done?
    ensures Sound(Applied(w, out, landing, accepted).f) && BoundedAt(Applied(w, out, landing, accepted), id)
  {
    hide Sound, Landed, PolicyOf, Moved, FaultOf, ClearedEntry, Counts, OnlyReported;
    var fault := Cause(w.m, out);
    EntryIsSound(w.f, fault);
    ClearingCounts(w.f, fault);
    var g := Cleared(w.f, fault);
    LandingGrows(g, landing);
    var r := Applied(w, out, landing, accepted);
    if id == fault {
      EntryIsSound(r.f, id);
      FreshIsBounded(PolicyOf(id), r.f.table[id], r.m.stalled);
    } else {
      WorldGrowthKeepsBound(w.(f := g), r.(m := w.m), id);
      GrowthKeepsBound(PolicyOf(id), r.f.table[id], r.f.table[id], w.retried[id], w.m.stalled, r.m.stalled);
    }
  }

  lemma EntryIsSound(f: Faults, id: FaultId)
    requires Sound(f)
    ensures |f.table| == CLASSES && Counts(f.table[id])
  {
  }

  lemma FreshIsBounded(p: Policy, e: Entry, stalled: bool)
    requires Counts(e)
    ensures Bounded(p, e, 0, stalled)
  {
    hide Wrap;
  }

  lemma RetryBounded(w: World, out: Outcome, landing: seq<nat>, accepted: bool, id: FaultId)
    requires Sized(w) && Sound(w.f) && AtRest(w.f) && BoundedAt(w, id) && !w.m.stalled && out.result.Retry?
    ensures Sound(Applied(w, out, landing, accepted).f) && BoundedAt(Applied(w, out, landing, accepted), id)
  {
    hide Sound, Landed, Reported, PolicyOf, FaultOf, Counts, Exhausted, Bounded, Wrap;
    var fault := Cause(w.m, out);
    ReportThenLanding(w.f, fault, landing);
    var r := Applied(w, out, landing, accepted);
    EntryIsSound(r.f, id);
    if id == fault {
      RetryKeepsBound(PolicyOf(id), w.f.table[id], r.f.table[id], w.retried[id]);
    } else {
      WorldGrowthKeepsBound(w, r, id);
    }
  }

  lemma OtherKeepsBound(w: World, out: Outcome, landing: seq<nat>, accepted: bool, id: FaultId)
    requires Sized(w) && Sound(w.f) && AtRest(w.f) && BoundedAt(w, id) && !w.m.stalled && !out.result.Retry? && !out.result.Done?
    ensures Sound(Applied(w, out, landing, accepted).f) && BoundedAt(Applied(w, out, landing, accepted), id)
  {
    hide Sound, Landed, Reported, PolicyOf, FaultOf, Counts, Bounded, Wrap, Noted, OnlyReported, BoundedAt, Taken, TurnOf;
    var fault := Cause(w.m, out);
    var r := Applied(w, out, landing, accepted);
    if out.result.Working? {
      GrownSelf(w.f);
    } else {
      ReportThenLanding(w.f, fault, landing);
      var f := Landed(Reported(w.f, fault), landing);
      if out.result.Back? && out.backTo < w.m.stage {
        NotingGrows(f, Wrap(w.noted + 1), fault, accepted);
        GrownTwice(w.f, f, r.f);
      }
    }
    WorldGrowthKeepsBound(w, r, id);
  }

  lemma GrownSelf(f: Faults)
    requires |f.table| == CLASSES
    ensures Grown(f, f)
  {
  }

  lemma TouchKeepsBound(w: World, touched: FaultId, access: FaultClass.Step, id: FaultId)
    requires Sized(w) && Sound(w.f) && BoundedAt(w, id)
    ensures Sound(Touched(w, touched, access).f) && BoundedAt(Touched(w, touched, access), id)
  {
    hide PolicyOf, Wrap, Counts, FaultClass.Next;
    var e := w.f.table[touched];
    CountsKept(PolicyOf(touched), e, access);
    var r := FaultClass.Next(PolicyOf(touched), e, access);
    AccessEffect(PolicyOf(touched), e, access);
    if id == touched {
      if access.ClearServiced? && e.loop.Outside? {
        FreshIsBounded(PolicyOf(id), r, w.m.stalled);
      } else {
        GrowthKeepsBound(PolicyOf(id), e, r, w.retried[id], w.m.stalled, w.m.stalled);
      }
    }
  }

  lemma AccessEffect(p: Policy, e: Entry, access: FaultClass.Step)
    ensures var r := FaultClass.Next(p, e, access);
      r.made >= e.made && (!(access.ClearServiced? && e.loop.Outside?) ==> r.clearedAt == e.clearedAt)
  {
    hide Wrap;
  }

  lemma LateKeepsBound(w: World, overBudget: bool, id: FaultId)
    requires Sized(w) && Sound(w.f) && AtRest(w.f) && BoundedAt(w, id)
    ensures var v := Late(w, overBudget);
      Sized(v) && Sound(v.f) && AtRest(v.f) && BoundedAt(v, id) && v.m.stalled == w.m.stalled
  {
    hide Sound, PolicyOf, Counts, Bounded, Wrap;
    ReportGrows(w.f, STAGE_TIMEOUT);
    var v := Late(w, overBudget);
    GrownSelf(w.f);
    WorldGrowthKeepsBound(w, v, id);
  }

  lemma NextKeepsBound(w: World, event: Event, id: FaultId)
    requires Sized(w) && Sound(w.f) && BoundedAt(w, id)
    ensures Sized(NextWorld(w, event)) && Sound(NextWorld(w, event).f) && BoundedAt(NextWorld(w, event), id)
  {
    hide Sound, AtRest, Applied, Late, Touched, PolicyOf, Bounded;
    SizeKept(w, event);
    match event
    case Touch(touched, access) =>
      TouchKeepsBound(w, touched, access, id);
    case AbortRequest(cause) =>
    case Step(overBudget, step, landing, accepted) =>
      if AtRest(w.f) && !w.m.aborted && !w.m.stalled {
        LateKeepsBound(w, overBudget, id);
        var v := Late(w, overBudget);
        if step.Some? {
          if step.value.result.Done? {
            DoneKeepsBound(v, step.value, landing, accepted, id);
          } else if step.value.result.Retry? {
            RetryBounded(v, step.value, landing, accepted, id);
          } else {
            OtherKeepsBound(v, step.value, landing, accepted, id);
          }
        }
      }
  }

  lemma StartIsBounded(id: FaultId)
    ensures Sized(START) && Sound(START.f) && BoundedAt(START, id)
  {
    hide PolicyOf;
  }

  lemma {:induction false} RunKeepsBound(events: seq<Event>, id: FaultId)
    ensures Sound(Run(START, events).f) && BoundedAt(Run(START, events), id)
  {
    hide Sound, BoundedAt, NextWorld;
    StartIsBounded(id);
    if events != [] {
      RunKeepsBound(events[..|events| - 1], id);
      NextKeepsBound(Run(START, events[..|events| - 1]), events[|events| - 1], id);
    }
  }

  /** Since a class with a limit was last cleared it has been retried at most that often,
      and the retry that reaches the limit stalled the sequence, as long as its reports
      since the clear fit 32 bits: whatever else reports, services or clears meanwhile. */
  lemma RetriesAreBounded(events: seq<Event>, id: FaultId)
    requires PolicyOf(id).limit > 0
    requires ReportsSinceClear(Run(START, events).f.table[id]) < TWO_32
    ensures var w := Run(START, events);
      w.retried[id] <= PolicyOf(id).limit && (w.retried[id] == PolicyOf(id).limit ==> w.m.stalled)
  {
    hide Run, Sound, PolicyOf;
    RunKeepsBound(events, id);
  }

  /** A class with no limit, such as the detector stage's own, never stalls by retrying. */
  lemma NoLimitNeverStalls(w: World, out: Outcome, landing: seq<nat>, accepted: bool)
    requires Sized(w) && out.result.Retry? && PolicyOf(Cause(w.m, out)).limit == 0 && !w.m.stalled
    ensures !Applied(w, out, landing, accepted).m.stalled
  {
    hide PolicyOf, FaultOf, Landed, Wrap;
  }

  // ---------- past 2^32 reports ----------

  /** When a retry stalls, however many reports there were: exactly when its class has a
      limit and the reports since the clear, as far as 32 bits count them, have reached it. */
  lemma RetryStallsIff(w: World, out: Outcome, landing: seq<nat>, accepted: bool)
    requires Sized(w) && Sound(w.f) && AtRest(w.f) && !w.m.stalled && out.result.Retry?
    ensures var r := Applied(w, out, landing, accepted); var fault := Cause(w.m, out); var limit := PolicyOf(fault).limit;
      Sized(r) && (r.m.stalled <==> limit != 0 && Wrap(ReportsSinceClear(r.f.table[fault])) >= limit)
  {
    hide Sound, Landed, Reported, PolicyOf, FaultOf, Counts, Exhausted, Wrap, OnlyReported;
    var fault := Cause(w.m, out);
    ReportThenLanding(w.f, fault, landing);
    var r := Applied(w, out, landing, accepted);
    AppliedSize(w, out, landing, accepted);
    EntryIsSound(r.f, fault);
    MadeGrows(w.f, r.f, fault);
    OutsideStays(w.f.table[fault], r.f.table[fault]);
    ExhaustedExactly(PolicyOf(fault), r.f.table[fault]);
  }

  lemma OutsideStays(e: Entry, r: Entry)
    requires OnlyReported(e, r) && e.loop.Outside?
    ensures r.loop.Outside?
  {
  }

  function Touches(id: FaultId, n: nat): (r: seq<Event>)
    ensures |r| == n
  {
    if n == 0 then [] else Touches(id, n - 1) + [Touch(id, FaultClass.Report)]
  }

  function RetryOf(id: FaultId): Event
  {
    Step(false, Some(Outcome(Retry, 0, id)), [], false)
  }

  /** Each time one report short of 2^32 from elsewhere, and then a retry. */
  function Rounds(id: FaultId, n: nat): seq<Event>
  {
    if n == 0 then [] else Rounds(id, n - 1) + Touches(id, TWO_32 - 1) + [RetryOf(id)]
  }

  lemma RunThen(w: World, a: seq<Event>, event: Event)
    requires Sized(w)
    ensures Run(w, a + [event]) == NextWorld(Run(w, a), event)
  {
    assert (a + [event])[..|a + [event]| - 1] == a;
  }

  lemma {:induction false} RunConcat(w: World, a: seq<Event>, b: seq<Event>)
    requires Sized(w)
    ensures Run(w, a + b) == Run(Run(w, a), b)
    decreases |b|
  {
    hide NextWorld, Sized;
    if b == [] {
      assert a + b == a;
    } else {
      assert (a + b)[..|a + b| - 1] == a + b[..|b| - 1];
      RunConcat(w, a, b[..|b| - 1]);
    }
  }

  /** A class n reports on, and nothing else changed. */
  function ReportedTimes(w: World, id: FaultId, n: nat): World
    requires |w.f.table| == CLASSES
  {
    var e := w.f.table[id];
    w.(f := w.f.(table := w.f.table[id := e.(reported := Wrap(e.reported + n), made := e.made + n)]))
  }

  lemma {:induction false} TouchesReport(w: World, id: FaultId, n: nat)
    requires Sized(w)
    ensures Run(w, Touches(id, n)) == ReportedTimes(w, id, n)
  {
    hide Wrap, PolicyOf, Run;
    if n == 0 {
      WrapSmall(w.f.table[id].reported);
      assert w.f.table[id := w.f.table[id]] == w.f.table;
      NoEvents(w);
    } else {
      TouchesReport(w, id, n - 1);
      RunThen(w, Touches(id, n - 1), Touch(id, FaultClass.Report));
      WrapAdd(w.f.table[id].reported + n - 1, 1);
    }
  }

  lemma NoEvents(w: World)
    requires Sized(w)
    ensures Run(w, []) == w
  {
  }

  /** In the first stage, the class retried n times, its counter back at zero each time. */
  ghost predicate Unnoticed(w: World, id: FaultId, n: nat)
  {
    && Sized(w) && AtRest(w.f) && !w.m.stalled && !w.m.aborted && w.m.stage == 0
    && w.retried[id] == n && ReportsSinceClear(w.f.table[id]) == n * TWO_32
    && w.f.table[id].reported == w.f.table[id].serviced && w.f.table[id].occurrences == 0
  }

  lemma OneRound(w: World, id: FaultId, n: nat)
    requires Unnoticed(w, id, n) && id != 0
    ensures Unnoticed(NextWorld(ReportedTimes(w, id, TWO_32 - 1), RetryOf(id)), id, n + 1)
  {
    hide PolicyOf, FaultOf;
    var v := ReportedTimes(w, id, TWO_32 - 1);
    var e, r := w.f.table[id], Reported(v.f, id);
    EmptyLanded(r);
    FullCircle(e.reported);
    assert r.table[id] == e.(reported := e.reported, made := e.made + TWO_32);
    assert !Exhausted(PolicyOf(id), r.table[id]);
    assert NextWorld(v, RetryOf(id)) == Applied(v, Outcome(Retry, 0, id), [], false);
    assert (n + 1) * TWO_32 == n * TWO_32 + TWO_32;
  }

  lemma FullCircle(v: u32)
    ensures Wrap(Wrap(v + TWO_32 - 1) + 1) == v
  {
  }

  /** Without a bound on the reports there is no bound on the retries: for every number there
      is a run in which a class with any limit has been retried that often since its last
      clear, and the sequence has not stalled. */
  lemma {:induction false} RetriesWithoutBound(id: FaultId, n: nat)
    requires id != 0
    ensures Unnoticed(Run(START, Rounds(id, n)), id, n)
  {
    hide Run, Unnoticed, NextWorld, ReportedTimes, Touches;
    if n == 0 {
      NoEvents(START);
      StartIsUnnoticed(id);
    } else {
      var w := Run(START, Rounds(id, n - 1));
      RetriesWithoutBound(id, n - 1);
      RunConcat(START, Rounds(id, n - 1), Touches(id, TWO_32 - 1));
      TouchesReport(w, id, TWO_32 - 1);
      RunThen(START, Rounds(id, n - 1) + Touches(id, TWO_32 - 1), RetryOf(id));
      OneRound(w, id, n - 1);
    }
  }

  lemma StartIsUnnoticed(id: FaultId)
    ensures Unnoticed(START, id, 0)
  {
  }

  // ---------- the sequence in place ----------

  class Sequencer {
    const svc: Service
    const entries: array<u32>
    const registered: array<bool>
    var stage: Stage
    var attempts: u32
    var timedOut: bool
    var stalled: bool
    var aborted: bool
    var cause: FaultId
    var reentries: u32
    var operational: bool
    ghost var log: seq<Turn>
    ghost var retried: seq<nat>

    ghost function Course(): Sequence
      reads this, entries
    {
      Sequence(stage, attempts, entries[..], timedOut, stalled, aborted, cause, reentries, operational, log)
    }

    ghost function State(): World
      reads this, entries, svc, svc.table
    {
      World(Course(), svc.State(), svc.reentries, retried)
    }

    ghost predicate Valid()
      reads this, entries, svc, svc.table
    {
      svc.Valid() && entries.Length == STAGES && registered.Length == STAGES && |retried| == CLASSES
    }

    /** mission_seq_init, over a fault service just initialised. */
    constructor ()
      ensures Valid() && fresh(svc) && fresh(svc.table) && fresh(entries) && fresh(registered)
      ensures Course() == READY && svc.reentries == 0
      ensures forall i :: 0 <= i < CLASSES ==> svc.table[i] == NEW && retried[i] == 0
    {
      svc := new Service();
      entries := new u32[STAGES](i => if i == 0 then 1 else 0);
      registered := new bool[STAGES](i => false);
      stage, attempts, timedOut, stalled, aborted, cause, reentries, operational := 0, 0, false, false, false, 0, 0, false;
      log, retried := [], seq(CLASSES, i => 0);
      new;
      assert entries[..] == READY.entries;
    }

    /** mission_seq_register. */
    method Register(at: nat, given: bool) returns (st: Status)
      requires Valid()
      modifies registered
      ensures Valid()
      ensures st == if at >= STAGES || !given then ErrParam else if old(registered[at]) then ErrState else Ok
      ensures registered[..] == if st == Ok then old(registered[..])[at := true] else old(registered[..])
    {
      if at >= STAGES || !given {
        return ErrParam;
      }
      if registered[at] {
        return ErrState;
      }
      registered[at] := true;
      return Ok;
    }

    method Enter(into: Stage)
      requires entries.Length == STAGES
      modifies this`stage, this`timedOut, entries
      ensures Course() == Entered(old(Course()), into)
    {
      stage := into;
      timedOut := false;
      entries[into] := Wrap((entries[into] as int) + 1);
    }

    method CheckBudget(overBudget: bool)
      requires Valid()
      modifies this`timedOut, svc.table
      ensures Valid()
      ensures State() == Late(old(State()), overBudget)
    {
      if !Timed(stage) || timedOut {
        return;
      }
      if overBudget {
        timedOut := true;
        svc.Report(STAGE_TIMEOUT);
      }
    }

    /** A completion as the sequence itself sees it. */
    method Advance()
      requires entries.Length == STAGES
      modifies this`stage, this`timedOut, this`attempts, this`operational, this`log, entries
      ensures Course() == Moved(old(Course()), Outcome(Done, 0, 0), false)
    {
      hide Wrap;
      var at := stage;
      attempts := 0;
      if stage == SPAD_ENABLE {
        operational := true;
      }
      log := log + [TurnOf(at, Outcome(Done, 0, 0), false)];
      if stage < STAGES - 1 {
        Enter(stage + 1);
      }
    }

    /** A retry as the sequence itself sees it. */
    method Repeat(spent: bool)
      requires entries.Length == STAGES
      modifies this`stage, this`timedOut, this`attempts, this`stalled, this`log, entries
      ensures Course() == Moved(old(Course()), Outcome(Retry, 0, 0), spent)
    {
      hide Wrap;
      attempts := Wrap(attempts + 1);
      log := log + [Turn(stage, Retry, !spent, stage)];
      if spent {
        stalled := true;
      } else {
        Enter(stage);
      }
    }

    method FinishDone(fault: FaultId, landing: seq<nat>)
      requires Valid()
      modifies this`stage, this`timedOut, this`attempts, this`operational, this`log, this`retried, entries, svc.table
      ensures Valid()
      ensures Course() == Moved(old(Course()), Outcome(Done, 0, 0), false)
      ensures stage == (if old(stage) + 1 < STAGES then old(stage) + 1 else old(stage)) && stalled == old(stalled)
      ensures svc.State() == Landed(Cleared(old(svc.State()), fault), landing)
      ensures retried == old(retried)[fault := 0]
    {
      hide WellFormed, Cleared, Landed, Wrap;
      svc.Clear(fault);
      svc.Land(landing);
      retried := retried[fault := 0];
      Advance();
    }

    method FinishRetry(fault: FaultId, landing: seq<nat>)
      requires Valid()
      modifies this`stage, this`timedOut, this`attempts, this`stalled, this`log, this`retried, entries, svc.table
      ensures Valid()
      ensures svc.State() == Landed(Reported(old(svc.State()), fault), landing)
      ensures Course() == Moved(old(Course()), Outcome(Retry, 0, 0), Exhausted(PolicyOf(fault), svc.table[fault]))
      ensures retried == old(retried)[fault := old(retried)[fault] + 1]
    {
      hide WellFormed, Reported, Landed, Exhausted, PolicyOf, Moved;
      svc.Report(fault);
      svc.Land(landing);
      retried := retried[fault := retried[fault] + 1];
      var spent := svc.RetriesExhausted(fault);
      Repeat(spent);
    }

    method FinishBack(backTo: nat, fault: FaultId, landing: seq<nat>, accepted: bool)
      requires Valid()
      modifies this`stage, this`timedOut, this`attempts, this`stalled, this`reentries, this`log, entries, svc.table, svc`reentries, svc`undelivered, svc`asked
      ensures Valid()
      ensures Course() == Moved(old(Course()), Outcome(Back, backTo, 0), false)
      ensures stage == if backTo < old(stage) then backTo else old(stage)
      ensures stalled <==> old(stalled) || backTo >= old(stage)
      ensures entries[..] == if backTo < old(stage) then old(entries[..])[backTo := Wrap((old(entries[backTo]) as int) + 1)] else old(entries[..])
      ensures svc.reentries == if backTo < old(stage) then Wrap(old(svc.reentries) + 1) else old(svc.reentries)
      ensures svc.State() == (var f := Landed(Reported(old(svc.State()), fault), landing); if backTo < old(stage) then Noted(f, svc.reentries, fault, accepted) else f)
    {
      hide WellFormed, Reported, Landed, Wrap, PolicyOf, Delivered, Counted, Moved;
      svc.Report(fault);
      svc.Land(landing);
      if backTo < stage {
        svc.ReentryNote(fault, accepted);
      }
      Return(backTo);
    }

    /** A return as the sequence itself sees it. */
    method Return(backTo: nat)
      requires entries.Length == STAGES
      modifies this`stage, this`timedOut, this`attempts, this`stalled, this`reentries, this`log, entries
      ensures Course() == Moved(old(Course()), Outcome(Back, backTo, 0), false)
      ensures stage == if backTo < old(stage) then backTo else old(stage)
      ensures stalled <==> old(stalled) || backTo >= old(stage)
      ensures entries[..] == if backTo < old(stage) then old(entries[..])[backTo := Wrap((old(entries[backTo]) as int) + 1)] else old(entries[..])
    {
      hide Wrap;
      log := log + [TurnOf(stage, Outcome(Back, backTo, 0), false)];
      if backTo >= stage {
        stalled := true;
      } else {
        attempts := 0;
        reentries := Wrap(reentries + 1);
        Enter(backTo);
      }
    }

    method FinishAbort(fault: FaultId, landing: seq<nat>)
      requires Valid()
      modifies this`stalled, this`log, svc.table
      ensures Valid()
      ensures Course() == Moved(old(Course()), Outcome(Result.Abort, 0, 0), false)
      ensures svc.State() == Landed(Reported(old(svc.State()), fault), landing)
    {
      hide WellFormed, Reported, Landed, Wrap;
      svc.Report(fault);
      svc.Land(landing);
      log := log + [Turn(stage, Result.Abort, false, stage)];
      stalled := true;
    }

    /** mission_seq_step. */
    method Step(overBudget: bool, out: Outcome, landing: seq<nat>, accepted: bool)
      requires Valid()
      modifies this, entries, svc.table, svc`reentries, svc`undelivered, svc`asked
      ensures Valid()
      ensures State() == Stepped(old(State()), overBudget, if old(registered[stage]) then Some(out) else None, landing, accepted)
      ensures old(stalled || aborted) ==> Course() == old(Course()) && svc.State() == old(svc.State())
      ensures old(!stalled && !aborted && !registered[stage]) ==>
        Course() == old(Course()).(timedOut := old(timedOut) || (Timed(old(stage)) && overBudget))
      ensures old(!stalled && !aborted && registered[stage]) ==> Leads(old(Course()), overBudget, out, Course())
    {
      hide WellFormed, Reported, Landed, Cleared, Wrap, PolicyOf, FaultOf, Exhausted, Noted, Moved;
      if aborted || stalled {
        return;
      }
      StepLeads(State(), overBudget, out, landing, accepted);
      CheckBudget(overBudget);
      if !registered[stage] {
        return;
      }
      Apply(out, landing, accepted);
    }

    method Apply(out: Outcome, landing: seq<nat>, accepted: bool)
      requires Valid()
      modifies this, entries, svc.table, svc`reentries, svc`undelivered, svc`asked
      ensures Valid()
      ensures State() == Applied(old(State()), out, landing, accepted)
    {
      hide WellFormed, Reported, Landed, Cleared, Wrap, PolicyOf, FaultOf, Exhausted, Noted;
      var fault := if out.fault != 0 then out.fault else FaultOf(stage);
      match out.result {
        case Working =>
          log := log + [Turn(stage, Working, false, stage)];
        case Done =>
          FinishDone(fault, landing);
        case Retry =>
          FinishRetry(fault, landing);
        case Back =>
          FinishBack(out.backTo, fault, landing, accepted);
        case Abort =>
          FinishAbort(fault, landing);
      }
    }

    /** mission_abort. */
    method Abort(why: FaultId)
      requires Valid()
      modifies this`aborted, this`cause, this`operational
      ensures Valid()
      ensures Course() == AbortedFor(old(Course()), why)
      ensures aborted && cause == (if old(aborted) then old(cause) else why) && (!old(aborted) ==> !operational)
    {
      if aborted {
        return;
      }
      aborted := true;
      cause := why;
      operational := false;
    }
  }
}
