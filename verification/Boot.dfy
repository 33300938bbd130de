/** The boot sequence: five steps in order, each retried in place until it passes or its
    fault class has no tolerance left. */
module Boot {
  import opened Words
  import opened FaultClass
  import opened FaultService
  import opened FaultPass

  const STEPS: nat := 5

  /** Safe outputs, platform, self test, devices, links. */
  const K_FAULT: seq<nat> := [2, 1, 3, 4, 5]

  function FaultOf(step: nat): (id: nat)
    requires step < STEPS
    ensures 1 <= id <= 5
  {
    K_FAULT[step]
  }

  function Limit(step: nat): u16
    requires step < STEPS
  {
    PolicyOf(FaultOf(step)).limit
  }

  /** How often a step may be attempted: once if its class has no tolerance. */
  function Tolerance(step: nat): (n: nat)
    requires step < STEPS
    ensures n >= 1
  {
    if Limit(step) == 0 then 1 else Limit(step)
  }

  /** Platform counters, one per interrupt source. */
  type Reading = p: Platform | |p.irqDropped| == IRQ_SOURCES witness Platform(0, 0, [0, 0, 0, 0, 0, 0])

  /** One attempt as its surroundings make it: what the step returns, whether it took too
      long, what interrupts report before the service pass, what the pass then finds, and
      what interrupts report between its accesses. */
  datatype Attempt = Attempt(status: Status, overBudget: bool, landing: seq<nat>, now: Reading, link: nat -> bool, amid: Disturbance)

  lemma BootPolicies(step: nat)
    requires step < STEPS
    ensures var p := PolicyOf(FaultOf(step));
      if p.limit == 0 then p.severity.Severe? else p.severity.Critical? && p.escalation.PowerReset?
  {
  }

  /** Each step has a class of its own, in the order of the classes but for the first two; the
      first, safe outputs, gets one attempt, and every other three. */
  lemma StepsBlame(step: nat, other: nat)
    requires step < STEPS && other < STEPS
    ensures FaultOf(step) == FaultOf(other) <==> step == other
    ensures FaultOf(step) == SAFE_OUTPUTS <==> step == 0
    ensures 1 <= step < other ==> FaultOf(step) < FaultOf(other)
    ensures step > 0 ==> FaultOf(step) in BOOT_STEPS
    ensures Tolerance(step) == if step == 0 then 1 else 3
  {
  }

  // ---------- one attempt ----------

  /** Reported, joined by what interrupts report, and serviced on the spot. */
  function Failed(f: Faults, own: nat, a: Attempt): (r: Faults)
    requires |f.table| == CLASSES && |f.seen.irqDropped| == IRQ_SOURCES
    ensures |r.table| == CLASSES && |r.seen.irqDropped| == IRQ_SOURCES
  {
    PassAmid(Landed(Reported(f, own), a.landing), a.now, a.link, a.amid)
  }

  /** One that passed is only reported and serviced if it was late. */
  function Succeeded(f: Faults, own: nat, a: Attempt): (r: Faults)
    requires |f.table| == CLASSES && |f.seen.irqDropped| == IRQ_SOURCES
    ensures |r.table| == CLASSES && |r.seen.irqDropped| == IRQ_SOURCES
  {
    if a.overBudget then Failed(f, own, a) else Landed(f, a.landing)
  }

  /** How often interrupts report a class during a pass, however many overruns the pass
      collects. */
  function MostHeard(a: Attempt, c: nat): nat
  {
    Times(During(a.amid.overruns, TWO_32 - 1) + a.amid.overflow + During(a.amid.drops, IRQ_SOURCES), c) + Times(HeardFrom(a.amid, 1), c)
  }

  /** How often interrupts report a class during a pass that has already loaded it. */
  function TooLate(a: Attempt, c: nat): nat
    requires c < CLASSES
  {
    Times(AfterLoad(a.amid, c), c)
  }

  lemma {:induction false} DuringGrows(p: nat -> seq<nat>, c: nat, m: nat, n: nat)
    requires m <= n
    ensures Times(During(p, m), c) <= Times(During(p, n), c)
  {
    if m < n {
      DuringGrows(p, c, m, n - 1);
      TimesConcat(During(p, n - 1), p(n - 1), c);
    }
  }

  /** A boot class gains from a pass only what interrupts report in it. */
  lemma PassReportsAtMost(f: Faults, a: Attempt, c: nat)
    requires |f.table| == CLASSES && |f.seen.irqDropped| == IRQ_SOURCES && 1 <= c <= 5
    ensures PassReports(f, a.now, a.link, a.amid, c) <= MostHeard(a, c)
  {
    hide During, Times, HeardFrom, Undeliveries, CollectAmid, Changed, Wrap;
    var d := a.amid;
    var n := Wrap((a.now.overruns as int) - f.seen.overruns);
    DuringGrows(d.overruns, c, n, TWO_32 - 1);
    TimesConcat(During(d.overruns, n), d.overflow, c);
    TimesConcat(During(d.overruns, n) + d.overflow, During(d.drops, IRQ_SOURCES), c);
    TimesConcat(During(d.overruns, TWO_32 - 1), d.overflow, c);
    TimesConcat(During(d.overruns, TWO_32 - 1) + d.overflow, During(d.drops, IRQ_SOURCES), c);
  }

  /** A class some reports later, between two bounds, not cleared meanwhile. */
  ghost predicate Between(e: Entry, r: Entry, low: nat, high: nat)
  {
    r.clearedAt == e.clearedAt && e.made + low <= r.made <= e.made + high
  }

  /** What a failed attempt, or a late one, at a step of class own does to each boot class: it
      adds its own report and those of the interrupts; it services at least what was reported
      before the pass, and leaves exactly what interrupts report after the class is loaded. */
  lemma AfterFailure(f: Faults, own: nat, a: Attempt, c: nat)
    requires AllSound(f) && |f.table| == CLASSES && |f.seen.irqDropped| == IRQ_SOURCES && 1 <= c <= 5
    ensures var r := Failed(f, own, a); var n := (if c == own then 1 else 0) + Times(a.landing, c);
      && AllSound(r)
      && Between(f.table[c], r.table[c], n, n + MostHeard(a, c))
      && r.table[c].servicedTo >= f.table[c].servicedTo
      && (ReportsSinceClear(r.table[c]) < TWO_32 ==>
            r.table[c].servicedTo >= f.table[c].made + n && r.table[c].made - r.table[c].servicedTo == TooLate(a, c))
      && (r.table[c].servicedTo > f.table[c].servicedTo ==> NewsFound(r.table[c]) > NewsFound(f.table[c]))
  {
    hide AllSound, PassAmid, PolicyOf, Inv, Landed, Reported, MostHeard, Times, TooLate;
    var g := Reported(f, own);
    var h := Landed(g, a.landing);
    ReportedSound(f, own);
    LandedSound(g, a.landing);
    ReportedGains(f, own, c);
    LandedGains(g, a.landing, c);
    AfterPass(h, a, c);
  }

  lemma AfterPass(f: Faults, a: Attempt, c: nat)
    requires AllSound(f) && |f.table| == CLASSES && |f.seen.irqDropped| == IRQ_SOURCES && 1 <= c <= 5
    ensures var e, r := f.table[c], PassAmid(f, a.now, a.link, a.amid);
      && |r.table| == CLASSES && AllSound(r)
      && Between(e, r.table[c], 0, MostHeard(a, c))
      && r.table[c].servicedTo >= e.servicedTo
      && (ReportsSinceClear(r.table[c]) < TWO_32 ==>
            r.table[c].servicedTo >= e.made && r.table[c].made - r.table[c].servicedTo == TooLate(a, c))
      && (r.table[c].servicedTo > e.servicedTo ==> NewsFound(r.table[c]) > NewsFound(e))
  {
    hide AllSound, PassAmid, PassReports, StartReports, Undeliveries, PolicyOf, Inv, MostHeard, Times, AfterLoad, Late;
    InterruptedPass(f, a.now, a.link, a.amid, c);
    PassReportsAtMost(f, a, c);
    PassReportsAtLeast(f, a, c);
    if ReportsSinceClear(PassAmid(f, a.now, a.link, a.amid).table[c]) < TWO_32 {
      PassLeaves(f, a.now, a.link, a.amid, c);
    }
  }

  lemma PassReportsAtLeast(f: Faults, a: Attempt, c: nat)
    requires |f.table| == CLASSES && |f.seen.irqDropped| == IRQ_SOURCES
    ensures PassReports(f, a.now, a.link, a.amid, c) >= StartReports(f, a.now, a.amid, c) >= 0
  {
    hide StartReports, HeardFrom, Undeliveries, Times, CollectAmid;
  }

  lemma ReportedSound(f: Faults, id: nat)
    requires AllSound(f) && |f.table| == CLASSES
    ensures AllSound(Reported(f, id))
  {
    hide PolicyOf, Counts, Escalated, Reported;
    forall c | 0 <= c < CLASSES
      ensures Reported(f, id).table[c].loop.Outside? && Inv(PolicyOf(c), Reported(f, id).table[c])
    {
      ReportedGains(f, id, c);
    }
  }

  /** What an attempt that passed does to each boot class. In time, it only leaves what the
      interrupts reported meanwhile, and services nothing; late, it is one more report of its
      class, serviced on the spot, and escalates a class without tolerance. */
  lemma AfterSuccess(f: Faults, own: nat, a: Attempt, c: nat)
    requires AllSound(f) && |f.table| == CLASSES && |f.seen.irqDropped| == IRQ_SOURCES && 1 <= c <= 5
    ensures var e, r := f.table[c], Succeeded(f, own, a); var g := r.table[c]; var landed := Times(a.landing, c);
      && AllSound(r)
      && (!a.overBudget ==> Between(e, g, landed, landed) && g.servicedTo == e.servicedTo && g.escalatedEver == e.escalatedEver && g.elevated == e.elevated)
      && (a.overBudget ==>
            && Between(e, g, (if c == own then 1 else 0) + landed, (if c == own then 1 else 0) + landed + MostHeard(a, c))
            && (ReportsSinceClear(g) < TWO_32 && c == own ==>
                  g.servicedTo > e.made && (PolicyOf(c).severity.Severe? ==> g.escalatedEver > e.escalatedEver)))
  {
    hide AllSound, Failed, Landed, MostHeard, Times, PolicyOf, TooLate, Counts;
    if a.overBudget {
      AfterFailure(f, own, a, c);
      SoundAt(f, c);
      SoundAt(Failed(f, own, a), c);
      ServicedIsMade(f.table[c]);
    } else {
      LandedSound(f, a.landing);
      LandedOn(f, a.landing, c);
    }
  }

  // ---------- the attempts of one step ----------

  /** The table after n failed attempts. */
  function FailedTimes(f: Faults, own: nat, row: nat -> Attempt, n: nat): (r: Faults)
    requires |f.table| == CLASSES && |f.seen.irqDropped| == IRQ_SOURCES
    ensures |r.table| == CLASSES && |r.seen.irqDropped| == IRQ_SOURCES
  {
    if n == 0 then f else Failed(FailedTimes(f, own, row, n - 1), own, row(n - 1))
  }

  /** The table after a step that ended with its n-th attempt. */
  function Ended(f: Faults, own: nat, row: nat -> Attempt, n: nat, ok: bool): Faults
    requires |f.table| == CLASSES && |f.seen.irqDropped| == IRQ_SOURCES && n >= 1
  {
    if ok then Succeeded(FailedTimes(f, own, row, n - 1), own, row(n - 1)) else FailedTimes(f, own, row, n)
  }

  /** How often a class is reported at most by n attempts at a step of class own. */
  function ReportsMost(row: nat -> Attempt, own: nat, c: nat, n: nat): nat
  {
    if n == 0 then 0
    else ReportsMost(row, own, c, n - 1) + (if c == own then 1 else 0) + Times(row(n - 1).landing, c) + MostHeard(row(n - 1), c)
  }

  lemma {:induction false} ReportsOrdered(row: nat -> Attempt, own: nat, c: nat, m: nat, n: nat)
    requires m <= n
    ensures ReportsMost(row, own, c, m) <= ReportsMost(row, own, c, n)
  {
    hide MostHeard;
    if m < n {
      ReportsOrdered(row, own, c, m, n - 1);
    }
  }

  /** Each failed attempt reports its own class at least once. */
  lemma {:induction false} RoundsGain(f: Faults, own: nat, row: nat -> Attempt, n: nat, c: nat)
    requires AllSound(f) && |f.table| == CLASSES && |f.seen.irqDropped| == IRQ_SOURCES && 1 <= c <= 5
    ensures var r := FailedTimes(f, own, row, n);
      && AllSound(r)
      && Between(f.table[c], r.table[c], if c == own then n else 0, ReportsMost(row, own, c, n))
  {
    hide AllSound, Failed, MostHeard, Times;
    if n > 0 {
      RoundsGain(f, own, row, n - 1, c);
      AfterFailure(FailedTimes(f, own, row, n - 1), own, row(n - 1), c);
    }
  }

  lemma EndedGains(f: Faults, own: nat, row: nat -> Attempt, n: nat, ok: bool, c: nat)
    requires AllSound(f) && |f.table| == CLASSES && |f.seen.irqDropped| == IRQ_SOURCES && 1 <= c <= 5 && n >= 1
    ensures var r := Ended(f, own, row, n, ok);
      && |r.table| == CLASSES && AllSound(r)
      && Between(f.table[c], r.table[c], 0, ReportsMost(row, own, c, n))
  {
    hide AllSound, FailedTimes, Succeeded, MostHeard, Times, PolicyOf;
    RoundsGain(f, own, row, n, c);
    RoundsGain(f, own, row, n - 1, c);
    AfterSuccess(FailedTimes(f, own, row, n - 1), own, row(n - 1), c);
  }

  /** The counter of every boot class has room for all the reports the step may meet. */
  ghost predicate Roomy(f: Faults, own: nat, row: nat -> Attempt, cap: nat)
  {
    && |f.table| == CLASSES
    && forall c :: 1 <= c <= 5 ==> ReportsSinceClear(f.table[c]) + ReportsMost(row, own, c, cap) < TWO_32
  }

  lemma Room(f: Faults, own: nat, row: nat -> Attempt, cap: nat, n: nat)
    requires AllSound(f) && |f.table| == CLASSES && |f.seen.irqDropped| == IRQ_SOURCES && 1 <= own <= 5
    requires Roomy(f, own, row, cap) && n <= cap
    ensures n <= ReportsSinceClear(FailedTimes(f, own, row, n).table[own]) < TWO_32
  {
    hide AllSound, FailedTimes, ReportsMost;
    RoundsGain(f, own, row, n, own);
    ReportsOrdered(row, own, own, n, cap);
    SoundAt(f, own);
    CountIsNat(f.table[own]);
  }

  lemma CountIsNat(e: Entry)
    requires Counts(e)
    ensures ReportsSinceClear(e) >= 0
  {
  }

  /** For a sound critical class outside a pass: out of retries means enough reports, elevated
      means enough of them serviced. */
  lemma SpentAndElevated(p: Policy, e: Entry)
    requires Inv(p, e) && e.loop.Outside? && p.severity.Critical? && ReportsSinceClear(e) < TWO_32
    ensures Exhausted(p, e) <==> p.limit != 0 && ReportsSinceClear(e) >= p.limit
    ensures e.elevated <==> p.limit != 0 && e.servicedTo - e.clearedAt >= p.limit
    ensures e.elevated ==> Exhausted(p, e)
    ensures e.servicedTo == e.made ==> (Exhausted(p, e) <==> e.elevated)
  {
    hide Wrap, Exhausted;
    ExhaustedExactly(p, e);
    CountIsNat(e);
    WrapSmall(ReportsSinceClear(e));
  }

  /** What the loop finds after a failed attempt: no retry is left exactly if the reports have
      reached the limit, at the latest when the attempts have; the class is elevated exactly
      if they have without those too late for the pass; and a class with no tolerance has
      escalated. */
  lemma RoundVerdict(f: Faults, step: nat, row: nat -> Attempt, n: nat)
    requires AllSound(f) && |f.table| == CLASSES && |f.seen.irqDropped| == IRQ_SOURCES && step < STEPS
    requires n < Tolerance(step) && Roomy(f, FaultOf(step), row, Tolerance(step))
    ensures var own := FaultOf(step); var p := PolicyOf(own);
      var b, e := FailedTimes(f, own, row, n).table[own], FailedTimes(f, own, row, n + 1).table[own];
      && (Limit(step) > 0 ==>
            && (Exhausted(p, e) <==> ReportsSinceClear(e) >= Limit(step))
            && (e.elevated <==> ReportsSinceClear(e) - TooLate(row(n), own) >= Limit(step))
            && (n + 1 == Tolerance(step) ==> Exhausted(p, e)))
      && (Limit(step) == 0 ==> e.escalatedEver > b.escalatedEver)
  {
    hide AllSound, Failed, PolicyOf, FaultOf, MostHeard, TooLate, Times, Counts, Exhausted, ReportsMost, Roomy;
    var own := FaultOf(step);
    var g := FailedTimes(f, own, row, n);
    var e := Failed(g, own, row(n)).table[own];
    assert FailedTimes(f, own, row, n + 1) == Failed(g, own, row(n));
    RoundsGain(f, own, row, n, own);
    AfterFailure(g, own, row(n), own);
    Room(f, own, row, Tolerance(step), n + 1);
    SoundAt(g, own);
    SoundAt(Failed(g, own, row(n)), own);
    BootPolicies(step);
    if Limit(step) > 0 {
      SpentAndElevated(PolicyOf(own), e);
    } else {
      ServicedIsMade(g.table[own]);
    }
  }

  lemma ServicedIsMade(e: Entry)
    requires Counts(e)
    ensures e.servicedTo <= e.made
  {
  }

  /** The reports stayed below the limit after each of the first n attempts. */
  ghost predicate Tolerated(f: Faults, row: nat -> Attempt, own: nat, limit: u16, n: nat)
    requires |f.table| == CLASSES && |f.seen.irqDropped| == IRQ_SOURCES && own < CLASSES
  {
    forall k {:trigger FailedTimes(f, own, row, k)} :: 1 <= k <= n ==> ReportsSinceClear(FailedTimes(f, own, row, k).table[own]) < limit
  }

  /** How a step's class stands when the step is given up: its reports have reached the
      limit, and it is elevated exactly if they have without those too late for the last
      pass. */
  ghost predicate GivenUp(step: nat, last: Attempt, e: Entry)
    requires step < STEPS
  {
    Limit(step) > 0 ==>
      && ReportsSinceClear(e) >= Limit(step)
      && (e.elevated <==> ReportsSinceClear(e) - TooLate(last, FaultOf(step)) >= Limit(step))
  }

  /** A failed attempt, as the loop meets it: it either ends the step or leaves it tolerated
      and another attempt to make. */
  lemma AttemptVerdict(f: Faults, step: nat, row: nat -> Attempt, n: nat)
    requires AllSound(f) && |f.table| == CLASSES && |f.seen.irqDropped| == IRQ_SOURCES && step < STEPS
    requires n < Tolerance(step) && Roomy(f, FaultOf(step), row, Tolerance(step))
    requires Limit(step) > 0 ==> Tolerated(f, row, FaultOf(step), Limit(step), n)
    ensures FailedTimes(f, FaultOf(step), row, n + 1) == Failed(FailedTimes(f, FaultOf(step), row, n), FaultOf(step), row(n))
    ensures AllSound(FailedTimes(f, FaultOf(step), row, n + 1))
    ensures Limit(step) == 0 ==>
      n == 0 && FailedTimes(f, FaultOf(step), row, n + 1).table[FaultOf(step)].escalatedEver > f.table[FaultOf(step)].escalatedEver
    ensures var e := FailedTimes(f, FaultOf(step), row, n + 1).table[FaultOf(step)];
      if Limit(step) == 0 || Exhausted(PolicyOf(FaultOf(step)), e) then GivenUp(step, row(n), e)
      else n + 1 < Tolerance(step) && Tolerated(f, row, FaultOf(step), Limit(step), n + 1)
  {
    hide AllSound, Failed, PolicyOf, FaultOf, TooLate, Exhausted, ReportsMost, Roomy, ReportsSinceClear;
    RoundVerdict(f, step, row, n);
    RoundsGain(f, FaultOf(step), row, n + 1, FaultOf(step));
  }

  // ---------- given up without a power cycle ----------

  /** Interrupts that report the second step's class twice once it has been loaded. */
  function TwiceTooLate(id: nat): seq<nat>
  {
    if id == FaultOf(1) then [FaultOf(1), FaultOf(1)] else []
  }

  function Noisy(now: Reading, link: nat -> bool): Attempt
  {
    Attempt(ErrHardware, false, [], now, link, UNDISTURBED.(storing := TwiceTooLate))
  }

  lemma {:induction false} HeardOnlyOnce(d: Disturbance, id: nat)
    requires d == UNDISTURBED.(storing := TwiceTooLate) && 1 <= id <= CLASSES
    ensures HeardFrom(d, id) == if id == 1 then [1, 1] else []
    decreases CLASSES - id
  {
    if id < CLASSES {
      HeardOnlyOnce(d, id + 1);
      assert HeardAt(d, id) == if id == 1 then [1, 1] else [];
    }
  }

  lemma NoisyIsHeard(now: Reading, link: nat -> bool)
    ensures MostHeard(Noisy(now, link), 1) == 2 && TooLate(Noisy(now, link), 1) == 2
  {
    hide HeardFrom;
    var d := Noisy(now, link).amid;
    HeardOnlyOnce(d, 1);
    HeardOnlyOnce(d, 2);
    NothingDuring(TWO_32 - 1);
    NothingDuring(IRQ_SOURCES);
    assert d.storing(1) + d.classifying(1) + d.delivering(1) + [] == [1, 1];
    TimesTwo();
  }

  lemma TimesTwo()
    ensures Times([1, 1], 1) == 2 && Times([], 1) == 0
  {
    assert [1, 1][..1] == [1] && [1][..0] == [];
  }

  /** A run from the initial table whose one failed attempt spends the three retries of a step,
      two of them on reports that come too late for its pass: the step is given up, and
      nothing has asked for a power cycle. */
  lemma GivenUpUnelevated(now: Reading, link: nat -> bool)
    ensures var f := Fresh(now);
      && AllSound(f)
      && var e := FailedTimes(f, FaultOf(1), k => Noisy(now, link), 1).table[FaultOf(1)];
        ReportsSinceClear(e) == Limit(1) == 3 && Exhausted(PolicyOf(FaultOf(1)), e) && !e.elevated && e.escalatedSinceClear == 0
  {
    hide AllSound, Failed, MostHeard, TooLate, Times, Exhausted, Counts;
    var f, a := Fresh(now), Noisy(now, link);
    var e := Failed(f, 1, a).table[1];
    FreshIsSound(now);
    assert FailedTimes(f, 1, k => a, 1) == Failed(f, 1, a) by {
      assert FailedTimes(f, 1, k => a, 0) == f;
    }
    AfterFailure(f, 1, a, 1);
    NoisyIsHeard(now, link);
    NoTimes(1);
    SoundAt(Failed(f, 1, a), 1);
    BootPolicies(1);
    SpentAndElevated(PolicyOf(1), e);
    EscalationsInEpoch(PolicyOf(1), e);
  }

  lemma NothingYet(f: Faults, step: nat, row: nat -> Attempt)
    requires |f.table| == CLASSES && |f.seen.irqDropped| == IRQ_SOURCES && step < STEPS
    ensures FailedTimes(f, FaultOf(step), row, 0) == f && Tolerated(f, row, FaultOf(step), Limit(step), 0)
  {
  }

  lemma LastAttempt(f: Faults, own: nat, row: nat -> Attempt, n: nat)
    requires AllSound(f) && |f.table| == CLASSES && |f.seen.irqDropped| == IRQ_SOURCES && 1 <= own <= 5 && n >= 1
    ensures Ended(f, own, row, n, true) == Succeeded(FailedTimes(f, own, row, n - 1), own, row(n - 1))
    ensures Ended(f, own, row, n, false) == FailedTimes(f, own, row, n)
    ensures AllSound(Ended(f, own, row, n, true)) && AllSound(FailedTimes(f, own, row, n))
  {
    hide AllSound, FailedTimes, Succeeded;
    EndedGains(f, own, row, n, true, own);
    EndedGains(f, own, row, n, false, own);
  }

  function Bumped(s: seq<u32>, step: nat, n: nat): seq<u32>
    requires step < |s|
  {
    s[step := Wrap((s[step] as int) + n)]
  }

  lemma BumpedNone(s: seq<u32>, step: nat)
    requires step < |s|
    ensures Bumped(s, step, 0) == s
  {
    WrapSmall(s[step]);
  }

  lemma BumpedAgain(s: seq<u32>, step: nat, n: nat)
    requires step < |s|
    ensures var r := Bumped(s, step, n);
      Bumped(s, step, n + 1) == r[step := Wrap((r[step] as int) + 1)]
  {
    hide Wrap;
    WrapAdd((s[step] as int) + n, 1);
  }

  /** What the last attempt of a step that passed leaves of its class, after n - 1 failed ones:
      reported and serviced once more exactly if it was late. */
  ghost predicate PassedAs(before: Entry, last: Attempt, own: nat, e: Entry)
  {
    var landed := Times(last.landing, own);
    && (!last.overBudget ==> e.made == before.made + landed && e.servicedTo == before.servicedTo && e.escalatedEver == before.escalatedEver)
    && (last.overBudget ==> e.made > before.made + landed && e.servicedTo > before.made)
  }

  lemma PassingIs(f: Faults, step: nat, row: nat -> Attempt, n: nat)
    requires AllSound(f) && |f.table| == CLASSES && |f.seen.irqDropped| == IRQ_SOURCES && step < STEPS && n >= 1
    requires n <= Tolerance(step) && Roomy(f, FaultOf(step), row, Tolerance(step))
    ensures AllSound(Ended(f, FaultOf(step), row, n, true)) && |Ended(f, FaultOf(step), row, n, true).table| == CLASSES
    ensures PassedAs(FailedTimes(f, FaultOf(step), row, n - 1).table[FaultOf(step)], row(n - 1), FaultOf(step),
                     Ended(f, FaultOf(step), row, n, true).table[FaultOf(step)])
  {
    hide AllSound, FailedTimes, Succeeded, MostHeard, Times, PolicyOf, ReportsMost, Counts;
    var own := FaultOf(step);
    RoundsGain(f, own, row, n - 1, own);
    AfterSuccess(FailedTimes(f, own, row, n - 1), own, row(n - 1), own);
    EndedGains(f, own, row, n, true, own);
    ReportsOrdered(row, own, own, n, Tolerance(step));
  }

  // ---------- the whole sequence ----------

  /** How often a class may at most be reported by the steps from j on. */
  function RestReports(plan: nat -> nat -> Attempt, c: nat, j: nat): nat
    requires j <= STEPS
    decreases STEPS - j
  {
    if j == STEPS then 0
    else ReportsMost(plan(j), FaultOf(j), c, Tolerance(j)) + RestReports(plan, c, j + 1)
  }

  ghost predicate RoomFrom(f: Faults, plan: nat -> nat -> Attempt, j: nat)
  {
    && |f.table| == CLASSES && j <= STEPS
    && forall c :: 1 <= c <= 5 ==> ReportsSinceClear(f.table[c]) + RestReports(plan, c, j) < TWO_32
  }

  lemma RoomForStep(f: Faults, plan: nat -> nat -> Attempt, j: nat)
    requires RoomFrom(f, plan, j) && j < STEPS
    ensures Roomy(f, FaultOf(j), plan(j), Tolerance(j))
  {
    hide ReportsMost, FaultOf, Tolerance;
  }

  lemma RoomAfterStep(f: Faults, plan: nat -> nat -> Attempt, j: nat, n: nat, ok: bool)
    requires AllSound(f) && RoomFrom(f, plan, j) && j < STEPS && 1 <= n <= Tolerance(j)
    requires |f.table| == CLASSES && |f.seen.irqDropped| == IRQ_SOURCES
    ensures RoomFrom(Ended(f, FaultOf(j), plan(j), n, ok), plan, j + 1)
  {
    hide AllSound, ReportsMost, FaultOf, Tolerance, Ended;
    var g := Ended(f, FaultOf(j), plan(j), n, ok);
    EndedGains(f, FaultOf(j), plan(j), n, ok, 1);
    forall c | 1 <= c <= 5
      ensures ReportsSinceClear(g.table[c]) + RestReports(plan, c, j + 1) < TWO_32
    {
      ReportsOrdered(plan(j), FaultOf(j), c, n, Tolerance(j));
      EndedGains(f, FaultOf(j), plan(j), n, ok, c);
    }
  }

  /** The step passed at its n-th attempt, and not before; `late` is whether that one was late. */
  ghost predicate Passed(row: nat -> Attempt, step: nat, n: nat, late: bool)
    requires step < STEPS
  {
    && 1 <= n <= Tolerance(step) && row(n - 1).status == Ok && late == row(n - 1).overBudget
    && forall k :: 0 <= k < n - 1 ==> row(k).status != Ok
  }

  lemma StepPassed(row: nat -> Attempt, step: nat, n: nat)
    requires step < STEPS && 1 <= n <= Tolerance(step) && row(n - 1).status == Ok
    requires forall k :: 0 <= k < n - 1 ==> row(k).status != Ok
    ensures Passed(row, step, n, row(n - 1).overBudget)
  {
  }

  lemma StepSpent(row: nat -> Attempt, step: nat, n: nat)
    requires step < STEPS && 1 <= n <= Tolerance(step) && row(n - 1).status != Ok
    requires forall k :: 0 <= k < n - 1 ==> row(k).status != Ok
    ensures Spent(row, step, n)
  {
  }

  ghost predicate Spent(row: nat -> Attempt, step: nat, n: nat)
    requires step < STEPS
  {
    1 <= n <= Tolerance(step) && forall k :: 0 <= k < n ==> row(k).status != Ok
  }

  ghost predicate Forgotten(e: Entry)
  {
    ReportsSinceClear(e) == 0 && e.occurrences == 0 && !e.elevated && !e.flag
  }

  lemma ClearingForgets(f: Faults, id: nat)
    requires AllSound(f) && |f.table| == CLASSES && 1 <= id <= 5
    ensures AllSound(Cleared(f, id)) && Forgotten(Cleared(f, id).table[id])
  {
    hide AllSound;
    ClearedSound(f, id);
  }

  /** Every step passes at once and in time, and nothing else is reported. */
  ghost predicate Uneventful(plan: nat -> nat -> Attempt)
  {
    forall j :: 0 <= j < STEPS ==> var a := plan(j)(0); a.status == Ok && !a.overBudget && a.landing == []
  }

  lemma UneventfulStep(f: Faults, plan: nat -> nat -> Attempt, j: nat, n: nat, ok: bool)
    requires |f.table| == CLASSES && |f.seen.irqDropped| == IRQ_SOURCES && j < STEPS && n >= 1 && Uneventful(plan)
    requires ok <==> plan(j)(n - 1).status == Ok
    requires forall k :: 0 <= k < n - 1 ==> plan(j)(k).status != Ok
    ensures ok && Ended(f, FaultOf(j), plan(j), n, ok) == f
  {
    hide Failed, Landed;
    assert plan(j)(0).status == Ok;
    EmptyLanded(f);
  }

  lemma EveryBootClass(c: nat)
    requires 1 <= c <= 5
    ensures exists j :: 0 <= j < STEPS && FaultOf(j) == c
  {
    var j := if c == 1 then 1 else if c == 2 then 0 else c - 1;
    assert FaultOf(j) == c;
  }

  // ---------- the sequence in place ----------

  datatype Verdict = Pending | Success | Terminal

  class Sequence {
    const svc: Service
    const attempts: array<u32>
    const overBudget: array<bool>
    var failedStep: nat
    var outcome: Verdict

    ghost predicate Valid()
      reads this, svc, svc.table
    {
      svc.Valid() && attempts.Length == STEPS && overBudget.Length == STEPS
    }

    constructor (service: Service)
      requires service.Valid()
      ensures Valid() && svc == service && fresh(attempts) && fresh(overBudget)
    {
      svc := service;
      attempts := new u32[STEPS](i => 0);
      overBudget := new bool[STEPS](i => false);
      failedStep, outcome := STEPS, Pending;
    }

    /** An attempt that failed, or passed but not inside its budget: reported and serviced
        on the spot, with interrupts reporting during it and before it is serviced. */
    method ReportAttempt(own: nat, a: Attempt)
      requires Valid()
      modifies svc.table, svc`undelivered, svc`asked, svc`seen
      ensures Valid()
      ensures svc.State() == Failed(old(svc.State()), own, a)
    {
      hide Reported, Landed, PassAmid;
      svc.Report(own);
      svc.Land(a.landing);
      svc.ErrorHandling(a.now, a.link, a.amid);
    }

    /** An attempt that passed, in time or late. */
    method PassAttempt(own: nat, a: Attempt)
      requires Valid()
      modifies svc.table, svc`undelivered, svc`asked, svc`seen
      ensures Valid()
      ensures svc.State() == Succeeded(old(svc.State()), own, a)
      ensures svc.State() == if a.overBudget then Failed(old(svc.State()), own, a) else Landed(old(svc.State()), a.landing)
    {
      hide Failed, Landed;
      if a.overBudget {
        ReportAttempt(own, a);
      } else {
        svc.Land(a.landing);
      }
    }

    /** The n-th attempt at a step passes. */
    method Pass(step: nat, row: nat -> Attempt, n: nat, ghost f: Faults)
      requires Valid() && step < STEPS && 1 <= n <= Tolerance(step) && AllSound(f)
      requires |f.table| == CLASSES && |f.seen.irqDropped| == IRQ_SOURCES && Roomy(f, FaultOf(step), row, Tolerance(step))
      requires svc.State() == FailedTimes(f, FaultOf(step), row, n - 1)
      modifies svc.table, svc`undelivered, svc`asked, svc`seen, overBudget
      ensures Valid() && AllSound(svc.State()) && svc.State() == Ended(f, FaultOf(step), row, n, true)
      ensures overBudget[..] == old(overBudget[..])[step := row(n - 1).overBudget]
      ensures PassedAs(FailedTimes(f, FaultOf(step), row, n - 1).table[FaultOf(step)], row(n - 1), FaultOf(step), svc.table[FaultOf(step)])
    {
      hide AllSound, PolicyOf, Failed, Succeeded, Roomy, FaultOf, Tolerance, FailedTimes, Ended, PassedAs;
      LastAttempt(f, FaultOf(step), row, n);
      PassingIs(f, step, row, n);
      overBudget[step] := row(n - 1).overBudget;
      PassAttempt(FaultOf(step), row(n - 1));
    }

    /** run_step: ends within the tolerance of the step's class, at the first success or at
        the first failure with which the reports reach the limit. */
    method RunStep(step: nat, row: nat -> Attempt) returns (ok: bool, n: nat)
      requires Valid() && step < STEPS && AllSound(svc.State())
      requires Roomy(svc.State(), FaultOf(step), row, Tolerance(step))
      modifies svc.table, svc`undelivered, svc`asked, svc`seen, attempts, overBudget, this`failedStep
      ensures Valid() && AllSound(svc.State())
      ensures 1 <= n <= Tolerance(step)
      ensures attempts[..] == Bumped(old(attempts[..]), step, n)
      ensures ok <==> row(n - 1).status == Ok
      ensures forall k :: 0 <= k < n - 1 ==> row(k).status != Ok
      ensures overBudget[..] == if ok then old(overBudget[..])[step := row(n - 1).overBudget] else old(overBudget[..])
      ensures failedStep == if ok then old(failedStep) else step
      ensures svc.State() == Ended(old(svc.State()), FaultOf(step), row, n, ok)
      ensures ok ==>
        PassedAs(FailedTimes(old(svc.State()), FaultOf(step), row, n - 1).table[FaultOf(step)], row(n - 1), FaultOf(step), svc.table[FaultOf(step)])
      ensures Limit(step) > 0 ==> Tolerated(old(svc.State()), row, FaultOf(step), Limit(step), n - 1)
      ensures !ok ==> GivenUp(step, row(n - 1), svc.table[FaultOf(step)])
      ensures !ok && Limit(step) == 0 ==>
        n == 1 && svc.table[FaultOf(step)].escalatedEver > old(svc.table[FaultOf(step)]).escalatedEver
    {
      hide AllSound, PolicyOf, Exhausted, Wrap, Failed, Succeeded, Roomy, FaultOf, GivenUp, Tolerated, FailedTimes, Bumped, Ended, PassedAs;
      var own := FaultOf(step);
      var retryable := PolicyOf(own).limit > 0;
      ghost var f := svc.State();
      n := 0;
      BumpedNone(attempts[..], step);
      NothingYet(f, step, row);
      while true
        invariant 0 <= n < Tolerance(step) && Valid() && svc.State() == FailedTimes(f, own, row, n)
        invariant forall k :: 0 <= k < n ==> row(k).status != Ok
        invariant Limit(step) > 0 ==> Tolerated(f, row, own, Limit(step), n)
        invariant attempts[..] == Bumped(old(attempts[..]), step, n)
        invariant overBudget[..] == old(overBudget[..]) && failedStep == old(failedStep)
        decreases Tolerance(step) - n
      {
        var a := row(n);
        BumpedAgain(old(attempts[..]), step, n);
        attempts[step] := Wrap((attempts[step] as int) + 1);
        n := n + 1;
        if a.status == Ok {
          Pass(step, row, n, f);
          ok := true;
          return;
        }
        AttemptVerdict(f, step, row, n - 1);
        LastAttempt(f, own, row, n);
        ReportAttempt(own, a);
        var spent := svc.RetriesExhausted(own);
        if !retryable || spent {
          failedStep := step;
          ok := false;
          return;
        }
      }
    }

    method ClearReport()
      requires Valid()
      modifies attempts, overBudget, this`outcome, this`failedStep
      ensures Valid() && outcome == Pending && failedStep == STEPS
      ensures forall j :: 0 <= j < STEPS ==> attempts[j] == 0 && !overBudget[j]
    {
      for j := 0 to STEPS
        invariant forall i :: 0 <= i < j ==> attempts[i] == 0 && !overBudget[i]
      {
        attempts[j] := 0;
        overBudget[j] := false;
      }
      outcome := Pending;
      failedStep := STEPS;
    }

    /** On success a later failure of a boot class starts its count from zero. */
    method ForgetBootFaults()
      requires Valid() && AllSound(svc.State())
      modifies svc.table
      ensures Valid() && AllSound(svc.State())
      ensures forall c :: 1 <= c <= 5 ==> Forgotten(svc.table[c])
      ensures forall c :: 0 <= c < CLASSES ==> svc.table[c].made == old(svc.table[c]).made && svc.table[c].escalatedEver == old(svc.table[c]).escalatedEver
    {
      hide AllSound, Cleared, ClearedEntry, FaultOf;
      for j := 0 to STEPS
        invariant Valid() && AllSound(svc.State())
        invariant forall c :: 0 <= c < CLASSES ==> svc.table[c].made == old(svc.table[c]).made && svc.table[c].escalatedEver == old(svc.table[c]).escalatedEver
        invariant forall i :: 0 <= i < j ==> Forgotten(svc.table[FaultOf(i)])
      {
        ClearingForgets(svc.State(), FaultOf(j));
        OthersStay(svc.State(), FaultOf(j));
        ClearingMakesNone(svc.State(), FaultOf(j));
        svc.Clear(FaultOf(j));
      }
      forall c | 1 <= c <= 5
        ensures Forgotten(svc.table[c])
      {
        EveryBootClass(c);
      }
    }

    /** One step of the sequence, which leaves the record of the others alone. */
    method TakeStep(step: nat, plan: nat -> nat -> Attempt) returns (ok: bool)
      requires Valid() && step < STEPS && AllSound(svc.State()) && RoomFrom(svc.State(), plan, step)
      requires failedStep == STEPS && attempts[step] == 0
      modifies svc.table, svc`undelivered, svc`asked, svc`seen, attempts, overBudget, this`failedStep
      ensures Valid() && AllSound(svc.State())
      ensures forall j :: 0 <= j < STEPS && j != step ==> attempts[j] == old(attempts[j]) && overBudget[j] == old(overBudget[j])
      ensures ok ==> failedStep == STEPS && Passed(plan(step), step, attempts[step], overBudget[step]) && RoomFrom(svc.State(), plan, step + 1)
      ensures !ok ==>
        && failedStep == step && Spent(plan(step), step, attempts[step]) && attempts[step] >= 1
        && GivenUp(step, plan(step)(attempts[step] - 1), svc.table[FaultOf(step)])
      ensures Uneventful(plan) ==> ok && svc.State() == old(svc.State())
    {
      hide AllSound, RoomFrom, Roomy, Ended, FaultOf, Limit, Tolerated, Wrap, GivenUp, Uneventful, PassedAs, FailedTimes, Passed, Spent, PolicyOf;
      ghost var f, before := svc.State(), attempts[..];
      RoomForStep(f, plan, step);
      var n;
      ok, n := RunStep(step, plan(step));
      WrapSmall(n);
      OneBumped(before, attempts[..], step, n);
      if Uneventful(plan) {
        UneventfulStep(f, plan, step, n, ok);
      }
      if ok {
        StepPassed(plan(step), step, n);
        RoomAfterStep(f, plan, step, n, ok);
      } else {
        StepSpent(plan(step), step, n);
      }
    }

    /** boot_and_init: the steps in order, none begun before all earlier ones passed. */
    method BootAndInit(plan: nat -> nat -> Attempt) returns (st: Status)
      requires Valid() && AllSound(svc.State()) && RoomFrom(svc.State(), plan, 0)
      modifies this`outcome, this`failedStep, attempts, overBudget, svc.table, svc`undelivered, svc`asked, svc`seen
      ensures Valid() && AllSound(svc.State())
      ensures failedStep <= STEPS && (st == Ok <==> failedStep == STEPS)
      ensures outcome == if st == Ok then Success else Terminal
      ensures forall j :: 0 <= j < failedStep ==> Passed(plan(j), j, attempts[j], overBudget[j])
      ensures st == Ok ==> forall c :: 1 <= c <= 5 ==> Forgotten(svc.table[c])
      ensures Uneventful(plan) ==> st == Ok && forall c :: 0 <= c < CLASSES ==>
        svc.table[c].made == old(svc.table[c]).made && svc.table[c].escalatedEver == old(svc.table[c]).escalatedEver
      ensures st != Ok ==>
        && st == ErrHardware && Spent(plan(failedStep), failedStep, attempts[failedStep])
        && (forall j :: failedStep < j < STEPS ==> attempts[j] == 0)
        && GivenUp(failedStep, plan(failedStep)(attempts[failedStep] - 1), svc.table[FaultOf(failedStep)])
    {
      hide AllSound, RoomFrom, Roomy, Ended, FaultOf, Limit, Tolerated, Wrap, Forgotten, GivenUp, Uneventful, PassedAs, FailedTimes, Passed, Spent;
      ClearReport();
      var i := 0;
      while i < STEPS
        invariant 0 <= i <= STEPS && Valid() && AllSound(svc.State()) && RoomFrom(svc.State(), plan, i)
        invariant failedStep == STEPS
        invariant Uneventful(plan) ==> svc.State() == old(svc.State())
        invariant forall j :: 0 <= j < i ==> Passed(plan(j), j, attempts[j], overBudget[j])
        invariant forall j :: i <= j < STEPS ==> attempts[j] == 0
      {
        var ok := TakeStep(i, plan);
        if !ok {
          outcome := Terminal;
          return ErrHardware;
        }
        i := i + 1;
      }
      outcome := Success;
      ForgetBootFaults();
      return Ok;
    }
  }

  lemma ClearingMakesNone(f: Faults, id: nat)
    requires |f.table| == CLASSES && id < CLASSES
    ensures var e, r := f.table[id], Cleared(f, id).table[id]; r.made == e.made && r.escalatedEver == e.escalatedEver
  {
  }

  lemma OthersStay(f: Faults, id: nat)
    requires |f.table| == CLASSES
    ensures forall c :: 0 <= c < CLASSES && c != id ==> Cleared(f, id).table[c] == f.table[c]
  {
  }

  lemma OneBumped(before: seq<u32>, after: seq<u32>, step: nat, n: u32)
    requires step < |before| && before[step] == 0 && after == Bumped(before, step, n)
    ensures |after| == |before| && after[step] == n && forall j :: 0 <= j < |after| && j != step ==> after[j] == before[j]
  {
    WrapSmall(n);
  }
}
