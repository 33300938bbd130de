/** The counters of one fault class: reported by any context, serviced and cleared only
    by the loop, with interrupts landing between any two of the loop's accesses. */
module FaultClass {
  import opened Words

  datatype Severity = Minor | Medium | Critical | Severe

  datatype Escalation = LogOnly | ReportFlag | PowerReset

  datatype Policy = Policy(severity: Severity, escalation: Escalation, limit: u16)

  /** Where the loop is inside a service pass or a clear of this class. With each register
      goes how many reports had been made when its value was current. */
  datatype Loop =
    | Outside
    | Loaded(reported: u32, made: nat)
    | Classifying(news: u32, countedTo: nat)
    | Clearing

  /** The counters the code keeps, the loop's position, and the history: reports made,
      how many of them had been made when the class was last serviced and last cleared,
      escalations since the last clear, passes that found news, escalations ever, and those
      made for re-entries. */
  datatype Entry = Entry(
    reported: u32,
    serviced: u32,
    occurrences: u32,
    escalations: u32,
    flag: bool,
    elevated: bool,
    loop: Loop,
    made: nat,
    servicedTo: nat,
    clearedAt: nat,
    escalatedSinceClear: nat,
    passesWithNews: nat,
    escalatedEver: nat,
    renoted: nat)

  datatype Step =
    | Report             // guarded, so atomic, from any context
    | LoadReported       // the three accesses of a service pass
    | StoreServiced
    | Classify
    | ClearServiced      // guarded; then the record, which only the loop touches
    | ClearRecord

  const NEW: Entry := Entry(0, 0, 0, 0, false, false, Outside, 0, 0, 0, 0, 0, 0, 0)

  /** Whether classify() escalates, given the occurrence count it has just stored. */
  predicate Escalates(p: Policy, occurrences: u32, elevated: bool)
  {
    match p.severity
    case Severe => true
    case Critical => p.limit != 0 && occurrences >= p.limit && !elevated
    case _ => false
  }

  function Next(p: Policy, e: Entry, step: Step): Entry
  {
    match step
    case Report =>
      e.(reported := Wrap(e.reported + 1), made := e.made + 1)
    case LoadReported =>
      if e.loop.Outside? then e.(loop := Loaded(e.reported, e.made)) else e
    case StoreServiced =>
      if !e.loop.Loaded? then e
      else
        var news := Wrap((e.loop.reported as int) - e.serviced);
        if news == 0 then e.(loop := Outside)
        else e.(serviced := e.loop.reported, loop := Classifying(news, e.servicedTo), servicedTo := e.loop.made)
    case Classify =>
      if !e.loop.Classifying? then e
      else
        var n := Wrap(e.occurrences + e.loop.news);
        var up := Escalates(p, n, e.elevated);
        e.(
          occurrences := n,
          flag := true,
          elevated := e.elevated || (up && p.severity.Critical?),
          escalations := if up then Wrap(e.escalations + 1) else e.escalations,
          loop := Outside,
          escalatedSinceClear := e.escalatedSinceClear + (if up then 1 else 0),
          passesWithNews := e.passesWithNews + 1,
          escalatedEver := e.escalatedEver + (if up then 1 else 0))
    case ClearServiced =>
      if e.loop.Outside? then
        e.(serviced := e.reported, loop := Clearing, servicedTo := e.made, clearedAt := e.made, escalatedSinceClear := 0)
      else e
    case ClearRecord =>
      if e.loop.Clearing? then e.(occurrences := 0, flag := false, elevated := false, loop := Outside) else e
  }

  function Run(p: Policy, e: Entry, steps: seq<Step>): Entry
  {
    if steps == [] then e else Next(p, Run(p, e, steps[..|steps| - 1]), steps[|steps| - 1])
  }

  /** svc_fdir_occurrences: serviced and unserviced reports together. */
  function Occurrences(e: Entry): u32
  {
    Wrap(e.occurrences + Wrap((e.reported as int) - e.serviced))
  }

  /** svc_fdir_retries_exhausted. */
  predicate Exhausted(p: Policy, e: Entry)
  {
    p.limit != 0 && Occurrences(e) >= p.limit
  }

  function ReportsSinceClear(e: Entry): int
  {
    e.made - e.clearedAt
  }

  /** How far the record counts: up to the last service, or the one before while the
      newest reports are still in the loop's hands. */
  function CountedTo(e: Entry): nat
  {
    match e.loop
    case Classifying(_, to) => to
    case _ => e.servicedTo
  }

  ghost predicate Counts(e: Entry)
  {
    && e.clearedAt <= e.servicedTo <= e.made
    && e.reported == Wrap(e.made)
    && e.serviced == Wrap(e.servicedTo)
    && (!e.loop.Clearing? ==> e.occurrences == Wrap(CountedTo(e) - e.clearedAt) && (e.flag <==> CountedTo(e) > e.clearedAt))
    && match e.loop
       case Outside => true
       case Loaded(r, m) => e.servicedTo <= m <= e.made && r == Wrap(m)
       case Classifying(n, to) => e.clearedAt <= to < e.servicedTo && n == Wrap(e.servicedTo - to)
       case Clearing => e.servicedTo == e.clearedAt
  }

  ghost predicate Escalated(p: Policy, e: Entry)
  {
    && e.escalations == Wrap(e.escalatedEver + e.renoted)
    && (e.loop.Clearing? ==> e.escalatedSinceClear == 0)
    && (p.severity.Severe? ==> e.escalatedEver == e.passesWithNews)
    && (p.severity.Minor? || p.severity.Medium? ==> e.escalatedEver == 0 && !e.elevated)
    && (p.severity.Critical? && !e.loop.Clearing? ==>
          && e.escalatedSinceClear == (if e.elevated then 1 else 0)
          && (ReportsSinceClear(e) < TWO_32 ==>
                (e.elevated <==> p.limit != 0 && CountedTo(e) - e.clearedAt >= p.limit)))
  }

  lemma CountsKept(p: Policy, e: Entry, step: Step)
    requires Counts(e)
    ensures Counts(Next(p, e, step))
  {
    hide Wrap, Escalates;
    WrapAdd(e.made, 1);
    match step
    case StoreServiced =>
      if e.loop.Loaded? {
        WrapDifference(e.loop.made, e.servicedTo);
        WrapSmall(0);
      }
    case Classify =>
      if e.loop.Classifying? {
        WrapSum(e.loop.countedTo - e.clearedAt, e.servicedTo - e.loop.countedTo);
      }
    case ClearRecord =>
      WrapSmall(0);
    case _ =>
  }

  /** The count classify() stores is the number serviced since the clear. */
  lemma StoredCount(p: Policy, e: Entry)
    requires Counts(e) && e.loop.Classifying?
    ensures Next(p, e, Classify).occurrences == Wrap(e.servicedTo - e.clearedAt)
    ensures ReportsSinceClear(e) < TWO_32 ==> Next(p, e, Classify).occurrences == e.servicedTo - e.clearedAt
  {
    hide Wrap, Escalates;
    WrapSum(e.loop.countedTo - e.clearedAt, e.servicedTo - e.loop.countedTo);
    if ReportsSinceClear(e) < TWO_32 {
      WrapSmall(e.servicedTo - e.clearedAt);
    }
  }

  lemma EscalatedKept(p: Policy, e: Entry, step: Step)
    requires Counts(e) && Escalated(p, e)
    ensures Escalated(p, Next(p, e, step))
  {
    hide Wrap;
    WrapAdd(e.escalatedEver + e.renoted, 1);
    match step
    case Classify =>
      if e.loop.Classifying? {
        StoredCount(p, e);
      }
    case StoreServiced =>
    case LoadReported =>
    case Report =>
    case ClearServiced =>
    case ClearRecord =>
  }

  ghost predicate Inv(p: Policy, e: Entry)
  {
    Counts(e) && Escalated(p, e)
  }

  lemma {:induction false} RunKeeps(p: Policy, e: Entry, steps: seq<Step>)
    requires Inv(p, e)
    ensures Inv(p, Run(p, e, steps))
  {
    hide Counts, Escalated, Next;
    if steps != [] {
      var q := Run(p, e, steps[..|steps| - 1]);
      RunKeeps(p, e, steps[..|steps| - 1]);
      CountsKept(p, q, steps[|steps| - 1]);
      EscalatedKept(p, q, steps[|steps| - 1]);
    }
  }

  lemma NewIsSound(p: Policy)
    ensures Inv(p, NEW)
  {
  }

  lemma OccurrencesAreReports(e: Entry)
    requires Counts(e) && e.loop.Outside?
    ensures Occurrences(e) == Wrap(ReportsSinceClear(e))
  {
    hide Wrap;
    WrapDifference(e.made, e.servicedTo);
    WrapSum(e.servicedTo - e.clearedAt, e.made - e.servicedTo);
  }

  /** When no retry is left: exactly when the reports since the last clear, as far as 32
      bits count them, have reached the limit. */
  lemma ExhaustedExactly(p: Policy, e: Entry)
    requires Counts(e) && e.loop.Outside?
    ensures Exhausted(p, e) <==> p.limit != 0 && Wrap(ReportsSinceClear(e)) >= p.limit
  {
    hide Wrap;
    OccurrencesAreReports(e);
  }

  /** Whenever the loop asks, before or after servicing, whatever the interleaving: the
      occurrence count is the number of reports since the last clear. */
  lemma NoReportLostOrCountedTwice(p: Policy, steps: seq<Step>)
    ensures var e := Run(p, NEW, steps);
      e.loop.Outside? ==> Occurrences(e) == Wrap(ReportsSinceClear(e))
  {
    hide Wrap, Run, Occurrences, Escalated;
    NewIsSound(p);
    RunKeeps(p, NEW, steps);
    var e := Run(p, NEW, steps);
    if e.loop.Outside? {
      OccurrencesAreReports(e);
    }
  }

  lemma EscalationsInEpoch(p: Policy, e: Entry)
    requires Inv(p, e) && p.severity.Critical?
    ensures e.escalatedSinceClear <= 1
    ensures e.loop.Outside? && ReportsSinceClear(e) < TWO_32 ==>
      e.escalatedSinceClear == if p.limit != 0 && e.occurrences >= p.limit then 1 else 0
  {
    hide Wrap;
    if e.loop.Outside? && ReportsSinceClear(e) < TWO_32 {
      WrapSmall(e.servicedTo - e.clearedAt);
    }
  }

  /** A critical class escalates once per epoch if the serviced count reaches its limit,
      and otherwise not at all, as long as the counter does not wrap within the epoch. */
  lemma CriticalEscalatesOncePerEpoch(p: Policy, steps: seq<Step>)
    requires p.severity.Critical?
    ensures var e := Run(p, NEW, steps);
      && e.escalatedSinceClear <= 1
      && (e.loop.Outside? && ReportsSinceClear(e) < TWO_32 ==>
            e.escalatedSinceClear == if p.limit != 0 && e.occurrences >= p.limit then 1 else 0)
  {
    hide Run, Wrap, Inv, Counts, Escalated;
    NewIsSound(p);
    RunKeeps(p, NEW, steps);
    EscalationsInEpoch(p, Run(p, NEW, steps));
  }

  /** A severe class escalates once for every pass that finds news; lower tiers never. */
  lemma OtherTiersEscalate(p: Policy, steps: seq<Step>)
    requires !p.severity.Critical?
    ensures var e := Run(p, NEW, steps);
      e.escalatedEver == if p.severity.Severe? then e.passesWithNews else 0
  {
    hide Run, Counts;
    NewIsSound(p);
    RunKeeps(p, NEW, steps);
  }

  // ---------- past 2^32 reports ----------

  function ManyReports(n: nat): (r: seq<Step>)
    ensures |r| == n
  {
    if n == 0 then [] else ManyReports(n - 1) + [Report]
  }

  lemma RunThen(p: Policy, e: Entry, steps: seq<Step>, step: Step)
    ensures Run(p, e, steps + [step]) == Next(p, Run(p, e, steps), step)
  {
    assert (steps + [step])[..|steps|] == steps;
  }

  lemma {:induction false} RunConcat(p: Policy, e: Entry, a: seq<Step>, b: seq<Step>)
    ensures Run(p, e, a + b) == Run(p, Run(p, e, a), b)
    decreases |b|
  {
    hide Next;
    if b == [] {
      assert a + b == a;
    } else {
      assert (a + b)[..|a + b| - 1] == a + b[..|b| - 1];
      RunConcat(p, e, a, b[..|b| - 1]);
    }
  }

  lemma {:induction false} ReportsAddUp(p: Policy, e: Entry, n: nat)
    ensures Run(p, e, ManyReports(n)) == e.(reported := Wrap(e.reported + n), made := e.made + n)
  {
    hide Wrap, Run;
    if n == 0 {
      WrapSmall(e.reported);
      NoSteps(p, e);
    } else {
      ReportsAddUp(p, e, n - 1);
      RunThen(p, e, ManyReports(n - 1), Report);
      WrapAdd(e.reported + n - 1, 1);
    }
  }

  lemma NoSteps(p: Policy, e: Entry)
    ensures Run(p, e, []) == e
  {
  }

  /** With 2^32 reports since the clear none of them shows: whatever the limit, the class has
      not used up a single retry. */
  lemma WrapHidesEveryReport(p: Policy)
    ensures var e := Run(p, NEW, ManyReports(TWO_32));
      && Inv(p, e) && e.loop.Outside? && ReportsSinceClear(e) == TWO_32
      && Occurrences(e) == 0 && !Exhausted(p, e)
  {
    hide Run, Counts, Escalated;
    NewIsSound(p);
    RunKeeps(p, NEW, ManyReports(TWO_32));
    ReportsAddUp(p, NEW, TWO_32);
  }

  /** The three accesses of a service pass. */
  const PASS: seq<Step> := [LoadReported, StoreServiced, Classify]

  lemma PassIsThree(p: Policy, e: Entry)
    ensures Run(p, e, PASS) == Next(p, Next(p, Next(p, e, LoadReported), StoreServiced), Classify)
  {
    hide Run, Next;
    NoSteps(p, e);
    RunThen(p, e, [], LoadReported);
    RunThen(p, e, [LoadReported], StoreServiced);
    RunThen(p, e, [LoadReported, StoreServiced], Classify);
    assert [] + [LoadReported] == [LoadReported];
    assert [LoadReported] + [StoreServiced] == [LoadReported, StoreServiced];
    assert [LoadReported, StoreServiced] + [Classify] == PASS;
  }

  /** When a pass escalates a critical class, however many reports there were: exactly when
      it finds news, the class is not elevated yet, and the reports since the clear, as far
      as 32 bits count them, have reached its limit. */
  lemma PassEscalatesIff(p: Policy, e: Entry)
    requires Counts(e) && e.loop.Outside? && p.severity.Critical?
    ensures Run(p, e, PASS).escalatedEver == e.escalatedEver + 1 <==>
      Wrap(e.made - e.servicedTo) != 0 && !e.elevated && p.limit != 0 && Wrap(ReportsSinceClear(e)) >= p.limit
    ensures Run(p, e, PASS).escalatedEver <= e.escalatedEver + 1
  {
    hide Wrap, Run;
    PassIsThree(p, e);
    WrapDifference(e.made, e.servicedTo);
    WrapSum(e.servicedTo - e.clearedAt, e.made - e.servicedTo);
  }

  /** So a critical class with 2^32 reports, far past its limit, does not escalate. */
  lemma WrapHidesEscalation(p: Policy)
    requires p.severity.Critical?
    ensures var e := Run(p, NEW, ManyReports(TWO_32) + PASS);
      e.escalatedEver == 0 && ReportsSinceClear(e) == TWO_32 && e.occurrences == 0
  {
    hide Run, Escalated, Next;
    ReportsAddUp(p, NEW, TWO_32);
    RunConcat(p, NEW, ManyReports(TWO_32), PASS);
    NoNewsNoPass(p, Run(p, NEW, ManyReports(TWO_32)));
  }

  lemma NoNewsNoPass(p: Policy, e: Entry)
    requires e.loop.Outside? && e.reported == e.serviced
    ensures Run(p, e, PASS) == e
  {
    hide Run, Escalates, Wrap;
    PassIsThree(p, e);
    WrapSmall(0);
  }
}
