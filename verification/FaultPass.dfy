/** What service passes account for when interrupts report between any two of their
    accesses, the refused deliveries they feed back included. */
module FaultPass {
  import opened Words
  import opened FaultClass
  import opened FaultService

  ghost predicate AllSound(f: Faults)
  {
    WellFormed(f) && forall c :: 0 <= c < CLASSES ==> Inv(PolicyOf(c), f.table[c])
  }

  /** Passes that found news, one under way included. */
  function NewsFound(e: Entry): nat
  {
    e.passesWithNews + (if e.loop.Classifying? then 1 else 0)
  }

  /** A class n reports later, never cleared in between. */
  ghost predicate Gained(p: Policy, e: Entry, r: Entry, n: nat)
  {
    && r.made == e.made + n && r.clearedAt == e.clearedAt && r.servicedTo >= e.servicedTo
    && NewsFound(r) >= NewsFound(e) && (r.servicedTo > e.servicedTo ==> NewsFound(r) > NewsFound(e))
    && r.escalatedEver - e.escalatedEver == r.escalatedSinceClear - e.escalatedSinceClear
    && (Inv(p, e) ==> Inv(p, r))
  }

  lemma GainedTwice(p: Policy, e: Entry, r: Entry, s: Entry, m: nat, n: nat)
    requires Gained(p, e, r, m) && Gained(p, r, s, n)
    ensures Gained(p, e, s, m + n)
  {
    hide Inv;
  }

  lemma {:induction false} TimesConcat(a: seq<nat>, b: seq<nat>, c: nat)
    ensures Times(a + b, c) == Times(a, c) + Times(b, c)
    decreases |b|
  {
    if b == [] {
      assert a + b == a;
    } else {
      assert (a + b)[..|a + b| - 1] == a + b[..|b| - 1];
      TimesConcat(a, b[..|b| - 1], c);
    }
  }

  lemma LandedGains(f: Faults, ids: seq<nat>, c: nat)
    requires |f.table| == CLASSES && c < CLASSES
    ensures Gained(PolicyOf(c), f.table[c], Landed(f, ids).table[c], Times(ids, c))
    ensures Landed(f, ids).table[c].loop == f.table[c].loop && Landed(f, ids).table[c].servicedTo == f.table[c].servicedTo
  {
    hide PolicyOf, Inv, Landed;
    LandedOn(f, ids, c);
  }

  lemma ReportedGains(f: Faults, id: nat, c: nat)
    requires |f.table| == CLASSES && c < CLASSES
    ensures Gained(PolicyOf(c), f.table[c], Reported(f, id).table[c], if id == c then 1 else 0)
    ensures Reported(f, id).table[c].loop == f.table[c].loop && Reported(f, id).table[c].servicedTo == f.table[c].servicedTo
  {
    hide PolicyOf, Inv, Reported;
    ReportedOn(f, id, c);
  }

  // ---------- what collecting the platform counters reports ----------

  function Changed(seen: seq<u32>, now: seq<u32>, source: nat): nat
    requires |seen| == |now| == IRQ_SOURCES && source <= IRQ_SOURCES
    decreases IRQ_SOURCES - source
  {
    if source == IRQ_SOURCES then 0
    else (if seen[source] != now[source] then 1 else 0) + Changed(seen, now, source + 1)
  }

  /** How often the collected counters report a class: every overrun since the last pass,
      the serial overflow once if it moved, and the interrupt overflow once for each source
      whose count moved. */
  function CollectedFor(f: Faults, now: Platform, c: nat): nat
    requires |f.seen.irqDropped| == |now.irqDropped| == IRQ_SOURCES
  {
    (if c == CYCLE_OVERRUN then Wrap((now.overruns as int) - f.seen.overruns) else 0)
    + (if c == UART_RX_OVERFLOW && now.uartOverflow != f.seen.uartOverflow then 1 else 0)
    + (if c == IRQ_OVERFLOW then Changed(f.seen.irqDropped, now.irqDropped, 0) else 0)
  }

  lemma {:induction false} ReportsGain(f: Faults, id: nat, times: nat, c: nat)
    requires |f.table| == CLASSES && c < CLASSES
    ensures Gained(PolicyOf(c), f.table[c], Reports(f, id, times).table[c], if id == c then times else 0)
    ensures Reports(f, id, times).table[c].servicedTo == f.table[c].servicedTo
  {
    hide PolicyOf, Gained, Reported;
    if times == 0 {
      Same(PolicyOf(c), f.table[c]);
    } else {
      var g := Reports(f, id, times - 1);
      ReportsGain(f, id, times - 1, c);
      ReportedGains(g, id, c);
      GainedTwice(PolicyOf(c), f.table[c], g.table[c], Reported(g, id).table[c], if id == c then times - 1 else 0, if id == c then 1 else 0);
    }
  }

  lemma GainedBounds(p: Policy, e: Entry, r: Entry, n: nat)
    requires Gained(p, e, r, n)
    ensures r.servicedTo >= e.servicedTo && r.made == e.made + n && r.clearedAt == e.clearedAt && ReportsSinceClear(r) == ReportsSinceClear(e) + n
  {
    hide Inv;
  }

  lemma Same(p: Policy, e: Entry)
    ensures Gained(p, e, e, 0)
  {
    hide Inv;
  }

  lemma {:induction false} ChangedAfter(seen: seq<u32>, now: seq<u32>, source: nat, at: nat)
    requires |seen| == |now| == IRQ_SOURCES && at < source <= IRQ_SOURCES
    ensures Changed(seen[at := now[at]], now, source) == Changed(seen, now, source)
    decreases IRQ_SOURCES - source
  {
    if source < IRQ_SOURCES {
      ChangedAfter(seen, now, source + 1, at);
    }
  }

  lemma {:induction false} DropsGain(f: Faults, now: Platform, source: nat, c: nat)
    requires |f.table| == CLASSES && |f.seen.irqDropped| == |now.irqDropped| == IRQ_SOURCES
    requires source <= IRQ_SOURCES && c < CLASSES
    ensures var n := if c == IRQ_OVERFLOW then Changed(f.seen.irqDropped, now.irqDropped, source) else 0;
      var r := CollectDrops(f, now, source).table[c];
      Gained(PolicyOf(c), f.table[c], r, n) && r.servicedTo == f.table[c].servicedTo
    decreases IRQ_SOURCES - source
  {
    hide PolicyOf, Gained, Reported;
    if source == IRQ_SOURCES {
      Same(PolicyOf(c), f.table[c]);
    } else if now.irqDropped[source] == f.seen.irqDropped[source] {
      DropsGain(f, now, source + 1, c);
    } else {
      var seen := f.seen.irqDropped[source := now.irqDropped[source]];
      var g := f.(seen := f.seen.(irqDropped := seen));
      var h := Reported(g, IRQ_OVERFLOW);
      ReportedGains(g, IRQ_OVERFLOW, c);
      DropsGain(h, now, source + 1, c);
      ChangedAfter(f.seen.irqDropped, now.irqDropped, source + 1, source);
      GainedTwice(PolicyOf(c), f.table[c], h.table[c], CollectDrops(h, now, source + 1).table[c],
                  if c == IRQ_OVERFLOW then 1 else 0, if c == IRQ_OVERFLOW then Changed(seen, now.irqDropped, source + 1) else 0);
    }
  }

  lemma OverflowGains(f: Faults, now: Platform, c: nat)
    requires |f.table| == CLASSES && c < CLASSES
    ensures var r := OverflowSeen(f, now).table[c];
      && Gained(PolicyOf(c), f.table[c], r, if c == UART_RX_OVERFLOW && now.uartOverflow != f.seen.uartOverflow then 1 else 0)
      && r.servicedTo == f.table[c].servicedTo
  {
    hide PolicyOf, Gained, Reported;
    Same(PolicyOf(c), f.table[c]);
    ReportedGains(f.(seen := f.seen.(uartOverflow := now.uartOverflow)), UART_RX_OVERFLOW, c);
  }

  lemma CollectGains(f: Faults, now: Platform, c: nat)
    requires |f.table| == CLASSES && |f.seen.irqDropped| == |now.irqDropped| == IRQ_SOURCES && c < CLASSES
    ensures Gained(PolicyOf(c), f.table[c], Collect(f, now).table[c], CollectedFor(f, now, c))
    ensures Collect(f, now).table[c].servicedTo == f.table[c].servicedTo
  {
    hide PolicyOf, Gained, Reports, OverflowSeen, CollectDrops, Changed, Wrap;
    var p, e := PolicyOf(c), f.table[c];
    var delta := Wrap((now.overruns as int) - f.seen.overruns);
    var a := OverrunsSeen(f, now);
    var b := OverflowSeen(a, now);
    ReportsGain(f.(seen := f.seen.(overruns := now.overruns)), CYCLE_OVERRUN, delta, c);
    OverflowGains(a, now, c);
    DropsGain(b, now, 0, c);
    var n1 := if c == CYCLE_OVERRUN then delta else 0;
    var n2 := if c == UART_RX_OVERFLOW && now.uartOverflow != f.seen.uartOverflow then 1 else 0;
    GainedTwice(p, e, a.table[c], b.table[c], n1, n2);
    GainedTwice(p, e, b.table[c], CollectDrops(b, now, 0).table[c], n1 + n2,
                if c == IRQ_OVERFLOW then Changed(f.seen.irqDropped, now.irqDropped, 0) else 0);
  }

  /** What collecting and the interrupts during it report of a class. */
  function StartReports(f: Faults, now: Platform, d: Disturbance, c: nat): nat
    requires |f.seen.irqDropped| == |now.irqDropped| == IRQ_SOURCES
  {
    CollectedFor(f, now, c) + Times(CollectHeard(f, now, d), c)
  }

  lemma CollectAmidGains(f: Faults, now: Platform, d: Disturbance, c: nat)
    requires |f.table| == CLASSES && |f.seen.irqDropped| == |now.irqDropped| == IRQ_SOURCES && c < CLASSES
    ensures Gained(PolicyOf(c), f.table[c], CollectAmid(f, now, d).table[c], StartReports(f, now, d, c))
  {
    hide PolicyOf, Gained, Collect, Landed, CollectedFor, CollectHeard;
    CollectGains(f, now, c);
    LandedGains(Collect(f, now), CollectHeard(f, now, d), c);
    GainedTwice(PolicyOf(c), f.table[c], Collect(f, now).table[c], CollectAmid(f, now, d).table[c],
                CollectedFor(f, now, c), Times(CollectHeard(f, now, d), c));
  }

  // ---------- what servicing one class does to another, and to itself ----------

  lemma AccessGains(f: Faults, id: nat, step: Step, c: nat)
    requires |f.table| == CLASSES && id < CLASSES && c < CLASSES
    requires step.LoadReported? || step.StoreServiced? || step.Classify?
    requires Counts(f.table[id])
    ensures Gained(PolicyOf(c), f.table[c], Accessed(f, id, step).table[c], 0)
  {
    hide PolicyOf, Wrap, Counts, Escalated, Escalates;
    if c == id {
      CountsKept(PolicyOf(id), f.table[id], step);
      if Escalated(PolicyOf(id), f.table[id]) {
        EscalatedKept(PolicyOf(id), f.table[id], step);
      }
      ServicedNeverBack(PolicyOf(id), f.table[id], step);
    }
  }

  lemma ServicedNeverBack(p: Policy, e: Entry, step: Step)
    requires Counts(e) && (step.LoadReported? || step.StoreServiced? || step.Classify?)
    ensures var r := Next(p, e, step);
      r.servicedTo >= e.servicedTo && NewsFound(r) >= NewsFound(e) && (r.servicedTo > e.servicedTo ==> NewsFound(r) > NewsFound(e))
  {
    hide Wrap, Escalates;
  }

  /** A store that follows a load services everything made up to the load, as long as the
      counter has not wrapped since the class was cleared. */
  lemma StoreReaches(p: Policy, e: Entry)
    requires Counts(e) && e.loop.Loaded? && e.loop.made - e.clearedAt < TWO_32
    ensures Next(p, e, StoreServiced).servicedTo == e.loop.made
  {
    hide Wrap;
    WrapDifference(e.loop.made, e.servicedTo);
    WrapSmall(e.loop.made - e.servicedTo);
  }

  /** What interrupts report while a class is serviced. */
  function HeardAt(d: Disturbance, id: nat): seq<nat>
  {
    d.loading(id) + d.storing(id) + d.classifying(id) + d.delivering(id)
  }

  /** Servicing a class decides on an escalation that is not delivered. */
  predicate Undelivered(f: Faults, id: nat, link: nat -> bool, d: Disturbance)
    requires |f.table| == CLASSES && id < CLASSES
  {
    && Decides(PolicyOf(id), BeforeClassify(f, id, d).table[id])
    && !PolicyOf(id).escalation.LogOnly?
    && !(f.uplinkSet && link(id))
  }

  lemma BeforeClassifyGains(f: Faults, id: nat, d: Disturbance, c: nat)
    requires |f.table| == CLASSES && id < CLASSES && c < CLASSES && Counts(f.table[id])
    ensures Gained(PolicyOf(c), f.table[c], BeforeClassify(f, id, d).table[c],
                   Times(d.loading(id), c) + Times(d.storing(id), c) + Times(d.classifying(id), c))
    ensures Counts(BeforeClassify(f, id, d).table[id])
  {
    hide PolicyOf, Gained, Landed, Accessed, Counts;
    var p := PolicyOf(c);
    var f1 := Landed(f, d.loading(id));
    var f2 := Accessed(f1, id, LoadReported);
    var f3 := Landed(f2, d.storing(id));
    var f4 := Accessed(f3, id, StoreServiced);
    var f5 := Landed(f4, d.classifying(id));
    LandedOn(f, d.loading(id), id);
    CountsAccessed(f1, id, LoadReported);
    LandedOn(f2, d.storing(id), id);
    CountsAccessed(f3, id, StoreServiced);
    LandedOn(f4, d.classifying(id), id);
    LandedGains(f, d.loading(id), c);
    AccessGains(f1, id, LoadReported, c);
    GainedTwice(p, f.table[c], f1.table[c], f2.table[c], Times(d.loading(id), c), 0);
    LandedGains(f2, d.storing(id), c);
    GainedTwice(p, f.table[c], f2.table[c], f3.table[c], Times(d.loading(id), c), Times(d.storing(id), c));
    AccessGains(f3, id, StoreServiced, c);
    var n := Times(d.loading(id), c) + Times(d.storing(id), c);
    GainedTwice(p, f.table[c], f3.table[c], f4.table[c], n, 0);
    LandedGains(f4, d.classifying(id), c);
    GainedTwice(p, f.table[c], f4.table[c], f5.table[c], n, Times(d.classifying(id), c));
  }

  /** Whatever lands between its accesses, servicing a class reaches exactly the reports made
      before its load. */
  lemma OwnServiced(f: Faults, id: nat, d: Disturbance)
    requires |f.table| == CLASSES && id < CLASSES && Counts(f.table[id]) && f.table[id].loop.Outside?
    requires ReportsSinceClear(BeforeClassify(f, id, d).table[id]) < TWO_32
    ensures BeforeClassify(f, id, d).table[id].servicedTo == f.table[id].made + Times(d.loading(id), id)
  {
    hide PolicyOf, Landed, Counts, Wrap, Times;
    var f1 := Landed(f, d.loading(id));
    var f2 := Accessed(f1, id, LoadReported);
    var f3 := Landed(f2, d.storing(id));
    var f4 := Accessed(f3, id, StoreServiced);
    LandedOn(f, d.loading(id), id);
    CountsAccessed(f1, id, LoadReported);
    LandedOn(f2, d.storing(id), id);
    LandedOn(f4, d.classifying(id), id);
    assert f4.table[id].made == f3.table[id].made && f4.table[id].clearedAt == f3.table[id].clearedAt;
    StoreReaches(PolicyOf(id), f3.table[id]);
  }

  lemma ClassifyServicesNone(f: Faults, id: nat)
    requires |f.table| == CLASSES && id < CLASSES
    ensures Accessed(f, id, Classify).table[id].servicedTo == f.table[id].servicedTo
  {
    hide PolicyOf, Escalates, Wrap;
  }

  lemma ServiceAmidGains(f: Faults, id: nat, link: nat -> bool, d: Disturbance, c: nat)
    requires |f.table| == CLASSES && id < CLASSES && c < CLASSES && Counts(f.table[id])
    ensures Gained(PolicyOf(c), f.table[c], ServiceAmid(f, id, link, d).table[c],
                   Times(HeardAt(d, id), c) + (if c == HK_TRANSMIT && f.uplinkSet && Undelivered(f, id, link, d) then 1 else 0))
    ensures c == id && f.table[id].loop.Outside? && ReportsSinceClear(ServiceAmid(f, id, link, d).table[c]) < TWO_32 ==>
      ServiceAmid(f, id, link, d).table[c].servicedTo == f.table[c].made + Times(d.loading(c), c)
    ensures ServiceAmid(f, id, link, d).undelivered == Wrap(f.undelivered + (if Undelivered(f, id, link, d) then 1 else 0))
  {
    hide PolicyOf, Gained, Landed, Accessed, Counts, BeforeClassify, Decides, Reported, Wrap;
    var p := PolicyOf(c);
    var b := BeforeClassify(f, id, d);
    var g := Accessed(b, id, Classify);
    var h := Landed(g, d.delivering(id));
    var n := Times(d.loading(id), c) + Times(d.storing(id), c) + Times(d.classifying(id), c);
    BeforeClassifyGains(f, id, d, c);
    AccessGains(b, id, Classify, c);
    GainedTwice(p, f.table[c], b.table[c], g.table[c], n, 0);
    LandedGains(g, d.delivering(id), c);
    GainedTwice(p, f.table[c], g.table[c], h.table[c], n, Times(d.delivering(id), c));
    HeardTimes(d, id, c);
    ReportedGains(h, HK_TRANSMIT, c);
    GainedTwice(p, f.table[c], h.table[c], Reported(h, HK_TRANSMIT).table[c], Times(HeardAt(d, id), c), if c == HK_TRANSMIT then 1 else 0);
    WrapSmall(f.undelivered);
    if c == id && f.table[id].loop.Outside? && ReportsSinceClear(ServiceAmid(f, id, link, d).table[c]) < TWO_32 {
      ClassifyServicesNone(b, id);
      GainedBounds(p, b.table[c], g.table[c], 0);
      GainedBounds(p, g.table[c], h.table[c], Times(d.delivering(id), c));
      GainedBounds(p, h.table[c], Reported(h, HK_TRANSMIT).table[c], if c == HK_TRANSMIT then 1 else 0);
      OwnServiced(f, id, d);
    }
  }

  lemma HeardTimes(d: Disturbance, id: nat, c: nat)
    ensures Times(HeardAt(d, id), c)
      == Times(d.loading(id), c) + Times(d.storing(id), c) + Times(d.classifying(id), c) + Times(d.delivering(id), c)
  {
    TimesConcat(d.loading(id), d.storing(id), c);
    TimesConcat(d.loading(id) + d.storing(id), d.classifying(id), c);
    TimesConcat(d.loading(id) + d.storing(id) + d.classifying(id), d.delivering(id), c);
  }

  lemma CountsAccessed(f: Faults, id: nat, step: Step)
    requires |f.table| == CLASSES && id < CLASSES && Counts(f.table[id])
    ensures Counts(Accessed(f, id, step).table[id])
  {
    hide Counts, PolicyOf, Next;
    CountsKept(PolicyOf(id), f.table[id], step);
  }

  lemma SoundAt(f: Faults, c: nat)
    requires AllSound(f) && c < CLASSES
    ensures WellFormed(f) && |f.table| == CLASSES && |f.seen.irqDropped| == IRQ_SOURCES
    ensures Inv(PolicyOf(c), f.table[c]) && Counts(f.table[c]) && f.table[c].loop.Outside?
  {
    hide Counts, Escalated, PolicyOf;
  }

  lemma ServiceAmidSound(f: Faults, id: nat, link: nat -> bool, d: Disturbance)
    requires AllSound(f) && id < CLASSES
    ensures AllSound(ServiceAmid(f, id, link, d))
  {
    hide PolicyOf, Counts, Escalated, ServiceAmid, Undelivered;
    ServiceAmidForm(f, id, link, d);
    SoundAt(f, id);
    forall c | 0 <= c < CLASSES
      ensures Inv(PolicyOf(c), ServiceAmid(f, id, link, d).table[c])
    {
      SoundAt(f, c);
      ServiceAmidGains(f, id, link, d, c);
    }
  }

  // ---------- the whole pass ----------

  function HeardFrom(d: Disturbance, id: nat): seq<nat>
    requires id <= CLASSES
    decreases CLASSES - id
  {
    if id == CLASSES then [] else HeardAt(d, id) + HeardFrom(d, id + 1)
  }

  /** How many escalations of the classes from id on are not delivered. */
  function Undeliveries(f: Faults, id: nat, link: nat -> bool, d: Disturbance): nat
    requires |f.table| == CLASSES && id <= CLASSES
    decreases CLASSES - id
  {
    if id == CLASSES then 0
    else
      (if Undelivered(f, id, link, d) then 1 else 0) + Undeliveries(ServiceAmid(f, id, link, d), id + 1, link, d)
  }

  function FedBack(f: Faults, c: nat, undeliveries: nat): nat
  {
    if c == HK_TRANSMIT && f.uplinkSet then undeliveries else 0
  }

  lemma {:induction false} ServiceFromAmidGains(f: Faults, id: nat, link: nat -> bool, d: Disturbance, c: nat)
    requires AllSound(f) && id <= CLASSES && c < CLASSES && |f.table| == CLASSES
    ensures var r := ServiceFromAmid(f, id, link, d);
      && AllSound(r) && |r.table| == CLASSES
      && Gained(PolicyOf(c), f.table[c], r.table[c], Times(HeardFrom(d, id), c) + FedBack(f, c, Undeliveries(f, id, link, d)))
      && (id <= c && ReportsSinceClear(r.table[c]) < TWO_32 ==> r.table[c].servicedTo >= f.table[c].made)
      && r.undelivered == Wrap(f.undelivered + Undeliveries(f, id, link, d))
    decreases CLASSES - id
  {
    hide PolicyOf, Gained, AllSound, ServiceAmid, Undelivered, HeardAt, Wrap, Times;
    var p := PolicyOf(c);
    if id == CLASSES {
      Same(p, f.table[c]);
      NoTimes(c);
      WrapSmall(f.undelivered);
    } else {
      var g := ServiceAmid(f, id, link, d);
      var r := ServiceFromAmid(g, id + 1, link, d);
      var n := if Undelivered(f, id, link, d) then 1 else 0;
      var m := Undeliveries(g, id + 1, link, d);
      SoundAt(f, id);
      SoundAt(f, c);
      ServiceAmidSound(f, id, link, d);
      ServiceAmidGains(f, id, link, d, c);
      ServiceFromAmidGains(g, id + 1, link, d, c);
      TimesConcat(HeardAt(d, id), HeardFrom(d, id + 1), c);
      GainedTwice(p, f.table[c], g.table[c], r.table[c], Times(HeardAt(d, id), c) + FedBack(f, c, n), Times(HeardFrom(d, id + 1), c) + FedBack(g, c, m));
      GainedBounds(p, f.table[c], g.table[c], Times(HeardAt(d, id), c) + FedBack(f, c, n));
      GainedBounds(p, g.table[c], r.table[c], Times(HeardFrom(d, id + 1), c) + FedBack(g, c, m));
      WrapAdd(f.undelivered + n, m);
    }
  }

  // ---------- what a pass leaves unserviced ----------

  lemma OthersUntouched(f: Faults, id: nat, link: nat -> bool, d: Disturbance, c: nat)
    requires |f.table| == CLASSES && id < CLASSES && c < CLASSES && c != id
    ensures ServiceAmid(f, id, link, d).table[c].servicedTo == f.table[c].servicedTo
  {
    hide PolicyOf, Landed, Decides, Reported, Wrap, Next, Gained;
    var f1 := Landed(f, d.loading(id));
    var f2 := Accessed(f1, id, LoadReported);
    var f3 := Landed(f2, d.storing(id));
    var f4 := Accessed(f3, id, StoreServiced);
    var f5 := Landed(f4, d.classifying(id));
    var f6 := Accessed(f5, id, Classify);
    var f7 := Landed(f6, d.delivering(id));
    LandedGains(f, d.loading(id), c);
    LandedGains(f2, d.storing(id), c);
    LandedGains(f4, d.classifying(id), c);
    LandedGains(f6, d.delivering(id), c);
    ReportedGains(f7, HK_TRANSMIT, c);
  }

  lemma {:induction false} LaterUntouched(f: Faults, id: nat, link: nat -> bool, d: Disturbance, c: nat)
    requires |f.table| == CLASSES && c < id <= CLASSES
    ensures ServiceFromAmid(f, id, link, d).table[c].servicedTo == f.table[c].servicedTo
    decreases CLASSES - id
  {
    hide ServiceAmid;
    if id < CLASSES {
      OthersUntouched(f, id, link, d, c);
      LaterUntouched(ServiceAmid(f, id, link, d), id + 1, link, d, c);
    }
  }

  /** What interrupts report after a class has been loaded. */
  function AfterLoad(d: Disturbance, c: nat): seq<nat>
    requires c < CLASSES
  {
    d.storing(c) + d.classifying(c) + d.delivering(c) + HeardFrom(d, c + 1)
  }

  lemma AfterLoadTimes(d: Disturbance, c: nat)
    requires c < CLASSES
    ensures Times(HeardAt(d, c), c) + Times(HeardFrom(d, c + 1), c) == Times(d.loading(c), c) + Times(AfterLoad(d, c), c)
  {
    hide HeardFrom;
    HeardTimes(d, c, c);
    TimesConcat(d.storing(c), d.classifying(c), c);
    TimesConcat(d.storing(c) + d.classifying(c), d.delivering(c), c);
    TimesConcat(d.storing(c) + d.classifying(c) + d.delivering(c), HeardFrom(d, c + 1), c);
  }

  /** What servicing the classes from id on leaves unserviced of a class: what interrupts
      report after its load and, of the link's own class, the deliveries refused since. */
  function Late(f: Faults, id: nat, link: nat -> bool, d: Disturbance, c: nat): nat
    requires |f.table| == CLASSES && id <= c < CLASSES
    decreases c - id
  {
    if id < c then Late(ServiceAmid(f, id, link, d), id + 1, link, d, c)
    else Times(AfterLoad(d, c), c) + FedBack(f, c, Undeliveries(f, c, link, d))
  }

  /** Of a class other than the link's own, only the interrupts' reports. */
  lemma {:induction false} LateElsewhere(f: Faults, id: nat, link: nat -> bool, d: Disturbance, c: nat)
    requires |f.table| == CLASSES && id <= c < CLASSES && c != HK_TRANSMIT
    ensures Late(f, id, link, d, c) == Times(AfterLoad(d, c), c)
    decreases c - id
  {
    hide ServiceAmid, AfterLoad, Undeliveries;
    if id < c {
      LateElsewhere(ServiceAmid(f, id, link, d), id + 1, link, d, c);
    }
  }

  lemma {:induction false} LeftUnserviced(f: Faults, id: nat, link: nat -> bool, d: Disturbance, c: nat)
    requires AllSound(f) && |f.table| == CLASSES && id <= c < CLASSES
    requires ReportsSinceClear(ServiceFromAmid(f, id, link, d).table[c]) < TWO_32
    ensures var e := ServiceFromAmid(f, id, link, d).table[c];
      e.made - e.servicedTo == Late(f, id, link, d, c)
    decreases c - id
  {
    hide PolicyOf, Gained, AllSound, ServiceAmid, Undelivered, HeardAt, AfterLoad, HeardFrom, Wrap, Times;
    var p := PolicyOf(c);
    var g := ServiceAmid(f, id, link, d);
    var n := if Undelivered(f, id, link, d) then 1 else 0;
    var m := Undeliveries(g, id + 1, link, d);
    SoundAt(f, id);
    SoundAt(f, c);
    ServiceAmidSound(f, id, link, d);
    if id < c {
      LeftUnserviced(g, id + 1, link, d, c);
    } else {
      ServiceAmidGains(f, c, link, d, c);
      ServiceFromAmidGains(g, c + 1, link, d, c);
      LaterUntouched(g, c + 1, link, d, c);
      GainedBounds(p, f.table[c], g.table[c], Times(HeardAt(d, c), c) + FedBack(f, c, n));
      GainedBounds(p, g.table[c], ServiceFromAmid(g, c + 1, link, d).table[c], Times(HeardFrom(d, c + 1), c) + FedBack(g, c, m));
      AfterLoadTimes(d, c);
    }
  }

  lemma NoTimes(c: nat)
    ensures Times([], c) == 0
  {
  }

  lemma CollectAmidSound(f: Faults, now: Platform, d: Disturbance)
    requires AllSound(f) && |now.irqDropped| == IRQ_SOURCES && |f.table| == CLASSES && |f.seen.irqDropped| == IRQ_SOURCES
    ensures AllSound(CollectAmid(f, now, d)) && CollectAmid(f, now, d).seen == now
    ensures CollectAmid(f, now, d).undelivered == f.undelivered && CollectAmid(f, now, d).uplinkSet == f.uplinkSet
  {
    hide PolicyOf, Counts, Escalated, Collect, Landed, StartReports, CollectHeard;
    CollectEffect(f, now);
    CollectKeeps(f, now);
    forall c | 0 <= c < CLASSES
      ensures CollectAmid(f, now, d).table[c].loop.Outside? && Inv(PolicyOf(c), CollectAmid(f, now, d).table[c])
    {
      SoundAt(f, c);
      LandedGains(Collect(f, now), CollectHeard(f, now, d), c);
      CollectAmidGains(f, now, d, c);
    }
  }

  lemma {:induction false} DropsKeep(f: Faults, now: Platform, source: nat)
    requires |f.table| == CLASSES && |f.seen.irqDropped| == |now.irqDropped| == IRQ_SOURCES && source <= IRQ_SOURCES
    ensures CollectDrops(f, now, source).undelivered == f.undelivered && CollectDrops(f, now, source).uplinkSet == f.uplinkSet
    decreases IRQ_SOURCES - source
  {
    hide Reported;
    if source < IRQ_SOURCES {
      var g := f.(seen := f.seen.(irqDropped := f.seen.irqDropped[source := now.irqDropped[source]]));
      if now.irqDropped[source] == f.seen.irqDropped[source] {
        DropsKeep(f, now, source + 1);
      } else {
        DropsKeep(Reported(g, IRQ_OVERFLOW), now, source + 1);
      }
    }
  }

  lemma CollectKeeps(f: Faults, now: Platform)
    requires WellFormed(f) && |now.irqDropped| == IRQ_SOURCES
    ensures Collect(f, now).undelivered == f.undelivered && Collect(f, now).uplinkSet == f.uplinkSet
  {
    hide Reports, Reported, CollectDrops, Wrap, Unserviced;
    ReportsKeepForm(f.(seen := f.seen.(overruns := now.overruns)), CYCLE_OVERRUN, Wrap((now.overruns as int) - f.seen.overruns));
    DropsKeep(OverflowSeen(OverrunsSeen(f, now), now), now, 0);
  }

  /** Everything a whole pass reports of a class: what it collects, what interrupts report
      anywhere in it, and for the link's own class the deliveries the link refused. */
  function PassReports(f: Faults, now: Platform, link: nat -> bool, d: Disturbance, c: nat): nat
    requires |f.table| == CLASSES && |f.seen.irqDropped| == |now.irqDropped| == IRQ_SOURCES
  {
    StartReports(f, now, d, c) + Times(HeardFrom(d, 1), c) + FedBack(f, c, Undeliveries(CollectAmid(f, now, d), 1, link, d))
  }

  /** A pass with interrupts reporting between any two of its accesses: every class's
      counters and escalations stay in step with its history; the reports it gains are
      exactly those collected, those of the interrupts and, for the link's own class, the
      refused deliveries; everything reported by the time the collecting ends is serviced;
      and each escalation not delivered is counted. */
  lemma InterruptedPass(f: Faults, now: Platform, link: nat -> bool, d: Disturbance, c: nat)
    requires AllSound(f) && |now.irqDropped| == IRQ_SOURCES && c < CLASSES
    requires |f.table| == CLASSES && |f.seen.irqDropped| == IRQ_SOURCES
    ensures var r := PassAmid(f, now, link, d);
      && AllSound(r) && |r.table| == CLASSES && r.seen == now
      && Gained(PolicyOf(c), f.table[c], r.table[c], PassReports(f, now, link, d, c))
      && (1 <= c && ReportsSinceClear(r.table[c]) < TWO_32 ==> r.table[c].servicedTo >= f.table[c].made + StartReports(f, now, d, c))
      && r.undelivered == Wrap(f.undelivered + Undeliveries(CollectAmid(f, now, d), 1, link, d))
  {
    hide PolicyOf, AllSound, CollectAmid, ServiceFromAmid, StartReports, HeardFrom, Undeliveries, Times, Wrap, Inv;
    var g := CollectAmid(f, now, d);
    CollectAmidSound(f, now, d);
    CollectAmidGains(f, now, d, c);
    ServiceFromAmidGains(g, 1, link, d, c);
    GainedTwice(PolicyOf(c), f.table[c], g.table[c], PassAmid(f, now, link, d).table[c],
                StartReports(f, now, d, c), Times(HeardFrom(d, 1), c) + FedBack(f, c, Undeliveries(g, 1, link, d)));
  }

  /** What a pass leaves unserviced of a class is exactly what interrupts report after the
      class has been loaded and, of the link's own class, the deliveries refused since. */
  lemma PassLeaves(f: Faults, now: Platform, link: nat -> bool, d: Disturbance, c: nat)
    requires AllSound(f) && |now.irqDropped| == IRQ_SOURCES && 1 <= c < CLASSES
    requires |f.table| == CLASSES && |f.seen.irqDropped| == IRQ_SOURCES
    requires ReportsSinceClear(PassAmid(f, now, link, d).table[c]) < TWO_32
    ensures var e := PassAmid(f, now, link, d).table[c];
      && e.made - e.servicedTo == Late(CollectAmid(f, now, d), 1, link, d, c)
      && (c != HK_TRANSMIT ==> e.made - e.servicedTo == Times(AfterLoad(d, c), c))
  {
    hide AllSound, CollectAmid, ServiceFromAmid, Late, AfterLoad, Times;
    CollectAmidSound(f, now, d);
    LeftUnserviced(CollectAmid(f, now, d), 1, link, d, c);
    if c != HK_TRANSMIT {
      LateElsewhere(CollectAmid(f, now, d), 1, link, d, c);
    }
  }

  // ---------- whole runs ----------

  /** What the service lives through: interrupted passes, clears of a class, and reports
      from anywhere in between. */
  datatype Event =
    | Service(now: Platform, link: nat -> bool, amid: Disturbance)
    | Clear(id: nat)
    | Meanwhile(ids: seq<nat>)

  predicate Proper(e: Event)
  {
    e.Service? ==> |e.now.irqDropped| == IRQ_SOURCES
  }

  function After(f: Faults, e: Event): (r: Faults)
    requires |f.table| == CLASSES && |f.seen.irqDropped| == IRQ_SOURCES && Proper(e)
    ensures |r.table| == CLASSES && |r.seen.irqDropped| == IRQ_SOURCES
  {
    match e
    case Service(now, link, amid) => PassAmid(f, now, link, amid)
    case Clear(id) => Cleared(f, id)
    case Meanwhile(ids) => Landed(f, ids)
  }

  function History(f: Faults, events: seq<Event>): (r: Faults)
    requires |f.table| == CLASSES && |f.seen.irqDropped| == IRQ_SOURCES && forall e :: e in events ==> Proper(e)
    ensures |r.table| == CLASSES && |r.seen.irqDropped| == IRQ_SOURCES
  {
    if events == [] then f else After(History(f, events[..|events| - 1]), events[|events| - 1])
  }

  /** How a class may move as long as it is not cleared. */
  ghost predicate Onward(e: Entry, r: Entry)
  {
    && r.clearedAt == e.clearedAt && r.made >= e.made
    && r.escalatedEver - e.escalatedEver == r.escalatedSinceClear - e.escalatedSinceClear
  }

  lemma AfterKeeps(f: Faults, e: Event, c: nat)
    requires AllSound(f) && Proper(e) && c < CLASSES
    requires |f.table| == CLASSES && |f.seen.irqDropped| == IRQ_SOURCES
    ensures AllSound(After(f, e))
    ensures e != Clear(c) ==> Onward(f.table[c], After(f, e).table[c])
  {
    hide PolicyOf, AllSound, PassAmid, PassReports, StartReports, Undeliveries, Inv, Landed;
    match e
    case Service(now, link, amid) =>
      InterruptedPass(f, now, link, amid, c);
    case Clear(id) =>
      ClearedSound(f, id);
    case Meanwhile(ids) =>
      LandedSound(f, ids);
      LandedGains(f, ids, c);
  }

  lemma LandedSound(f: Faults, ids: seq<nat>)
    requires AllSound(f) && |f.table| == CLASSES
    ensures AllSound(Landed(f, ids))
  {
    hide PolicyOf, Counts, Escalated, Landed;
    forall c | 0 <= c < CLASSES
      ensures Landed(f, ids).table[c].loop.Outside? && Inv(PolicyOf(c), Landed(f, ids).table[c])
    {
      LandedGains(f, ids, c);
    }
  }

  lemma ClearedSound(f: Faults, id: nat)
    requires AllSound(f) && |f.table| == CLASSES
    ensures AllSound(Cleared(f, id))
  {
    hide PolicyOf, Counts, Escalated, Next;
    if id < CLASSES {
      var p, e := PolicyOf(id), f.table[id];
      SoundAt(f, id);
      ClearIsTwoSteps(p, e);
      CountsKept(p, e, ClearServiced);
      EscalatedKept(p, e, ClearServiced);
      CountsKept(p, Next(p, e, ClearServiced), ClearRecord);
      EscalatedKept(p, Next(p, e, ClearServiced), ClearRecord);
    }
  }

  lemma {:induction false} HistoryKeeps(f: Faults, events: seq<Event>, c: nat)
    requires AllSound(f) && c < CLASSES && forall e :: e in events ==> Proper(e)
    requires |f.table| == CLASSES && |f.seen.irqDropped| == IRQ_SOURCES
    ensures AllSound(History(f, events))
    ensures Clear(c) !in events ==> Onward(f.table[c], History(f, events).table[c])
  {
    hide AllSound, After;
    if events != [] {
      HistoryKeeps(f, events[..|events| - 1], c);
      AfterKeeps(History(f, events[..|events| - 1]), events[|events| - 1], c);
    }
  }

  /** Over every run of interrupted passes, clears and reports, with refused deliveries fed
      back: no report of any class is lost or counted twice, and a critical class, the
      link's own included, escalates at most once until it is cleared. */
  lemma EveryRunKeepsCount(f: Faults, events: seq<Event>, c: nat)
    requires AllSound(f) && 1 <= c < CLASSES && forall e :: e in events ==> Proper(e)
    requires |f.table| == CLASSES && |f.seen.irqDropped| == IRQ_SOURCES
    ensures var e, r := f.table[c], History(f, events).table[c];
      && Occurrences(r) == Wrap(ReportsSinceClear(r))
      && (PolicyOf(c).severity.Critical? ==>
            && r.escalatedSinceClear <= 1
            && (Clear(c) !in events ==> r.escalatedEver - e.escalatedEver <= 1)
            && (ReportsSinceClear(r) < TWO_32 ==>
                  r.escalatedSinceClear == if PolicyOf(c).limit != 0 && r.occurrences >= PolicyOf(c).limit then 1 else 0))
  {
    hide AllSound, History, PolicyOf, Counts, Occurrences, Wrap, Escalated;
    HistoryKeeps(f, events, c);
    SoundAt(f, c);
    SoundAt(History(f, events), c);
    OccurrencesAreReports(History(f, events).table[c]);
    if PolicyOf(c).severity.Critical? {
      EscalationsInEpoch(PolicyOf(c), History(f, events).table[c]);
    }
  }

  /** However a run went, once interrupts and platform counters are still three passes
      leave nothing unserviced. */
  lemma SettlesAfterAnyRun(f: Faults, events: seq<Event>, now: Platform, link1: nat -> bool, link2: nat -> bool, link3: nat -> bool)
    requires AllSound(f) && |now.irqDropped| == IRQ_SOURCES && forall e :: e in events ==> Proper(e)
    requires |f.table| == CLASSES && |f.seen.irqDropped| == IRQ_SOURCES
    ensures var g1 := PassAmid(History(f, events), now, link1, UNDISTURBED);
      var g2 := PassAmid(g1, now, link2, UNDISTURBED);
      Silent(PassAmid(g2, now, link3, UNDISTURBED))
  {
    hide AllSound, History, Pass, PassAmid, Silent;
    var g := History(f, events);
    HistoryKeeps(f, events, 0);
    SoundAt(g, 0);
    FeedbackDiesOut(g, now, link1, link2, link3);
    PassUndisturbed(g, now, link1);
    PassUndisturbed(Pass(g, now, link1), now, link2);
    PassUndisturbed(Pass(Pass(g, now, link1), now, link2), now, link3);
  }

  // ---------- what the uplink is asked for ----------

  /** How often the uplink is asked on behalf of a class. */
  function AsksFor(asked: seq<Ask>, c: nat): nat
  {
    if asked == [] then 0 else AsksFor(asked[..|asked| - 1], c) + (if asked[|asked| - 1].id == c then 1 else 0)
  }

  lemma {:induction false} AsksConcat(a: seq<Ask>, b: seq<Ask>, c: nat)
    ensures AsksFor(a + b, c) == AsksFor(a, c) + AsksFor(b, c)
    decreases |b|
  {
    if b == [] {
      assert a + b == a;
    } else {
      assert (a + b)[..|a + b| - 1] == a + b[..|b| - 1];
      AsksConcat(a, b[..|b| - 1], c);
    }
  }

  /** From f to r every escalation of a class, and nothing else, became one request for what
      the policy of that class names, if there is an uplink and the policy names anything. */
  ghost predicate Asked(f: Faults, r: Faults, c: nat)
    requires |f.table| == |r.table| == CLASSES && c < CLASSES
  {
    && r.uplinkSet == f.uplinkSet && f.asked <= r.asked
    && (forall i :: |f.asked| <= i < |r.asked| ==>
          r.asked[i].id < CLASSES && r.asked[i].kind == PolicyOf(r.asked[i].id).escalation != LogOnly)
    && r.table[c].escalatedEver >= f.table[c].escalatedEver
    && AsksFor(r.asked, c) - AsksFor(f.asked, c) ==
         if f.uplinkSet && PolicyOf(c).escalation != LogOnly then r.table[c].escalatedEver - f.table[c].escalatedEver else 0
  }

  lemma AskedTwice(f: Faults, g: Faults, h: Faults, c: nat)
    requires |f.table| == |g.table| == |h.table| == CLASSES && c < CLASSES
    requires Asked(f, g, c) && Asked(g, h, c)
    ensures Asked(f, h, c)
  {
    hide AsksFor, PolicyOf;
  }

  lemma NothingAsked(f: Faults, r: Faults, c: nat)
    requires |f.table| == |r.table| == CLASSES && c < CLASSES
    requires r.uplinkSet == f.uplinkSet && r.asked == f.asked && r.table[c].escalatedEver == f.table[c].escalatedEver
    ensures Asked(f, r, c)
  {
    hide AsksFor, PolicyOf;
  }

  lemma LandedAsks(f: Faults, ids: seq<nat>, c: nat)
    requires |f.table| == CLASSES && c < CLASSES
    ensures Asked(f, Landed(f, ids), c)
  {
    hide Asked, Landed;
    LandedOn(f, ids, c);
    NothingAsked(f, Landed(f, ids), c);
  }

  lemma AccessAsks(f: Faults, id: nat, step: Step, c: nat)
    requires |f.table| == CLASSES && id < CLASSES && c < CLASSES && (step.LoadReported? || step.StoreServiced?)
    ensures Asked(f, Accessed(f, id, step), c)
  {
    hide Asked, PolicyOf, Wrap, Escalates;
    NothingAsked(f, Accessed(f, id, step), c);
  }

  lemma BeforeClassifyAsks(f: Faults, id: nat, d: Disturbance, c: nat)
    requires |f.table| == CLASSES && id < CLASSES && c < CLASSES
    ensures Asked(f, BeforeClassify(f, id, d), c)
  {
    hide Asked, Landed, Accessed;
    var f1 := Landed(f, d.loading(id));
    var f2 := Accessed(f1, id, LoadReported);
    var f3 := Landed(f2, d.storing(id));
    var f4 := Accessed(f3, id, StoreServiced);
    LandedAsks(f, d.loading(id), c);
    AccessAsks(f1, id, LoadReported, c);
    AskedTwice(f, f1, f2, c);
    LandedAsks(f2, d.storing(id), c);
    AskedTwice(f, f2, f3, c);
    AccessAsks(f3, id, StoreServiced, c);
    AskedTwice(f, f3, f4, c);
    LandedAsks(f4, d.classifying(id), c);
    AskedTwice(f, f4, BeforeClassify(f, id, d), c);
  }

  /** A classification that escalates, and the delivery that follows it. */
  lemma DeliveryAsks(b: Faults, id: nat, ids: seq<nat>, accepted: bool, c: nat)
    requires |b.table| == CLASSES && id < CLASSES && c < CLASSES
    ensures var g := Landed(Accessed(b, id, Classify), ids);
      var r := if Decides(PolicyOf(id), b.table[id]) then Delivered(g, id, accepted) else g;
      |r.table| == CLASSES && Asked(b, r, c)
  {
    hide PolicyOf, Wrap, Landed, Reported, Escalates;
    var a := Accessed(b, id, Classify);
    var g := Landed(a, ids);
    LandedOn(a, ids, c);
    ReportedOn(g, HK_TRANSMIT, c);
    AsksConcat(b.asked, [Ask(id, PolicyOf(id).escalation)], c);
    OneAsk(Ask(id, PolicyOf(id).escalation), c);
  }

  lemma OneAsk(a: Ask, c: nat)
    ensures AsksFor([a], c) == if a.id == c then 1 else 0
  {
    assert [a][..0] == [];
  }

  lemma ServiceAmidAsks(f: Faults, id: nat, link: nat -> bool, d: Disturbance, c: nat)
    requires |f.table| == CLASSES && id < CLASSES && c < CLASSES
    ensures Asked(f, ServiceAmid(f, id, link, d), c)
  {
    hide Asked, BeforeClassify, Landed, Accessed, Decides, Delivered, PolicyOf;
    BeforeClassifyAsks(f, id, d, c);
    var b := BeforeClassify(f, id, d);
    DeliveryAsks(b, id, d.delivering(id), link(id), c);
    AskedTwice(f, b, ServiceAmid(f, id, link, d), c);
  }

  lemma {:induction false} ServiceFromAmidAsks(f: Faults, id: nat, link: nat -> bool, d: Disturbance, c: nat)
    requires |f.table| == CLASSES && id <= CLASSES && c < CLASSES
    ensures Asked(f, ServiceFromAmid(f, id, link, d), c)
    decreases CLASSES - id
  {
    hide Asked, ServiceAmid;
    if id == CLASSES {
      NothingAsked(f, f, c);
    } else {
      var g := ServiceAmid(f, id, link, d);
      ServiceAmidAsks(f, id, link, d, c);
      ServiceFromAmidAsks(g, id + 1, link, d, c);
      AskedTwice(f, g, ServiceFromAmid(f, id, link, d), c);
    }
  }

  lemma {:induction false} ReportsAsk(f: Faults, id: nat, times: nat, c: nat)
    requires |f.table| == CLASSES && c < CLASSES
    ensures var r := Reports(f, id, times); r.uplinkSet == f.uplinkSet && r.asked == f.asked && r.table[c].escalatedEver == f.table[c].escalatedEver
  {
    hide Reported;
    if times > 0 {
      ReportsAsk(f, id, times - 1, c);
      ReportedOn(Reports(f, id, times - 1), id, c);
    }
  }

  lemma {:induction false} DropsAsk(f: Faults, now: Platform, source: nat, c: nat)
    requires |f.table| == CLASSES && |f.seen.irqDropped| == |now.irqDropped| == IRQ_SOURCES && source <= IRQ_SOURCES && c < CLASSES
    ensures var r := CollectDrops(f, now, source); r.uplinkSet == f.uplinkSet && r.asked == f.asked && r.table[c].escalatedEver == f.table[c].escalatedEver
    decreases IRQ_SOURCES - source
  {
    hide Reported;
    if source < IRQ_SOURCES {
      var g := f.(seen := f.seen.(irqDropped := f.seen.irqDropped[source := now.irqDropped[source]]));
      ReportedOn(g, IRQ_OVERFLOW, c);
      if now.irqDropped[source] == f.seen.irqDropped[source] {
        DropsAsk(f, now, source + 1, c);
      } else {
        DropsAsk(Reported(g, IRQ_OVERFLOW), now, source + 1, c);
      }
    }
  }

  lemma CollectAsks(f: Faults, now: Platform, c: nat)
    requires |f.table| == CLASSES && |f.seen.irqDropped| == |now.irqDropped| == IRQ_SOURCES && c < CLASSES
    ensures Asked(f, Collect(f, now), c)
  {
    hide Asked, Reports, Reported, CollectDrops, Wrap;
    var g := OverrunsSeen(f, now);
    ReportsAsk(f.(seen := f.seen.(overruns := now.overruns)), CYCLE_OVERRUN, Wrap((now.overruns as int) - f.seen.overruns), c);
    ReportedOn(g.(seen := g.seen.(uartOverflow := now.uartOverflow)), UART_RX_OVERFLOW, c);
    DropsAsk(OverflowSeen(g, now), now, 0, c);
    NothingAsked(f, Collect(f, now), c);
  }

  lemma PassAsks(f: Faults, now: Platform, link: nat -> bool, d: Disturbance, c: nat)
    requires |f.table| == CLASSES && |f.seen.irqDropped| == |now.irqDropped| == IRQ_SOURCES && c < CLASSES
    ensures Asked(f, PassAmid(f, now, link, d), c)
  {
    hide Asked, Collect, Landed, CollectHeard, ServiceFromAmid;
    CollectAsks(f, now, c);
    LandedAsks(Collect(f, now), CollectHeard(f, now, d), c);
    AskedTwice(f, Collect(f, now), CollectAmid(f, now, d), c);
    ServiceFromAmidAsks(CollectAmid(f, now, d), 1, link, d, c);
    AskedTwice(f, CollectAmid(f, now, d), PassAmid(f, now, link, d), c);
  }

  /** Over every run of interrupted passes, clears and reports: each escalation of a class is
      exactly one request to the uplink, of the kind its policy names, and nothing else is
      ever asked for. */
  lemma {:induction false} EveryEscalationAsks(f: Faults, events: seq<Event>, c: nat)
    requires |f.table| == CLASSES && |f.seen.irqDropped| == IRQ_SOURCES && c < CLASSES && forall e :: e in events ==> Proper(e)
    ensures Asked(f, History(f, events), c)
  {
    hide Asked, PassAmid, Landed;
    if events == [] {
      NothingAsked(f, f, c);
    } else {
      var early, e := events[..|events| - 1], events[|events| - 1];
      var g := History(f, early);
      assert e in events;
      EveryEscalationAsks(f, early, c);
      match e {
        case Service(now, link, amid) => PassAsks(g, now, link, amid, c);
        case Meanwhile(ids) => LandedAsks(g, ids, c);
        case Clear(id) => NothingAsked(g, Cleared(g, id), c);
      }
      AskedTwice(f, g, History(f, events), c);
    }
  }

  const HAZARDS: set<nat> := {OVERCURRENT, BROWNOUT, TEMPERATURE}

  /** A hazard reported before a pass makes that pass ask for a power cycle on its behalf, as
      long as its reports fit 32 bits. */
  lemma HazardAsksForReset(f: Faults, now: Platform, link: nat -> bool, d: Disturbance, c: nat)
    requires AllSound(f) && |f.table| == CLASSES && |f.seen.irqDropped| == |now.irqDropped| == IRQ_SOURCES
    requires c in HAZARDS && f.uplinkSet && f.table[c].made > f.table[c].servicedTo
    requires ReportsSinceClear(PassAmid(f, now, link, d).table[c]) < TWO_32
    ensures var r := PassAmid(f, now, link, d);
      && f.asked <= r.asked && AsksFor(r.asked, c) > AsksFor(f.asked, c)
      && forall i :: |f.asked| <= i < |r.asked| && r.asked[i].id == c ==> r.asked[i].kind == PowerReset
  {
    hide AllSound, PassAmid, PassReports, Counts, AsksFor, StartReports, Undeliveries, Wrap, NewsFound;
    InterruptedPass(f, now, link, d, c);
    PassAsks(f, now, link, d, c);
    SoundAt(f, c);
    SoundAt(PassAmid(f, now, link, d), c);
    ServicedFurther(f.table[c], PassAmid(f, now, link, d).table[c]);
  }

  lemma ServicedFurther(e: Entry, r: Entry)
    requires e.loop.Outside? && r.loop.Outside? && NewsFound(r) > NewsFound(e)
    ensures r.passesWithNews > e.passesWithNews
  {
  }

  // ---------- two passes may not suffice ----------

  /** The table as it starts, with the uplink set. */
  function Fresh(now: Platform): (f: Faults)
    ensures |f.table| == CLASSES
  {
    Faults(seq(CLASSES, i => NEW), true, 0, now, [])
  }

  /** Four reports of the link's own class, a pass, and three reports of the write class. */
  function Arising(now: Platform, link: nat -> bool): seq<Event>
  {
    [Meanwhile([HK_TRANSMIT, HK_TRANSMIT, HK_TRANSMIT, HK_TRANSMIT]), Service(now, link, UNDISTURBED), Meanwhile([NAND_WRITE, NAND_WRITE, NAND_WRITE])]
  }

  lemma {:induction false} LandedSame(f: Faults, ids: seq<nat>, id: nat)
    requires |f.table| == CLASSES && id < CLASSES && |ids| < 100 && f.table[id].reported + |ids| < 100
    requires forall i :: 0 <= i < |ids| ==> ids[i] == id
    ensures var e := f.table[id];
      Landed(f, ids) == f.(table := f.table[id := e.(reported := e.reported + |ids|, made := e.made + |ids|)])
  {
    hide PolicyOf, Landed;
    if ids == [] {
      EmptyLanded(f);
      assert f.table[id := f.table[id]] == f.table;
    } else {
      LandedSame(f, ids[..|ids| - 1], id);
      LastLanded(f, ids);
    }
  }

  /** A pass over a table in which only the link's own class has news, four reports. */
  lemma FourAreServiced(now: Platform, link: nat -> bool)
    requires |now.irqDropped| == IRQ_SOURCES
    ensures var f := Fresh(now).(table := Fresh(now).table[HK_TRANSMIT := Waiting(4)]);
      PassAmid(f, now, link, UNDISTURBED) == f.(table := f.table[HK_TRANSMIT := FourServiced(4)])
  {
    hide PolicyOf, Collect, ServiceFrom, ServiceClass, Pass, PassAmid;
    var f := Fresh(now).(table := Fresh(now).table[HK_TRANSMIT := Waiting(4)]);
    PassUndisturbed(f, now, link);
    CollectEffect(f, now);
    NothingToDo(f, 1, HK_TRANSMIT, link);
    LastClass(f, HK_TRANSMIT, link);
    FourDoNotEscalate(f, link);
    assert Pass(f, now, link) == ServiceFrom(Collect(f, now), 1, link) by {
      PassIs(f, now, link);
    }
  }

  lemma PassIs(f: Faults, now: Platform, link: nat -> bool)
    requires WellFormed(f) && |now.irqDropped| == IRQ_SOURCES
    ensures Pass(f, now, link) == ServiceFrom(Collect(f, now), 1, link)
  {
    hide Collect, ServiceFrom;
  }

  lemma FourLoaded(p: Policy)
    ensures var e := Next(p, Next(p, Waiting(4), LoadReported), StoreServiced);
      e == NEW.(reported := 4, made := 4, serviced := 4, servicedTo := 4, loop := Classifying(4, 0))
  {
    WrapSmall(4);
    hide Wrap;
  }

  lemma FourEntry()
    ensures var p := Policy(Critical, ReportFlag, 5);
      !EscalatesNow(p, Waiting(4)) && ServiceEntry(p, Waiting(4)) == FourServiced(4)
  {
    hide Next;
    var p := Policy(Critical, ReportFlag, 5);
    var e := Next(p, Next(p, Waiting(4), LoadReported), StoreServiced);
    FourLoaded(p);
    WrapSmall(4);
    assert Next(p, e, Classify) == FourServiced(4) by {
      FourClassified(e);
    }
  }

  lemma FourClassified(e: Entry)
    requires e == NEW.(reported := 4, made := 4, serviced := 4, servicedTo := 4, loop := Classifying(4, 0))
    ensures Next(Policy(Critical, ReportFlag, 5), e, Classify) == FourServiced(4)
  {
    WrapSmall(4);
    hide Wrap;
  }

  lemma FourDoNotEscalate(f: Faults, link: nat -> bool)
    requires |f.table| == CLASSES && f.table[HK_TRANSMIT] == Waiting(4)
    ensures ServiceClass(f, HK_TRANSMIT, link) == f.(table := f.table[HK_TRANSMIT := FourServiced(4)])
  {
    HkTransmitPolicy();
    hide PolicyOf, ServiceEntry, EscalatesNow, Waiting, FourServiced;
    FourEntry();
  }

  lemma FreshIsSound(now: Platform)
    requires |now.irqDropped| == IRQ_SOURCES
    ensures AllSound(Fresh(now))
  {
    hide PolicyOf, Counts, Escalated;
    forall c | 0 <= c < CLASSES
      ensures Inv(PolicyOf(c), Fresh(now).table[c])
    {
      NewIsSound(PolicyOf(c));
    }
  }

  lemma ThreeEvents(f: Faults, a: Event, b: Event, c: Event)
    requires |f.table| == CLASSES && |f.seen.irqDropped| == IRQ_SOURCES && Proper(a) && Proper(b) && Proper(c)
    ensures History(f, [a, b, c]) == After(After(After(f, a), b), c)
  {
    hide After;
    var es := [a, b, c];
    assert es[..2] == [a, b] && [a, b][..1] == [a] && [a][..0] == [];
    assert History(f, [a][..0]) == f;
    assert History(f, [a, b][..1]) == After(f, a);
    assert History(f, es[..2]) == After(After(f, a), b);
  }

  lemma Reaching(now: Platform)
    ensures var f := Fresh(now);
      && f.table[HK_TRANSMIT].(reported := 4, made := 4) == Waiting(4)
      && f.table[NAND_WRITE].(reported := 3, made := 3) == Waiting(3)
      && OneShort(now) == f.(table := f.table[HK_TRANSMIT := FourServiced(4)][NAND_WRITE := Waiting(3)])
  {
    hide Waiting, FourServiced;
    assert Waiting(4) == NEW.(reported := 4, made := 4) && Waiting(3) == NEW.(reported := 3, made := 3) by {
      WaitingIs();
    }
  }

  lemma WaitingIs()
    ensures Waiting(4) == NEW.(reported := 4, made := 4) && Waiting(3) == NEW.(reported := 3, made := 3)
  {
  }

  /** The state in which two passes do not suffice is reached from the start, */
  lemma OneShortIsReached(now: Platform, link: nat -> bool)
    requires |now.irqDropped| == IRQ_SOURCES
    ensures AllSound(Fresh(now)) && History(Fresh(now), Arising(now, link)) == OneShort(now)
  {
    hide PassAmid, Landed, Waiting, FourServiced, OneShort, AllSound;
    var es, f := Arising(now, link), Fresh(now);
    FreshIsSound(now);
    Reaching(now);
    LandedSame(f, es[0].ids, HK_TRANSMIT);
    FourAreServiced(now, link);
    var g := f.(table := f.table[HK_TRANSMIT := FourServiced(4)]);
    LandedSame(g, es[2].ids, NAND_WRITE);
    ThreeEvents(f, es[0], es[1], es[2]);
    assert f.table[HK_TRANSMIT := Waiting(4)][HK_TRANSMIT := FourServiced(4)] == g.table;
  }

  lemma OneMore(f: Faults, events: seq<Event>, e: Event)
    requires |f.table| == CLASSES && |f.seen.irqDropped| == IRQ_SOURCES && Proper(e) && forall x :: x in events ==> Proper(x)
    ensures History(f, events + [e]) == After(History(f, events), e)
  {
    hide After;
    assert (events + [e])[..|events|] == events;
  }

  /** and two more passes, with a link that refuses everything, leave a report unserviced. */
  lemma TwoPassesLeaveOne(now: Platform)
    requires |now.irqDropped| == IRQ_SOURCES
    ensures var pass := Service(now, RefuseAll, UNDISTURBED);
      Unserviced(History(Fresh(now), Arising(now, RefuseAll) + [pass] + [pass]).table[HK_TRANSMIT]) == 1
  {
    hide PassAmid, Pass, OneShort, History, Unserviced, AllSound;
    var pass := Service(now, RefuseAll, UNDISTURBED);
    var f := OneShort(now);
    OneShortIsReached(now, RefuseAll);
    OneMore(Fresh(now), Arising(now, RefuseAll), pass);
    OneMore(Fresh(now), Arising(now, RefuseAll) + [pass], pass);
    OneShortShape(now);
    TwoPassesMayNotSuffice(now);
    PassUndisturbed(f, now, RefuseAll);
    PassUndisturbed(Pass(f, now, RefuseAll), now, RefuseAll);
  }
}
