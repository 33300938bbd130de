/** The fault service pass over every class, with escalations delivered over the
    housekeeping link, whose own failures are reported back into the service. */
module FaultService {
  import opened Words
  import opened FaultClass

  const CLASSES: nat := 40
  const SAFE_OUTPUTS: nat := 2
  const DEVINIT: nat := 4
  const CYCLE_OVERRUN: nat := 6
  const IRQ_OVERFLOW: nat := 7
  const UART_RX_OVERFLOW: nat := 8
  const PL_ERROR: nat := 9
  const WATCHDOG_EXPIRY: nat := 10
  const MEMORY: nat := 11
  const PRECOND: nat := 14
  const CONTROL_LOOP: nat := 15
  const OVERCURRENT: nat := 16
  const BROWNOUT: nat := 17
  const TEMPERATURE: nat := 18
  const LASER_TEC: nat := 19
  const MRR_LOCK: nat := 21
  const MRR_RELOCK: nat := 25
  const SPAD_OPTICAL_POWER: nat := 26
  const OUTPUT_QUEUE: nat := 31
  const HK_TRANSMIT: nat := 33
  const COMMAND_REJECTED: nat := 34
  const DDR_OVERRUN: nat := 36
  const NAND_WRITE: nat := 37
  const IRQ_SOURCES: nat := 6
  const REENTRY_LIMIT: u32 := 5

  /** The policy table, in class order. */
  const K_POLICY: seq<Policy> := [
    Policy(Minor, LogOnly, 0),        // none
    Policy(Critical, PowerReset, 3),  // boot image
    Policy(Severe, ReportFlag, 0),    // safe outputs
    Policy(Critical, PowerReset, 3),  // power-on self test
    Policy(Critical, PowerReset, 3),  // device initialisation
    Policy(Critical, PowerReset, 3),  // link establishment
    Policy(Critical, ReportFlag, 5),  // cycle overrun
    Policy(Medium, LogOnly, 0),       // interrupt overflow
    Policy(Minor, LogOnly, 0),        // serial receive overflow
    Policy(Critical, ReportFlag, 5),  // fabric error
    Policy(Severe, ReportFlag, 0),    // watchdog expiry
    Policy(Critical, PowerReset, 3),  // memory
    Policy(Critical, ReportFlag, 3),  // configuration
    Policy(Critical, ReportFlag, 3),  // stage timeout
    Policy(Critical, ReportFlag, 3),  // preconditioning
    Policy(Critical, ReportFlag, 5),  // control loop
    Policy(Severe, PowerReset, 0),    // over-current
    Policy(Severe, PowerReset, 0),    // brownout
    Policy(Severe, PowerReset, 0),    // temperature
    Policy(Critical, ReportFlag, 3),  // laser temperature controller
    Policy(Critical, ReportFlag, 3),  // laser power
    Policy(Critical, ReportFlag, 3),  // resonator lock
    Policy(Critical, ReportFlag, 3),  // coupled-resonator tuning
    Policy(Critical, ReportFlag, 3),  // interferometer tuning
    Policy(Critical, ReportFlag, 3),  // delay-line lock
    Policy(Critical, ReportFlag, 3),  // resonator relock
    Policy(Severe, ReportFlag, 0),    // detector optical power
    Policy(Medium, LogOnly, 0),       // detector dark count
    Policy(Critical, ReportFlag, 3),  // serial link
    Policy(Medium, LogOnly, 0),       // packet integrity
    Policy(Medium, LogOnly, 0),       // packet sequence
    Policy(Critical, ReportFlag, 5),  // output queue
    Policy(Medium, LogOnly, 0),       // housekeeping sample
    Policy(Critical, ReportFlag, 5),  // housekeeping transmit
    Policy(Minor, LogOnly, 0),        // command rejected
    Policy(Critical, ReportFlag, 3),  // command failed
    Policy(Critical, ReportFlag, 3),  // buffer memory overrun
    Policy(Critical, ReportFlag, 3),  // non-volatile write
    Policy(Critical, ReportFlag, 3),  // buffer ownership
    Policy(Medium, LogOnly, 0)        // data product
  ]

  function PolicyOf(id: nat): Policy
    requires id < CLASSES
  {
    K_POLICY[id]
  }

  /** The boot steps' classes, those of the stages that acquire a lock, and the classes that
      ask for a power cycle or for nothing at all. */
  const BOOT_STEPS: set<nat> := {1, 3, 4, 5}
  const STAGE_LOCKS: set<nat> := {14, 19, 20, 21, 22, 23, 24, 25}

  /** What the policies promise: only a critical class has a limit, and every critical class
      has one; severe classes are never only logged, minor and medium ones always are; hazards
      are severe, and they, the boot steps and memory are what asks for a power cycle; a boot
      step, and a stage that acquires a lock, is given three attempts. */
  lemma PoliciesHold(id: nat)
    requires id < CLASSES
    ensures var p := PolicyOf(id);
      && (p.severity.Critical? <==> p.limit > 0)
      && (p.escalation.LogOnly? <==> p.severity.Minor? || p.severity.Medium?)
      && (p.escalation.PowerReset? <==> id in BOOT_STEPS || id in {MEMORY, OVERCURRENT, BROWNOUT, TEMPERATURE})
      && (p.severity.Severe? <==> id in {SAFE_OUTPUTS, WATCHDOG_EXPIRY, OVERCURRENT, BROWNOUT, TEMPERATURE, SPAD_OPTICAL_POWER})
      && (p.severity.Minor? <==> id in {0, UART_RX_OVERFLOW, COMMAND_REJECTED})
      && (id in BOOT_STEPS || id in STAGE_LOCKS ==> p.limit == 3)
      && (p.limit in {0, 3, 5})
      && (p.limit == 5 <==> id in {CYCLE_OVERRUN, PL_ERROR, CONTROL_LOOP, OUTPUT_QUEUE, HK_TRANSMIT})
  {
  }

  lemma HkTransmitPolicy()
    ensures PolicyOf(HK_TRANSMIT) == Policy(Critical, ReportFlag, 5)
    ensures PolicyOf(NAND_WRITE) == Policy(Critical, ReportFlag, 3)
  {
  }

  /** The counters other modules keep and this service collects. */
  datatype Platform = Platform(overruns: u32, uartOverflow: u32, irqDropped: seq<u32>)

  /** What the uplink is asked for: a flag to report or a power cycle, for which class. */
  datatype Ask = Ask(id: nat, kind: Escalation)

  datatype Faults = Faults(table: seq<Entry>, uplinkSet: bool, undelivered: u32, seen: Platform, asked: seq<Ask>)

  ghost predicate WellFormed(f: Faults)
  {
    && |f.table| == CLASSES
    && |f.seen.irqDropped| == IRQ_SOURCES
    && forall i :: 0 <= i < CLASSES ==> f.table[i].loop.Outside?
  }

  function Unserviced(e: Entry): u32
  {
    Wrap((e.reported as int) - e.serviced)
  }

  // ---------- one report, one escalation, one pass ----------

  function Reported(f: Faults, id: nat): (r: Faults)
    requires |f.table| == CLASSES
    ensures |r.table| == CLASSES && r.seen == f.seen && r.uplinkSet == f.uplinkSet && r.undelivered == f.undelivered && r.asked == f.asked
  {
    if id >= CLASSES then f else f.(table := f.table[id := Next(PolicyOf(id), f.table[id], FaultClass.Report)])
  }

  /** Reports made by interrupts. */
  function Landed(f: Faults, ids: seq<nat>): (r: Faults)
    requires |f.table| == CLASSES
    ensures |r.table| == CLASSES && r.seen == f.seen && r.uplinkSet == f.uplinkSet && r.undelivered == f.undelivered && r.asked == f.asked
  {
    if ids == [] then f else Reported(Landed(f, ids[..|ids| - 1]), ids[|ids| - 1])
  }

  /** What happens to an escalation: `accepted` is whether the link takes the frame. */
  function Delivered(f: Faults, id: nat, accepted: bool): Faults
    requires |f.table| == CLASSES && id < CLASSES
  {
    var kind := PolicyOf(id).escalation;
    if kind.LogOnly? then f
    else if !f.uplinkSet then f.(undelivered := Wrap(f.undelivered + 1))
    else
      var g := if accepted then f else Reported(f, HK_TRANSMIT).(undelivered := Wrap(f.undelivered + 1));
      g.(asked := f.asked + [Ask(id, kind)])
  }

  /** The three accesses of a pass to one class, undisturbed. */
  function ServiceEntry(p: Policy, e: Entry): Entry
  {
    Next(p, Next(p, Next(p, e, LoadReported), StoreServiced), Classify)
  }

  predicate EscalatesNow(p: Policy, e: Entry)
  {
    Unserviced(e) != 0 && Escalates(p, Wrap(e.occurrences + Unserviced(e)), e.elevated)
  }

  function ServiceClass(f: Faults, id: nat, link: nat -> bool): (r: Faults)
    requires |f.table| == CLASSES && id < CLASSES
    ensures |r.table| == CLASSES && r.seen == f.seen && r.uplinkSet == f.uplinkSet
  {
    var p := PolicyOf(id);
    var g := f.(table := f.table[id := ServiceEntry(p, f.table[id])]);
    if EscalatesNow(p, f.table[id]) then Delivered(g, id, link(id)) else g
  }

  function ServiceFrom(f: Faults, id: nat, link: nat -> bool): (r: Faults)
    requires |f.table| == CLASSES && id <= CLASSES
    ensures |r.table| == CLASSES && r.seen == f.seen
    decreases CLASSES - id
  {
    if id == CLASSES then f
    else
      ServiceFrom(ServiceClass(f, id, link), id + 1, link)
  }

  function Reports(f: Faults, id: nat, times: nat): (r: Faults)
    requires |f.table| == CLASSES
    ensures |r.table| == CLASSES && r.seen == f.seen
  {
    if times == 0 then f else Reported(Reports(f, id, times - 1), id)
  }

  function CollectDrops(f: Faults, now: Platform, source: nat): (r: Faults)
    requires |f.table| == CLASSES && |f.seen.irqDropped| == |now.irqDropped| == IRQ_SOURCES
    requires source <= IRQ_SOURCES
    ensures |r.table| == CLASSES && |r.seen.irqDropped| == IRQ_SOURCES
    decreases IRQ_SOURCES - source
  {
    if source == IRQ_SOURCES then f
    else if now.irqDropped[source] == f.seen.irqDropped[source] then CollectDrops(f, now, source + 1)
    else
      var g := f.(seen := f.seen.(irqDropped := f.seen.irqDropped[source := now.irqDropped[source]]));
      CollectDrops(Reported(g, IRQ_OVERFLOW), now, source + 1)
  }

  function OverrunsSeen(f: Faults, now: Platform): (r: Faults)
    requires |f.table| == CLASSES
    ensures |r.table| == CLASSES && r.seen == f.seen.(overruns := now.overruns)
  {
    Reports(f.(seen := f.seen.(overruns := now.overruns)), CYCLE_OVERRUN, Wrap((now.overruns as int) - f.seen.overruns))
  }

  function OverflowSeen(f: Faults, now: Platform): (r: Faults)
    requires |f.table| == CLASSES
    ensures |r.table| == CLASSES && r.seen == f.seen.(uartOverflow := now.uartOverflow)
  {
    if now.uartOverflow == f.seen.uartOverflow then f
    else Reported(f.(seen := f.seen.(uartOverflow := now.uartOverflow)), UART_RX_OVERFLOW)
  }

  /** collect_platform_counters. */
  function Collect(f: Faults, now: Platform): (r: Faults)
    requires |f.table| == CLASSES && |f.seen.irqDropped| == |now.irqDropped| == IRQ_SOURCES
    ensures |r.table| == CLASSES && |r.seen.irqDropped| == IRQ_SOURCES
  {
    CollectDrops(OverflowSeen(OverrunsSeen(f, now), now), now, 0)
  }

  /** error_handling_service. */
  function Pass(f: Faults, now: Platform, link: nat -> bool): (r: Faults)
    requires |f.table| == CLASSES && |f.seen.irqDropped| == |now.irqDropped| == IRQ_SOURCES
    ensures |r.table| == CLASSES && |r.seen.irqDropped| == IRQ_SOURCES
  {
    ServiceFrom(Collect(f, now), 1, link)
  }

  // ---------- the same pass with interrupts reporting between any two accesses ----------

  /** What interrupts report just before each access of a pass: each overrun, the overflow,
      each drop count, and for each class its load, store, classification and delivery. */
  datatype Disturbance = Disturbance(
    overruns: nat -> seq<nat>,
    overflow: seq<nat>,
    drops: nat -> seq<nat>,
    loading: nat -> seq<nat>,
    storing: nat -> seq<nat>,
    classifying: nat -> seq<nat>,
    delivering: nat -> seq<nat>)

  function Nothing(n: nat): seq<nat>
  {
    []
  }

  const UNDISTURBED: Disturbance := Disturbance(Nothing, [], Nothing, Nothing, Nothing, Nothing, Nothing)

  function During(p: nat -> seq<nat>, n: nat): seq<nat>
  {
    if n == 0 then [] else During(p, n - 1) + p(n - 1)
  }

  /** Everything reported while the platform counters are collected. */
  function CollectHeard(f: Faults, now: Platform, d: Disturbance): seq<nat>
  {
    During(d.overruns, Wrap((now.overruns as int) - f.seen.overruns)) + d.overflow + During(d.drops, IRQ_SOURCES)
  }

  function CollectAmid(f: Faults, now: Platform, d: Disturbance): (r: Faults)
    requires |f.table| == CLASSES && |f.seen.irqDropped| == |now.irqDropped| == IRQ_SOURCES
    ensures |r.table| == CLASSES && |r.seen.irqDropped| == IRQ_SOURCES
  {
    Landed(Collect(f, now), CollectHeard(f, now, d))
  }

  function Accessed(f: Faults, id: nat, step: Step): (r: Faults)
    requires |f.table| == CLASSES && id < CLASSES
    ensures |r.table| == CLASSES && r.seen == f.seen && r.uplinkSet == f.uplinkSet && r.undelivered == f.undelivered && r.asked == f.asked
  {
    f.(table := f.table[id := Next(PolicyOf(id), f.table[id], step)])
  }

  /** The table when classify() is about to be called for a class, if it is. */
  function BeforeClassify(f: Faults, id: nat, d: Disturbance): (r: Faults)
    requires |f.table| == CLASSES && id < CLASSES
    ensures |r.table| == CLASSES && r.seen == f.seen && r.uplinkSet == f.uplinkSet && r.undelivered == f.undelivered && r.asked == f.asked
  {
    var a := Accessed(Landed(f, d.loading(id)), id, LoadReported);
    Landed(Accessed(Landed(a, d.storing(id)), id, StoreServiced), d.classifying(id))
  }

  predicate Decides(p: Policy, e: Entry)
  {
    e.loop.Classifying? && Escalates(p, Wrap(e.occurrences + e.loop.news), e.elevated)
  }

  function ServiceAmid(f: Faults, id: nat, link: nat -> bool, d: Disturbance): (r: Faults)
    requires |f.table| == CLASSES && id < CLASSES
    ensures |r.table| == CLASSES && r.seen == f.seen && r.uplinkSet == f.uplinkSet
  {
    var b := BeforeClassify(f, id, d);
    var g := Landed(Accessed(b, id, Classify), d.delivering(id));
    if Decides(PolicyOf(id), b.table[id]) then Delivered(g, id, link(id)) else g
  }

  function ServiceFromAmid(f: Faults, id: nat, link: nat -> bool, d: Disturbance): (r: Faults)
    requires |f.table| == CLASSES && id <= CLASSES
    ensures |r.table| == CLASSES && r.seen == f.seen && r.uplinkSet == f.uplinkSet
    decreases CLASSES - id
  {
    if id == CLASSES then f
    else
      ServiceFromAmid(ServiceAmid(f, id, link, d), id + 1, link, d)
  }

  /** error_handling_service, interrupted. */
  function PassAmid(f: Faults, now: Platform, link: nat -> bool, d: Disturbance): (r: Faults)
    requires |f.table| == CLASSES && |f.seen.irqDropped| == |now.irqDropped| == IRQ_SOURCES
    ensures |r.table| == CLASSES && |r.seen.irqDropped| == IRQ_SOURCES
  {
    ServiceFromAmid(CollectAmid(f, now, d), 1, link, d)
  }

  // ---------- reports of interrupts commute with what they interrupt ----------

  lemma ReportsCommute(f: Faults, a: nat, b: nat)
    requires |f.table| == CLASSES
    ensures Reported(Reported(f, a), b) == Reported(Reported(f, b), a)
  {
    hide Next, PolicyOf;
    assert Reported(Reported(f, a), b).table == Reported(Reported(f, b), a).table;
  }

  lemma {:induction false} LandedReported(f: Faults, ids: seq<nat>, id: nat)
    requires |f.table| == CLASSES
    ensures Reported(Landed(f, ids), id) == Landed(Reported(f, id), ids)
  {
    hide Reported;
    if ids != [] {
      var rest := ids[..|ids| - 1];
      LandedReported(f, rest, id);
      ReportsCommute(Landed(f, rest), ids[|ids| - 1], id);
    }
  }

  lemma {:induction false} LandedSeen(f: Faults, ids: seq<nat>, now: Platform)
    requires |f.table| == CLASSES
    ensures Landed(f.(seen := now), ids) == Landed(f, ids).(seen := now)
  {
    hide Next, PolicyOf;
    if ids != [] {
      LandedSeen(f, ids[..|ids| - 1], now);
    }
  }

  lemma {:induction false} LandedConcat(f: Faults, a: seq<nat>, b: seq<nat>)
    requires |f.table| == CLASSES
    ensures Landed(f, a + b) == Landed(Landed(f, a), b)
    decreases |b|
  {
    hide Reported;
    if b == [] {
      assert a + b == a;
    } else {
      assert (a + b)[..|a + b| - 1] == a + b[..|b| - 1];
      LandedConcat(f, a, b[..|b| - 1]);
    }
  }

  lemma LandedOverflow(f: Faults, ids: seq<nat>, now: Platform)
    requires |f.table| == CLASSES
    ensures OverflowSeen(Landed(f, ids), now) == Landed(OverflowSeen(f, now), ids)
  {
    hide Reported, Landed;
    if now.uartOverflow != f.seen.uartOverflow {
      var seen := f.seen.(uartOverflow := now.uartOverflow);
      LandedSeen(f, ids, seen);
      LandedReported(f.(seen := seen), ids, UART_RX_OVERFLOW);
    }
  }

  lemma {:induction false} LandedDrops(f: Faults, ids: seq<nat>, now: Platform, source: nat)
    requires |f.table| == CLASSES && |f.seen.irqDropped| == |now.irqDropped| == IRQ_SOURCES && source <= IRQ_SOURCES
    ensures CollectDrops(Landed(f, ids), now, source) == Landed(CollectDrops(f, now, source), ids)
    decreases IRQ_SOURCES - source
  {
    hide Reported, Landed;
    if source < IRQ_SOURCES {
      if now.irqDropped[source] == f.seen.irqDropped[source] {
        LandedDrops(f, ids, now, source + 1);
      } else {
        var seen := f.seen.(irqDropped := f.seen.irqDropped[source := now.irqDropped[source]]);
        LandedSeen(f, ids, seen);
        LandedReported(f.(seen := seen), ids, IRQ_OVERFLOW);
        LandedDrops(Reported(f.(seen := seen), IRQ_OVERFLOW), ids, now, source + 1);
      }
    }
  }

  /** Interrupts only add reports to a class. */
  lemma {:induction false} LandedOn(f: Faults, ids: seq<nat>, c: nat)
    requires |f.table| == CLASSES && c < CLASSES
    ensures var e, r := f.table[c], Landed(f, ids).table[c];
      && r.made == e.made + Times(ids, c)
      && r == e.(reported := r.reported, made := r.made)
      && (Counts(e) ==> Counts(r)) && (Inv(PolicyOf(c), e) ==> Inv(PolicyOf(c), r))
  {
    hide PolicyOf, Wrap, Counts, Escalated, Landed, Next;
    if ids == [] {
      assert Landed(f, ids) == f by {
        EmptyLanded(f);
      }
    } else {
      var g := Landed(f, ids[..|ids| - 1]);
      LandedOn(f, ids[..|ids| - 1], c);
      LastLanded(f, ids);
      ReportedOn(g, ids[|ids| - 1], c);
    }
  }

  lemma EmptyLanded(f: Faults)
    requires |f.table| == CLASSES
    ensures Landed(f, []) == f
  {
  }

  lemma LastLanded(f: Faults, ids: seq<nat>)
    requires |f.table| == CLASSES && ids != []
    ensures Landed(f, ids) == Reported(Landed(f, ids[..|ids| - 1]), ids[|ids| - 1])
  {
  }

  lemma ReportedOn(f: Faults, id: nat, c: nat)
    requires |f.table| == CLASSES && c < CLASSES
    ensures var e, r := f.table[c], Reported(f, id).table[c];
      && r.made == e.made + (if id == c then 1 else 0)
      && r == e.(reported := r.reported, made := r.made)
      && (Counts(e) ==> Counts(r)) && (Inv(PolicyOf(c), e) ==> Inv(PolicyOf(c), r))
  {
    hide PolicyOf, Wrap, Counts, Escalated;
    var e := f.table[c];
    if Counts(e) {
      CountsKept(PolicyOf(c), e, FaultClass.Report);
      if Inv(PolicyOf(c), e) {
        EscalatedKept(PolicyOf(c), e, FaultClass.Report);
      }
    }
  }

  lemma FormMeans(f: Faults, id: nat)
    requires WellFormed(f) && id < CLASSES
    ensures |f.table| == CLASSES && |f.seen.irqDropped| == IRQ_SOURCES && f.table[id].loop.Outside?
  {
  }

  lemma NotClassifying(b: Faults, id: nat)
    requires |b.table| == CLASSES && id < CLASSES && b.table[id].loop.Outside?
    ensures Accessed(b, id, Classify) == b && !Decides(PolicyOf(id), b.table[id])
  {
    hide PolicyOf;
    assert b.table[id := b.table[id]] == b.table;
  }

  /** Servicing a class, interrupted or not, leaves the loop outside every class. */
  lemma ServiceAmidForm(f: Faults, id: nat, link: nat -> bool, d: Disturbance)
    requires WellFormed(f) && id < CLASSES
    ensures WellFormed(ServiceAmid(f, id, link, d))
  {
    hide Wrap, PolicyOf, Escalates, Landed, Reported, BeforeClassify;
    var b := BeforeClassify(f, id, d);
    var g := Landed(Accessed(b, id, Classify), d.delivering(id));
    forall c | 0 <= c < CLASSES
      ensures ServiceAmid(f, id, link, d).table[c].loop.Outside?
    {
      BeforeClassifyLoop(f, id, d, c);
      LandedOn(Accessed(b, id, Classify), d.delivering(id), c);
      ReportedOn(g, HK_TRANSMIT, c);
    }
  }

  lemma BeforeClassifyLoop(f: Faults, id: nat, d: Disturbance, c: nat)
    requires WellFormed(f) && id < CLASSES && c < CLASSES
    ensures var r := BeforeClassify(f, id, d).table[c];
      if c == id then r.loop.Outside? || r.loop.Classifying? else r.loop.Outside?
  {
    hide Wrap, PolicyOf, Escalates, Landed;
    var a := Accessed(Landed(f, d.loading(id)), id, LoadReported);
    LandedOn(f, d.loading(id), c);
    LandedOn(a, d.storing(id), c);
    LandedOn(Accessed(Landed(a, d.storing(id)), id, StoreServiced), d.classifying(id), c);
  }

  lemma ServiceUndisturbed(f: Faults, id: nat, link: nat -> bool)
    requires WellFormed(f) && id < CLASSES
    ensures ServiceAmid(f, id, link, UNDISTURBED) == ServiceClass(f, id, link)
  {
    hide Wrap, PolicyOf, Escalates;
    var p, e := PolicyOf(id), f.table[id];
    var x := Next(p, Next(p, e, LoadReported), StoreServiced);
    assert BeforeClassify(f, id, UNDISTURBED) == f.(table := f.table[id := x]);
    assert Decides(p, x) <==> EscalatesNow(p, e);
  }

  lemma {:induction false} ServiceFromUndisturbed(f: Faults, id: nat, link: nat -> bool)
    requires WellFormed(f) && 1 <= id <= CLASSES
    ensures ServiceFromAmid(f, id, link, UNDISTURBED) == ServiceFrom(f, id, link)
    decreases CLASSES - id
  {
    hide ServiceAmid, ServiceClass, Unserviced;
    if id < CLASSES {
      ServiceUndisturbed(f, id, link);
      ServiceClassEffect(f, id, link);
      ServiceFromUndisturbed(ServiceClass(f, id, link), id + 1, link);
    }
  }

  lemma {:induction false} NothingDuring(n: nat)
    ensures During(Nothing, n) == []
  {
    if n > 0 {
      NothingDuring(n - 1);
    }
  }

  /** Without interrupts it is the plain pass. */
  lemma PassUndisturbed(f: Faults, now: Platform, link: nat -> bool)
    requires WellFormed(f) && |now.irqDropped| == IRQ_SOURCES
    ensures PassAmid(f, now, link, UNDISTURBED) == Pass(f, now, link)
  {
    hide Collect, ServiceFrom, ServiceFromAmid, Wrap;
    NothingDuring(Wrap((now.overruns as int) - f.seen.overruns));
    NothingDuring(IRQ_SOURCES);
    CollectEffect(f, now);
    ServiceFromUndisturbed(Collect(f, now), 1, link);
  }

  function ClearedEntry(e: Entry): Entry
  {
    e.(serviced := e.reported, servicedTo := e.made, clearedAt := e.made, escalatedSinceClear := 0,
       occurrences := 0, flag := false, elevated := false)
  }

  /** svc_fdir_clear, undisturbed: its two accesses one after the other. */
  function Cleared(f: Faults, id: nat): Faults
    requires |f.table| == CLASSES
  {
    if id >= CLASSES then f else f.(table := f.table[id := ClearedEntry(f.table[id])])
  }

  lemma ClearIsTwoSteps(p: Policy, e: Entry)
    requires e.loop.Outside?
    ensures ClearedEntry(e) == Next(p, Next(p, e, ClearServiced), ClearRecord)
  {
  }

  /** An escalation counted against a class outside a service pass. */
  function Counted(f: Faults, id: nat): (r: Faults)
    requires |f.table| == CLASSES && id < CLASSES
    ensures |r.table| == CLASSES
  {
    f.(table := f.table[id := f.table[id].(escalations := Wrap(f.table[id].escalations + 1), renoted := f.table[id].renoted + 1)])
  }

  // ---------- feedback dies out ----------

  lemma ServiceEntryEffect(p: Policy, e: Entry)
    requires e.loop.Outside?
    ensures var r := ServiceEntry(p, e);
      && r.loop.Outside?
      && r.reported == e.reported
      && Unserviced(r) == 0
      && (Unserviced(e) == 0 ==> r == e)
      && (e.elevated ==> r.elevated)
      && (EscalatesNow(p, e) && p.severity.Critical? ==> !e.elevated && r.elevated)
      && r.escalatedEver == e.escalatedEver + (if EscalatesNow(p, e) then 1 else 0)
  {
  }

  /** No class but the link's own has news. */
  ghost predicate Quiet(f: Faults)
  {
    && WellFormed(f)
    && forall i :: 1 <= i < CLASSES && i != HK_TRANSMIT ==> Unserviced(f.table[i]) == 0
  }

  ghost predicate Silent(f: Faults)
  {
    Quiet(f) && Unserviced(f.table[HK_TRANSMIT]) == 0
  }

  lemma ServiceClassEffect(f: Faults, id: nat, link: nat -> bool)
    requires WellFormed(f) && 1 <= id < CLASSES
    ensures var g := ServiceClass(f, id, link);
      && WellFormed(g) && g.seen == f.seen && g.uplinkSet == f.uplinkSet
      && (id != HK_TRANSMIT ==> Unserviced(g.table[id]) == 0)
      && (forall j :: 0 <= j < CLASSES && j != id && j != HK_TRANSMIT ==> g.table[j] == f.table[j])
      && (f.table[HK_TRANSMIT].elevated ==> g.table[HK_TRANSMIT].elevated)
      && (Unserviced(f.table[id]) == 0 ==> g == f)
  {
    hide PolicyOf, Next, Wrap;
    var p := PolicyOf(id);
    ServiceEntryEffect(p, f.table[id]);
    ReportEffect(PolicyOf(HK_TRANSMIT), f.table[HK_TRANSMIT]);
    ReportEffect(PolicyOf(HK_TRANSMIT), ServiceEntry(p, f.table[id]));
    if Unserviced(f.table[id]) == 0 {
      assert f.table[id := f.table[id]] == f.table;
    }
  }

  lemma ReportEffect(p: Policy, e: Entry)
    ensures var r := Next(p, e, FaultClass.Report);
      r.loop == e.loop && r.elevated == e.elevated && r.serviced == e.serviced && r.occurrences == e.occurrences
  {
  }

  lemma {:induction false} ServiceFromEffect(f: Faults, id: nat, link: nat -> bool)
    requires WellFormed(f) && 1 <= id <= CLASSES
    requires forall i :: 1 <= i < id && i != HK_TRANSMIT ==> Unserviced(f.table[i]) == 0
    ensures var g := ServiceFrom(f, id, link);
      && Quiet(g) && g.seen == f.seen && g.uplinkSet == f.uplinkSet
      && (f.table[HK_TRANSMIT].elevated ==> g.table[HK_TRANSMIT].elevated)
    decreases CLASSES - id
  {
    hide ServiceClass, Unserviced;
    if id < CLASSES {
      ServiceClassEffect(f, id, link);
      ServiceFromEffect(ServiceClass(f, id, link), id + 1, link);
    }
  }

  lemma {:induction false} NothingToDo(f: Faults, id: nat, end: nat, link: nat -> bool)
    requires WellFormed(f) && 1 <= id <= end <= CLASSES
    requires forall i :: id <= i < end ==> Unserviced(f.table[i]) == 0
    ensures ServiceFrom(f, id, link) == ServiceFrom(f, end, link)
    decreases end - id
  {
    hide ServiceClass, Unserviced;
    if id < end {
      ServiceClassEffect(f, id, link);
      NothingToDo(f, id + 1, end, link);
    }
  }

  /** On a quiet table a pass only services the link's own class, which after that either
      has no news left or has been elevated, and once elevated escalates no more. */
  lemma QuietPass(f: Faults, link: nat -> bool)
    requires Quiet(f)
    ensures var g := ServiceFrom(f, 1, link);
      && Quiet(g) && g.seen == f.seen
      && (Silent(g) || g.table[HK_TRANSMIT].elevated)
      && (f.table[HK_TRANSMIT].elevated ==> Silent(g))
      && (Silent(f) ==> g == f)
  {
    hide ServiceClass, Unserviced;
    NothingToDo(f, 1, HK_TRANSMIT, link);
    QuietClass(f, link);
    NothingToDo(ServiceClass(f, HK_TRANSMIT, link), HK_TRANSMIT + 1, CLASSES, link);
  }

  lemma QuietClass(f: Faults, link: nat -> bool)
    requires Quiet(f)
    ensures var g := ServiceClass(f, HK_TRANSMIT, link);
      && Quiet(g) && g.seen == f.seen
      && (Silent(g) || g.table[HK_TRANSMIT].elevated)
      && (f.table[HK_TRANSMIT].elevated ==> Silent(g))
      && (Silent(f) ==> g == f)
  {
    hide Next, PolicyOf, Wrap, ServiceEntry;
    ServiceClassEffect(f, HK_TRANSMIT, link);
    HkTransmitPolicy();
    var p := PolicyOf(HK_TRANSMIT);
    ServiceEntryEffect(p, f.table[HK_TRANSMIT]);
    ReportEffect(p, ServiceEntry(p, f.table[HK_TRANSMIT]));
  }

  lemma {:induction false} ReportsKeepForm(f: Faults, id: nat, times: nat)
    requires WellFormed(f)
    ensures WellFormed(Reports(f, id, times))
    ensures Reports(f, id, times).uplinkSet == f.uplinkSet && Reports(f, id, times).undelivered == f.undelivered
  {
    if times > 0 {
      ReportsKeepForm(f, id, times - 1);
    }
  }

  lemma {:induction false} CollectDropsEffect(f: Faults, now: Platform, source: nat)
    requires WellFormed(f) && |now.irqDropped| == IRQ_SOURCES && source <= IRQ_SOURCES
    requires forall k :: 0 <= k < source ==> f.seen.irqDropped[k] == now.irqDropped[k]
    requires f.seen.overruns == now.overruns && f.seen.uartOverflow == now.uartOverflow
    ensures WellFormed(CollectDrops(f, now, source)) && CollectDrops(f, now, source).seen == now
    ensures f.seen == now ==> CollectDrops(f, now, source) == f
    decreases IRQ_SOURCES - source
  {
    if source == IRQ_SOURCES {
      assert f.seen.irqDropped == now.irqDropped;
    } else if now.irqDropped[source] == f.seen.irqDropped[source] {
      CollectDropsEffect(f, now, source + 1);
    } else {
      var g := f.(seen := f.seen.(irqDropped := f.seen.irqDropped[source := now.irqDropped[source]]));
      CollectDropsEffect(Reported(g, IRQ_OVERFLOW), now, source + 1);
    }
  }

  lemma OverrunsEffect(f: Faults, now: Platform)
    requires WellFormed(f)
    ensures WellFormed(OverrunsSeen(f, now))
    ensures f.seen.overruns == now.overruns ==> OverrunsSeen(f, now) == f
  {
    hide Wrap;
    WrapSmall(0);
    ReportsKeepForm(f.(seen := f.seen.(overruns := now.overruns)), CYCLE_OVERRUN, Wrap((now.overruns as int) - f.seen.overruns));
  }

  lemma OverflowEffect(f: Faults, now: Platform)
    requires WellFormed(f)
    ensures WellFormed(OverflowSeen(f, now))
    ensures f.seen.uartOverflow == now.uartOverflow ==> OverflowSeen(f, now) == f
  {
    hide Wrap, Next, PolicyOf;
    ReportEffect(PolicyOf(UART_RX_OVERFLOW), f.table[UART_RX_OVERFLOW]);
  }

  lemma CollectEffect(f: Faults, now: Platform)
    requires WellFormed(f) && |now.irqDropped| == IRQ_SOURCES
    ensures WellFormed(Collect(f, now)) && Collect(f, now).seen == now
    ensures f.seen == now ==> Collect(f, now) == f
  {
    hide OverrunsSeen, OverflowSeen, CollectDrops;
    OverrunsEffect(f, now);
    OverflowEffect(OverrunsSeen(f, now), now);
    CollectDropsEffect(OverflowSeen(OverrunsSeen(f, now), now), now, 0);
  }

  /** With no new external reports and the platform counters still, three passes leave
      nothing unserviced, whatever the link accepts or refuses in each of them. */
  lemma FeedbackDiesOut(f: Faults, now: Platform, link1: nat -> bool, link2: nat -> bool, link3: nat -> bool)
    requires WellFormed(f) && |now.irqDropped| == IRQ_SOURCES
    ensures var g1 := Pass(f, now, link1);
      && WellFormed(g1)
      && var g2 := Pass(g1, now, link2);
      && WellFormed(g2)
      && Silent(Pass(g2, now, link3))
  {
    hide Collect, ServiceFrom, Unserviced;
    CollectEffect(f, now);
    ServiceFromEffect(Collect(f, now), 1, link1);
    var g1 := Pass(f, now, link1);
    CollectEffect(g1, now);
    QuietPass(g1, link2);
    var g2 := Pass(g1, now, link2);
    CollectEffect(g2, now);
    QuietPass(g2, link3);
  }

  /** A class with n reports made and none serviced. */
  function Waiting(n: nat): Entry
    requires n < 100
  {
    NEW.(reported := n, made := n)
  }

  /** A class with n reports made, of which one pass has serviced four. */
  function FourServiced(n: nat): Entry
    requires 4 <= n < 100
  {
    NEW.(reported := n, made := n, serviced := 4, servicedTo := 4, occurrences := 4, flag := true, passesWithNews := 1)
  }

  /** All classes idle but two: the write class at its limit, the link's own class one
      report short of its limit. */
  function OneShort(now: Platform): Faults
  {
    Faults(seq(CLASSES, i => if i == NAND_WRITE then Waiting(3) else if i == HK_TRANSMIT then FourServiced(4) else NEW), true, 0, now, [])
  }

  predicate RefuseAll(id: nat)
  {
    false
  }

  lemma OneShortShape(now: Platform)
    requires |now.irqDropped| == IRQ_SOURCES
    ensures var f := OneShort(now);
      && WellFormed(f)
      && f.table[NAND_WRITE] == Waiting(3)
      && f.table[HK_TRANSMIT] == FourServiced(4)
      && f.uplinkSet && f.seen == now
      && forall i :: 0 <= i < CLASSES && i != NAND_WRITE ==> Unserviced(f.table[i]) == 0
  {
    var f := OneShort(now);
    forall i | 0 <= i < CLASSES
      ensures f.table[i].loop.Outside? && (i != NAND_WRITE ==> f.table[i].reported == f.table[i].serviced)
    {
      assert f.table[i] == if i == NAND_WRITE then Waiting(3) else if i == HK_TRANSMIT then FourServiced(4) else NEW;
    }
  }

  /** Two passes are not enough in general: with a link that refuses everything, the write
      class's failed delivery brings the link's own class to its limit in the second pass,
      and the failed delivery of that is still unserviced after it. */
  lemma TwoPassesMayNotSuffice(now: Platform)
    requires |now.irqDropped| == IRQ_SOURCES
    ensures var g1 := Pass(OneShort(now), now, RefuseAll);
      && WellFormed(g1)
      && WellFormed(Pass(g1, now, RefuseAll))
      && Unserviced(Pass(g1, now, RefuseAll).table[HK_TRANSMIT]) == 1
  {
    hide PolicyOf, Collect, ServiceClass, ServiceFrom, Next, Unserviced, OneShort, Waiting, FourServiced;
    var f := OneShort(now);
    OneShortShape(now);
    CollectEffect(f, now);
    NothingToDo(f, 1, NAND_WRITE, RefuseAll);
    var g := ServiceClass(f, NAND_WRITE, RefuseAll);
    LastClass(f, NAND_WRITE, RefuseAll);
    FirstRefusal(f, RefuseAll);
    CollectEffect(g, now);
    NothingToDo(g, 1, HK_TRANSMIT, RefuseAll);
    LastClass(g, HK_TRANSMIT, RefuseAll);
    SecondRefusal(g, RefuseAll);
  }

  /** When nothing after a class has news, servicing it ends the pass. */
  lemma LastClass(f: Faults, id: nat, link: nat -> bool)
    requires WellFormed(f) && 1 <= id < CLASSES && (id == HK_TRANSMIT || id > HK_TRANSMIT)
    requires forall i :: id < i < CLASSES ==> Unserviced(f.table[i]) == 0
    ensures ServiceFrom(f, id, link) == ServiceClass(f, id, link)
    ensures WellFormed(ServiceClass(f, id, link))
    ensures forall i :: 1 <= i < CLASSES && i != id && i != HK_TRANSMIT ==> ServiceClass(f, id, link).table[i] == f.table[i]
    ensures id != HK_TRANSMIT ==> Unserviced(ServiceClass(f, id, link).table[id]) == 0
    ensures ServiceClass(f, id, link).seen == f.seen && ServiceClass(f, id, link).uplinkSet == f.uplinkSet
  {
    hide ServiceClass, Unserviced;
    ServiceClassEffect(f, id, link);
    NothingToDo(ServiceClass(f, id, link), id + 1, CLASSES, link);
  }

  lemma FirstRefusal(f: Faults, link: nat -> bool)
    requires WellFormed(f) && f.uplinkSet && !link(NAND_WRITE)
    requires f.table[NAND_WRITE] == Waiting(3) && f.table[HK_TRANSMIT] == FourServiced(4)
    ensures ServiceClass(f, NAND_WRITE, link).table[HK_TRANSMIT] == FourServiced(5)
  {
    hide PolicyOf, ServiceEntry, EscalatesNow, Waiting, FourServiced;
    HkTransmitPolicy();
    ThirdReportEscalates();
    FifthReport(PolicyOf(HK_TRANSMIT));
  }

  lemma ThirdReportEscalates()
    ensures EscalatesNow(Policy(Critical, ReportFlag, 3), Waiting(3))
  {
    WrapSmall(3);
    hide Wrap;
  }

  lemma FifthReport(p: Policy)
    ensures Next(p, FourServiced(4), FaultClass.Report) == FourServiced(5)
  {
    WrapSmall(5);
    hide Wrap;
  }

  lemma SecondRefusal(g: Faults, link: nat -> bool)
    requires WellFormed(g) && g.uplinkSet && !link(HK_TRANSMIT)
    requires g.table[HK_TRANSMIT] == FourServiced(5)
    ensures Unserviced(ServiceClass(g, HK_TRANSMIT, link).table[HK_TRANSMIT]) == 1
  {
    hide PolicyOf, ServiceEntry, Next, Unserviced, EscalatesNow, FourServiced;
    HkTransmitPolicy();
    FifthReportEscalates(PolicyOf(HK_TRANSMIT));
  }

  lemma FifthReportEscalates(p: Policy)
    requires p == Policy(Critical, ReportFlag, 5)
    ensures EscalatesNow(p, FourServiced(5))
    ensures Unserviced(Next(p, ServiceEntry(p, FourServiced(5)), FaultClass.Report)) == 1
  {
  }

  // ---------- the service in place ----------

  class Service {
    const table: array<Entry>
    var uplinkSet: bool
    var undelivered: u32
    /** What the uplink has been asked for, oldest first. */
    var asked: seq<Ask>
    var reentries: u32
    var seen: Platform

    ghost function State(): Faults
      reads this, table
    {
      Faults(table[..], uplinkSet, undelivered, seen, asked)
    }

    /** What holds in the middle of a pass as well. */
    ghost predicate Shaped()
      reads this, table
    {
      table.Length == CLASSES && |seen.irqDropped| == IRQ_SOURCES
    }

    ghost predicate Valid()
      reads this, table
    {
      Shaped() && WellFormed(State())
    }

    constructor ()
      ensures Valid() && fresh(table) && uplinkSet == false && undelivered == 0 && reentries == 0 && asked == []
      ensures forall i :: 0 <= i < CLASSES ==> table[i] == NEW
    {
      table := new Entry[CLASSES](i => NEW);
      uplinkSet := false;
      undelivered := 0;
      asked := [];
      reentries := 0;
      seen := Platform(0, 0, seq(IRQ_SOURCES, i => 0));
    }

    /** svc_fdir_report: an identifier outside the set is ignored. */
    method Report(id: nat)
      requires Shaped()
      modifies table
      ensures Shaped() && (old(Valid()) ==> Valid())
      ensures State() == Reported(old(State()), id)
    {
      if id < CLASSES {
        ReportEffect(PolicyOf(id), table[id]);
        table[id] := table[id].(reported := Wrap(table[id].reported + 1), made := table[id].made + 1);
        assert table[..] == old(table[..])[id := Next(PolicyOf(id), old(table[id]), FaultClass.Report)];
      }
    }

    /** Interrupts reporting faults of their own. */
    method Land(ids: seq<nat>)
      requires Shaped()
      modifies table
      ensures Shaped() && (old(Valid()) ==> Valid())
      ensures State() == Landed(old(State()), ids)
    {
      hide Reported;
      for i := 0 to |ids|
        invariant Shaped() && (old(Valid()) ==> Valid()) && State() == Landed(old(State()), ids[..i])
      {
        assert ids[..i + 1][..i] == ids[..i];
        Report(ids[i]);
      }
      assert ids[..|ids|] == ids;
    }

    /** escalate(), the escalation count apart: `accepted` is whether the link takes the frame. */
    method Escalate(id: nat, accepted: bool)
      requires Shaped() && id < CLASSES
      modifies table, this`undelivered, this`asked
      ensures Shaped() && (old(Valid()) ==> Valid())
      ensures State() == Delivered(old(State()), id, accepted)
      ensures asked == if uplinkSet && PolicyOf(id).escalation != LogOnly then old(asked) + [Ask(id, PolicyOf(id).escalation)] else old(asked)
    {
      hide PolicyOf;
      var kind := PolicyOf(id).escalation;
      if kind.LogOnly? {
        return;
      }
      var st := ErrUnsupported;
      if uplinkSet {
        asked := asked + [Ask(id, kind)];
        if accepted {
          st := Ok;
        } else {
          Report(HK_TRANSMIT);
          st := ErrHardware;
        }
      }
      if st != Ok {
        undelivered := Wrap(undelivered + 1);
      }
    }

    /** classify(), up to the delivery of the escalation it may decide on. */
    method Classify(id: nat, news: u32) returns (up: bool)
      requires Shaped() && id < CLASSES && table[id].loop.Classifying? && table[id].loop.news == news
      modifies table
      ensures Shaped()
      ensures State() == Accessed(old(State()), id, FaultClass.Classify)
      ensures up <==> Decides(PolicyOf(id), old(table[id]))
    {
      hide Wrap, PolicyOf;
      var p := PolicyOf(id);
      ghost var e := table[id];
      var occurrences := Wrap(table[id].occurrences + news);
      table[id] := table[id].(occurrences := occurrences, flag := true, loop := Outside, passesWithNews := table[id].passesWithNews + 1);
      up := false;
      match p.severity {
        case Severe =>
          up := true;
        case Critical =>
          if p.limit != 0 && occurrences >= p.limit && !table[id].elevated {
            table[id] := table[id].(elevated := true);
            up := true;
          }
        case _ =>
      }
      if up {
        table[id] := table[id].(
          escalations := Wrap(table[id].escalations + 1),
          escalatedSinceClear := table[id].escalatedSinceClear + 1,
          escalatedEver := table[id].escalatedEver + 1);
      }
      assert table[id] == Next(p, e, FaultClass.Classify);
      assert table[..] == old(table[..])[id := table[id]];
    }

    /** The load of the report counter. */
    method LoadCounter(id: nat, before: seq<nat>) returns (reported: u32)
      requires Shaped() && id < CLASSES && table[id].loop.Outside?
      modifies table
      ensures Shaped()
      ensures State() == Accessed(Landed(old(State()), before), id, LoadReported)
      ensures table[id].loop.Loaded? && table[id].loop.reported == reported
    {
      hide PolicyOf, Wrap, Reported, Landed;
      LandedOn(State(), before, id);
      Land(before);
      ghost var f := State();
      reported := table[id].reported;
      table[id] := table[id].(loop := Loaded(reported, table[id].made));
      assert table[..] == f.table[id := Next(PolicyOf(id), f.table[id], LoadReported)];
    }

    /** The store of the serviced counter, if there is news. */
    method StoreCounter(id: nat, reported: u32, before: seq<nat>) returns (news: u32)
      requires Shaped() && id < CLASSES && table[id].loop.Loaded? && table[id].loop.reported == reported
      modifies table
      ensures Shaped()
      ensures State() == Accessed(Landed(old(State()), before), id, StoreServiced)
      ensures if news == 0 then table[id].loop.Outside? else table[id].loop.Classifying? && table[id].loop.news == news
    {
      hide PolicyOf, Wrap, Reported, Landed;
      LandedOn(State(), before, id);
      Land(before);
      ghost var f := State();
      news := Wrap((reported as int) - table[id].serviced);
      if news == 0 {
        table[id] := table[id].(loop := Outside);
      } else {
        table[id] := table[id].(serviced := reported, loop := Classifying(news, table[id].servicedTo), servicedTo := table[id].loop.made);
      }
      assert table[..] == f.table[id := Next(PolicyOf(id), f.table[id], StoreServiced)];
    }

    /** One round of the loop of error_handling_service. */
    method ServiceOne(id: nat, link: nat -> bool, d: Disturbance)
      requires Valid() && id < CLASSES
      modifies table, this`undelivered, this`asked
      ensures Valid()
      ensures State() == ServiceAmid(old(State()), id, link, d)
    {
      hide Wrap, PolicyOf, Escalates, Landed, Next, Delivered, Accessed, WellFormed;
      ServiceAmidForm(State(), id, link, d);
      FormMeans(State(), id);
      var reported := LoadCounter(id, d.loading(id));
      var news := StoreCounter(id, reported, d.storing(id));
      LandedOn(State(), d.classifying(id), id);
      Land(d.classifying(id));
      ghost var b := State();
      assert b == BeforeClassify(old(State()), id, d);
      if news == 0 {
        NotClassifying(b, id);
        Land(d.delivering(id));
        return;
      }
      var up := Classify(id, news);
      Land(d.delivering(id));
      if up {
        Escalate(id, link(id));
      }
    }

    /** error_handling_service: class 0 stands for no fault and is never serviced. */
    method ErrorHandling(now: Platform, link: nat -> bool, d: Disturbance)
      requires Valid() && |now.irqDropped| == IRQ_SOURCES
      modifies table, this`undelivered, this`asked, this`seen
      ensures Valid()
      ensures State() == PassAmid(old(State()), now, link, d)
    {
      hide ServiceAmid, CollectAmid, WellFormed;
      CollectCounters(now, d);
      ghost var f := State();
      var i := 1;
      while i < CLASSES
        invariant 1 <= i <= CLASSES && Valid() && |table[..]| == CLASSES
        invariant ServiceFromAmid(f, 1, link, d) == ServiceFromAmid(State(), i, link, d)
      {
        ServiceOne(i, link, d);
        i := i + 1;
      }
    }

    method CollectCounters(now: Platform, d: Disturbance)
      requires Valid() && |now.irqDropped| == IRQ_SOURCES
      modifies table, this`seen
      ensures Valid() && |table[..]| == CLASSES && |seen.irqDropped| == IRQ_SOURCES
      ensures State() == CollectAmid(old(State()), now, d)
    {
      hide CollectDrops, OverrunsSeen, OverflowSeen, Landed, During, Wrap;
      ghost var f := State();
      ghost var a := OverrunsSeen(f, now);
      ghost var b := OverflowSeen(a, now);
      ghost var h := During(d.overruns, Wrap((now.overruns as int) - f.seen.overruns));
      CollectOverruns(now, d);
      LandedOverflow(a, h, now);
      LandedConcat(b, h, d.overflow);
      CollectOverflow(now, d);
      LandedDrops(b, h + d.overflow, now, 0);
      LandedConcat(CollectDrops(b, now, 0), h + d.overflow, During(d.drops, IRQ_SOURCES));
      CollectIrqDrops(now, d);
    }

    method CollectOverruns(now: Platform, d: Disturbance)
      requires Valid()
      modifies table, this`seen
      ensures Valid()
      ensures State() == Landed(OverrunsSeen(old(State()), now), During(d.overruns, Wrap((now.overruns as int) - old(seen).overruns)))
    {
      hide Next, PolicyOf, Reported, Landed;
      ghost var f0 := State();
      var delta := Wrap((now.overruns as int) - seen.overruns);
      if now.overruns == seen.overruns {
        EmptyLanded(f0);
        return;
      }
      seen := seen.(overruns := now.overruns);
      ghost var f := State();
      EmptyLanded(f);
      for i := 0 to delta
        invariant Valid() && State() == Landed(Reports(f, CYCLE_OVERRUN, i), During(d.overruns, i))
      {
        ghost var g, h := Reports(f, CYCLE_OVERRUN, i), During(d.overruns, i);
        LandedConcat(g, h, d.overruns(i));
        LandedReported(g, h + d.overruns(i), CYCLE_OVERRUN);
        Land(d.overruns(i));
        Report(CYCLE_OVERRUN);
      }
    }

    method CollectOverflow(now: Platform, d: Disturbance)
      requires Valid()
      modifies table, this`seen
      ensures Valid()
      ensures State() == Landed(OverflowSeen(old(State()), now), d.overflow)
    {
      hide Next, PolicyOf, Reported, Landed;
      LandedOverflow(State(), d.overflow, now);
      Land(d.overflow);
      if now.uartOverflow != seen.uartOverflow {
        seen := seen.(uartOverflow := now.uartOverflow);
        Report(UART_RX_OVERFLOW);
      }
    }

    method CollectIrqDrops(now: Platform, d: Disturbance)
      requires Valid() && |now.irqDropped| == IRQ_SOURCES
      modifies table, this`seen
      ensures Valid() && |table[..]| == CLASSES && |seen.irqDropped| == IRQ_SOURCES
      ensures State() == Landed(CollectDrops(old(State()), now, 0), During(d.drops, IRQ_SOURCES))
    {
      hide Next, PolicyOf, Wrap, Reported, Landed;
      ghost var h := State();
      ghost var x := h;
      EmptyLanded(h);
      for i := 0 to IRQ_SOURCES
        invariant Valid() && |x.table| == CLASSES && |x.seen.irqDropped| == |seen.irqDropped| == IRQ_SOURCES
        invariant CollectDrops(h, now, 0) == CollectDrops(x, now, i)
        invariant State() == Landed(x, During(d.drops, i))
      {
        ghost var heard := During(d.drops, i) + d.drops(i);
        LandedConcat(x, During(d.drops, i), d.drops(i));
        Land(d.drops(i));
        if now.irqDropped[i] != seen.irqDropped[i] {
          LandedSeen(x, heard, seen.(irqDropped := seen.irqDropped[i := now.irqDropped[i]]));
          seen := seen.(irqDropped := seen.irqDropped[i := now.irqDropped[i]]);
          LandedReported(x.(seen := seen), heard, IRQ_OVERFLOW);
          x := Reported(x.(seen := seen), IRQ_OVERFLOW);
          Report(IRQ_OVERFLOW);
        }
      }
    }

    /** svc_fdir_occurrences. */
    method OccurrencesOf(id: nat) returns (n: u32)
      requires Valid()
      ensures n == if id < CLASSES then Occurrences(table[id]) else 0
    {
      if id >= CLASSES {
        return 0;
      }
      n := Wrap(table[id].occurrences + Wrap((table[id].reported as int) - table[id].serviced));
    }

    /** svc_fdir_retries_exhausted. */
    method RetriesExhausted(id: nat) returns (b: bool)
      requires Valid()
      ensures b <==> id < CLASSES && Exhausted(PolicyOf(id), table[id])
    {
      if id >= CLASSES {
        return false;
      }
      if PolicyOf(id).limit == 0 {
        return false;
      }
      var n := OccurrencesOf(id);
      b := n >= PolicyOf(id).limit;
    }

    /** svc_fdir_clear. */
    method Clear(id: nat)
      requires Valid()
      modifies table
      ensures Valid()
      ensures State() == Cleared(old(State()), id)
    {
      if id < CLASSES {
        table[id] := table[id].(serviced := table[id].reported, servicedTo := table[id].made, clearedAt := table[id].made, escalatedSinceClear := 0);
        table[id] := table[id].(occurrences := 0, flag := false, elevated := false);
        assert table[..] == old(table[..])[id := ClearedEntry(old(table[id]))];
      }
    }

    /** svc_fdir_reentry_note: past the global limit every re-entry escalates its cause. */
    method ReentryNote(cause: nat, accepted: bool)
      requires Valid() && cause < CLASSES
      modifies table, this`undelivered, this`asked, this`reentries
      ensures Valid() && reentries == Wrap(old(reentries) + 1)
      ensures State() == if reentries > REENTRY_LIMIT
        then Delivered(Counted(old(State()), cause), cause, accepted) else old(State())
      ensures table[cause].escalations == if reentries > REENTRY_LIMIT then Wrap(old(table[cause]).escalations + 1) else old(table[cause]).escalations
      ensures asked == if reentries > REENTRY_LIMIT && uplinkSet && PolicyOf(cause).escalation != LogOnly
        then old(asked) + [Ask(cause, PolicyOf(cause).escalation)] else old(asked)
    {
      reentries := Wrap(reentries + 1);
      if reentries > REENTRY_LIMIT {
        table[cause] := table[cause].(escalations := Wrap(table[cause].escalations + 1), renoted := table[cause].renoted + 1);
        assert State() == Counted(old(State()), cause);
        Escalate(cause, accepted);
      }
    }
  }
}
