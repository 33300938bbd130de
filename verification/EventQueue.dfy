/** One interrupt source: its handler numbers every event, also those the full queue
    refuses, so the loop can tell from consecutive events how many were lost between. */
module EventQueue {
  import opened Words
  import opened Handoff
  import opened InterruptRing

  const DEPTH: nat := 8

  function Wrap16(n: int): u16
  {
    n % 0x1_0000
  }

  lemma Wrap16Small(n: u16)
    ensures Wrap16(n) == n
  {
  }

  lemma Wrap16Difference(a: int, b: int)
    ensures Wrap16((Wrap16(a) as int) - Wrap16(b)) == Wrap16(a - b)
  {
  }

  lemma Wrap16Next(a: int)
    ensures Wrap16(Wrap16(a) + 1) == Wrap16(a + 1)
  {
  }

  datatype Event = Event(tick: u32, datum: u32, kind: u16, number: u16)

  /** The queue, the handler's counters, and how many interrupts there have been. */
  datatype Source = Source(queue: Queue<Event>, taken: u32, number: u16, raised: nat)

  /** What the acknowledge hook returns for one interrupt, and when it was taken. */
  datatype Raised = Raised(tick: u32, datum: u32, kind: u16)

  datatype Action =
    | Raise(tick: u32, datum: u32, kind: u16)
    | LoopStep(step: Step<Event>)

  predicate Legal(a: Action)
  {
    a.LoopStep? ==> !a.step.Push?
  }

  /** irq_handler, and the loop's accesses. */
  function Act(s: Source, a: Action): Source
    requires |s.queue.slots| > 0
  {
    match a
    case Raise(tick, datum, kind) =>
      Source(Next(s.queue, Push(Event(tick, datum, kind, s.number))), Wrap(s.taken + 1), Wrap16(s.number + 1), s.raised + 1)
    case LoopStep(step) => s.(queue := Next(s.queue, step))
  }

  function Acts(s: Source, actions: seq<Action>): (r: Source)
    requires |s.queue.slots| > 0
    ensures |r.queue.slots| == |s.queue.slots|
  {
    if actions == [] then s else Act(Acts(s, actions[..|actions| - 1]), actions[|actions| - 1])
  }

  ghost predicate Numbered(s: Source)
  {
    && Inv(s.queue)
    && s.raised == |s.queue.accepted| + s.queue.refused
    && s.taken == Wrap(s.raised)
    && s.number == Wrap16(s.raised)
    && (forall k :: 0 <= k < |s.queue.accepted| ==>
          s.queue.accepted[k].number == Wrap16(k + s.queue.lostBefore[k]))
  }

  lemma ActKeeps(s: Source, a: Action)
    requires Numbered(s) && Legal(a)
    ensures Numbered(Act(s, a))
  {
    hide Wrap16, Inv, Wrap;
    Wrap16Next(s.raised);
    match a
    case Raise(tick, datum, kind) =>
      NextKeeps(s.queue, Push(Event(tick, datum, kind, s.number)));
      WrapAdd(s.raised, 1);
    case LoopStep(step) =>
      NextKeeps(s.queue, step);
  }

  lemma {:induction false} ActsKeep(s: Source, actions: seq<Action>)
    requires Numbered(s) && forall a :: a in actions ==> Legal(a)
    ensures Numbered(Acts(s, actions))
  {
    hide Act, Wrap16;
    if actions != [] {
      ActsKeep(s, actions[..|actions| - 1]);
      ActKeeps(Acts(s, actions[..|actions| - 1]), actions[|actions| - 1]);
    }
  }

  /** What an action raises, and what a run of them does, in order. */
  function RaisedBy(a: Action): seq<Raised>
  {
    match a
    case Raise(tick, datum, kind) => [Raised(tick, datum, kind)]
    case LoopStep(step) => []
  }

  function AllRaised(actions: seq<Action>): seq<Raised>
  {
    if actions == [] then [] else AllRaised(actions[..|actions| - 1]) + RaisedBy(actions[|actions| - 1])
  }

  /** Every event accepted is the one raised at its place, refused ones counted, with that
      place as its number. */
  ghost predicate Carried(s: Source, raises: seq<Raised>)
  {
    var q := s.queue;
    && |raises| == s.raised && |q.lostBefore| == |q.accepted|
    && forall k :: 0 <= k < |q.accepted| ==>
         var i := k + q.lostBefore[k];
         i < |raises| && q.accepted[k] == Event(raises[i].tick, raises[i].datum, raises[i].kind, Wrap16(i))
  }

  lemma ActCarries(s: Source, raises: seq<Raised>, a: Action)
    requires Numbered(s) && Carried(s, raises) && Legal(a)
    ensures Carried(Act(s, a), raises + RaisedBy(a))
  {
    hide Wrap16, Wrap;
    if a.LoopStep? {
      assert raises + [] == raises;
    }
  }

  lemma {:induction false} ActsCarry(s: Source, raises: seq<Raised>, actions: seq<Action>)
    requires Numbered(s) && Carried(s, raises) && forall a :: a in actions ==> Legal(a)
    ensures Carried(Acts(s, actions), raises + AllRaised(actions))
  {
    hide Act, Wrap16, Carried;
    if actions == [] {
      assert raises + [] == raises;
    } else {
      var early := actions[..|actions| - 1];
      ActsCarry(s, raises, early);
      ActsKeep(s, early);
      ActCarries(Acts(s, early), raises + AllRaised(early), actions[|actions| - 1]);
      assert raises + AllRaised(early) + RaisedBy(actions[|actions| - 1]) == raises + AllRaised(actions);
    }
  }

  /** In every interleaving the k-th event taken is the event raised at its place among all
      that were raised, tick, datum and kind, and is numbered by that place. */
  lemma TakenAsRaised(storage: seq<Event>, actions: seq<Action>, k: nat)
    requires |storage| == DEPTH && forall a :: a in actions ==> Legal(a)
    requires k < |Acts(Source(Fresh(storage), 0, 0, 0), actions).queue.taken|
    ensures var q, raises := Acts(Source(Fresh(storage), 0, 0, 0), actions).queue, AllRaised(actions);
      && k < |q.lostBefore|
      && var i := k + q.lostBefore[k];
         && i < |raises|
         && q.taken[k] == Event(raises[i].tick, raises[i].datum, raises[i].kind, Wrap16(i))
  {
    hide Wrap16, Acts, AllRaised;
    var s0 := Source(Fresh(storage), 0, 0, 0);
    EmptyIsNumbered(storage);
    ActsKeep(s0, actions);
    ActsCarry(s0, [], actions);
    assert [] + AllRaised(actions) == AllRaised(actions);
    var q := Acts(s0, actions).queue;
    assert q.taken[k] == q.accepted[k];
  }

  lemma EmptyIsNumbered(storage: seq<Event>)
    requires |storage| == DEPTH
    ensures Numbered(Source(Fresh(storage), 0, 0, 0))
  {
  }

  /** How many events were refused between the k-th accepted one and the next. */
  function LostBetween(q: Queue<Event>, k: nat): int
    requires k + 1 < |q.lostBefore|
  {
    (q.lostBefore[k + 1] as int) - q.lostBefore[k]
  }

  lemma TakenAreNumbered(s: Source, k: nat)
    requires Numbered(s) && k + 1 < |s.queue.taken|
    ensures k + 1 < |s.queue.lostBefore| && LostBetween(s.queue, k) >= 0
    ensures s.queue.taken[k].number == Wrap16(k + s.queue.lostBefore[k])
    ensures s.queue.taken[k + 1].number == Wrap16(k + 1 + s.queue.lostBefore[k + 1])
  {
    hide Wrap16;
    var q := s.queue;
    assert q.taken[k] == q.accepted[k] && q.taken[k + 1] == q.accepted[k + 1];
  }

  /** Two events the loop takes one after the other differ in their sequence number by
      one plus the events refused between them, modulo 65536, in every interleaving. */
  lemma GapsCountLosses(storage: seq<Event>, actions: seq<Action>, k: nat)
    requires |storage| == DEPTH && forall a :: a in actions ==> Legal(a)
    requires k + 1 < |Acts(Source(Fresh(storage), 0, 0, 0), actions).queue.taken|
    ensures var q := Acts(Source(Fresh(storage), 0, 0, 0), actions).queue;
      && k + 1 < |q.lostBefore|
      && LostBetween(q, k) >= 0
      && Wrap16((q.taken[k + 1].number as int) - q.taken[k].number) == Wrap16(1 + LostBetween(q, k))
  {
    hide Wrap16, Acts;
    var s0 := Source(Fresh(storage), 0, 0, 0);
    EmptyIsNumbered(storage);
    ActsKeep(s0, actions);
    var s := Acts(s0, actions);
    TakenAreNumbered(s, k);
    Wrap16Difference(k + 1 + s.queue.lostBefore[k + 1], k + s.queue.lostBefore[k]);
  }

  function Raises(rs: seq<Raised>): seq<Action>
  {
    if rs == [] then []
    else
      var last := rs[|rs| - 1];
      Raises(rs[..|rs| - 1]) + [Raise(last.tick, last.datum, last.kind)]
  }

  /** The interrupts taken while an event is copied, between one field and the next. */
  datatype Copying = Copying(beforeDatum: seq<Raised>, beforeKind: seq<Raised>, beforeNumber: seq<Raised>)

  function LookActions(p: Preemption<Raised>): seq<Action>
  {
    Raises(p.beforeTail) + [LoopStep(LoadTail)] + Raises(p.beforeHead) + [LoopStep(CompareHead)]
  }

  /** A copy preempted between its fields is one load of the event after them all. */
  function CopyActions(c: Copying): seq<Action>
  {
    Raises(c.beforeDatum) + Raises(c.beforeKind) + Raises(c.beforeNumber) + [LoopStep(LoadElement)]
  }

  /** The actions of one take with the interrupts that preempt it. */
  function TakeActions(p: Preemption<Raised>, c: Copying, found: bool): seq<Action>
  {
    if found then
      LookActions(p) + (Raises(p.beforeLoad) + CopyActions(c)) + (Raises(p.beforeStore) + [LoopStep(StoreTail)])
    else LookActions(p)
  }

  /** What interrupts raise during a take. */
  function TakeRaises(p: Preemption<Raised>, c: Copying, found: bool): seq<Raised>
  {
    p.beforeTail + p.beforeHead + (if found then p.beforeLoad + c.beforeDatum + c.beforeKind + c.beforeNumber + p.beforeStore else [])
  }

  lemma {:induction false} ActsConcat(s: Source, a: seq<Action>, b: seq<Action>)
    requires |s.queue.slots| > 0
    ensures Acts(s, a + b) == Acts(Acts(s, a), b)
    decreases |b|
  {
    if b == [] {
      assert a + b == a;
    } else {
      assert (a + b)[..|a + b| - 1] == a + b[..|b| - 1];
      ActsConcat(s, a, b[..|b| - 1]);
    }
  }

  lemma ActsThen(s: Source, a: seq<Action>, step: Action)
    requires |s.queue.slots| > 0
    ensures Acts(s, a + [step]) == Act(Acts(s, a), step)
  {
    assert (a + [step])[..|a + [step]| - 1] == a;
  }

  class IrqSource {
    const queue: Ring<Event>
    var taken: u32
    var number: u16
    /** Everything raised so far. */
    ghost var raises: seq<Raised>

    ghost function State(): Source
      reads this, queue, queue.buf
    {
      Source(queue.State(), taken, number, |raises|)
    }

    ghost predicate Valid()
      reads this, queue, queue.buf
    {
      Numbered(State()) && Carried(State(), raises) && queue.Valid() && queue.buf.Length == DEPTH
    }

    constructor (storage: array<Event>)
      requires storage.Length == DEPTH
      ensures Valid() && fresh(queue) && queue.buf == storage
      ensures State() == Source(Fresh(storage[..]), 0, 0, 0) && raises == []
    {
      assert IsPowerOfTwo(8);
      Wrap16Small(0);
      queue := new Ring<Event>(storage);
      taken, number, raises := 0, 0, [];
    }

    /** irq_handler: what the acknowledge hook returned becomes one numbered event. */
    method Handle(tick: u32, datum: u32, kind: u16)
      requires Valid()
      modifies this, queue, queue.buf
      ensures Valid() && queue.buf == old(queue.buf)
      ensures queue.loop == old(queue.loop) && queue.taken == old(queue.taken)
      ensures old(queue.accepted) <= queue.accepted
      ensures State() == Act(old(State()), Raise(tick, datum, kind))
      ensures raises == old(raises) + [Raised(tick, datum, kind)]
    {
      hide Wrap16, Inv, Wrap, Numbered, Carried;
      NumberedMeans();
      ActKeeps(State(), Raise(tick, datum, kind));
      ActCarries(State(), raises, Raise(tick, datum, kind));
      taken := Wrap(taken + 1);
      var ok := queue.Push(Event(tick, datum, kind, number));
      number := Wrap16(number + 1);
      raises := raises + [Raised(tick, datum, kind)];
    }

    lemma NumberedMeans()
      requires Valid()
      ensures Inv(queue.State()) && number == Wrap16(|raises|)
    {
    }

    method RaiseAll(rs: seq<Raised>)
      requires Valid()
      modifies this, queue, queue.buf
      ensures Valid() && queue.buf == old(queue.buf)
      ensures queue.loop == old(queue.loop) && queue.taken == old(queue.taken)
      ensures old(queue.accepted) <= queue.accepted
      ensures State() == Acts(old(State()), Raises(rs)) && raises == old(raises) + rs
    {
      hide Wrap16, Inv, Wrap, Numbered, Act, Carried;
      ghost var s := State();
      for i := 0 to |rs|
        invariant Valid() && queue.buf == old(queue.buf)
        invariant queue.loop == old(queue.loop) && queue.taken == old(queue.taken)
        invariant old(queue.accepted) <= queue.accepted
        invariant State() == Acts(s, Raises(rs[..i])) && raises == old(raises) + rs[..i]
      {
        assert rs[..i + 1][..i] == rs[..i];
        ActsThen(s, Raises(rs[..i]), Raise(rs[i].tick, rs[i].datum, rs[i].kind));
        Handle(rs[i].tick, rs[i].datum, rs[i].kind);
      }
      assert rs[..|rs|] == rs;
    }

    // The four accesses a take makes to shared memory, in order.

    method ReadTail() returns (t: u32)
      requires Valid() && queue.loop.Outside?
      modifies queue`loop
      ensures Valid() && queue.loop == HaveTail(t) && queue.taken == old(queue.taken)
      ensures State() == Act(old(State()), LoopStep(LoadTail))
    {
      hide Wrap16, Inv, Wrap;
      ActKeeps(State(), LoopStep(LoadTail));
      t := queue.ReadTail();
    }

    method HeadDiffers(t: u32) returns (found: bool)
      requires Valid() && queue.loop == HaveTail(t)
      modifies queue`loop
      ensures Valid() && queue.taken == old(queue.taken)
      ensures queue.loop == if found then SawElement(t) else Outside
      ensures !found ==> Contents(queue.State()) == []
      ensures State() == Act(old(State()), LoopStep(CompareHead))
    {
      hide Wrap16, Inv, Wrap;
      ActKeeps(State(), LoopStep(CompareHead));
      found := queue.HeadDiffers(t);
    }

    /** The event in the slot being read. */
    function Slot(t: u32): (e: Event)
      requires queue.buf.Length == DEPTH
      reads queue, queue.buf
    {
      queue.buf[t % DEPTH]
    }

    /** The slot a take reads holds the oldest event waiting. */
    lemma SlotIsOldest(t: u32)
      requires Valid() && queue.loop == SawElement(t)
      ensures |queue.taken| < |queue.accepted| && Slot(t) == queue.accepted[|queue.taken|]
    {
      WrappedIndex(|queue.taken|, DEPTH);
    }

    /** The copy of an event, field by field, with interrupts between the fields: none of
        them reaches the slot being read. */
    method CopyElement(t: u32, c: Copying) returns (e: Event)
      requires Valid() && queue.loop == SawElement(t)
      modifies this, queue, queue.buf
      ensures Valid() && queue.buf == old(queue.buf)
      ensures queue.loop == HaveElement(t, e) && queue.taken == old(queue.taken)
      ensures e == old(Slot(t))
      ensures raises == old(raises) + c.beforeDatum + c.beforeKind + c.beforeNumber
      ensures State() == Acts(old(State()), CopyActions(c))
    {
      hide Wrap16, Inv, Wrap, Numbered, Carried, Act, Acts, Raises;
      ghost var s := State();
      SlotIsOldest(t);
      var tick := Slot(t).tick;
      RaiseAll(c.beforeDatum);
      SlotIsOldest(t);
      var datum := Slot(t).datum;
      ActsConcat(s, Raises(c.beforeDatum), Raises(c.beforeKind));
      RaiseAll(c.beforeKind);
      SlotIsOldest(t);
      var kind := Slot(t).kind;
      ActsConcat(s, Raises(c.beforeDatum) + Raises(c.beforeKind), Raises(c.beforeNumber));
      RaiseAll(c.beforeNumber);
      SlotIsOldest(t);
      ActsThen(s, Raises(c.beforeDatum) + Raises(c.beforeKind) + Raises(c.beforeNumber), LoopStep(LoadElement));
      e := LastField(t, tick, datum, kind);
    }

    /** The last field read, after which the loop holds the whole event. */
    method LastField(t: u32, tick: u32, datum: u32, kind: u16) returns (e: Event)
      requires Valid() && queue.loop == SawElement(t)
      requires tick == Slot(t).tick && datum == Slot(t).datum && kind == Slot(t).kind
      modifies queue`loop
      ensures Valid() && queue.loop == HaveElement(t, e) && queue.taken == old(queue.taken)
      ensures e == Slot(t) && State() == Act(old(State()), LoopStep(LoadElement))
    {
      hide Wrap16, Inv, Wrap;
      ActKeeps(State(), LoopStep(LoadElement));
      e := Event(tick, datum, kind, Slot(t).number);
      queue.loop := HaveElement(t, e);
    }

    method WriteTail(t: u32, e: Event)
      requires Valid() && queue.loop == HaveElement(t, e)
      modifies queue`loop, queue`tail, queue`taken
      ensures Valid() && queue.loop.Outside? && queue.taken == old(queue.taken) + [e]
      ensures State() == Act(old(State()), LoopStep(StoreTail))
    {
      hide Wrap16, Inv, Wrap;
      ActKeeps(State(), LoopStep(StoreTail));
      queue.WriteTail(t, e);
    }

    /** The two accesses that find out whether an event waits. */
    method Look(p: Preemption<Raised>) returns (found: bool, t: u32)
      requires Valid() && queue.loop.Outside?
      modifies this, queue, queue.buf
      ensures Valid() && queue.buf == old(queue.buf) && queue.taken == old(queue.taken)
      ensures queue.loop == if found then SawElement(t) else Outside
      ensures !found ==> Contents(queue.State()) == []
      ensures State() == Acts(old(State()), LookActions(p)) && raises == old(raises) + p.beforeTail + p.beforeHead
    {
      hide Wrap16, Wrap, Act, Acts, Raises, Numbered, Carried;
      ghost var s := State();
      ghost var a0 := Raises(p.beforeTail);
      RaiseAll(p.beforeTail);
      t := ReadTail();
      ActsThen(s, a0, LoopStep(LoadTail));

      ghost var a1 := a0 + [LoopStep(LoadTail)];
      ActsConcat(s, a1, Raises(p.beforeHead));
      RaiseAll(p.beforeHead);
      found := HeadDiffers(t);
      ActsThen(s, a1 + Raises(p.beforeHead), LoopStep(CompareHead));
    }

    /** The copy and what comes before it. */
    method Load(t: u32, before: seq<Raised>, c: Copying) returns (e: Event)
      requires Valid() && queue.loop == SawElement(t)
      modifies this, queue, queue.buf
      ensures Valid() && queue.buf == old(queue.buf)
      ensures queue.loop == HaveElement(t, e) && queue.taken == old(queue.taken)
      ensures State() == Acts(old(State()), Raises(before) + CopyActions(c))
      ensures raises == old(raises) + before + c.beforeDatum + c.beforeKind + c.beforeNumber
    {
      hide Wrap16, Wrap, Act, Acts, Raises, Numbered, Carried, CopyActions;
      ActsConcat(State(), Raises(before), CopyActions(c));
      RaiseAll(before);
      e := CopyElement(t, c);
    }

    /** The slot is given back. */
    method Release(t: u32, e: Event, before: seq<Raised>)
      requires Valid() && queue.loop == HaveElement(t, e)
      modifies this, queue, queue.buf
      ensures Valid() && queue.buf == old(queue.buf)
      ensures queue.loop.Outside? && queue.taken == old(queue.taken) + [e]
      ensures State() == Acts(old(State()), Raises(before) + [LoopStep(StoreTail)]) && raises == old(raises) + before
    {
      hide Wrap16, Wrap, Act, Acts, Raises, Numbered, Carried;
      ActsThen(State(), Raises(before), LoopStep(StoreTail));
      RaiseAll(before);
      WriteTail(t, e);
    }

    lemma TakenIsRaised(k: nat)
      requires Valid() && k < |queue.taken|
      ensures k < |queue.lostBefore|
      ensures var i := k + queue.lostBefore[k];
        i < |raises| && queue.taken[k] == Event(raises[i].tick, raises[i].datum, raises[i].kind, Wrap16(i))
    {
      hide Wrap16, Wrap;
      assert queue.taken[k] == queue.accepted[k];
    }

    /** plat_irq_take, with this source's own interrupt running between its accesses, those
        of the copy included. */
    method Take(p: Preemption<Raised>, c: Copying) returns (r: Option<Event>)
      requires Valid() && queue.loop.Outside?
      modifies this, queue, queue.buf
      ensures Valid() && queue.loop.Outside? && queue.buf == old(queue.buf)
      ensures State() == Acts(old(State()), TakeActions(p, c, r.Some?))
      ensures if r.Some? then queue.taken == old(queue.taken) + [r.value]
              else queue.taken == old(queue.taken) && Contents(queue.State()) == []
      ensures raises == old(raises) + TakeRaises(p, c, r.Some?)
      ensures r.Some? ==>
        && |old(queue.taken)| < |queue.lostBefore|
        && var i := |old(queue.taken)| + queue.lostBefore[|old(queue.taken)|];
           && i < |raises|
           && r.value == Event(raises[i].tick, raises[i].datum, raises[i].kind, Wrap16(i))
    {
      hide Wrap16, Wrap, Act, Acts, Raises, Numbered, Carried, LookActions, CopyActions, Contents;
      ghost var s := State();
      var found, t := Look(p);
      if !found {
        assert raises == old(raises) + TakeRaises(p, c, false);
        return None;
      }
      ghost var copied := Raises(p.beforeLoad) + CopyActions(c);
      ActsConcat(s, LookActions(p), copied);
      var e := Load(t, p.beforeLoad, c);
      ActsConcat(s, LookActions(p) + copied, Raises(p.beforeStore) + [LoopStep(StoreTail)]);
      Release(t, e, p.beforeStore);
      assert raises == old(raises) + TakeRaises(p, c, true);
      TakenIsRaised(|old(queue.taken)|);
      return Some(e);
    }

    /** plat_irq_pending. */
    method Pending() returns (n: u32)
      requires Valid()
      ensures n == |Contents(queue.State())| <= DEPTH
    {
      n := queue.Count();
    }
  }
}
