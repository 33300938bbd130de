/** The ring as the code keeps it, in place, with the interrupt allowed to run between
    any two accesses the loop makes; and the event queue of an interrupt source, which
    is the same queue with numbered events. */
module InterruptRing {
  import opened Words
  import opened Handoff

  /** What the interrupt pushes before each of the four accesses of a pop. */
  datatype Preemption<T> = Preemption(beforeTail: seq<T>, beforeHead: seq<T>, beforeLoad: seq<T>, beforeStore: seq<T>)

  predicate IsPowerOfTwo(n: nat)
  {
    n == 1 || (n > 1 && n % 2 == 0 && IsPowerOfTwo(n / 2))
  }

  lemma {:induction false} PowersOfTwo(n: nat)
    requires n < TWO_32
    ensures IsPowerOfTwo(n) <==> PowerOfTwo(n)
  {
    if IsPowerOfTwo(n) {
      var k := Exponent(n);
      if k >= 32 {
        Pow2Is32();
        Pow2Grows(32, k);
        assert false;
      }
    }
    if PowerOfTwo(n) {
      var k: nat :| k < 32 && n == Pow2(k);
      PowerIsPowerOfTwo(k);
    }
  }

  lemma {:induction false} Exponent(n: nat) returns (k: nat)
    requires IsPowerOfTwo(n)
    ensures n == Pow2(k)
  {
    if n == 1 {
      k := 0;
    } else {
      k := Exponent(n / 2);
      k := k + 1;
    }
  }

  lemma {:induction false} PowerIsPowerOfTwo(k: nat)
    ensures IsPowerOfTwo(Pow2(k))
  {
    if k > 0 {
      PowerIsPowerOfTwo(k - 1);
    }
  }

  function PushAll<T>(values: seq<T>): (r: seq<Step<T>>)
    ensures |r| == |values|
  {
    if values == [] then [] else PushAll(values[..|values| - 1]) + [Push(values[|values| - 1])]
  }

  /** The steps of one pop with the interrupts that preempt it. */
  function PopSteps<T>(p: Preemption<T>, found: bool): seq<Step<T>>
  {
    var look := PushAll(p.beforeTail) + [LoadTail] + PushAll(p.beforeHead) + [CompareHead];
    if found then look + PushAll(p.beforeLoad) + [LoadElement] + PushAll(p.beforeStore) + [StoreTail] else look
  }

  lemma {:induction false} RunConcat<T>(q: Queue<T>, a: seq<Step<T>>, b: seq<Step<T>>)
    requires |q.slots| > 0
    ensures Run(q, a + b) == Run(Run(q, a), b)
    decreases |b|
  {
    if b == [] {
      assert a + b == a;
    } else {
      assert (a + b)[..|a + b| - 1] == a + b[..|b| - 1];
      RunConcat(q, a, b[..|b| - 1]);
    }
  }

  lemma RunOne<T>(q: Queue<T>, step: Step<T>)
    requires |q.slots| > 0
    ensures Run(q, [step]) == Next(q, step)
  {
    assert [step][..0] == [];
    assert Run(q, [step][..0]) == q;
  }

  lemma RunThen<T>(q: Queue<T>, a: seq<Step<T>>, step: Step<T>)
    requires |q.slots| > 0
    ensures Run(q, a + [step]) == Next(Run(q, a), step)
  {
    assert (a + [step])[..|a + [step]| - 1] == a;
  }

  predicate Calm<T>(p: Preemption<T>)
  {
    |p.beforeTail| == |p.beforeHead| == |p.beforeLoad| == |p.beforeStore| == 0
  }

  /** Only the interrupt adds to what is accepted. */
  lemma {:induction false} OnlyPushesAdd<T>(q: Queue<T>, steps: seq<Step<T>>)
    requires |q.slots| > 0 && forall s :: s in steps ==> !s.Push?
    ensures Run(q, steps).accepted == q.accepted
  {
    if steps != [] {
      OnlyPushesAdd(q, steps[..|steps| - 1]);
    }
  }

  /** Only the last access of a pop takes anything. */
  lemma {:induction false} OnlyStoresTake<T>(q: Queue<T>, steps: seq<Step<T>>)
    requires |q.slots| > 0 && StoreTail !in steps
    ensures Run(q, steps).taken == q.taken && |q.accepted| <= |Run(q, steps).accepted|
  {
    if steps != [] {
      OnlyStoresTake(q, steps[..|steps| - 1]);
    }
  }

  lemma {:induction false} PushAllOnlyPushes<T>(values: seq<T>)
    ensures forall s :: s in PushAll(values) ==> s.Push?
  {
    if values != [] {
      PushAllOnlyPushes(values[..|values| - 1]);
    }
  }

  lemma Within<T>(q: Queue<T>)
    requires Inv(q)
    ensures |q.taken| <= |q.accepted| && |q.slots| > 0
  {
  }

  /** How many of n pushes in a row a queue has room for. */
  function Accepted<T>(q: Queue<T>, n: nat): (k: nat)
    requires |q.taken| <= |q.accepted|
    ensures k <= n
  {
    var room := |q.slots| - (|q.accepted| - |q.taken|);
    if room <= 0 then 0 else if room < n then room else n
  }

  /** Pushes in a row are accepted in order as long as there is room, and then refused. */
  lemma {:induction false} PushedInOrder<T>(q: Queue<T>, values: seq<T>)
    requires Inv(q) && |q.taken| <= |q.accepted| && |q.slots| > 0
    ensures var r, k := Run(q, PushAll(values)), Accepted(q, |values|);
      && Inv(r) && r.taken == q.taken
      && r.accepted == q.accepted + values[..k] && r.refused == q.refused + (|values| - k)
  {
    hide Inv, Run, Next, Full;
    if values == [] {
      RunNone(q);
      assert q.accepted + [] == q.accepted;
    } else {
      var early, v := values[..|values| - 1], values[|values| - 1];
      PushedInOrder(q, early);
      var p := Run(q, PushAll(early));
      LastPush(values);
      RunThen(q, PushAll(early), Push(v));
      NextKeeps(p, Push(v));
      PushedOnce(p, v);
    }
  }

  lemma RunNone<T>(q: Queue<T>)
    requires |q.slots| > 0
    ensures Run(q, []) == q && PushAll<T>([]) == []
  {
  }

  lemma PushedOnce<T>(q: Queue<T>, v: T)
    requires Inv(q) && |q.slots| > 0
    ensures |q.taken| <= |q.accepted|
    ensures var r := Next(q, Push(v));
      && r.taken == q.taken && |r.slots| == |q.slots|
      && if |q.accepted| - |q.taken| < |q.slots| then r.accepted == q.accepted + [v] && r.refused == q.refused
         else r.accepted == q.accepted && r.refused == q.refused + 1
  {
    hide Wrap;
    PushKeeps(q, v);
  }

  /** If anything arrives before a pop begins, the pop does not come away empty. */
  lemma ArrivalIsFound<T>(q: Queue<T>, p: Preemption<T>)
    requires Inv(q) && p.beforeTail != []
    ensures var r := Run(q, PopSteps(p, false)); |r.taken| < |r.accepted|
  {
    hide Inv, Run, PushAll;
    var n := |p.beforeTail| - 1;
    var first, last := PushAll(p.beforeTail[..n]), Push(p.beforeTail[n]);
    HasSlots(q);
    RunKeeps(q, first);
    PushKeeps(Run(q, first), p.beforeTail[n]);
    RunThen(q, first, last);
    assert PushAll(p.beforeTail) == first + [last] by {
      LastPush(p.beforeTail);
    }
    var rest := [LoadTail] + PushAll(p.beforeHead) + [CompareHead];
    PushAllOnlyPushes(p.beforeHead);
    RunConcat(q, PushAll(p.beforeTail), rest);
    OnlyStoresTake(Run(q, PushAll(p.beforeTail)), rest);
    assert PopSteps(p, false) == PushAll(p.beforeTail) + rest;
  }

  lemma LastPush<T>(values: seq<T>)
    requires values != []
    ensures PushAll(values) == PushAll(values[..|values| - 1]) + [Push(values[|values| - 1])]
  {
  }

  lemma NothingWaits<T>(q: Queue<T>)
    requires Inv(q) && Contents(q) == []
    ensures |q.taken| == |q.accepted|
  {
  }

  lemma HasSlots<T>(q: Queue<T>)
    requires Inv(q)
    ensures |q.slots| > 0
  {
  }

  lemma CalmPop<T>(q: Queue<T>, p: Preemption<T>, found: bool)
    requires |q.slots| > 0 && Calm(p)
    ensures Run(q, PopSteps(p, found)).accepted == q.accepted
  {
    hide Run;
    OnlyPushesAdd(q, PopSteps(p, found));
  }

  class Ring<T> {
    var buf: array<T>
    var mask: u32
    var head: u32
    var tail: u32
    var dropped: u32

    ghost var loop: Loop<T>
    ghost var accepted: seq<T>
    ghost var lostBefore: seq<nat>
    ghost var taken: seq<T>
    ghost var refused: nat

    ghost function State(): Queue<T>
      reads this, buf
    {
      Queue(buf[..], head, tail, dropped, loop, accepted, lostBefore, taken, refused)
    }

    ghost predicate Valid()
      reads this, buf
    {
      Inv(State()) && mask == buf.Length - 1
    }

    constructor (storage: array<T>)
      requires IsPowerOfTwo(storage.Length) && storage.Length < TWO_32
      ensures Valid() && buf == storage && State() == Fresh(storage[..])
    {
      PowersOfTwo(storage.Length);
      PowerOfTwoDivides(storage.Length);
      buf := storage;
      mask := storage.Length - 1;
      head, tail, dropped := 0, 0, 0;
      loop, accepted, lostBefore, taken, refused := Outside, [], [], [], 0;
    }

    /** svc_ring_push, run to completion by the interrupt. */
    method Push(v: T) returns (ok: bool)
      requires Valid()
      modifies this`head, this`dropped, this`accepted, this`lostBefore, this`refused, buf
      ensures Valid()
      ensures State() == Next(old(State()), Handoff.Push(v))
      ensures ok <==> |old(Contents(State()))| < buf.Length
    {
      hide Inv, Wrap;
      PushKeeps(State(), v);
      if Wrap(head - tail) > mask {
        dropped := Wrap(dropped + 1);
        refused := refused + 1;
        return false;
      }
      buf[head % (mask + 1)] := v;
      head := Wrap(head + 1);
      accepted := accepted + [v];
      lostBefore := lostBefore + [refused];
      return true;
    }

    method Interrupt(values: seq<T>)
      requires Valid()
      modifies this`head, this`dropped, this`accepted, this`lostBefore, this`refused, buf
      ensures Valid() && loop == old(loop) && taken == old(taken)
      ensures State() == Run(old(State()), PushAll(values))
      ensures |taken| <= |old(accepted)|
      ensures var k := Accepted(old(State()), |values|); accepted == old(accepted) + values[..k] && refused == old(refused) + (|values| - k)
    {
      hide Inv, Next, Run, Full, Accepted;
      ghost var q := State();
      Within(q);
      PushedInOrder(q, values);
      RunNone(q);
      for i := 0 to |values|
        invariant Valid()
        invariant tail == old(tail) && taken == old(taken) && loop == old(loop)
        invariant State() == Run(q, PushAll(values[..i]))
      {
        assert values[..i + 1][..i] == values[..i];
        RunThen(q, PushAll(values[..i]), Handoff.Push(values[i]));
        var ok := Push(values[i]);
      }
      assert values[..|values|] == values;
    }

    // The four accesses a pop makes to shared memory, in order.

    method ReadTail() returns (t: u32)
      requires Valid() && loop.Outside?
      modifies this`loop
      ensures Valid() && State() == Next(old(State()), LoadTail) && loop == HaveTail(t)
    {
      NextKeeps(State(), LoadTail);
      t := tail;
      loop := HaveTail(t);
    }

    method HeadDiffers(t: u32) returns (found: bool)
      requires Valid() && loop == HaveTail(t)
      modifies this`loop
      ensures Valid() && State() == Next(old(State()), CompareHead)
      ensures loop == if found then SawElement(t) else Outside
      ensures !found ==> Contents(State()) == []
    {
      RefinesBoundedFifo(State(), CompareHead);
      found := head != t;
      loop := if found then SawElement(t) else Outside;
    }

    method ReadElement(t: u32) returns (v: T)
      requires Valid() && loop == SawElement(t)
      modifies this`loop
      ensures Valid() && State() == Next(old(State()), LoadElement) && loop == HaveElement(t, v)
    {
      NextKeeps(State(), LoadElement);
      v := buf[t % (mask + 1)];
      loop := HaveElement(t, v);
    }

    method WriteTail(t: u32, v: T)
      requires Valid() && loop == HaveElement(t, v)
      modifies this`loop, this`tail, this`taken
      ensures Valid() && State() == Next(old(State()), StoreTail) && loop.Outside?
      ensures taken == old(taken) + [v]
    {
      NextKeeps(State(), StoreTail);
      tail := Wrap(t + 1);
      loop := Outside;
      taken := taken + [v];
    }

    /** svc_ring_pop, with the interrupt running between its accesses. */
    method Pop(p: Preemption<T>) returns (r: Option<T>)
      requires Valid() && loop.Outside?
      modifies this, buf
      ensures Valid() && loop.Outside? && buf == old(buf)
      ensures State() == Run(old(State()), PopSteps(p, r.Some?))
      ensures if r.Some? then taken == old(taken) + [r.value]
              else taken == old(taken) && Contents(State()) == []
    {
      hide Inv, Next, Run, PushAll;
      ghost var q := State();
      ghost var s0 := PushAll(p.beforeTail);
      Interrupt(p.beforeTail);
      var t := ReadTail();
      RunThen(q, s0, LoadTail);

      ghost var s1 := s0 + [LoadTail];
      RunConcat(q, s1, PushAll(p.beforeHead));
      Interrupt(p.beforeHead);
      var found := HeadDiffers(t);
      RunThen(q, s1 + PushAll(p.beforeHead), CompareHead);
      if !found {
        return None;
      }

      ghost var s2 := s1 + PushAll(p.beforeHead) + [CompareHead];
      RunConcat(q, s2, PushAll(p.beforeLoad));
      Interrupt(p.beforeLoad);
      var v := ReadElement(t);
      RunThen(q, s2 + PushAll(p.beforeLoad), LoadElement);

      ghost var s3 := s2 + PushAll(p.beforeLoad) + [LoadElement];
      RunConcat(q, s3, PushAll(p.beforeStore));
      Interrupt(p.beforeStore);
      WriteTail(t, v);
      RunThen(q, s3 + PushAll(p.beforeStore), StoreTail);
      return Some(v);
    }

    /** svc_ring_read: stops early only on finding the ring empty. */
    method Read(max: nat, isr: nat -> Preemption<T>) returns (out: seq<T>)
      requires Valid() && loop.Outside?
      modifies this, buf
      ensures Valid() && loop.Outside? && buf == old(buf)
      ensures taken == old(taken) + out && |out| <= max
      ensures |out| < max ==> Contents(State()) == []
      ensures (forall k :: Calm(isr(k))) ==> accepted == old(accepted)
      ensures (forall k :: isr(k).beforeTail != []) ==> |out| == max
    {
      hide Inv, Run, PopSteps, Contents;
      out := [];
      while |out| < max
        invariant Valid() && loop.Outside? && buf == old(buf)
        invariant |out| <= max && taken == old(taken) + out
        invariant (forall k :: Calm(isr(k))) ==> accepted == old(accepted)
        decreases max - |out|
      {
        ghost var q := State();
        HasSlots(q);
        var r := Pop(isr(|out|));
        if Calm(isr(|out|)) {
          CalmPop(q, isr(|out|), r.Some?);
        }
        if isr(|out|).beforeTail != [] {
          ArrivalIsFound(q, isr(|out|));
        }
        if r.None? {
          NothingWaits(State());
          break;
        }
        out := out + [r.value];
      }
    }

    method Count() returns (n: u32)
      requires Valid()
      ensures n == |Contents(State())|
    {
      Backlog(|accepted|, |taken|);
      n := Wrap(head - tail);
    }

    method Free() returns (n: int)
      requires Valid()
      ensures n == buf.Length - |Contents(State())|
    {
      Backlog(|accepted|, |taken|);
      n := mask + 1 - Wrap(head - tail);
    }
  }

  /** svc_ring_init: a ring only over storage whose length is a power of two. */
  method Init<T>(storage: array?<T>) returns (st: Status, r: Ring?<T>)
    requires storage != null ==> storage.Length < TWO_32
    ensures st == if storage != null && IsPowerOfTwo(storage.Length) then Ok else ErrParam
    ensures st == Ok <==> r != null
    ensures st == Ok ==> fresh(r) && r.Valid() && r.buf == storage && r.State() == Fresh(storage[..])
  {
    if storage == null || storage.Length == 0 {
      return ErrParam, null;
    }
    if !IsPowerOfTwo(storage.Length) {
      return ErrParam, null;
    }
    r := new Ring(storage);
    st := Ok;
  }
}
