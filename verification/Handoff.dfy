/** Data handed from one interrupt to the loop through free-running 32-bit indices:
    the byte ring and the per-source event queue. The interrupt may run between any two
    loads and stores of the loop. */
module Handoff {
  import opened Words

  /** Where the loop is inside a pop, with what it holds in registers. */
  datatype Loop<T> =
    | Outside
    | HaveTail(tail: u32)
    | SawElement(tail: u32)
    | HaveElement(tail: u32, value: T)

  /** The shared state, the loop's position, and the history so far: everything accepted
      from the interrupt, how many had been refused when each was accepted, everything
      the loop has taken, and how many were refused in all. */
  datatype Queue<T> = Queue(
    slots: seq<T>,
    head: u32,
    tail: u32,
    dropped: u32,
    loop: Loop<T>,
    accepted: seq<T>,
    lostBefore: seq<nat>,
    taken: seq<T>,
    refused: nat)

  datatype Step<T> =
    | Push(value: T)     // the interrupt, atomic on one core
    | LoadTail           // the four accesses of a pop
    | CompareHead
    | LoadElement
    | StoreTail

  /** Sizes svc_ring_init accepts: powers of two that fit an index. */
  predicate PowerOfTwo(n: nat)
  {
    exists k: nat :: k < 32 && n == Pow2(k)
  }

  predicate Full<T>(q: Queue<T>)
  {
    Wrap(q.head - q.tail) > |q.slots| - 1
  }

  function Next<T>(q: Queue<T>, step: Step<T>): Queue<T>
    requires |q.slots| > 0
  {
    match step
    case Push(v) =>
      if Full(q) then q.(dropped := Wrap(q.dropped + 1), refused := q.refused + 1)
      else q.(
        slots := q.slots[q.head % |q.slots| := v],
        head := Wrap(q.head + 1),
        accepted := q.accepted + [v],
        lostBefore := q.lostBefore + [q.refused])
    case LoadTail =>
      if q.loop.Outside? then q.(loop := HaveTail(q.tail)) else q
    case CompareHead =>
      if !q.loop.HaveTail? then q
      else if q.head == q.loop.tail then q.(loop := Outside)
      else q.(loop := SawElement(q.loop.tail))
    case LoadElement =>
      if !q.loop.SawElement? then q
      else q.(loop := HaveElement(q.loop.tail, q.slots[q.loop.tail % |q.slots|]))
    case StoreTail =>
      if !q.loop.HaveElement? then q
      else q.(tail := Wrap(q.loop.tail + 1), loop := Outside, taken := q.taken + [q.loop.value])
  }

  function Run<T>(q: Queue<T>, steps: seq<Step<T>>): (r: Queue<T>)
    requires |q.slots| > 0
    ensures |r.slots| == |q.slots|
  {
    if steps == [] then q
    else Next(Run(q, steps[..|steps| - 1]), steps[|steps| - 1])
  }

  function Fresh<T>(storage: seq<T>): Queue<T>
  {
    Queue(storage, 0, 0, 0, Outside, [], [], [], 0)
  }

  /** What a bounded first-in-first-out queue would hold. */
  function Contents<T>(q: Queue<T>): seq<T>
    requires |q.taken| <= |q.accepted|
  {
    q.accepted[|q.taken|..]
  }

  ghost predicate Inv<T>(q: Queue<T>)
  {
    && 0 < |q.slots| && TWO_32 % |q.slots| == 0 && |q.slots| < TWO_32
    && q.head == Wrap(|q.accepted|)
    && q.tail == Wrap(|q.taken|)
    && q.dropped == Wrap(q.refused)
    && |q.taken| <= |q.accepted| <= |q.taken| + |q.slots|
    && q.taken == q.accepted[..|q.taken|]
    && (forall i :: |q.taken| <= i < |q.accepted| ==> q.slots[i % |q.slots|] == q.accepted[i])
    && |q.lostBefore| == |q.accepted|
    && (forall i, j :: 0 <= i <= j < |q.lostBefore| ==> q.lostBefore[i] <= q.lostBefore[j])
    && (forall i :: 0 <= i < |q.lostBefore| ==> q.lostBefore[i] <= q.refused)
    && match q.loop
       case Outside => true
       case HaveTail(t) => t == q.tail
       case SawElement(t) => t == q.tail && |q.taken| < |q.accepted|
       case HaveElement(t, v) => t == q.tail && |q.taken| < |q.accepted| && v == q.accepted[|q.taken|]
  }

  // ---------- index arithmetic across the wrap ----------

  lemma PowerOfTwoDivides(n: nat)
    requires PowerOfTwo(n)
    ensures 0 < n < TWO_32 && TWO_32 % n == 0
  {
    var k: nat :| k < 32 && n == Pow2(k);
    Pow2Divides(k, 32);
    Pow2Is32();
    var m := Pow2(32 - k);
    assert m == 2 * Pow2(31 - k);
    MultipleDivides(n, m);
  }

  lemma MultipleDivides(n: nat, m: nat)
    requires n > 0
    ensures (n * m) % n == 0
    ensures m >= 2 ==> n < n * m
  {
    ModOfSum(0, n, m);
  }

  lemma {:induction false} ModOfSum(r: int, n: nat, m: nat)
    requires n > 0
    ensures (r + n * m) % n == r % n
    decreases m
  {
    if m > 0 {
      ModOfSum(r, n, m - 1);
      assert r + n * m == (r + n * (m - 1)) + n;
      AddOne(r + n * (m - 1), n);
    }
  }

  lemma AddOne(x: int, n: nat)
    requires n > 0
    ensures (x + n) % n == x % n
  {
    var q := x / n;
    assert x == n * q + x % n;
    assert x + n == n * (q + 1) + x % n;
    QuotientUnique(x + n, n, q + 1, x % n);
  }

  lemma QuotientUnique(x: int, n: nat, q: int, r: int)
    requires n > 0 && x == n * q + r && 0 <= r < n
    ensures x % n == r
  {
    assert n * (x / n - q) == r - x % n;
    NoSmallMultiple(n, x / n - q);
  }

  lemma NoSmallMultiple(n: nat, d: int)
    requires n > 0
    ensures d >= 1 ==> n * d >= n
    ensures d <= -1 ==> n * d + n <= 0
    ensures d == 0 ==> n * d == 0
  {
  }

  /** Masking a wrapped index finds the same slot as masking the index itself. */
  lemma WrappedIndex(i: nat, n: nat)
    requires n > 0 && TWO_32 % n == 0
    ensures Wrap(i) % n == i % n
  {
    var m := TWO_32 / n;
    assert TWO_32 == n * m;
    var k := i / TWO_32;
    assert i == Wrap(i) + TWO_32 * k;
    assert TWO_32 * k == n * (m * k) by {
      assert n * (m * k) == (n * m) * k;
    }
    ModOfSum(Wrap(i), n, m * k);
  }

  /** Indices less than a lap apart share no slot. */
  lemma SlotsDistinct(i: nat, j: nat, n: nat)
    requires n > 0 && i < j < i + n
    ensures i % n != j % n
  {
    var a, b := i / n, j / n;
    assert j - i == n * (b - a) + (j % n - i % n);
    NoSmallMultiple(n, b - a);
  }

  lemma Backlog(h: nat, t: nat)
    requires t <= h < t + TWO_32
    ensures Wrap(Wrap(h) - Wrap(t)) == h - t
    ensures Wrap(h) == Wrap(t) <==> h == t
  {
  }

  // ---------- every interleaving keeps the invariant ----------

  lemma PushKeeps<T>(q: Queue<T>, v: T)
    requires Inv(q)
    ensures Inv(Next(q, Push(v)))
    ensures |q.taken| <= |q.accepted| && 0 < |q.slots|
    ensures if Full(q) then |Contents(q)| == |q.slots| else |Contents(q)| < |q.slots|
  {
    hide Wrap;
    var n := |q.slots|;
    var h := |q.accepted|;
    Backlog(h, |q.taken|);
    WrapAdd(q.refused, 1);
    WrapAdd(h, 1);
    WrappedIndex(h, n);
    forall i | |q.taken| <= i < h && h < |q.taken| + n
      ensures i % n != h % n
    {
      SlotsDistinct(i, h, n);
    }
  }

  lemma LoopStepKeeps<T>(q: Queue<T>, step: Step<T>)
    requires Inv(q) && !step.Push?
    ensures Inv(Next(q, step))
  {
    Backlog(|q.accepted|, |q.taken|);
    WrapAdd(|q.taken|, 1);
    WrappedIndex(|q.taken|, |q.slots|);
  }

  lemma NextKeeps<T>(q: Queue<T>, step: Step<T>)
    requires Inv(q)
    ensures Inv(Next(q, step))
  {
    if step.Push? {
      PushKeeps(q, step.value);
    } else {
      LoopStepKeeps(q, step);
    }
  }

  lemma {:induction false} RunKeeps<T>(q: Queue<T>, steps: seq<Step<T>>)
    requires Inv(q)
    ensures Inv(Run(q, steps))
  {
    if steps != [] {
      RunKeeps(q, steps[..|steps| - 1]);
      NextKeeps(Run(q, steps[..|steps| - 1]), steps[|steps| - 1]);
    }
  }

  /** From a fresh queue, whatever the interleaving and however often the indices wrap:
      what was taken is a prefix of what was accepted, at most a queue's length is
      waiting, and the drop counter is exactly the number of refusals. */
  lemma EveryInterleavingIsSafe<T>(storage: seq<T>, steps: seq<Step<T>>)
    requires PowerOfTwo(|storage|)
    ensures var q := Run(Fresh(storage), steps);
      && q.taken <= q.accepted
      && |q.accepted| - |q.taken| <= |storage|
      && Wrap(q.head - q.tail) == |Contents(q)|
      && q.dropped == Wrap(q.refused)
      && |q.accepted| + q.refused == Pushes(steps)
  {
    PowerOfTwoDivides(|storage|);
    RunKeeps(Fresh(storage), steps);
    var q := Run(Fresh(storage), steps);
    Backlog(|q.accepted|, |q.taken|);
    PushesAccountedFor(Fresh(storage), steps);
  }

  function Pushes<T>(steps: seq<Step<T>>): nat
  {
    if steps == [] then 0
    else Pushes(steps[..|steps| - 1]) + (if steps[|steps| - 1].Push? then 1 else 0)
  }

  lemma {:induction false} PushesAccountedFor<T>(q: Queue<T>, steps: seq<Step<T>>)
    requires |q.slots| > 0
    ensures var r := Run(q, steps); |r.accepted| + r.refused == |q.accepted| + q.refused + Pushes(steps)
  {
    if steps != [] {
      PushesAccountedFor(q, steps[..|steps| - 1]);
    }
  }

  /** Step by step the queue does what a bounded first-in-first-out queue does: a push
      appends, or is refused exactly when the queue is full; completing a pop hands over
      the oldest element; a pop gives up only when the queue is empty; nothing else shows. */
  lemma RefinesBoundedFifo<T>(q: Queue<T>, step: Step<T>)
    requires Inv(q)
    ensures Inv(Next(q, step))
    ensures var r := Next(q, step);
      match step
      case Push(v) =>
        if |Contents(q)| == |q.slots| then Contents(r) == Contents(q) && r.refused == q.refused + 1
        else Contents(r) == Contents(q) + [v] && r.refused == q.refused
      case StoreTail =>
        if q.loop.HaveElement? then Contents(q) != [] && r.taken == q.taken + [Contents(q)[0]] && Contents(r) == Contents(q)[1..]
        else r == q
      case CompareHead =>
        Contents(r) == Contents(q) && r.taken == q.taken && (q.loop.HaveTail? && r.loop.Outside? ==> Contents(q) == [])
      case _ => Contents(r) == Contents(q) && r.taken == q.taken
  {
    NextKeeps(q, step);
    if step.Push? {
      PushKeeps(q, step.value);
    }
    Backlog(|q.accepted|, |q.taken|);
  }
}
