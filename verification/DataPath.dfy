/** The list of acquisition buffers the fabric has finished, waiting for the processor. */
module DataPath {
  import opened Words
  import opened BufferStore

  /** Ownership, the ready list, and the history: completions listed and regions taken, in
      order, and how often each region was armed. */
  datatype Flow = Flow(
    owner: seq<Owner>,
    there: seq<bool>,
    ready: seq<nat>,
    done: seq<nat>,
    took: seq<nat>,
    armed: seq<nat>,
    refused: nat,
    overflowed: nat)

  datatype Event =
    | Configure(region: nat)                          // storage_ddr_set_region
    | HandOver(region: nat, from: Owner, next: Owner) // storage_ddr_handoff
    | Release(region: nat, from: Owner)               // storage_ddr_clear
    | Complete(datum: u32)
    | Take

  ghost predicate Shaped(f: Flow)
  {
    |f.owner| == |f.there| == |f.armed| == REGIONS
  }

  function HandedOver(f: Flow, region: nat, from: Owner, next: Owner): Flow
    requires |f.owner| == |f.there| == |f.armed| == REGIONS
  {
    if HandoffStatus(f.owner, f.there, region, from) != Ok then f
    else
      f.(owner := f.owner[region := next],
         armed := if next.PlDma? then f.armed[region := f.armed[region] + 1] else f.armed)
  }

  /** complete(): the buffer is the one the interrupt named. */
  function Completed(f: Flow, datum: u32): Flow
    requires |f.owner| == |f.there| == |f.armed| == REGIONS
  {
    var region := datum % REGIONS;
    if HandoffStatus(f.owner, f.there, region, PlDma) != Ok then f.(refused := f.refused + 1)
    else
      var g := f.(owner := f.owner[region := PsProcessing]);
      if |f.ready| >= REGIONS then g.(overflowed := f.overflowed + 1)
      else g.(ready := f.ready + [region], done := f.done + [region])
  }

  function Next(f: Flow, e: Event): Flow
    requires |f.owner| == |f.there| == |f.armed| == REGIONS
  {
    match e
    case Configure(region) =>
      if region < REGIONS && f.owner[region].Nobody? then f.(there := f.there[region := true]) else f
    case HandOver(region, from, next) => HandedOver(f, region, from, next)
    case Release(region, from) =>
      if ClearStatus(f.owner, region, from) == Ok then f.(owner := f.owner[region := Nobody]) else f
    case Complete(datum) => Completed(f, datum)
    case Take => if f.ready == [] then f else f.(ready := f.ready[1..], took := f.took + [f.ready[0]])
  }

  /** Clients hand over or release only regions that are not waiting in the ready list. */
  predicate Disciplined(f: Flow, e: Event)
  {
    match e
    case HandOver(region, from, next) => region !in f.ready
    case Release(region, from) => region !in f.ready
    case _ => true
  }

  function Run(f: Flow, es: seq<Event>): (r: Flow)
    requires |f.owner| == |f.there| == |f.armed| == REGIONS
    ensures |r.owner| == |r.there| == |r.armed| == REGIONS
  {
    if es == [] then f else Next(Run(f, es[..|es| - 1]), es[|es| - 1])
  }

  predicate AllDisciplined(f: Flow, es: seq<Event>)
    requires |f.owner| == |f.there| == |f.armed| == REGIONS
  {
    es == [] || (AllDisciplined(f, es[..|es| - 1]) && Disciplined(Run(f, es[..|es| - 1]), es[|es| - 1]))
  }

  function Idle(): (f: Flow)
    ensures |f.owner| == |f.there| == |f.armed| == REGIONS
  {
    Flow([Nobody, Nobody, Nobody, Nobody, Nobody, Nobody, Nobody],
         [false, false, false, false, false, false, false],
         [], [], [], [0, 0, 0, 0, 0, 0, 0], 0, 0)
  }

  // ---------- what every disciplined run keeps ----------

  /** The ready list holds distinct regions, all owned by the processor. */
  ghost predicate Held(f: Flow)
  {
    && (forall i, j :: 0 <= i < j < |f.ready| ==> f.ready[i] != f.ready[j])
    && (forall i :: 0 <= i < |f.ready| ==> f.ready[i] < |f.owner| && f.owner[f.ready[i]].PsProcessing?)
  }

  /** A region has completed at most as often as it was armed, and the arming it is under
      has not completed yet. */
  ghost predicate ArmedFirst(f: Flow)
    requires |f.owner| == |f.armed| == REGIONS
  {
    forall r :: 0 <= r < REGIONS ==> Times(f.done, r) + (if f.owner[r].PlDma? then 1 else 0) <= f.armed[r]
  }

  ghost predicate Inv(f: Flow)
  {
    && Shaped(f)
    && Held(f)
    && ArmedFirst(f)
    && f.done == f.took + f.ready
    && f.overflowed == 0
  }

  function UpTo(n: nat): (s: set<nat>)
    ensures |s| == n && forall i: nat :: i in s <==> i < n
  {
    if n == 0 then {} else UpTo(n - 1) + {n - 1}
  }

  lemma {:induction false} DistinctFit(xs: seq<nat>, room: set<nat>)
    requires forall i, j :: 0 <= i < j < |xs| ==> xs[i] != xs[j]
    requires forall i :: 0 <= i < |xs| ==> xs[i] in room
    ensures |xs| <= |room|
  {
    if xs != [] {
      DistinctFit(xs[..|xs| - 1], room - {xs[|xs| - 1]});
    }
  }

  /** A region in the fabric's hands is not in the list, so the list has room for it. */
  lemma RoomForCompletion(f: Flow, region: nat)
    requires Shaped(f) && Held(f) && region < REGIONS && f.owner[region].PlDma?
    ensures region !in f.ready && |f.ready| < REGIONS
  {
    hide UpTo;
    forall i | 0 <= i < |f.ready|
      ensures f.ready[i] in UpTo(REGIONS) - {region}
    {
      assert f.owner[f.ready[i]].PsProcessing?;
    }
    DistinctFit(f.ready, UpTo(REGIONS) - {region});
  }

  lemma TimesAfter(log: seq<nat>, x: nat, r: nat)
    ensures Times(log + [x], r) == Times(log, r) + (if x == r then 1 else 0)
  {
    assert (log + [x])[..|log|] == log;
  }

  lemma CompletionKeeps(f: Flow, datum: u32)
    requires Inv(f)
    ensures Inv(Completed(f, datum))
  {
    hide Times;
    var region := datum % REGIONS;
    if HandoffStatus(f.owner, f.there, region, PlDma) == Ok {
      RoomForCompletion(f, region);
      forall r | 0 <= r < REGIONS
        ensures Times(f.done + [region], r) == Times(f.done, r) + (if region == r then 1 else 0)
      {
        TimesAfter(f.done, region, r);
      }
    }
  }

  lemma TakeKeeps(f: Flow)
    requires Inv(f)
    ensures Inv(Next(f, Take))
  {
    hide Times;
    if f.ready != [] {
      assert f.took + f.ready == f.took + [f.ready[0]] + f.ready[1..];
    }
  }

  lemma StepKeeps(f: Flow, e: Event)
    requires Inv(f) && Disciplined(f, e)
    ensures Inv(Next(f, e))
  {
    hide Times;
    match e
    case Complete(datum) => CompletionKeeps(f, datum);
    case Take => TakeKeeps(f);
    case Configure(region) =>
    case HandOver(region, from, next) =>
    case Release(region, from) =>
  }

  lemma {:induction false} RunKeeps(es: seq<Event>)
    requires AllDisciplined(Idle(), es)
    ensures Inv(Run(Idle(), es))
  {
    hide Inv, Next, Disciplined;
    if es == [] {
      IdleIsSound();
    } else {
      RunKeeps(es[..|es| - 1]);
      StepKeeps(Run(Idle(), es[..|es| - 1]), es[|es| - 1]);
    }
  }

  lemma IdleIsSound()
    ensures Inv(Idle())
  {
  }

  /** What a completion does, said of the number the interrupt gives: it is taken modulo the
      number of regions, listed exactly if the fabric owns that region and there is room, and
      counted as refused exactly if it does not own it. */
  lemma CompletionIff(f: Flow, datum: u32)
    requires Shaped(f)
    ensures var g := Completed(f, datum); var r := datum % 7;
      var owned := f.there[r] && f.owner[r].PlDma?;
      && (g.ready == f.ready + [r] && g.done == f.done + [r] <==> owned && |f.ready| < 7)
      && (owned ==> g.owner == f.owner[r := PsProcessing] && g.refused == f.refused)
      && (!owned ==> g.owner == f.owner && g.refused == f.refused + 1 && g.ready == f.ready)
      && g.there == f.there && g.took == f.took && g.armed == f.armed
  {
    assert |f.ready + [datum % 7]| == |f.ready| + 1;
  }

  /** A number beyond the regions is not refused as such: it completes the region it is
      congruent to, if the fabric owns that one. */
  lemma StrayNumberCompletes()
    ensures Run(Idle(), [Configure(0), HandOver(0, Nobody, PlDma), Complete(7)]).ready == [0]
  {
    var es := [Configure(0), HandOver(0, Nobody, PlDma), Complete(7)];
    assert es[..0] == [];
    RunOne(es, 0);
    RunOne(es, 1);
    RunOne(es, 2);
    assert es[..3] == es;
  }

  /** For clients that hand over or release only what they have taken: every region comes
      out exactly as often and in the order it completed, never with the list overflowing,
      and never more often than it was armed. */
  lemma HandOverIsExact(es: seq<Event>)
    requires AllDisciplined(Idle(), es)
    ensures var f := Run(Idle(), es);
      && f.done == f.took + f.ready
      && f.overflowed == 0
      && (forall i, j :: 0 <= i < j < |f.ready| ==> f.ready[i] != f.ready[j])
      && (forall r :: 0 <= r < REGIONS ==> Times(f.done, r) <= f.armed[r])
  {
    hide Run, AllDisciplined, Times;
    RunKeeps(es);
  }

  /** A client that releases a region still waiting in the list lets it be listed twice. */
  lemma UntakenReleaseDuplicates()
    ensures var cycle := [HandOver(0, Nobody, PlDma), Complete(0), Release(0, PsProcessing)];
      Run(Idle(), [Configure(0)] + cycle + cycle).ready == [0, 0]
  {
    var a := Next(Idle(), Configure(0));
    var b := Next(a, HandOver(0, Nobody, PlDma));
    var c := Next(b, Complete(0));
    var d := Next(c, Release(0, PsProcessing));
    var e := Next(d, HandOver(0, Nobody, PlDma));
    var g := Next(e, Complete(0));
    var h := Next(g, Release(0, PsProcessing));
    assert h.ready == [0, 0];
    var cycle := [HandOver(0, Nobody, PlDma), Complete(0), Release(0, PsProcessing)];
    var es := [Configure(0)] + cycle + cycle;
    assert es[..0] == [];
    RunOne(es, 0);
    RunOne(es, 1);
    RunOne(es, 2);
    RunOne(es, 3);
    RunOne(es, 4);
    RunOne(es, 5);
    RunOne(es, 6);
    assert es[..7] == es;
  }

  lemma RunOne(es: seq<Event>, k: nat)
    requires k < |es|
    ensures Run(Idle(), es[..k + 1]) == Next(Run(Idle(), es[..k]), es[k])
  {
    assert es[..k + 1][..k] == es[..k];
  }

  /** The discipline is exactly what one accepted operation needs: the list stays sound if
      and only if the region is not waiting in it, or stays with the processor. */
  lemma ListStaysSoundIff(f: Flow, region: nat, from: Owner, next: Owner)
    requires Shaped(f) && Held(f) && HandoffStatus(f.owner, f.there, region, from) == Ok
    ensures Held(HandedOver(f, region, from, next)) <==> region !in f.ready || next.PsProcessing?
    ensures Held(Next(f, Release(region, from))) <==> region !in f.ready
  {
    if region in f.ready {
      var i :| 0 <= i < |f.ready| && f.ready[i] == region;
      assert HandedOver(f, region, from, next).ready[i] == region;
      assert Next(f, Release(region, from)).ready[i] == region;
    }
  }

  // ---------- the path in place ----------

  class Path {
    const ddr: Store
    const ready: array<nat>
    var readyCount: nat
    var completions: u32
    var armFailures: u32
    var dropped: u32
    ghost var done: seq<nat>
    ghost var took: seq<nat>
    ghost var refused: nat
    ghost var overflowed: nat

    ghost predicate Shaped()
      reads this, ddr, ddr.used, ddr.base
    {
      ddr.Valid() && ready.Length == REGIONS && readyCount <= REGIONS
    }

    ghost function State(): (f: Flow)
      requires Shaped()
      reads this, ready, ddr, ddr.owner, ddr.used, ddr.base
      ensures |f.owner| == |f.there| == |f.armed| == REGIONS
    {
      Flow(ddr.owner[..], ddr.There(), ready[..readyCount], done, took, ddr.armed, refused, overflowed)
    }

    ghost predicate Valid()
      reads this, ready, ddr, ddr.owner, ddr.used, ddr.base
    {
      && Shaped()
      && Inv(State())
      && completions == Wrap(|done|)
      && dropped == Wrap(refused + overflowed)
    }

    constructor ()
      ensures Valid() && State() == Idle() && fresh(ddr) && fresh(ready)
    {
      hide Inv;
      ddr := new Store();
      ready := new nat[REGIONS](i => 0);
      readyCount, completions, armFailures, dropped := 0, 0, 0, 0;
      done, took, refused, overflowed := [], [], 0, 0;
      new;
      assert ddr.owner[..] == Idle().owner;
      assert ddr.There() == Idle().there;
      assert ddr.armed == Idle().armed;
      assert State() == Idle();
      IdleIsSound();
    }

    /** data_path_arm: the free slot of the pair goes to the fabric. */
    method Arm(channel: nat) returns (st: Status)
      requires Valid()
      modifies ddr.owner, ddr`violations, ddr`handoffs, ddr`armed, this`armFailures
      ensures Valid()
      ensures var slot := FreeSlot(old(State()).owner, old(State()).there, channel);
        && st == (if channel >= CHANNELS then ErrParam else if slot == REGIONS then ErrBusy else Ok)
        && State() == (if st == Ok then HandedOver(old(State()), slot, Nobody, PlDma) else old(State()))
        && armFailures == (if st == ErrBusy then Wrap(old(armFailures) + 1) else old(armFailures))
    {
      hide Inv, Wrap;
      var region := ddr.FreeRawSlot(channel);
      if channel >= CHANNELS {
        return ErrParam;
      }
      if region >= REGIONS {
        armFailures := Wrap(armFailures + 1);
        return ErrBusy;
      }
      ghost var f := State();
      NobodysAreNotReady(f, region);
      StepKeeps(f, HandOver(region, Nobody, PlDma));
      st := ddr.Handoff(region, Nobody, PlDma);
    }

    /** complete(): with the list sound, a region the fabric owns always finds room. */
    method Complete(datum: u32)
      requires Valid()
      modifies ddr.owner, ddr`violations, ddr`handoffs, ddr`armed, ready, this`readyCount, this`dropped, this`completions, this`done, this`refused, this`overflowed
      ensures Valid()
      ensures State() == Completed(old(State()), datum)
      ensures var r := datum % 7; var owned := ddr.base[r] != null && old(ddr.owner[r]).PlDma?;
        && ready[..readyCount] == (if owned then old(ready[..readyCount]) + [r] else old(ready[..readyCount]))
        && ddr.owner[..] == (if owned then old(ddr.owner[..])[r := PsProcessing] else old(ddr.owner[..]))
        && completions == (if owned then Wrap(old(completions) + 1) else old(completions))
        && dropped == (if owned then old(dropped) else Wrap(old(dropped) + 1))
    {
      hide Inv, Wrap;
      var region := datum % REGIONS;
      if ddr.base[region] != null && ddr.owner[region].PlDma? {
        SoundList(State());
        RoomForCompletion(State(), region);
      }
      CompletionKeeps(State(), datum);
      WrapAdd(refused + overflowed, 1);
      WrapAdd(|done|, 1);
      var st := ddr.Handoff(region, PlDma, PsProcessing);
      if st != Ok {
        dropped := Wrap(dropped + 1);
        refused := refused + 1;
        return;
      }
      List(region);
    }

    /** The completed region joins the list, if there is room. */
    method List(region: nat)
      requires Shaped()
      modifies ready, this`readyCount, this`dropped, this`completions, this`done, this`overflowed
      ensures Shaped()
      ensures var f := old(State());
        State() == if |f.ready| >= REGIONS then f.(overflowed := f.overflowed + 1)
                   else f.(ready := f.ready + [region], done := f.done + [region])
      ensures if old(readyCount) >= REGIONS then dropped == Wrap(old(dropped) + 1) && completions == old(completions)
              else dropped == old(dropped) && completions == Wrap(old(completions) + 1)
    {
      hide Wrap;
      if readyCount >= REGIONS {
        dropped := Wrap(dropped + 1);
        overflowed := overflowed + 1;
        return;
      }
      ready[readyCount] := region;
      readyCount := readyCount + 1;
      completions := Wrap(completions + 1);
      done := done + [region];
      assert ready[..readyCount] == old(ready[..readyCount]) + [region];
    }

    /** data_path_take_ready: the oldest out, the rest moved down. */
    method TakeReady() returns (given: bool, region: nat)
      requires Valid()
      modifies ready, this`readyCount, this`took
      ensures Valid()
      ensures State() == Next(old(State()), Take)
      ensures given <==> old(readyCount) > 0
      ensures ready[..readyCount] == if given then old(ready[..readyCount])[1..] else old(ready[..readyCount])
      ensures given ==> region == old(ready[0]) && region < REGIONS && ddr.owner[region].PsProcessing?
    {
      hide Inv, Wrap, ArmedFirst, HandedOver, Completed, ClearStatus, HandoffStatus;
      ghost var f := State();
      TakeKeeps(f);
      if readyCount == 0 {
        return false, 0;
      }
      SoundList(f);
      region := ready[0];
      for i := 1 to readyCount
        invariant readyCount == old(readyCount) && took == old(took)
        invariant forall k :: 0 <= k < i - 1 ==> ready[k] == f.ready[k + 1]
        invariant forall k :: i <= k < readyCount ==> ready[k] == f.ready[k]
      {
        ready[i - 1] := ready[i];
      }
      readyCount := readyCount - 1;
      took := took + [region];
      assert ready[..readyCount] == f.ready[1..];
      given := true;
    }

    lemma SoundList(f: Flow)
      requires Inv(f)
      ensures Held(f)
    {
    }

    /** data_path_service_interrupts: every completion the queue holds, in its order. */
    method ServiceInterrupts(events: seq<u32>)
      requires Valid()
      modifies ddr.owner, ddr`violations, ddr`handoffs, ddr`armed, ready, this`readyCount, this`dropped, this`completions, this`done, this`refused, this`overflowed
      ensures Valid()
      ensures State() == CompletedAll(old(State()), events)
    {
      hide Valid, Completed, Inv;
      assert Shaped() by { ShapedOf(); }
      for i := 0 to |events|
        invariant Valid() && Shaped() && State() == CompletedAll(old(State()), events[..i])
      {
        assert events[..i + 1][..i] == events[..i];
        Complete(events[i]);
        ShapedOf();
      }
      assert events[..|events|] == events;
    }

    lemma ShapedOf()
      requires Valid()
      ensures Shaped()
    {
    }
  }

  function CompletedAll(f: Flow, events: seq<u32>): (r: Flow)
    requires |f.owner| == |f.there| == |f.armed| == REGIONS
    ensures |r.owner| == |r.there| == |r.armed| == REGIONS
  {
    if events == [] then f else Completed(CompletedAll(f, events[..|events| - 1]), events[|events| - 1])
  }

  lemma NobodysAreNotReady(f: Flow, region: nat)
    requires Inv(f) && region < REGIONS && f.owner[region].Nobody?
    ensures region !in f.ready
  {
  }
}
