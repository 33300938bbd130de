/** The outbound queue: sixteen descriptors, sent by what they carry rather than by when
    they were queued. */
module OutputQueue {
  import opened Words
  import SpacePacket

  const DEPTH: nat := 16
  const PACKET_BYTES: nat := 1024
  const LEVELS: nat := 5

  datatype Item = Item(cls: nat, data: seq<byte>)

  datatype Slot = Slot(item: Item, used: bool)

  const K_PRIORITY: seq<byte> := [3, 4, 2, 1, 0, 4]

  /** comm_output_priority_of: lower is sent sooner. */
  function Priority(cls: nat): (p: byte)
    ensures cls < SpacePacket.CLASSES ==> p < LEVELS
  {
    if cls < SpacePacket.CLASSES then K_PRIORITY[cls] else 0xFF
  }

  /** What the queue admits is what can be put into a packet. */
  predicate Packable(x: Item)
  {
    x.cls < SpacePacket.CLASSES && 0 < |x.data| && |x.data| + SpacePacket.HEADER_BYTES + SpacePacket.INTEGRITY_BYTES <= PACKET_BYTES
  }

  /** What packetisation accepts; a sequence count is spent on it whether or not the link
      then takes the packet. */
  predicate Fits(x: Item)
  {
    x.cls < SpacePacket.CLASSES && |x.data| + SpacePacket.HEADER_BYTES + SpacePacket.INTEGRITY_BYTES <= PACKET_BYTES
  }

  lemma AdmittedFits(x: Item)
    requires Packable(x)
    ensures Fits(x)
  {
  }

  // ---------- the items in a row of slots, and their order of leaving ----------

  /** The queued items, by slot. */
  function Contents(s: seq<Slot>): seq<Item>
  {
    if s == [] then [] else Contents(s[..|s| - 1]) + (if s[|s| - 1].used then [s[|s| - 1].item] else [])
  }

  /** The items of one priority, in their order. */
  function Level(xs: seq<Item>, p: nat): seq<Item>
  {
    if xs == [] then []
    else Level(xs[..|xs| - 1], p) + (if Priority(xs[|xs| - 1].cls) == p then [xs[|xs| - 1]] else [])
  }

  function LevelsFrom(xs: seq<Item>, p: nat): seq<Item>
    requires p <= LEVELS
    decreases LEVELS - p
  {
    if p == LEVELS then [] else Level(xs, p) + LevelsFrom(xs, p + 1)
  }

  /** The stable sort by priority: each priority's items in their own order, best first. */
  function Sorted(xs: seq<Item>): seq<Item>
  {
    LevelsFrom(xs, 0)
  }

  lemma {:induction false} ContentsConcat(s: seq<Slot>, t: seq<Slot>)
    ensures Contents(s + t) == Contents(s) + Contents(t)
  {
    if t == [] {
      assert s + t == s;
    } else {
      ContentsConcat(s, t[..|t| - 1]);
      assert (s + t)[..|s + t| - 1] == s + t[..|t| - 1];
    }
  }

  lemma {:induction false} LevelConcat(xs: seq<Item>, ys: seq<Item>, p: nat)
    ensures Level(xs + ys, p) == Level(xs, p) + Level(ys, p)
  {
    if ys == [] {
      assert xs + ys == xs;
    } else {
      LevelConcat(xs, ys[..|ys| - 1], p);
      assert (xs + ys)[..|xs + ys| - 1] == xs + ys[..|ys| - 1];
    }
  }

  lemma {:induction false} LevelEmpty(xs: seq<Item>, p: nat)
    requires forall i :: 0 <= i < |xs| ==> Priority(xs[i].cls) != p
    ensures Level(xs, p) == []
  {
    hide Priority;
    if xs != [] {
      LevelEmpty(xs[..|xs| - 1], p);
    }
  }

  lemma {:induction false} LevelHasOnly(xs: seq<Item>, p: nat)
    ensures forall i :: 0 <= i < |Level(xs, p)| ==> Priority(Level(xs, p)[i].cls) == p
  {
    hide Priority;
    if xs != [] {
      LevelHasOnly(xs[..|xs| - 1], p);
    }
  }

  lemma {:induction false} LevelWhole(xs: seq<Item>, p: nat)
    requires forall i :: 0 <= i < |xs| ==> Priority(xs[i].cls) == p
    ensures Level(xs, p) == xs
  {
    hide Priority;
    if xs != [] {
      LevelWhole(xs[..|xs| - 1], p);
    }
  }

  // ---------- it is the stable sort ----------

  predicate Ranked(xs: seq<Item>)
  {
    forall i :: 0 <= i < |xs| ==> xs[i].cls < SpacePacket.CLASSES
  }

  lemma {:induction false} LevelsHaveAtLeast(xs: seq<Item>, p: nat)
    requires p <= LEVELS
    ensures forall i :: 0 <= i < |LevelsFrom(xs, p)| ==> p <= Priority(LevelsFrom(xs, p)[i].cls)
    decreases LEVELS - p
  {
    hide Priority, Level;
    if p < LEVELS {
      LevelsHaveAtLeast(xs, p + 1);
      LevelHasOnly(xs, p);
    }
  }

  lemma {:induction false} LevelsAreOrdered(xs: seq<Item>, p: nat)
    requires p <= LEVELS
    ensures forall i, j :: 0 <= i < j < |LevelsFrom(xs, p)| ==>
      Priority(LevelsFrom(xs, p)[i].cls) <= Priority(LevelsFrom(xs, p)[j].cls)
    decreases LEVELS - p
  {
    hide Priority, Level;
    if p < LEVELS {
      LevelsAreOrdered(xs, p + 1);
      LevelsHaveAtLeast(xs, p + 1);
      LevelHasOnly(xs, p);
    }
  }

  lemma {:induction false} LevelOfLevels(xs: seq<Item>, p: nat, q: nat)
    requires p <= LEVELS && q < LEVELS
    ensures Level(LevelsFrom(xs, p), q) == if q < p then [] else Level(xs, q)
    decreases LEVELS - p
  {
    hide Priority, Level;
    if p < LEVELS {
      LevelOfLevels(xs, p + 1, q);
      LevelConcat(Level(xs, p), LevelsFrom(xs, p + 1), q);
      LevelHasOnly(xs, p);
      if q == p {
        LevelWhole(Level(xs, p), q);
      } else {
        LevelEmpty(Level(xs, p), q);
      }
    } else {
      LevelEmpty([], q);
    }
  }

  lemma AddedOnce(a: seq<Item>, more: seq<Item>, b: seq<Item>, c: seq<Item>, m: multiset<Item>)
    requires multiset(b) == multiset(c) + m
    ensures multiset((a + more) + b) == multiset(a + c) + multiset(more) + m
  {
  }

  lemma LevelPlus(xs: seq<Item>, x: Item, p: nat)
    ensures Level(xs + [x], p) == Level(xs, p) + (if Priority(x.cls) == p then [x] else [])
  {
    hide Priority;
    assert (xs + [x])[..|xs|] == xs;
  }

  lemma {:induction false} LevelsGrow(xs: seq<Item>, x: Item, p: nat)
    requires p <= LEVELS && x.cls < SpacePacket.CLASSES
    ensures multiset(LevelsFrom(xs + [x], p)) ==
      multiset(LevelsFrom(xs, p)) + (if Priority(x.cls) >= p then multiset{x} else multiset{})
    decreases LEVELS - p
  {
    hide Priority, Level;
    PriorityOfClass(x.cls);
    if p < LEVELS {
      LevelsGrow(xs, x, p + 1);
      LevelPlus(xs, x, p);
      var more := if Priority(x.cls) == p then [x] else [];
      AddedOnce(Level(xs, p), more, LevelsFrom(xs + [x], p + 1), LevelsFrom(xs, p + 1), if Priority(x.cls) > p then multiset{x} else multiset{});
    }
  }

  lemma {:induction false} SortedIsPermutation(xs: seq<Item>)
    requires Ranked(xs)
    ensures multiset(Sorted(xs)) == multiset(xs)
  {
    hide Priority;
    if xs == [] {
      NothingSorted(0);
    } else {
      var rest, x := xs[..|xs| - 1], xs[|xs| - 1];
      assert xs == rest + [x];
      SortedIsPermutation(rest);
      LevelsGrow(rest, x, 0);
    }
  }

  lemma {:induction false} NothingSorted(p: nat)
    requires p <= LEVELS
    ensures LevelsFrom([], p) == []
    decreases LEVELS - p
  {
    if p < LEVELS {
      NothingSorted(p + 1);
    }
  }

  /** Sorted: nothing lost or added, best priority first, each priority in its own order. */
  lemma SortedIsStableSort(xs: seq<Item>)
    requires Ranked(xs)
    ensures multiset(Sorted(xs)) == multiset(xs)
    ensures forall i, j :: 0 <= i < j < |Sorted(xs)| ==> Priority(Sorted(xs)[i].cls) <= Priority(Sorted(xs)[j].cls)
    ensures forall p :: 0 <= p < LEVELS ==> Level(Sorted(xs), p) == Level(xs, p)
  {
    hide Priority, Level, LevelsFrom;
    SortedIsPermutation(xs);
    LevelsAreOrdered(xs, 0);
    forall p | 0 <= p < LEVELS
      ensures Level(Sorted(xs), p) == Level(xs, p)
    {
      LevelOfLevels(xs, 0, p);
    }
  }

  /** Fault and event data first, then status, then processed results, then raw science and
      files, which are alike; a command, if one were ever sent, between the last two. */
  lemma ByUrgency()
    ensures Priority(SpacePacket.EVENT) < Priority(SpacePacket.HEALTH) < Priority(SpacePacket.PROCESSED) < Priority(SpacePacket.RAW)
    ensures Priority(SpacePacket.PROCESSED) < Priority(SpacePacket.COMMAND) < Priority(SpacePacket.RAW) == Priority(SpacePacket.FILE)
    ensures forall c :: c >= SpacePacket.CLASSES ==> Priority(c) > Priority(SpacePacket.RAW)
  {
  }

  /** So of what is queued nothing leaves before fault and event data, and raw science and
      files leave before nothing else. */
  lemma UrgentLeavesFirst(xs: seq<Item>, i: nat, j: nat)
    requires Ranked(xs) && i < j < |Sorted(xs)|
    ensures var a, b := Sorted(xs)[i].cls, Sorted(xs)[j].cls;
      && (b == SpacePacket.EVENT ==> a == SpacePacket.EVENT)
      && (b == SpacePacket.HEALTH ==> a in {SpacePacket.EVENT, SpacePacket.HEALTH})
      && (b == SpacePacket.PROCESSED ==> a in {SpacePacket.EVENT, SpacePacket.HEALTH, SpacePacket.PROCESSED})
      && (a in {SpacePacket.RAW, SpacePacket.FILE} ==> b in {SpacePacket.RAW, SpacePacket.FILE})
  {
    hide Sorted, Level;
    SortedIsStableSort(xs);
    SortedIsRanked(xs, i);
    SortedIsRanked(xs, j);
  }

  lemma SortedIsRanked(xs: seq<Item>, i: nat)
    requires Ranked(xs) && i < |Sorted(xs)|
    ensures Sorted(xs)[i].cls < SpacePacket.CLASSES
  {
    hide Sorted;
    SortedIsPermutation(xs);
    assert Sorted(xs)[i] in multiset(Sorted(xs));
    assert Sorted(xs)[i] in xs;
  }

  // ---------- the pick is the head of the sort ----------

  lemma {:induction false} HeadOfLevels(a: seq<Item>, x: Item, b: seq<Item>, p: nat)
    requires p <= LEVELS && p <= Priority(x.cls) < LEVELS
    requires forall i :: 0 <= i < |a| ==> Priority(a[i].cls) > Priority(x.cls)
    requires forall i :: 0 <= i < |b| ==> Priority(b[i].cls) >= Priority(x.cls)
    ensures LevelsFrom(a + [x] + b, p) == [x] + LevelsFrom(a + b, p)
    decreases LEVELS - p
  {
    hide Priority, Level;
    LevelAround(a, x, b, p);
    LevelConcat(a, b, p);
    LevelEmpty(a, p);
    if p < Priority(x.cls) {
      LevelEmpty(b, p);
      HeadOfLevels(a, x, b, p + 1);
      assert Level(a + [x] + b, p) == [] == Level(a + b, p);
    } else {
      TailOfLevels(a, x, b, p + 1);
      assert Level(a + [x] + b, p) == [x] + Level(a + b, p);
    }
  }

  lemma LevelAround(a: seq<Item>, x: Item, b: seq<Item>, p: nat)
    ensures Level(a + [x] + b, p) == Level(a, p) + (if Priority(x.cls) == p then [x] else []) + Level(b, p)
  {
    hide Priority;
    LevelConcat(a + [x], b, p);
    assert (a + [x])[..|a|] == a;
  }

  lemma {:induction false} TailOfLevels(a: seq<Item>, x: Item, b: seq<Item>, p: nat)
    requires p <= LEVELS && Priority(x.cls) < p
    ensures LevelsFrom(a + [x] + b, p) == LevelsFrom(a + b, p)
    decreases LEVELS - p
  {
    hide Priority, Level;
    if p < LEVELS {
      LevelAround(a, x, b, p);
      LevelConcat(a, b, p);
      TailOfLevels(a, x, b, p + 1);
    }
  }

  /** The slot comm_output's pick() chooses: of the used ones with the best priority, the
      lowest. */
  predicate Best(s: seq<Slot>, i: nat)
  {
    && i < |s| && s[i].used
    && (forall j :: 0 <= j < i && s[j].used ==> Priority(s[j].item.cls) > Priority(s[i].item.cls))
    && (forall j :: i < j < |s| && s[j].used ==> Priority(s[j].item.cls) >= Priority(s[i].item.cls))
  }

  lemma {:induction false} ContentsAreUsed(s: seq<Slot>, k: nat)
    requires k < |Contents(s)|
    ensures exists j :: 0 <= j < |s| && s[j].used && s[j].item == Contents(s)[k]
  {
    var n := |s| - 1;
    if k < |Contents(s[..n])| {
      ContentsAreUsed(s[..n], k);
      var j :| 0 <= j < |s[..n]| && s[..n][j].used && s[..n][j].item == Contents(s[..n])[k];
      assert s[j] == s[..n][j];
    } else {
      assert s[n].used;
    }
  }

  lemma SlotsAround(s: seq<Slot>, i: nat)
    requires i < |s|
    ensures Contents(s) == Contents(s[..i]) + (if s[i].used then [s[i].item] else []) + Contents(s[i + 1..])
  {
    hide Contents;
    var a, m, b := s[..i], [s[i]], s[i + 1..];
    AroundSlot(s, i);
    ContentsConcat(a + m, b);
    ContentsConcat(a, m);
    OneSlot(s[i]);
  }

  lemma AroundSlot(s: seq<Slot>, i: nat)
    requires i < |s|
    ensures s == s[..i] + [s[i]] + s[i + 1..]
  {
  }

  lemma OneSlot(x: Slot)
    ensures Contents([x]) == if x.used then [x.item] else []
  {
    assert [x][..0] == [];
  }

  /** What the pick takes away is the head of the stable sort of what is queued. */
  lemma PickIsHead(s: seq<Slot>, i: nat, freed: Slot)
    requires Best(s, i) && s[i].item.cls < SpacePacket.CLASSES && !freed.used
    ensures Sorted(Contents(s)) == [s[i].item] + Sorted(Contents(s[i := freed]))
  {
    hide Priority, LevelsFrom, Contents;
    var t := s[i := freed];
    var a, b := Contents(s[..i]), Contents(s[i + 1..]);
    SlotsAround(s, i);
    SlotsAround(t, i);
    assert t[..i] == s[..i] && t[i + 1..] == s[i + 1..];
    assert a + [] + b == a + b;
    forall k | 0 <= k < |a|
      ensures Priority(a[k].cls) > Priority(s[i].item.cls)
    {
      ContentsAreUsed(s[..i], k);
    }
    forall k | 0 <= k < |b|
      ensures Priority(b[k].cls) >= Priority(s[i].item.cls)
    {
      ContentsAreUsed(s[i + 1..], k);
      var j :| 0 <= j < |s[i + 1..]| && s[i + 1..][j].used && s[i + 1..][j].item == b[k];
      assert s[i + 1 + j].used;
    }
    PriorityOfClass(s[i].item.cls);
    HeadOfLevels(a, s[i].item, b, 0);
  }

  lemma PriorityOfClass(cls: nat)
    requires cls < SpacePacket.CLASSES
    ensures Priority(cls) < LEVELS
  {
  }

  // ---------- where a submission goes ----------

  /** The lowest free slot from i on, or the number of slots. */
  function FreeFrom(s: seq<Slot>, i: nat): (k: nat)
    requires i <= |s|
    ensures i <= k <= |s| && (k < |s| ==> !s[k].used)
    ensures forall j :: i <= j < k ==> s[j].used
    decreases |s| - i
  {
    if i == |s| || !s[i].used then i else FreeFrom(s, i + 1)
  }

  function Placed(s: seq<Slot>, x: Item): seq<Slot>
  {
    var k := FreeFrom(s, 0);
    if k < |s| then s[k := Slot(x, true)] else s
  }

  lemma {:induction false} NoneUsed(s: seq<Slot>)
    requires forall j :: 0 <= j < |s| ==> !s[j].used
    ensures Contents(s) == []
  {
    if s != [] {
      NoneUsed(s[..|s| - 1]);
    }
  }

  lemma {:induction false} AllUsed(s: seq<Slot>)
    ensures |Contents(s)| <= |s|
    ensures |Contents(s)| == |s| <==> forall j :: 0 <= j < |s| ==> s[j].used
  {
    if s != [] {
      AllUsed(s[..|s| - 1]);
    }
  }

  lemma {:induction false} UsedIsQueued(s: seq<Slot>, j: nat)
    requires j < |s| && s[j].used
    ensures s[j].item in Contents(s) && Contents(s) != []
  {
    if j < |s| - 1 {
      UsedIsQueued(s[..|s| - 1], j);
    }
  }

  /** Where a submission lands among the items in slot order. */
  lemma SubmissionLands(s: seq<Slot>, x: Item) returns (a: seq<Item>, b: seq<Item>)
    requires FreeFrom(s, 0) < |s|
    ensures var k := FreeFrom(s, 0);
      && a == Contents(s[..k]) && b == Contents(s[k + 1..])
      && Contents(s) == a + b && Contents(s[k := Slot(x, true)]) == a + [x] + b
  {
    hide Contents;
    var k := FreeFrom(s, 0);
    var t := s[k := Slot(x, true)];
    SlotsAround(s, k);
    SlotsAround(t, k);
    assert t[..k] == s[..k] && t[k + 1..] == s[k + 1..];
    a, b := Contents(s[..k]), Contents(s[k + 1..]);
  }

  lemma {:induction false} EqualLevels(xs: seq<Item>, ys: seq<Item>, p: nat)
    requires p <= LEVELS && forall q :: 0 <= q < LEVELS ==> Level(xs, q) == Level(ys, q)
    ensures LevelsFrom(xs, p) == LevelsFrom(ys, p)
    decreases LEVELS - p
  {
    hide Level;
    if p < LEVELS {
      EqualLevels(xs, ys, p + 1);
    }
  }

  lemma {:induction false} LevelOf(xs: seq<Item>, p: nat, i: nat)
    requires i < |Level(xs, p)|
    ensures Level(xs, p)[i] in xs
  {
    hide Priority;
    var n := |xs| - 1;
    if i < |Level(xs[..n], p)| {
      LevelOf(xs[..n], p, i);
    }
  }

  lemma {:induction false} LevelHolds(xs: seq<Item>, i: nat)
    requires i < |xs|
    ensures Level(xs, Priority(xs[i].cls)) != []
  {
    hide Priority;
    if i < |xs| - 1 {
      LevelHolds(xs[..|xs| - 1], i);
    }
  }

  /** No used slot of a row holds an item of priority p. */
  predicate NoneAt(s: seq<Slot>, p: nat)
  {
    forall j :: 0 <= j < |s| && s[j].used ==> Priority(s[j].item.cls) != p
  }

  lemma LevelOfSlots(s: seq<Slot>, p: nat)
    ensures Level(Contents(s), p) == [] <==> NoneAt(s, p)
  {
    hide Priority, Level, Contents;
    var xs := Contents(s);
    if NoneAt(s, p) {
      forall i | 0 <= i < |xs|
        ensures Priority(xs[i].cls) != p
      {
        ContentsAreUsed(s, i);
      }
      LevelEmpty(xs, p);
    } else {
      var j :| 0 <= j < |s| && s[j].used && Priority(s[j].item.cls) == p;
      UsedIsQueued(s, j);
      var i :| 0 <= i < |xs| && xs[i] == s[j].item;
      LevelHolds(xs, i);
    }
  }

  lemma LandedLevel(a: seq<Item>, x: Item, b: seq<Item>, q: nat)
    ensures Level(a + [x] + b, q) == Level(a + b + [x], q) <==>
      Priority(x.cls) != q || [x] + Level(b, q) == Level(b, q) + [x]
  {
    hide Priority, Level;
    LevelAround(a, x, b, q);
    LevelPlus(a + b, x, q);
    LevelConcat(a, b, q);
    var l := Level(a, q);
    if Priority(x.cls) == q {
      assert l + [x] + Level(b, q) == l + ([x] + Level(b, q));
      assert l + Level(b, q) + [x] == l + (Level(b, q) + [x]);
      if l + ([x] + Level(b, q)) == l + (Level(b, q) + [x]) {
        assert [x] + Level(b, q) == (l + ([x] + Level(b, q)))[|l|..];
      }
    }
  }

  ghost predicate SameLevels(xs: seq<Item>, ys: seq<Item>)
  {
    forall q :: 0 <= q < LEVELS ==> Level(xs, q) == Level(ys, q)
  }

  lemma SortedLevels(xs: seq<Item>, ys: seq<Item>)
    ensures Sorted(xs) == Sorted(ys) <==> SameLevels(xs, ys)
  {
    hide Level, LevelsFrom;
    if Sorted(xs) == Sorted(ys) {
      forall q | 0 <= q < LEVELS
        ensures Level(xs, q) == Level(ys, q)
      {
        LevelOfLevels(xs, 0, q);
        LevelOfLevels(ys, 0, q);
      }
    }
    if SameLevels(xs, ys) {
      EqualLevels(xs, ys, 0);
    }
  }

  /** Earliest submission wins among equal priorities for one more submission exactly if no
      slot above the lowest free one holds an item of its priority: then, and only then, it
      leaves after everything of its priority that was queued before it. (The descriptor is
      one not already queued.) */
  lemma EarliestWinsIff(s: seq<Slot>, x: Item)
    requires FreeFrom(s, 0) < |s| && x !in Contents(s) && x.cls < SpacePacket.CLASSES
    ensures var k := FreeFrom(s, 0);
      Sorted(Contents(s[k := Slot(x, true)])) == Sorted(Contents(s) + [x]) <==>
        forall j :: k < j < |s| && s[j].used ==> Priority(s[j].item.cls) != Priority(x.cls)
  {
    hide Priority, Level, LevelsFrom, Contents, Sorted;
    var k, p := FreeFrom(s, 0), Priority(x.cls);
    var a, b := SubmissionLands(s, x);
    PriorityOfClass(x.cls);
    SortedLevels(a + [x] + b, a + b + [x]);
    LevelOfSlots(s[k + 1..], p);
    AboveIsTail(s, k, p);
    if Level(b, p) != [] {
      LandedLevel(a, x, b, p);
      LevelOf(b, p, 0);
      assert ([x] + Level(b, p))[0] == x && (Level(b, p) + [x])[0] == Level(b, p)[0];
      assert Level(b, p)[0] in a + b;
    } else {
      forall q | 0 <= q < LEVELS
        ensures Level(a + [x] + b, q) == Level(a + b + [x], q)
      {
        LandedLevel(a, x, b, q);
      }
    }
  }

  lemma AboveIsTail(s: seq<Slot>, k: nat, p: nat)
    requires k < |s|
    ensures NoneAt(s[k + 1..], p) <==> forall j :: k < j < |s| && s[j].used ==> Priority(s[j].item.cls) != p
  {
    hide Priority;
    var t := s[k + 1..];
    if NoneAt(t, p) {
      forall j | k < j < |s| && s[j].used
        ensures Priority(s[j].item.cls) != p
      {
        assert t[j - k - 1] == s[j];
      }
    }
  }

  /** Slots were freed, and nothing else happened to them. */
  predicate OnlyFreed(s: seq<Slot>, t: seq<Slot>)
  {
    |s| == |t| && forall j :: 0 <= j < |s| ==> t[j].item == s[j].item && (t[j].used ==> s[j].used)
  }

  // ---------- the queue in place ----------

  /** The octets are a packet of the item, under the identifier of its class. */
  ghost predicate CarriedBy(octets: seq<byte>, x: Item, apids: seq<u16>)
  {
    && SpacePacket.Apids(apids) && Fits(x)
    && exists count: u16 :: count < SpacePacket.COUNTS && octets == SpacePacket.PacketOf(apids[x.cls], count, x.data)
  }

  ghost predicate AllCarried(wire: seq<seq<byte>>, items: seq<Item>, apids: seq<u16>)
  {
    |wire| == |items| && forall k :: 0 <= k < |wire| ==> CarriedBy(wire[k], items[k], apids)
  }

  lemma OneMoreCarried(wire: seq<seq<byte>>, items: seq<Item>, octets: seq<byte>, x: Item, apids: seq<u16>)
    requires AllCarried(wire, items, apids) && CarriedBy(octets, x, apids)
    ensures AllCarried(wire + [octets], items + [x], apids)
  {
    hide CarriedBy;
  }

  lemma MoreCarried(a: seq<seq<byte>>, xs: seq<Item>, b: seq<seq<byte>>, ys: seq<Item>, apids: seq<u16>)
    requires AllCarried(a, xs, apids) && AllCarried(b, ys, apids)
    ensures AllCarried(a + b, xs + ys, apids)
  {
    hide CarriedBy;
  }

  lemma NoneCarried(apids: seq<u16>)
    ensures AllCarried([], [], apids)
  {
  }

  /** So a receiver under the same identifiers finds in them exactly the item. */
  lemma CarriedIsFound(octets: seq<byte>, x: Item, apids: seq<u16>)
    requires CarriedBy(octets, x, apids)
    ensures var v := SpacePacket.Examine(apids, octets); v.Routed? && v.cls == x.cls && v.app == x.data
  {
    hide SpacePacket.Examine, SpacePacket.PacketOf;
    var count: u16 :| count < SpacePacket.COUNTS && octets == SpacePacket.PacketOf(apids[x.cls], count, x.data);
    SpacePacket.BuiltIsRouted(apids, x.cls, count, x.data);
  }

  class Queue {
    const slot: array<Slot>
    const packets: SpacePacket.PacketLayer
    const packet: array<byte>
    var pending: u32
    var highWater: u32
    var submitted: u32
    var sent: u32
    var rejected: u32
    var failed: u32
    /** What the link has taken, in order: the packets, and the items they were built from. */
    var wire: seq<seq<byte>>
    ghost var out: seq<Item>

    ghost function Queued(): seq<Item>
      reads slot
    {
      Contents(slot[..])
    }

    ghost predicate Shaped()
      reads this, packets
    {
      slot.Length == DEPTH && packet.Length == PACKET_BYTES && packets.Shaped() && packets.Counting()
    }

    /** Only packable items are queued, the counts add up, and nothing has failed. */
    ghost predicate Valid()
      reads this, slot, packets
    {
      && Shaped()
      && (forall i :: 0 <= i < DEPTH && slot[i].used ==> Packable(slot[i].item))
      && pending == |Queued()|
      && submitted == Wrap((pending as int) + sent + failed)
      && sent == Wrap(|out|)
      && failed == 0
      && pending <= highWater <= DEPTH
    }

    constructor (layer: SpacePacket.PacketLayer)
      requires layer.Shaped() && layer.Counting()
      ensures Valid() && packets == layer && fresh(slot) && fresh(packet)
      ensures Queued() == [] && out == [] && pending == highWater == submitted == sent == rejected == failed == 0
    {
      slot := new Slot[DEPTH](i => Slot(Item(0, []), false));
      packets := layer;
      packet := new byte[PACKET_BYTES](i => 0);
      pending, highWater, submitted, sent, rejected, failed := 0, 0, 0, 0, 0, 0;
      out, wire := [], [];
      new;
      NoneUsed(slot[..]);
    }

    /** comm_output_submit: into the lowest free slot, or refused and counted. */
    method Submit(cls: nat, data: seq<byte>) returns (st: Status)
      requires Valid() && |data| + SpacePacket.HEADER_BYTES + SpacePacket.INTEGRITY_BYTES < TWO_32
      modifies slot, this`pending, this`submitted, this`highWater, this`rejected
      ensures Valid()
      ensures st == if cls >= SpacePacket.CLASSES || data == [] then ErrParam
                    else if !Packable(Item(cls, data)) then ErrRange
                    else if old(pending) == DEPTH then ErrBusy
                    else Ok
      ensures st == ErrRange <==> cls < SpacePacket.CLASSES && 0 < |data| && |data| + 10 > 1024
      ensures slot[..] == if st == Ok then Placed(old(slot[..]), Item(cls, data)) else old(slot[..])
      ensures pending == (if st == Ok then old(pending) + 1 else old(pending))
      ensures submitted == (if st == Ok then Wrap(old(submitted) + 1) else old(submitted))
      ensures rejected == (if st == ErrBusy then Wrap(old(rejected) + 1) else old(rejected))
      ensures highWater == if pending > old(highWater) then pending else old(highWater)
    {
      hide Wrap, Contents, Priority;
      if cls >= SpacePacket.CLASSES || |data| == 0 {
        return ErrParam;
      }
      if |data| + SpacePacket.HEADER_BYTES + SpacePacket.INTEGRITY_BYTES > PACKET_BYTES {
        return ErrRange;
      }
      AllUsed(slot[..]);
      var i := 0;
      while i < DEPTH
        invariant 0 <= i <= DEPTH && FreeFrom(slot[..], 0) == FreeFrom(slot[..], i)
        invariant forall j :: 0 <= j < i ==> slot[j].used
        invariant slot[..] == old(slot[..]) && pending == old(pending) && submitted == old(submitted)
        invariant highWater == old(highWater) && rejected == old(rejected)
      {
        if slot[i].used {
          i := i + 1;
          continue;
        }
        Take(i, Item(cls, data));
        return Ok;
      }
      rejected := Wrap(rejected + 1);
      return ErrBusy;
    }

    method Take(i: nat, x: Item)
      requires Valid() && i < DEPTH && !slot[i].used && Packable(x)
      modifies slot, this`pending, this`submitted, this`highWater
      ensures Valid()
      ensures slot[..] == old(slot[..])[i := Slot(x, true)]
      ensures pending == old(pending) + 1 && submitted == Wrap(old(submitted) + 1)
      ensures highWater == if pending > old(highWater) then pending else old(highWater)
    {
      hide Wrap, Contents, Packable;
      ghost var s := slot[..];
      SlotsAround(s, i);
      AllUsed(s);
      slot[i] := Slot(x, true);
      SlotsAround(slot[..], i);
      AllUsed(slot[..]);
      assert slot[..][..i] == s[..i] && slot[..][i + 1..] == s[i + 1..];
      WrapAdd((pending as int) + sent + failed, 1);
      WrapSmall(pending + 1);
      pending := Wrap(pending + 1);
      submitted := Wrap(submitted + 1);
      if pending > highWater {
        highWater := pending;
      }
    }

    /** pick(): the lowest slot at the best priority, or the number of slots. */
    method Pick() returns (best: nat)
      requires Valid()
      ensures best <= DEPTH
      ensures best == DEPTH ==> Queued() == []
      ensures best < DEPTH ==> Best(slot[..], best)
    {
      hide Wrap, Contents;
      best := DEPTH;
      var bestPriority: byte := 0xFF;
      for i := 0 to DEPTH
        invariant best < DEPTH ==> best < i && slot[best].used && bestPriority == Priority(slot[best].item.cls)
        invariant best == DEPTH ==> bestPriority == 0xFF && forall j :: 0 <= j < i ==> !slot[j].used
        invariant best < DEPTH ==> forall j :: 0 <= j < best && slot[j].used ==> Priority(slot[j].item.cls) > bestPriority
        invariant best < DEPTH ==> forall j :: best < j < i && slot[j].used ==> Priority(slot[j].item.cls) >= bestPriority
        invariant best <= DEPTH
      {
        if !slot[i].used {
          continue;
        }
        PriorityOfClass(slot[i].item.cls);
        if Priority(slot[i].item.cls) < bestPriority {
          bestPriority := Priority(slot[i].item.cls);
          best := i;
        }
      }
      if best == DEPTH {
        NoneUsed(slot[..]);
      }
    }

    method Free(index: nat)
      requires Shaped() && index < DEPTH && slot[index].used && pending == |Queued()|
      modifies slot, this`pending
      ensures slot[..] == old(slot[..])[index := Slot(old(slot[index]).item, false)]
      ensures old(pending) > 0 && pending == old(pending) - 1 == |Queued()|
    {
      hide Wrap, Contents;
      ghost var s := slot[..];
      SlotsAround(s, index);
      slot[index] := slot[index].(used := false);
      SlotsAround(slot[..], index);
      assert slot[..][..index] == s[..index] && slot[..][index + 1..] == s[index + 1..];
      WrapSmall(pending - 1);
      pending := Wrap((pending as int) - 1);
    }

    /** One round of the loop on the slot picked, for any descriptor at all: `taken` is
        whether the link takes the packet. One that cannot be put in a packet is dropped. */
    method Round(index: nat, taken: bool) returns (more: bool)
      requires Shaped() && index < DEPTH && slot[index].used && pending == |Queued()|
      requires |slot[index].item.data| + SpacePacket.HEADER_BYTES + SpacePacket.INTEGRITY_BYTES < TWO_32
      modifies slot, packet, this`pending, this`sent, this`failed, this`out, this`wire
      modifies packets`txCount, packets`sent, packets`log
      ensures Shaped() && pending == |Queued()|
      ensures var x := old(slot[index]).item;
        && more == (taken || !Fits(x))
        && slot[..] == (if more then old(slot[..])[index := Slot(x, false)] else old(slot[..]))
        && pending == (if more then old(pending) - 1 else old(pending))
        && failed == (if Fits(x) then old(failed) else Wrap(old(failed) + 1))
        && out == (if Fits(x) && taken then old(out) + [x] else old(out))
        && sent == (if Fits(x) && taken then Wrap(old(sent) + 1) else old(sent))
        && packets.log == (if Fits(x) then old(packets.log) + [SpacePacket.Built(x.cls, x.data)] else old(packets.log))
        && (if Fits(x) && taken then |wire| == |old(wire)| + 1 && old(wire) <= wire && CarriedBy(wire[|old(wire)|], x, packets.apid)
            else wire == old(wire))
    {
      hide Wrap, Contents;
      var x := slot[index].item;
      var built, written := packets.Build(x.cls, x.data, packet);
      if built != Ok {
        Free(index);
        failed := Wrap(failed + 1);
        return true;
      }
      if !taken {
        return false;
      }
      Free(index);
      sent := Wrap(sent + 1);
      out := out + [x];
      wire := wire + [packet[..written]];
      PacketBuilt(x);
      return true;
    }

    /** The octets of the last packet built. */
    lemma PacketBuilt(x: Item)
      requires Shaped() && Fits(x) && wire != [] && packets.log != [] && packets.log[|packets.log| - 1] == SpacePacket.Built(x.cls, x.data)
      requires wire[|wire| - 1] == SpacePacket.BuiltOctets(packets.apid, packets.log, |packets.log| - 1)
      ensures CarriedBy(wire[|wire| - 1], x, packets.apid)
    {
      hide SpacePacket.PacketOf, SpacePacket.CountOf;
      var log := packets.log;
      var count: u16 := SpacePacket.CountOf(log[..|log| - 1], x.cls) % SpacePacket.COUNTS;
      assert wire[|wire| - 1] == SpacePacket.PacketOf(packets.apid[x.cls], count, x.data);
    }

    /** One round: the best item is offered to the link, if there is one. */
    method SendBest(taken: bool) returns (gone: bool)
      requires Valid()
      modifies slot, packet, this`pending, this`sent, this`failed, this`out, this`wire
      modifies packets`txCount, packets`sent, packets`log
      ensures Valid() && submitted == old(submitted)
      ensures gone <==> taken && old(Queued()) != []
      ensures !gone ==> out == old(out) && slot[..] == old(slot[..]) && wire == old(wire)
      ensures gone ==> |wire| == |old(wire)| + 1 && old(wire) <= wire && |out| > 0 && CarriedBy(wire[|old(wire)|], out[|out| - 1], packets.apid)
      ensures gone ==> |out| == |old(out)| + 1 && old(out) <= out
      ensures gone ==> Sorted(old(Queued())) == out[|old(out)|..] + Sorted(Queued())
      ensures gone ==> pending == old(pending) - 1
      ensures OnlyFreed(old(slot[..]), slot[..])
    {
      hide Wrap, Contents, Priority, LevelsFrom, Packable, Fits, Sorted, CarriedBy;
      var index := Pick();
      if index >= DEPTH {
        return false;
      }
      ghost var s, before := slot[..], (sent as int) + 1;
      PickedIsPackable(index);
      AdmittedFits(s[index].item);
      UsedIsQueued(s, index);
      gone := Round(index, taken);
      if gone {
        PickIsHead(s, index, Slot(s[index].item, false));
        WrapAdd(|old(out)|, 1);
        WrapAdd(before, (pending as int) + failed);
      }
    }

    /** comm_output_service: as much as the link will take, in the order of the stable sort;
        `running` and `takes` are its answers, round by round. */
    method Service(running: nat -> bool, takes: nat -> bool) returns (n: nat)
      requires Valid()
      modifies slot, packet, this`pending, this`sent, this`failed, this`out, this`wire
      modifies packets`txCount, packets`sent, packets`log
      ensures Valid() && submitted == old(submitted)
      ensures |out| == |old(out)| + n && old(out) <= out
      ensures out[|old(out)|..] + Sorted(Queued()) == Sorted(old(Queued()))
      ensures old(wire) <= wire && AllCarried(wire[|old(wire)|..], out[|old(out)|..], packets.apid)
      ensures forall k :: 0 <= k < n ==> running(k) && takes(k)
      ensures Queued() == [] || !running(n) || !takes(n)
      ensures OnlyFreed(old(slot[..]), slot[..])
    {
      hide Valid, Contents, Sorted, CarriedBy, AllCarried;
      n := 0;
      NoneCarried(packets.apid);
      assert wire[|wire|..] == [] && out[|out|..] == [];
      while running(n)
        invariant Valid() && submitted == old(submitted)
        invariant OnlyFreed(old(slot[..]), slot[..])
        invariant |out| == |old(out)| + n && old(out) <= out
        invariant out[|old(out)|..] + Sorted(Queued()) == Sorted(old(Queued()))
        invariant old(wire) <= wire && AllCarried(wire[|old(wire)|..], out[|old(out)|..], packets.apid)
        invariant forall k :: 0 <= k < n ==> running(k) && takes(k)
        decreases pending
      {
        ghost var was, sentWire := out, wire;
        var gone := SendBest(takes(n));
        if !gone {
          return;
        }
        OneMoreCarried(sentWire[|old(wire)|..], was[|old(out)|..], wire[|sentWire|], out[|was|], packets.apid);
        assert wire[|old(wire)|..] == sentWire[|old(wire)|..] + [wire[|sentWire|]];
        assert out[|old(out)|..] == was[|old(out)|..] + [out[|was|]];
        assert out[|old(out)|..] == was[|old(out)|..] + out[|was|..];
        n := n + 1;
      }
    }

    lemma PickedIsPackable(index: nat)
      requires Valid() && Best(slot[..], index)
      ensures index < DEPTH && Packable(slot[index].item) && slot[index].item.cls < SpacePacket.CLASSES
      ensures |slot[index].item.data| + SpacePacket.HEADER_BYTES + SpacePacket.INTEGRITY_BYTES < TWO_32
    {
    }
  }

  // ---------- a batch ----------

  /** Of the submissions to an empty queue: those that can be packed, up to its depth. */
  function Admitted(xs: seq<Item>): (r: seq<Item>)
    ensures |r| <= DEPTH
  {
    if xs == [] then []
    else
      var before := Admitted(xs[..|xs| - 1]);
      if Packable(xs[|xs| - 1]) && |before| < DEPTH then before + [xs[|xs| - 1]] else before
  }

  /** The used slots are the lowest ones. */
  ghost predicate Packed(s: seq<Slot>, n: nat)
  {
    n <= |s| && forall j :: 0 <= j < |s| ==> (s[j].used <==> j < n)
  }

  lemma PlacedLast(s: seq<Slot>, x: Item, n: nat)
    requires Packed(s, n) && n < |s|
    ensures FreeFrom(s, 0) == n && Packed(Placed(s, x), n + 1) && Contents(Placed(s, x)) == Contents(s) + [x]
  {
    hide Contents;
    var t := s[n := Slot(x, true)];
    var k := FreeFrom(s, 0);
    assert !s[n].used && (s[k].used <==> k < n);
    SlotsAround(s, n);
    SlotsAround(t, n);
    NoneUsed(s[n + 1..]);
    assert t[..n] == s[..n] && t[n + 1..] == s[n + 1..];
  }

  /** Submissions to an empty queue are admitted in order as long as there is room. */
  method SubmitAll(q: Queue, xs: seq<Item>)
    requires q.Valid() && q.Queued() == [] && q.out == []
    requires forall i :: 0 <= i < |xs| ==> |xs[i].data| + SpacePacket.HEADER_BYTES + SpacePacket.INTEGRITY_BYTES < TWO_32
    modifies q, q.slot, q.packet
    modifies q.packets`txCount, q.packets`sent, q.packets`log
    ensures q.Valid() && q.out == [] && q.Queued() == Admitted(xs) && q.wire == old(q.wire)
  {
    hide Wrap, Contents, Priority, LevelsFrom;
    AllUsed(q.slot[..]);
    NothingQueued(q.slot[..]);
    for i := 0 to |xs|
      invariant q.Valid() && q.out == [] && q.wire == old(q.wire)
      invariant Packed(q.slot[..], |Admitted(xs[..i])|) && q.Queued() == Admitted(xs[..i])
    {
      assert xs[..i + 1][..i] == xs[..i];
      ghost var s, n := q.slot[..], |Admitted(xs[..i])|;
      if n < DEPTH {
        PlacedLast(s, xs[i], n);
      }
      assert xs[i] == Item(xs[i].cls, xs[i].data);
      var st := q.Submit(xs[i].cls, xs[i].data);
    }
    assert xs[..|xs|] == xs;
  }

  /** Any submissions to an empty queue, then any number of service passes with whatever
      answers from the link: what has been sent is a prefix of the stable sort by priority
      of what was admitted, and the rest of that sort is what is still queued. */
  method Batch(q: Queue, xs: seq<Item>, passes: seq<(nat -> bool, nat -> bool)>)
    requires q.Valid() && q.Queued() == [] && q.out == []
    requires forall i :: 0 <= i < |xs| ==> |xs[i].data| + SpacePacket.HEADER_BYTES + SpacePacket.INTEGRITY_BYTES < TWO_32
    modifies q, q.slot, q.packet
    modifies q.packets`txCount, q.packets`sent, q.packets`log
    ensures q.Valid()
    ensures q.out + Sorted(q.Queued()) == Sorted(Admitted(xs))
    ensures q.out <= Sorted(Admitted(xs))
    ensures old(q.wire) <= q.wire && AllCarried(q.wire[|old(q.wire)|..], q.out, q.packets.apid)
  {
    hide Wrap, Contents, Priority, LevelsFrom, Sorted, OnlyFreed, AllCarried;
    SubmitAll(q, xs);
    NoneCarried(q.packets.apid);
    assert q.wire[|q.wire|..] == [];
    assert q.out + Sorted(q.Queued()) == Sorted(q.Queued());
    for i := 0 to |passes|
      invariant q.Valid()
      invariant q.out + Sorted(q.Queued()) == Sorted(Admitted(xs))
      invariant old(q.wire) <= q.wire && AllCarried(q.wire[|old(q.wire)|..], q.out, q.packets.apid)
    {
      ghost var was, sentWire := q.out, q.wire;
      ghost var waiting := Sorted(q.Queued());
      var n := q.Service(passes[i].0, passes[i].1);
      assert q.out == was + q.out[|was|..];
      MoreCarried(sentWire[|old(q.wire)|..], was, q.wire[|sentWire|..], q.out[|was|..], q.packets.apid);
      assert q.wire[|old(q.wire)|..] == sentWire[|old(q.wire)|..] + q.wire[|sentWire|..];
      assert was + waiting == was + (q.out[|was|..] + Sorted(q.Queued()));
      assert q.out + Sorted(q.Queued()) == was + (q.out[|was|..] + Sorted(q.Queued()));
    }
  }

  lemma {:induction false} NothingQueued(s: seq<Slot>)
    requires Contents(s) == []
    ensures Packed(s, 0)
  {
    forall j | 0 <= j < |s|
      ensures !s[j].used
    {
      if s[j].used {
        UsedIsQueued(s, j);
      }
    }
  }

  lemma SortedAlike(xs: seq<Item>)
    requires forall i :: 0 <= i < |xs| ==> xs[i].cls == 1
    ensures Sorted(xs) == xs
  {
    hide Level;
    LevelWhole(xs, 4);
    LevelEmpty(xs, 0);
    LevelEmpty(xs, 1);
    LevelEmpty(xs, 2);
    LevelEmpty(xs, 3);
    assert LevelsFrom(xs, 5) == [];
    assert LevelsFrom(xs, 4) == xs;
    assert LevelsFrom(xs, 3) == xs;
    assert LevelsFrom(xs, 2) == xs;
    assert LevelsFrom(xs, 1) == xs;
  }

  lemma OnlyOneLeft(xs: seq<Item>, y: Item)
    requires Ranked(xs) && Sorted(xs) == [y]
    ensures xs == [y]
  {
    hide Sorted;
    SortedIsPermutation(xs);
    assert |xs| == |multiset(xs)| == 1;
    assert xs[0] in multiset(xs);
  }

  /** A service pass in which the link takes one packet of two. */
  method OneTaken(q: Queue, ghost x: Item, ghost y: Item)
    requires q.Valid() && Sorted(q.Queued()) == [x, y]
    modifies q.slot, q.packet, q`pending, q`sent, q`failed, q`out, q`wire
    modifies q.packets`txCount, q.packets`sent, q.packets`log
    ensures q.Valid() && q.out == old(q.out) + [x] && q.Queued() == [y]
    ensures OnlyFreed(old(q.slot[..]), q.slot[..])
  {
    hide Contents, LevelsFrom, OnlyFreed;
    ghost var was := q.out;
    var running, takes := (k: nat) => true, (k: nat) => k == 0;
    assert running(0) && running(1) && takes(0) && !takes(1);
    var n := q.Service(running, takes);
    assert q.out == was + q.out[|was|..];
    QueuedAreRanked(q);
    if n == 0 {
      assert q.out[|was|..] == [];
      NothingSorted(0);
    } else {
      ghost var tail, rest := q.out[|was|..], Sorted(q.Queued());
      assert tail == (tail + rest)[..1] == [x] && rest == (tail + rest)[1..] == [y];
      OnlyOneLeft(q.Queued(), y);
    }
  }

  lemma QueuedAreRanked(q: Queue)
    requires q.Valid()
    ensures Ranked(q.Queued())
  {
    hide Contents;
    forall i | 0 <= i < |q.Queued()|
      ensures q.Queued()[i].cls < SpacePacket.CLASSES
    {
      ContentsAreUsed(q.slot[..], i);
    }
  }

  lemma SlotLeftBehind(s: seq<Slot>, t: seq<Slot>, x: Item, y: Item)
    requires Packed(s, 2) && |s| > 2 && s[0].item == x && s[1].item == y && x != y
    requires OnlyFreed(s, t) && Contents(t) == [y]
    ensures !t[0].used && t[1] == Slot(y, true) && forall j :: 1 < j < |t| ==> !t[j].used
  {
    hide Contents;
    if t[0].used {
      UsedIsQueued(t, 0);
    }
    ContentsAreUsed(t, 0);
  }

  lemma TakenSlotIsLower(t: seq<Slot>, y: Item, z: Item)
    requires |t| > 2 && !t[0].used && t[1] == Slot(y, true) && forall j :: 1 < j < |t| ==> !t[j].used
    ensures Contents(Placed(t, z)) == [z, y]
  {
    hide Contents;
    var u := t[0 := Slot(z, true)];
    assert FreeFrom(t, 0) == 0;
    SlotsAround(u, 0);
    NoneUsed(u[..0]);
    SlotsAround(u[1..], 0);
    NoneUsed(u[1..][..0]);
    NoneUsed(u[1..][1..]);
  }

  /** Three submissions of one priority, with the link taking one packet between the second
      and the third: the third takes the slot the first left and goes out before the second. */
  method LaterOvertakes(q: Queue, a: seq<byte>, b: seq<byte>, c: seq<byte>)
    requires q.Valid() && q.Queued() == [] && q.out == []
    requires a != b && b != c && Packable(Item(1, a)) && Packable(Item(1, b)) && Packable(Item(1, c))
    modifies q, q.slot, q.packet
    modifies q.packets`txCount, q.packets`sent, q.packets`log
    ensures q.Valid() && q.out == [Item(1, a), Item(1, c)] && q.Queued() == [Item(1, b)]
  {
    hide Wrap, Contents, Priority, Sorted, Level, OnlyFreed, SpacePacket.Apids;
    var x, y, z := Item(1, a), Item(1, b), Item(1, c);
    AllUsed(q.slot[..]);
    NothingQueued(q.slot[..]);
    PlacedLast(q.slot[..], x, 0);
    var st := q.Submit(1, a);
    PlacedLast(q.slot[..], y, 1);
    st := q.Submit(1, b);
    assert q.Queued() == [x, y];
    SortedAlike([x, y]);
    ghost var s := q.slot[..];
    OneTaken(q, x, y);
    SlotLeftBehind(s, q.slot[..], x, y);
    TakenSlotIsLower(q.slot[..], y, z);
    st := q.Submit(1, c);
    assert q.Queued() == [z, y];
    SortedAlike([z, y]);
    OneTaken(q, z, y);
  }
}
