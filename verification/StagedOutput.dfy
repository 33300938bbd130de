/** The transfer's one staging buffer and the descriptors queued on it: what the link sends
    for a record is what the buffer holds when the descriptor leaves. */
module StagedOutput {
  import opened Words
  import Crc
  import opened RecordStore
  import SpacePacket
  import OutputQueue

  /** What the queue keeps of a submission: not the octets, only where they are. */
  datatype Descriptor = Descriptor(cls: nat, len: nat)

  /** What a descriptor was submitted for, and the payloads read into the stage since. */
  datatype Mark = Mark(record: HandOver, since: seq<seq<byte>>)

  /** The records of a run in the order of their kinds: raw, processed, health. Each goes out in
      packets of its own class, and the less of a run a kind makes up the sooner it leaves. */
  lemma RecordsByUrgency()
    ensures [ClassOf(0), ClassOf(1), ClassOf(2)] == [SpacePacket.RAW, SpacePacket.PROCESSED, SpacePacket.HEALTH]
    ensures OutputQueue.Priority(ClassOf(2)) < OutputQueue.Priority(ClassOf(1)) < OutputQueue.Priority(ClassOf(0))
    ensures forall r: Record :: Legal(r) ==> ClassOf(r.kind) < SpacePacket.CLASSES
  {
  }

  // ---------- a buffer read into again and again ----------

  /** The front of a buffer that held x, after further reads into it. */
  function Front(x: seq<byte>, since: seq<seq<byte>>): (r: seq<byte>)
    ensures |r| == |x|
  {
    if since == [] then x
    else
      var before, y := Front(x, since[..|since| - 1]), since[|since| - 1];
      var n := if |y| < |x| then |y| else |x|;
      y[..n] + before[n..]
  }

  /** Of the reads, the j-th is the last to reach octet i. */
  ghost predicate LastToReach(since: seq<seq<byte>>, j: nat, i: nat)
  {
    j < |since| && i < |since[j]| && forall k :: j < k < |since| ==> |since[k]| <= i
  }

  /** Every octet was last left as it was. */
  ghost predicate Untouched(x: seq<byte>, since: seq<seq<byte>>)
  {
    forall i, j :: 0 <= i < |x| && 0 <= j < |since| && LastToReach(since, j, i) ==> since[j][i] == x[i]
  }

  lemma {:induction false} FrontAt(x: seq<byte>, since: seq<seq<byte>>, i: nat) returns (j: nat)
    requires i < |x|
    ensures if j < |since| then LastToReach(since, j, i) && Front(x, since)[i] == since[j][i]
            else Front(x, since)[i] == x[i] && forall k :: 0 <= k < |since| ==> |since[k]| <= i
  {
    if since == [] {
      j := 0;
    } else if i < |since[|since| - 1]| {
      j := |since| - 1;
    } else {
      var early := since[..|since| - 1];
      j := FrontAt(x, early, i);
      if j >= |early| {
        j := |since|;
      }
    }
  }

  lemma OnlyOneIsLast(since: seq<seq<byte>>, j: nat, k: nat, i: nat)
    requires LastToReach(since, j, i) && LastToReach(since, k, i)
    ensures j == k
  {
  }

  /** The front is as it was exactly if every octet was last left as it was. */
  lemma FrontIff(x: seq<byte>, since: seq<seq<byte>>)
    ensures Front(x, since) == x <==> Untouched(x, since)
  {
    hide Front;
    forall i | 0 <= i < |x|
      ensures Front(x, since)[i] == x[i] <==> forall j :: 0 <= j < |since| && LastToReach(since, j, i) ==> since[j][i] == x[i]
    {
      var j := FrontAt(x, since, i);
      if j < |since| {
        forall k | 0 <= k < |since| && LastToReach(since, k, i)
          ensures k == j
        {
          OnlyOneIsLast(since, j, k, i);
        }
      }
    }
  }

  /** Reading the same payload again does no harm; */
  lemma {:induction false} SameAgain(x: seq<byte>, since: seq<seq<byte>>)
    requires forall k :: 0 <= k < |since| ==> since[k] == x
    ensures Front(x, since) == x
  {
    if since != [] {
      SameAgain(x, since[..|since| - 1]);
      assert x[..|x|] + x[|x|..] == x;
    }
  }

  /** and where every record begins with an octet of its own, only reading nothing does none. */
  lemma LeftInTimeIff(x: seq<byte>, since: seq<seq<byte>>)
    requires x != [] && forall y :: y in since ==> y != [] && y[0] != x[0]
    ensures Front(x, since) == x <==> since == []
  {
    if since != [] {
      var j := FrontAt(x, since, 0);
      assert since[0] in since;
      assert j < |since| ==> since[j] in since;
    }
  }

  // ---------- what a descriptor stands for ----------

  ghost predicate Shows(d: Descriptor, m: Mark, stage: seq<byte>)
  {
    d.cls == m.record.cls && d.len == |m.record.data| <= |stage| && stage[..d.len] == Front(m.record.data, m.since)
  }

  /** What goes out for a submission. */
  ghost function WentAs(m: Mark): HandOver
  {
    HandOver(m.record.cls, Front(m.record.data, m.since))
  }

  ghost function Since(marks: seq<Mark>, d: seq<byte>): seq<Mark>
  {
    seq(|marks|, i requires 0 <= i < |marks| => marks[i].(since := marks[i].since + [d]))
  }

  lemma ReadShows(d: Descriptor, m: Mark, stage: seq<byte>, read: seq<byte>)
    requires Shows(d, m, stage) && |read| <= |stage|
    ensures Shows(d, m.(since := m.since + [read]), Overlaid(stage, read))
  {
    hide Front;
    FrontLast(m.record.data, m.since, read);
    OverlaidFront(stage, read, d.len);
  }

  lemma FrontLast(x: seq<byte>, since: seq<seq<byte>>, read: seq<byte>)
    ensures var n := if |read| < |x| then |read| else |x|;
      Front(x, since + [read]) == read[..n] + Front(x, since)[n..]
  {
    assert (since + [read])[..|since + [read]| - 1] == since;
  }

  lemma OverlaidFront(stage: seq<byte>, read: seq<byte>, len: nat)
    requires |read| <= |stage| && len <= |stage|
    ensures var n := if |read| < len then |read| else len;
      Overlaid(stage, read)[..len] == read[..n] + stage[..len][n..]
  {
  }

  lemma PayloadFits(device: seq<byte>, offset: u32, used: u32, headerReads: bool, payloadReads: bool)
    ensures |PayloadRead(TurnAt(device, offset, used, headerReads, payloadReads), device, offset)| <= STAGE
  {
    hide Get32, Crc.Checksum, LengthAccepted;
  }

  /** What the submissions waiting or gone were for. */
  ghost function Records(marks: seq<Mark>): multiset<HandOver>
  {
    multiset(seq(|marks|, i requires 0 <= i < |marks| => marks[i].record))
  }

  lemma RecordsSince(marks: seq<Mark>, d: seq<byte>)
    ensures Records(Since(marks, d)) == Records(marks)
  {
    assert seq(|marks|, i requires 0 <= i < |marks| => Since(marks, d)[i].record) == seq(|marks|, i requires 0 <= i < |marks| => marks[i].record);
  }

  lemma RecordsAdd(marks: seq<Mark>, m: Mark)
    ensures Records(marks + [m]) == Records(marks) + multiset{m.record}
  {
    var s := seq(|marks|, i requires 0 <= i < |marks| => marks[i].record);
    assert seq(|marks| + 1, i requires 0 <= i < |marks| + 1 => (marks + [m])[i].record) == s + [m.record];
  }

  lemma RecordsRemove(marks: seq<Mark>, i: nat)
    requires i < |marks|
    ensures Records(marks) == Records(marks[..i] + marks[i + 1..]) + multiset{marks[i].record}
  {
    var s := seq(|marks|, k requires 0 <= k < |marks| => marks[k].record);
    var rest := marks[..i] + marks[i + 1..];
    assert seq(|rest|, k requires 0 <= k < |rest| => rest[k].record) == s[..i] + s[i + 1..];
    assert s == s[..i] + [s[i]] + s[i + 1..];
  }

  ghost predicate AllShow(waiting: seq<Descriptor>, marks: seq<Mark>, stage: seq<byte>)
  {
    |waiting| == |marks| && forall i :: 0 <= i < |waiting| ==> Shows(waiting[i], marks[i], stage)
  }

  /** After a read the waiting descriptors stand for what it left of their records. */
  lemma StillShow(waiting: seq<Descriptor>, marks: seq<Mark>, stage: seq<byte>, read: seq<byte>)
    requires AllShow(waiting, marks, stage) && |read| <= |stage|
    ensures AllShow(waiting, Since(marks, read), Overlaid(stage, read))
  {
    hide Shows, Overlaid;
    forall i | 0 <= i < |waiting|
      ensures Shows(waiting[i], Since(marks, read)[i], Overlaid(stage, read))
    {
      ReadShows(waiting[i], marks[i], stage, read);
    }
  }

  /** A record just read stands in the front of the stage. */
  lemma NewShows(h: HandOver, stage: seq<byte>)
    requires |h.data| <= |stage|
    ensures Shows(Descriptor(h.cls, |h.data|), Mark(h, []), Overlaid(stage, h.data))
  {
  }

  lemma OneMoreShows(waiting: seq<Descriptor>, marks: seq<Mark>, d: Descriptor, m: Mark, stage: seq<byte>)
    requires AllShow(waiting, marks, stage) && Shows(d, m, stage)
    ensures AllShow(waiting + [d], marks + [m], stage)
  {
    hide Shows;
  }

  /** What is handed over is what was read. */
  lemma HandedIsRead(device: seq<byte>, offset: u32, used: u32, headerReads: bool, payloadReads: bool)
    ensures var t := TurnAt(device, offset, used, headerReads, payloadReads);
      t.Offers? ==> PayloadRead(t, device, offset) == t.data
  {
  }

  // ---------- transfer and link ----------

  class Downlink {
    const store: Store
    var waiting: seq<Descriptor>
    var out: seq<HandOver>
    /** What the waiting descriptors, and those gone, were submitted for; and everything
        ever submitted. */
    ghost var marks: seq<Mark>
    ghost var gone: seq<Mark>
    ghost var submitted: multiset<HandOver>

    ghost predicate Valid()
      reads this, store, store.flash, store.stage
    {
      && store.Valid() && store.stage.Length == STAGE && |out| == |gone|
      && AllShow(waiting, marks, store.stage[..])
      && (forall k :: 0 <= k < |out| ==> out[k] == WentAs(gone[k]))
      && Records(marks) + Records(gone) == submitted
    }

    constructor (s: Store)
      requires s.Valid()
      ensures Valid() && store == s && waiting == [] && marks == [] && out == [] && gone == []
    {
      store, waiting, out, marks, gone, submitted := s, [], [], [], [], multiset{};
    }

    /** One turn of the transfer: whatever payload it reads goes into the stage, under the
        descriptors waiting there; a record the queue takes becomes one more of them. */
    method Turn(headerReads: bool, payloadReads: bool, queueTakes: bool)
      requires Valid()
      modifies this`waiting, this`marks, this`submitted, store.stage
      modifies store`active, store`offset, store`transferred, store`readFailures, store`handed, store`past
      ensures Valid()
      ensures store.past == old(store.past).(position := store.past.position)
      ensures old(store.active) && store.past.begun && store.past.intact && old(store.past.position) < |store.past.stored| ==>
        headerReads && payloadReads && queueTakes ==> store.active && store.past.position == old(store.past.position) + 1
      ensures old(store.handed) <= store.handed && |store.handed| <= |old(store.handed)| + 1
      ensures |store.handed| == |old(store.handed)| ==> waiting == old(waiting) && exists d :: marks == Since(old(marks), d)
      ensures |store.handed| > |old(store.handed)| ==>
        var h := store.handed[|old(store.handed)|];
        && waiting == old(waiting) + [Descriptor(h.cls, |h.data|)]
        && marks == Since(old(marks), h.data) + [Mark(h, [])]
        && submitted == old(submitted) + multiset{h}
    {
      hide Orderly, Counted, Wrap, TurnAt, Overlaid, PayloadRead, AllShow, Shows, Since, Records, Store.Valid;
      ghost var device, at, before := store.flash[..], store.offset, store.stage[..];
      ghost var t := TurnAt(device, at, store.used, headerReads, payloadReads);
      ghost var d := if store.active then PayloadRead(t, device, at) else [];
      PayloadFits(device, at, store.used, headerReads, payloadReads);
      HandedIsRead(device, at, store.used, headerReads, payloadReads);
      StillShow(waiting, marks, before, d);
      store.SizesHold();
      RecordsSince(marks, d);
      var n := |store.handed|;
      store.TransferService(headerReads, payloadReads, queueTakes);
      marks := Since(marks, d);
      if |store.handed| > n {
        NewShows(store.handed[n], before);
        Queue(store.handed[n]);
      }
    }

    /** What is queued is where the record is, and how long. */
    method Queue(h: HandOver)
      requires Valid() && Shows(Descriptor(h.cls, |h.data|), Mark(h, []), store.stage[..])
      modifies this`waiting, this`marks, this`submitted
      ensures Valid() && waiting == old(waiting) + [Descriptor(h.cls, |h.data|)] && marks == old(marks) + [Mark(h, [])]
      ensures submitted == old(submitted) + multiset{h}
    {
      hide Front, AllShow, Shows, Records, Store.Valid;
      OneMoreShows(waiting, marks, Descriptor(h.cls, |h.data|), Mark(h, []), store.stage[..]);
      RecordsAdd(marks, Mark(h, []));
      waiting := waiting + [Descriptor(h.cls, |h.data|)];
      marks := marks + [Mark(h, [])];
      submitted := submitted + multiset{h};
    }

    /** A descriptor leaves, with what the stage holds by then. */
    method Send(i: nat)
      requires Valid() && i < |waiting|
      modifies this`waiting, this`marks, this`out, this`gone
      ensures Valid()
      ensures waiting == old(waiting[..i] + waiting[i + 1..]) && marks == old(marks[..i] + marks[i + 1..])
      ensures gone == old(gone) + [old(marks[i])] && out == old(out) + [WentAs(old(marks[i]))]
    {
      hide Orderly, Counted, Wrap, Front, Records, Store.Valid;
      var d, m := waiting[i], marks[i];
      RecordsRemove(marks, i);
      RecordsAdd(gone, m);
      out := out + [HandOver(d.cls, store.stage[..d.len])];
      gone := gone + [m];
      waiting := waiting[..i] + waiting[i + 1..];
      marks := marks[..i] + marks[i + 1..];
    }

    /** What has been sent for a record is that record exactly if every octet of it was last
        left as it was by the payloads read into the stage before its descriptor left. */
    lemma SentIsRecordIff(k: nat)
      requires Valid() && k < |out|
      ensures out[k] == gone[k].record <==> Untouched(gone[k].record.data, gone[k].since)
    {
      hide Store.Valid, AllShow, Records;
      FrontIff(gone[k].record.data, gone[k].since);
    }

    /** A transfer whose queue drains after every turn sends exactly what it hands over. */
    method DrainedTransfer(turns: seq<(bool, bool, bool)>)
      requires Valid() && waiting == [] && store.ready && !store.active
      modifies this, store, store.stage
      ensures Valid() && waiting == [] && store.past.begun
      ensures out == old(out) + store.handed
      ensures store.past.intact ==>
        && HeadersIntact(store.past.image, store.past.sent) && store.past.position <= |store.past.sent|
        && out == old(out) + Outgoing(store.past.image, store.past.sent, store.past.position)
    {
      hide Records, AllShow, WentAs, Orderly, Counted, Wrap;
      var st := store.TransferBegin();
      for n := 0 to |turns|
        invariant Valid() && waiting == [] && store.past.begun
        invariant out == old(out) + store.handed
      {
        Drained(turns[n]);
      }
      if store.past.intact {
        HandedSoFar();
      }
    }

    lemma HandedSoFar()
      requires Valid() && store.past.begun && store.past.intact
      ensures HeadersIntact(store.past.image, store.past.sent) && store.past.position <= |store.past.sent|
      ensures store.handed == Outgoing(store.past.image, store.past.sent, store.past.position)
    {
      hide AllShow, Records, HeadersIntact, Outgoing, UnderWay;
    }

    /** One turn, and the queue drained after it. */
    method Drained(turn: (bool, bool, bool))
      requires Valid() && waiting == []
      modifies this, store, store.stage
      ensures Valid() && waiting == [] && old(store.handed) <= store.handed
      ensures store.past.begun == old(store.past.begun)
      ensures out == old(out) + store.handed[|old(store.handed)|..]
    {
      hide Records, Shows, Orderly, Counted, Wrap, Store.Valid;
      ghost var n := |store.handed|;
      Turn(turn.0, turn.1, turn.2);
      if waiting != [] {
        Send(0);
        assert store.handed[n..] == [store.handed[n]];
      }
    }
  }

  lemma BothAreOffered(a: seq<byte>, b: seq<byte>, image: seq<byte>)
    requires var rs := [Record(0, 0, a), Record(0, 1, b)]; AllLegal(rs) && image == EncodeAll(rs) && |a| <= STAGE && |b| <= STAGE
    ensures var rs := [Record(0, 0, a), Record(0, 1, b)];
      && HeadersIntact(image, rs)
      && Outgoing(image, rs, 1) == [HandOver(1, a)] && Outgoing(image, rs, 2) == [HandOver(1, a), HandOver(1, b)]
  {
    hide Outgoing, HeadersIntact, EncodeAll, AllLegal;
    var rs := [Record(0, 0, a), Record(0, 1, b)];
    AllAreOffered(image, rs, 1);
    AllAreOffered(image, rs, 2);
  }

  lemma NoneSince(d: seq<byte>)
    ensures Since([], d) == []
  {
  }

  lemma OneSince(h: HandOver, d: seq<byte>)
    ensures Since([Mark(h, [])], d) == [Mark(h, [d])]
  {
    var m := Mark(h, []);
    assert m.since + [d] == [d];
  }

  lemma OverlaidWhole(a: seq<byte>, b: seq<byte>)
    requires |a| == |b|
    ensures Front(a, [b]) == b && Front(b, []) == b
  {
    assert b[..|a|] + Front(a, [b][..0])[|a|..] == b;
  }

  /** Two records handed over before the link takes anything. */
  method BothWaiting(device: array<byte>, bytes: u32, a: seq<byte>, b: seq<byte>) returns (d: Downlink)
    requires 0 < |a| == |b| <= STAGE && 2 * (HEADER + |a|) <= bytes <= device.Length < TWO_32
    modifies device
    ensures fresh(d) && d.Valid() && |d.waiting| == 2 && d.out == []
    ensures d.store.handed == [HandOver(1, a), HandOver(1, b)]
    ensures d.marks == [Mark(HandOver(1, a), [b]), Mark(HandOver(1, b), [])]
  {
    hide Orderly, EncodeAll, AllLegal, AllShow, Outgoing, HeadersIntact, Counted, Wrap, Records, Front, Since, Store.Valid;
    var s := TwoStored(device, bytes, a, b);
    BothAreOffered(a, b, s.past.image);
    d := new Downlink(s);
    NoneSince(a);
    OneSince(HandOver(1, a), b);
    d.Turn(true, true, true);
    d.HandedSoFar();
    assert d.marks == [Mark(HandOver(1, a), [])];
    d.Turn(true, true, true);
    d.HandedSoFar();
  }

  /** Two different records of one length, two turns of the transfer before the link takes
      anything: the second record goes out twice, and the first not at all. */
  method SecondGoesOutTwice(device: array<byte>, bytes: u32, a: seq<byte>, b: seq<byte>) returns (d: Downlink)
    requires 0 < |a| == |b| <= STAGE && a != b && 2 * (HEADER + |a|) <= bytes <= device.Length < TWO_32
    modifies device
    ensures fresh(d) && d.Valid() && d.waiting == []
    ensures d.store.handed == [HandOver(1, a), HandOver(1, b)] && d.out == [HandOver(1, b), HandOver(1, b)]
  {
    hide AllShow, Records, Front, Store.Valid;
    d := BothWaiting(device, bytes, a, b);
    OverlaidWhole(a, b);
    d.Send(0);
    d.Send(0);
  }
}
