/** The append-only record store of one run's products, and its transfer to the output
    queue a record at a time. */
module RecordStore {
  import opened Words
  import Crc

  const MAGIC: u32 := 0x514E4452
  const HEADER: nat := 20
  const STAGE: nat := 512
  const KINDS: nat := 3

  datatype Record = Record(kind: nat, sequence: u32, data: seq<byte>)

  /** What a record goes out as: the packet class of its kind, and its bytes. */
  datatype HandOver = HandOver(cls: nat, data: seq<byte>)

  /** class_of: raw, processed and health records by their packet classes. */
  function ClassOf(kind: nat): nat
  {
    if kind == 1 then 2 else if kind == 2 then 3 else 1
  }

  predicate Legal(r: Record)
  {
    r.kind < KINDS && 0 < |r.data| && HEADER + |r.data| < TWO_32
  }

  // ---------- the stored form ----------

  function HeaderOf(kind: nat, sequence: u32, data: seq<byte>): (h: seq<byte>)
    requires kind < KINDS && |data| < TWO_32
    ensures |h| == HEADER
  {
    Put32(MAGIC) + Put32(kind) + Put32(sequence) + Put32(|data|) + Put32(Crc.Checksum(data))
  }

  function Header(r: Record): (h: seq<byte>)
    requires Legal(r)
    ensures |h| == HEADER
  {
    HeaderOf(r.kind, r.sequence, r.data)
  }

  function Encode(r: Record): (s: seq<byte>)
    requires Legal(r)
    ensures |s| == HEADER + |r.data|
  {
    Header(r) + r.data
  }

  lemma Encoded(r: Record)
    requires Legal(r)
    ensures Encode(r) == HeaderOf(r.kind, r.sequence, r.data) + r.data
  {
  }

  ghost predicate AllLegal(rs: seq<Record>)
  {
    forall r :: r in rs ==> Legal(r)
  }

  ghost function EncodeAll(rs: seq<Record>): seq<byte>
    requires AllLegal(rs)
  {
    if rs == [] then [] else Encode(rs[0]) + EncodeAll(rs[1..])
  }

  lemma HeaderFields(r: Record)
    requires Legal(r)
    ensures var h := Header(r);
      && Get32(h, 0) == MAGIC
      && Get32(h, 4) == r.kind
      && Get32(h, 8) == r.sequence
      && Get32(h, 12) == |r.data|
      && Get32(h, 16) == Crc.Checksum(r.data)
  {
    hide Crc.Checksum, Put32, Get32;
    var h := Header(r);
    var c := Crc.Checksum(r.data);
    FiveWords(Put32(MAGIC), Put32(r.kind), Put32(r.sequence), Put32(|r.data|), Put32(c));
    GetAfterPut32(h, 0, MAGIC);
    GetAfterPut32(h, 4, r.kind);
    GetAfterPut32(h, 8, r.sequence);
    GetAfterPut32(h, 12, |r.data|);
    GetAfterPut32(h, 16, c);
  }

  lemma FiveWords(a: seq<byte>, b: seq<byte>, c: seq<byte>, d: seq<byte>, e: seq<byte>)
    requires |a| == |b| == |c| == |d| == |e| == 4
    ensures var h := a + b + c + d + e;
      h[0..4] == a && h[4..8] == b && h[8..12] == c && h[12..16] == d && h[16..20] == e
  {
    var h := a + b + c + d + e;
    assert h[0..4] == a;
    assert h[4..8] == b;
    assert h[8..12] == c;
    assert h[12..16] == d;
    assert h[16..20] == e;
  }

  /** Reads a whole image back, record by record; none if it is not a store. */
  function Decode(image: seq<byte>): Option<seq<Record>>
  {
    if image == [] then Some([])
    else if |image| < HEADER then None
    else
      var kind, sequence, len, sum := Get32(image, 4), Get32(image, 8), Get32(image, 12), Get32(image, 16);
      if Get32(image, 0) != MAGIC || kind >= KINDS || len == 0 || HEADER + len > |image| then None
      else
        var data := image[HEADER..HEADER + len];
        var rest := Decode(image[HEADER + len..]);
        if Crc.Checksum(data) != sum || rest.None? then None
        else Some([Record(kind, sequence, data)] + rest.value)
  }

  lemma GetInPrefix(s: seq<byte>, p: seq<byte>, at: nat)
    requires p <= s && at + 4 <= |p|
    ensures Get32(s, at) == Get32(p, at)
  {
  }

  /** The store's image decodes to exactly the records stored. */
  lemma {:induction false} DecodeEncoded(rs: seq<Record>)
    requires AllLegal(rs)
    ensures Decode(EncodeAll(rs)) == Some(rs)
  {
    hide Crc.Checksum, Get32, Header;
    if rs != [] {
      var r := rs[0];
      var image := EncodeAll(rs);
      DecodeEncoded(rs[1..]);
      HeaderFields(r);
      assert Header(r) <= image;
      GetInPrefix(image, Header(r), 0);
      GetInPrefix(image, Header(r), 4);
      GetInPrefix(image, Header(r), 8);
      GetInPrefix(image, Header(r), 12);
      GetInPrefix(image, Header(r), 16);
      assert image[HEADER..HEADER + |r.data|] == r.data;
      assert image[HEADER + |r.data|..] == EncodeAll(rs[1..]);
      assert [Record(r.kind, r.sequence, r.data)] + rs[1..] == rs;
      assert |image| >= HEADER + |r.data|;
    }
  }

  lemma {:induction false} EncodeAppend(rs: seq<Record>, r: Record)
    requires AllLegal(rs) && Legal(r)
    ensures AllLegal(rs + [r])
    ensures EncodeAll(rs + [r]) == EncodeAll(rs) + Encode(r)
  {
    hide Encode;
    if rs == [] {
      assert rs + [r] == [r] && EncodeAll([r]) == Encode(r) + EncodeAll([]);
    } else {
      assert (rs + [r])[1..] == rs[1..] + [r];
      EncodeAppend(rs[1..], r);
    }
  }

  // ---------- where records start ----------

  ghost function At(rs: seq<Record>, k: nat): nat
    requires AllLegal(rs) && k <= |rs|
  {
    |EncodeAll(rs[..k])|
  }

  lemma AtNext(rs: seq<Record>, k: nat)
    requires AllLegal(rs) && k < |rs|
    ensures At(rs, k + 1) == At(rs, k) + HEADER + |rs[k].data|
  {
    hide Encode;
    assert rs[..k + 1] == rs[..k] + [rs[k]];
    EncodeAppend(rs[..k], rs[k]);
  }

  lemma AtAppended(rs: seq<Record>, r: Record)
    requires AllLegal(rs) && Legal(r)
    ensures AllLegal(rs + [r]) && At(rs + [r], |rs| + 1) == At(rs, |rs|) + HEADER + |r.data|
  {
    hide EncodeAll;
    var all := rs + [r];
    assert all[..|rs|] == rs == rs[..|rs|];
    AtNext(all, |rs|);
  }

  lemma {:induction false} AtMonotone(rs: seq<Record>, j: nat, k: nat)
    requires AllLegal(rs) && j <= k <= |rs|
    ensures At(rs, j) <= At(rs, k)
    ensures j < k ==> At(rs, j) + HEADER <= At(rs, k)
    decreases k
  {
    hide At, AllLegal;
    if j < k {
      AtNext(rs, k - 1);
      AtMonotone(rs, j, k - 1);
    }
  }

  lemma AtEnds(rs: seq<Record>)
    requires AllLegal(rs)
    ensures At(rs, 0) == 0 && At(rs, |rs|) == |EncodeAll(rs)|
  {
    assert rs[..|rs|] == rs;
  }

  /** An image whose headers are those of the records, whatever became of the payloads. */
  ghost predicate HeadersIntact(image: seq<byte>, rs: seq<Record>)
  {
    && AllLegal(rs)
    && |image| == At(rs, |rs|)
    && forall k :: 0 <= k < |rs| ==> HeaderAt(image, rs, k)
  }

  ghost predicate HeaderAt(image: seq<byte>, rs: seq<Record>, k: nat)
    requires AllLegal(rs) && k < |rs|
  {
    At(rs, k) + HEADER <= |image| && image[At(rs, k)..At(rs, k) + HEADER] == Header(rs[k])
  }

  ghost function Payload(image: seq<byte>, rs: seq<Record>, k: nat): seq<byte>
    requires AllLegal(rs) && |image| == At(rs, |rs|) && k < |rs|
  {
    AtNext(rs, k);
    AtMonotone(rs, k + 1, |rs|);
    image[At(rs, k) + HEADER..At(rs, k) + HEADER + |rs[k].data|]
  }

  lemma EncodeFirst(rs: seq<Record>)
    requires AllLegal(rs) && rs != []
    ensures EncodeAll(rs) == Encode(rs[0]) + EncodeAll(rs[1..])
  {
  }

  lemma {:induction false} EncodedSplits(rs: seq<Record>, k: nat)
    requires AllLegal(rs) && k < |rs|
    ensures EncodeAll(rs) == EncodeAll(rs[..k]) + Encode(rs[k]) + EncodeAll(rs[k + 1..])
    decreases k
  {
    hide Encode, EncodeAll;
    EncodeFirst(rs);
    if k == 0 {
      EncodeNone();
      assert rs[..0] == [];
    } else {
      EncodedSplits(rs[1..], k - 1);
      assert rs[1..][..k - 1] == rs[..k][1..] && rs[1..][k..] == rs[k + 1..];
      EncodeFirst(rs[..k]);
    }
  }

  lemma EncodeNone()
    ensures EncodeAll([]) == []
  {
  }

  lemma EncodedAt(rs: seq<Record>, k: nat)
    requires AllLegal(rs) && k < |rs|
    ensures var image := EncodeAll(rs);
      && |image| == At(rs, |rs|)
      && HeaderAt(image, rs, k)
      && Payload(image, rs, k) == rs[k].data
  {
    hide Header, EncodeAll;
    AtEnds(rs);
    EncodedSplits(rs, k);
    var image := EncodeAll(rs);
    var before, after := EncodeAll(rs[..k]), EncodeAll(rs[k + 1..]);
    var a := |before|;
    assert image == before + (Header(rs[k]) + rs[k].data) + after;
    assert image[a..a + HEADER] == Header(rs[k]);
    assert image[a + HEADER..a + HEADER + |rs[k].data|] == rs[k].data;
  }

  /** An undamaged image has its headers and payloads intact. */
  lemma EncodedIsIntact(rs: seq<Record>)
    requires AllLegal(rs)
    ensures HeadersIntact(EncodeAll(rs), rs)
    ensures forall k :: 0 <= k < |rs| ==> Payload(EncodeAll(rs), rs, k) == rs[k].data
  {
    hide HeaderAt, Payload, EncodeAll;
    AtEnds(rs);
    forall k | 0 <= k < |rs|
      ensures HeaderAt(EncodeAll(rs), rs, k) && Payload(EncodeAll(rs), rs, k) == rs[k].data
    {
      EncodedAt(rs, k);
    }
  }

  lemma HeadersAfterAppend(image: seq<byte>, rs: seq<Record>, r: Record)
    requires HeadersIntact(image, rs) && Legal(r)
    ensures HeadersIntact(image + Encode(r), rs + [r])
  {
    hide Header;
    var all := rs + [r];
    EncodeAppend(rs, r);
    assert all[..|rs|] == rs && rs[..|rs|] == rs && all[..|all|] == all;
    forall k | 0 <= k < |all|
      ensures HeaderAt(image + Encode(r), all, k)
    {
      if k < |rs| {
        assert all[..k] == rs[..k] && HeaderAt(image, rs, k);
      }
    }
  }

  // ---------- what a transfer sends ----------

  /** What the k-th record contributes: itself, if it fits the staging buffer and its
      payload still has the stored checksum. */
  ghost function Sent(image: seq<byte>, rs: seq<Record>, k: nat): seq<HandOver>
    requires HeadersIntact(image, rs) && k < |rs|
  {
    var p := Payload(image, rs, k);
    if |rs[k].data| <= STAGE && Crc.Checksum(p) == Crc.Checksum(rs[k].data) then [HandOver(ClassOf(rs[k].kind), p)] else []
  }

  /** What the first k records contribute, in store order. */
  ghost function Outgoing(image: seq<byte>, rs: seq<Record>, k: nat): seq<HandOver>
    requires HeadersIntact(image, rs) && k <= |rs|
  {
    if k == 0 then [] else Outgoing(image, rs, k - 1) + Sent(image, rs, k - 1)
  }

  ghost function IfIntact(image: seq<byte>, rs: seq<Record>, k: nat): seq<HandOver>
    requires HeadersIntact(image, rs) && k < |rs|
  {
    if |rs[k].data| <= STAGE && Payload(image, rs, k) == rs[k].data then [HandOver(ClassOf(rs[k].kind), rs[k].data)] else []
  }

  lemma DamagedIsSkipped(image: seq<byte>, rs: seq<Record>, k: nat)
    requires HeadersIntact(image, rs) && k < |rs|
    requires Payload(image, rs, k) == rs[k].data || Crc.DamagedWithinFour(rs[k].data, Payload(image, rs, k))
    ensures Sent(image, rs, k) == IfIntact(image, rs, k)
  {
    hide Crc.Checksum, Crc.DamagedWithinFour;
    var p := Payload(image, rs, k);
    if p != rs[k].data {
      Crc.FourOctetDamageDetected(rs[k].data, p);
    }
  }

  /** The intact records that fit, among the first k. */
  ghost function IntactOnes(image: seq<byte>, rs: seq<Record>, k: nat): seq<HandOver>
    requires HeadersIntact(image, rs) && k <= |rs|
  {
    if k == 0 then [] else IntactOnes(image, rs, k - 1) + IfIntact(image, rs, k - 1)
  }

  /** Each record exactly once, in order, with its class and bytes, when every damaged
      payload is damaged within four consecutive octets; the damaged ones are passed
      over without disturbing the rest. */
  lemma {:induction false} SendsExactlyTheIntactOnes(image: seq<byte>, rs: seq<Record>, k: nat)
    requires HeadersIntact(image, rs) && k <= |rs|
    requires forall j :: 0 <= j < |rs| ==>
      Payload(image, rs, j) == rs[j].data || Crc.DamagedWithinFour(rs[j].data, Payload(image, rs, j))
    ensures Outgoing(image, rs, k) == IntactOnes(image, rs, k)
  {
    hide Sent, IfIntact, Crc.DamagedWithinFour;
    if k > 0 {
      SendsExactlyTheIntactOnes(image, rs, k - 1);
      DamagedIsSkipped(image, rs, k - 1);
    }
  }

  lemma {:induction false} OutgoingCount(image: seq<byte>, rs: seq<Record>, k: nat)
    requires HeadersIntact(image, rs) && k <= |rs|
    ensures |Outgoing(image, rs, k)| <= k
    ensures |Outgoing(image, rs, k)| == k ==>
      forall j :: 0 <= j < k ==> Sent(image, rs, j) == [Outgoing(image, rs, k)[j]]
  {
    hide Sent, HeadersIntact;
    if k > 0 {
      OutgoingCount(image, rs, k - 1);
      SentAtMostOne(image, rs, k - 1);
    }
  }

  lemma SentAtMostOne(image: seq<byte>, rs: seq<Record>, k: nat)
    requires HeadersIntact(image, rs) && k < |rs|
    ensures |Sent(image, rs, k)| <= 1
  {
  }

  lemma NothingIsIntact()
    ensures HeadersIntact([], []) && Outgoing([], [], 0) == [] && EncodeAll([]) == []
  {
  }

  // ---------- the length check ----------

  /** Whether the transfer takes a length from a header: the sum is made in 32 bits. */
  predicate LengthAccepted(offset: u32, len: u32, used: u32)
  {
    Wrap(offset + HEADER + len) <= used
  }

  /** A length taken out of damaged memory is refused exactly when it does not fit, unless
      the 32-bit sum wraps round into the used part. */
  lemma LengthCheckIsExactIff(offset: u32, len: u32, used: u32)
    ensures (LengthAccepted(offset, len, used) <==> offset + HEADER + len <= used)
       <==> (offset + HEADER + len < TWO_32 || Wrap(offset + HEADER + len) > used)
  {
  }

  /** A length that is taken moves the transfer on exactly if adding header and length to the
      offset does not wrap; the length 2^32 - 20, which makes that sum nothing, leaves it
      where it is. */
  lemma MovesOnIff(offset: u32, len: u32)
    ensures var next := Wrap(offset + HEADER + len);
      && (next > offset <==> len != STANDSTILL && offset + Wrap(HEADER + len) < TWO_32)
      && (next == offset <==> len == STANDSTILL)
  {
  }

  /** The length that takes the transfer nowhere. */
  const STANDSTILL: u32 := 0xFFFF_FFEC

  // ---------- one turn of a transfer ----------

  /** What a turn finds: the end, something it cannot go on from, a record to pass over, or
      a record to offer to the output queue. */
  datatype Turn = Finished | Broke | Passes(len: nat) | Offers(kind: nat, data: seq<byte>)

  /** The turn at an offset of the device, whatever is there; the two flags say whether the
      device reads succeed, which beyond the device they never do. */
  function TurnAt(device: seq<byte>, offset: u32, used: u32, headerReads: bool, payloadReads: bool): Turn
  {
    if offset >= used then Finished
    else if !headerReads || offset + HEADER > |device| then Broke
    else
      var h := device[offset..offset + HEADER];
      var kind, len := Get32(h, 4), Get32(h, 12);
      if Get32(h, 0) != MAGIC || kind >= KINDS || len == 0 || !LengthAccepted(offset, len, used) then Broke
      else if len > STAGE then Passes(len)
      else if !payloadReads || offset + HEADER + len > |device| then Broke
      else
        var data := device[offset + HEADER..offset + HEADER + len];
        if Crc.Checksum(data) != Get32(h, 16) then Passes(len) else Offers(kind, data)
  }

  /** What a turn comes to, on any device content: the end exactly at the end; a record offered
      exactly if a record header is there, the length fits the stage and the check, and the
      payload read has the checksum stored; a record passed over exactly if the header is sound
      and either is not so. Anything else stops the transfer. */
  lemma TurnIff(device: seq<byte>, offset: u32, used: u32, headerReads: bool, payloadReads: bool)
    requires offset + HEADER <= |device|
    ensures var t := TurnAt(device, offset, used, headerReads, payloadReads);
      var len, kind := Get32(device, offset + 12), Get32(device, offset + 4);
      var from := offset + HEADER;
      var found := offset < used && headerReads && HeaderClaims(device, offset, len) && 0 < len && LengthAccepted(offset, len, used);
      var readable := found && len <= STAGE && payloadReads && from + len <= |device|;
      && (t.Finished? <==> offset >= used)
      && (t.Offers? <==> readable && Crc.Checksum(device[from..from + len]) == Get32(device, offset + 16))
      && (t.Offers? ==> t.kind == kind && t.data == device[from..from + len])
      && (t.Passes? <==> found && (len > STAGE || (readable && Crc.Checksum(device[from..from + len]) != Get32(device, offset + 16))))
      && (t.Passes? ==> t.len == len)
  {
    hide Crc.Checksum, LengthAccepted;
    var h := device[offset..offset + HEADER];
    assert Get32(h, 0) == Get32(device, offset) && Get32(h, 4) == Get32(device, offset + 4);
    assert Get32(h, 12) == Get32(device, offset + 12) && Get32(h, 16) == Get32(device, offset + 16);
  }

  /** The payload a turn reads into the stage, if it gets that far. */
  function PayloadRead(t: Turn, device: seq<byte>, offset: nat): (d: seq<byte>)
  {
    match t
    case Offers(kind, data) => data
    case Passes(len) => if len <= STAGE && offset + HEADER + len <= |device| then device[offset + HEADER..offset + HEADER + len] else []
    case _ => []
  }

  /** What a buffer holds after a read into its front. */
  function Overlaid(buffer: seq<byte>, d: seq<byte>): (r: seq<byte>)
    ensures |d| <= |buffer| ==> |r| == |buffer|
  {
    if |d| <= |buffer| then d + buffer[|d|..] else buffer
  }

  /** A transfer under way over intact headers. `image` holds each payload as it was read,
      and from the offset on as it still is; `mem` is the used part now. */
  ghost predicate UnderWay(mem: seq<byte>, image: seq<byte>, rs: seq<Record>, position: nat, offset: nat, handed: seq<HandOver>)
  {
    && HeadersIntact(mem, rs) && HeadersIntact(image, rs)
    && position <= |rs|
    && handed == Outgoing(image, rs, position)
    && offset == At(rs, position) <= |mem| == |image|
    && image[offset..] == mem[offset..]
  }

  lemma PrefixSlice(s: seq<byte>, used: nat, a: nat, b: nat)
    requires a <= b <= used <= |s|
    ensures s[..used][a..b] == s[a..b]
  {
  }

  lemma SuffixSlice(s: seq<byte>, offset: nat, a: nat, b: nat)
    requires a <= b && offset + b <= |s|
    ensures s[offset..][a..b] == s[offset + a..offset + b]
  {
  }

  /** Over intact headers a turn finds the record at its position, if there is one left. */
  lemma TurnUnderWay(device: seq<byte>, used: u32, image: seq<byte>, rs: seq<Record>, position: nat, offset: u32, handed: seq<HandOver>, headerReads: bool, payloadReads: bool)
    requires used <= |device| && UnderWay(device[..used], image, rs, position, offset, handed)
    ensures var t := TurnAt(device, offset, used, headerReads, payloadReads);
      if position == |rs| then t == Finished
      else if !headerReads then t == Broke
      else if |rs[position].data| > STAGE then t == Passes(|rs[position].data|)
      else if !payloadReads then t == Broke
      else if Crc.Checksum(Payload(image, rs, position)) != Crc.Checksum(rs[position].data) then t == Passes(|rs[position].data|)
      else t == Offers(rs[position].kind, Payload(image, rs, position))
  {
    hide Header, Get32, Crc.Checksum, Outgoing, At, EncodeAll, LengthAccepted;
    var mem := device[..used];
    AtEnds(rs);
    IntactLength(mem, rs);
    if position < |rs| {
      AtNext(rs, position);
      AtMonotone(rs, position + 1, |rs|);
      assert HeaderAt(mem, rs, position);
      PrefixSlice(device, used, offset, offset + HEADER);
      assert device[offset..offset + HEADER] == Header(rs[position]);
      assert Legal(rs[position]);
      HeaderFields(rs[position]);
      FittingLengthAccepted(offset, |rs[position].data|, used);
      PayloadIs(image, rs, position);
      var n := HEADER + |rs[position].data|;
      PrefixSlice(device, used, offset + HEADER, offset + n);
      SuffixSlice(mem, offset, HEADER, n);
      SuffixSlice(image, offset, HEADER, n);
    }
  }

  lemma FittingLengthAccepted(offset: u32, len: u32, used: u32)
    requires offset + HEADER + len <= used
    ensures LengthAccepted(offset, len, used)
  {
    WrapSmall(offset + HEADER + len);
  }

  /** Dealing with the record at the position keeps the transfer under way. */
  lemma NextUnderWay(mem: seq<byte>, image: seq<byte>, rs: seq<Record>, position: nat, offset: nat, handed: seq<HandOver>)
    requires UnderWay(mem, image, rs, position, offset, handed) && position < |rs|
    ensures UnderWay(mem, image, rs, position + 1, offset + HEADER + |rs[position].data|, handed + Sent(image, rs, position))
    ensures offset + HEADER + |rs[position].data| <= |mem|
  {
    hide HeadersIntact, Sent, At;
    IntactLength(mem, rs);
    IntactLegal(mem, rs);
    AtNext(rs, position);
    AtMonotone(rs, position + 1, |rs|);
    var next := offset + HEADER + |rs[position].data|;
    assert image[next..] == image[offset..][next - offset..] && mem[next..] == mem[offset..][next - offset..];
  }

  lemma {:induction false} OutgoingFrame(image: seq<byte>, other: seq<byte>, rs: seq<Record>, k: nat)
    requires HeadersIntact(image, rs) && HeadersIntact(other, rs) && k <= |rs|
    requires At(rs, k) <= |image| && image[..At(rs, k)] == other[..At(rs, k)]
    ensures Outgoing(other, rs, k) == Outgoing(image, rs, k)
  {
    hide HeadersIntact, At, AllLegal, Crc.Checksum;
    if k > 0 {
      IntactLength(image, rs);
      IntactLength(other, rs);
      IntactLegal(image, rs);
      AtNext(rs, k - 1);
      PayloadIs(image, rs, k - 1);
      PayloadIs(other, rs, k - 1);
      var a, b := At(rs, k - 1), At(rs, k);
      assert image[..a] == image[..b][..a] && other[..a] == other[..b][..a];
      assert image[a + HEADER..b] == image[..b][a + HEADER..b] && other[a + HEADER..b] == other[..b][a + HEADER..b];
      OutgoingFrame(image, other, rs, k - 1);
    }
  }

  /** A payload octet changing keeps a transfer under way: what has been read stays as it
      was read, what is still to be read has changed. */
  lemma DecayUnderWay(mem: seq<byte>, image: seq<byte>, rs: seq<Record>, position: nat, offset: nat, handed: seq<HandOver>, k: nat, index: nat, value: byte)
    requires UnderWay(mem, image, rs, position, offset, handed) && k < |rs|
    requires At(rs, k) + HEADER <= index < At(rs, k + 1) <= |mem|
    ensures UnderWay(mem[index := value], if index >= offset then image[index := value] else image, rs, position, offset, handed)
  {
    hide HeadersIntact, Outgoing, At;
    HeadersAfterDecay(mem, rs, k, index, value);
    var now := mem[index := value];
    if index >= offset {
      HeadersAfterDecay(image, rs, k, index, value);
      OutgoingFrame(image, image[index := value], rs, position);
      assert image[index := value][offset..] == image[offset..][index - offset := value];
      assert now[offset..] == mem[offset..][index - offset := value];
    } else {
      assert now[offset..] == mem[offset..];
    }
  }

  /** The history of a store: the records the used part was written with, and whether its
      headers still are; the transfer count when it was last emptied by an attach or a clear,
      and whether a transfer has begun since; for that transfer its records, their payloads as
      read, and how many records it has dealt with. */
  datatype Past = Past(
    stored: seq<Record>,
    intact: bool,
    countWhenEmptied: u32,
    begun: bool,
    sent: seq<Record>,
    image: seq<byte>,
    position: nat)

  function EmptiedWith(count: u32): Past
  {
    Past([], true, count, false, [], [], 0)
  }

  /** What a device write does: all of it, if it fits the device, or an error after leaving
      anything behind in the region it was writing. */
  datatype Write = Write(succeeds: bool, left: seq<byte>)

  const WRITTEN: Write := Write(true, [])

  lemma SameFields(device: seq<byte>, at: nat, h: seq<byte>)
    requires at + HEADER <= |device| && |h| == HEADER && device[at..at + HEADER] == h
    ensures Get32(device, at) == Get32(h, 0) && Get32(device, at + 4) == Get32(h, 4)
  {
    assert forall i :: 0 <= i < HEADER ==> h[i] == device[at + i];
  }

  /** What the transfer count counts. */
  ghost predicate Counted(past: Past, used: nat, active: bool, transferred: u32, handed: seq<HandOver>)
  {
    if past.begun then transferred == Wrap(|handed|)
    else transferred == past.countWhenEmptied && handed == [] && (active ==> used == 0)
  }

  /** What holds of the used part and of a transfer as long as every header is as it was
      written. */
  ghost predicate Orderly(mem: seq<byte>, past: Past, active: bool, offset: nat, handed: seq<HandOver>)
  {
    && HeadersIntact(mem, past.stored)
    && (past.begun ==>
          && past.sent <= past.stored && HeadersIntact(past.image, past.sent) && past.position <= |past.sent|
          && handed == Outgoing(past.image, past.sent, past.position))
    && (past.begun && active ==> past.sent == past.stored && UnderWay(mem, past.image, past.sent, past.position, offset, handed))
  }

  lemma EmptiedIsOrderly(count: u32, active: bool, offset: nat)
    ensures Orderly([], EmptiedWith(count), active, offset, [])
    ensures AllLegal([]) && At([], 0) == 0 && EncodeAll([]) == []
  {
    NothingIsIntact();
    NothingStored();
  }

  lemma EndedIsOrderly(mem: seq<byte>, past: Past, active: bool, offset: nat, handed: seq<HandOver>)
    requires Orderly(mem, past, active, offset, handed)
    ensures Orderly(mem, past, false, offset, handed)
  {
    hide HeadersIntact, Outgoing, UnderWay;
  }

  lemma AppendedIsOrderly(mem: seq<byte>, past: Past, offset: nat, handed: seq<HandOver>, r: Record)
    requires Orderly(mem, past, false, offset, handed) && Legal(r)
    ensures Orderly(mem + Encode(r), past.(stored := past.stored + [r]), false, offset, handed)
  {
    hide HeadersIntact, Outgoing, UnderWay, Encode;
    HeadersAfterAppend(mem, past.stored, r);
  }

  lemma AppendedIsCounted(past: Past, used: nat, transferred: u32, handed: seq<HandOver>, r: Record)
    requires Counted(past, used, false, transferred, handed)
    ensures forall more: nat {:trigger Counted(past.(stored := past.stored + [r]), more, false, transferred, handed)} ::
      Counted(past.(stored := past.stored + [r]), more, false, transferred, handed)
  {
    hide Wrap;
  }

  lemma BegunIsOrderly(mem: seq<byte>, past: Past, active: bool, offset: nat, handed: seq<HandOver>)
    requires Orderly(mem, past, active, offset, handed)
    ensures Orderly(mem, past.(position := 0, image := mem, sent := past.stored, begun := true), true, 0, [])
  {
    hide HeadersIntact, Outgoing, At;
    IntactLegal(mem, past.stored);
    IntactLength(mem, past.stored);
    AtEnds(past.stored);
    OutgoingStarts(mem, past.stored);
  }

  lemma DecayedIsOrderly(mem: seq<byte>, past: Past, active: bool, offset: nat, handed: seq<HandOver>, k: nat, index: nat, value: byte)
    requires Orderly(mem, past, active, offset, handed) && k < |past.stored|
    requires At(past.stored, k) + HEADER <= index < At(past.stored, k + 1) <= |mem|
    ensures past.begun && active && index >= offset ==> index < |past.image|
    ensures Orderly(mem[index := value],
      if past.begun && active && index >= offset then past.(image := past.image[index := value]) else past, active, offset, handed)
  {
    hide HeadersIntact, Outgoing, At;
    HeadersAfterDecay(mem, past.stored, k, index, value);
    if past.begun && active {
      DecayUnderWay(mem, past.image, past.sent, past.position, offset, handed, k, index, value);
    }
  }

  lemma TurnedIsOrderly(mem: seq<byte>, past: Past, offset: nat, handed: seq<HandOver>)
    requires Orderly(mem, past, true, offset, handed) && past.begun && past.position < |past.sent|
    ensures offset + HEADER + |past.sent[past.position].data| <= |mem|
    ensures Orderly(mem, past.(position := past.position + 1), true, offset + HEADER + |past.sent[past.position].data|,
      handed + Sent(past.image, past.sent, past.position))
  {
    hide HeadersIntact, Outgoing, At, Sent;
    NextUnderWay(mem, past.image, past.sent, past.position, offset, handed);
  }

  class Store {
    const flash: array<byte>
    const stage: array<byte>
    var capacity: u32
    var ready: bool
    var used: u32
    var records: u32
    var sequence: u32
    var active: bool
    var offset: u32
    var transferred: u32
    var writeFailures: u32
    var readFailures: u32
    /** What the output queue has accepted since the last transfer began, or since the store
        was emptied by an attach or a clear. */
    var handed: seq<HandOver>

    ghost var past: Past

    ghost predicate Sized()
      reads this
    {
      && stage.Length == STAGE && stage != flash
      && used <= capacity <= flash.Length < TWO_32
      && AllLegal(past.stored) && used == At(past.stored, |past.stored|) && records == |past.stored|
      && (active ==> ready)
    }

    ghost predicate Valid()
      reads this, flash
    {
      Sized() && Counted(past, used, active, transferred, handed) && (past.intact ==> Orderly(flash[..used], past, active, offset, handed))
    }

    /** The used part is what was written, undamaged. */
    ghost predicate Undamaged()
      reads this, flash
      requires used <= flash.Length && AllLegal(past.stored)
    {
      flash[..used] == EncodeAll(past.stored)
    }

    constructor (device: array<byte>)
      requires device.Length < TWO_32
      ensures Valid() && flash == device && fresh(stage)
      ensures !ready && !active && past == EmptiedWith(0) && handed == [] && transferred == 0
      ensures sequence == 0
    {
      hide AllLegal, At, Orderly;
      flash := device;
      stage := new byte[STAGE](i => 0);
      capacity, ready, used, records, sequence := 0, false, 0, 0, 0;
      active, offset, transferred, writeFailures, readFailures := false, 0, 0, 0, 0;
      handed, past := [], EmptiedWith(0);
      new;
      EmptiedIsOrderly(0, false, 0);
      assert flash[..0] == [];
    }

    /** storage_nand_init, and what storage_nand_set_ops does with no operations. */
    method Init()
      requires Valid()
      modifies this
      ensures Valid() && !ready && !active && used == capacity == 0 && sequence == 0
      ensures offset == writeFailures == readFailures == 0
      ensures past == EmptiedWith(0) && handed == [] && transferred == 0
    {
      hide AllLegal, At, EncodeAll, Orderly, Wrap, Counted, EmptiedWith;
      active, ready := false, false;
      Empty();
      capacity, sequence, writeFailures, readFailures := 0, 0, 0, 0;
    }

    /** storage_nand_set_ops, at any time: without usable operations nothing changes; with
        them the transfer count, and a transfer under way, are left as they were. */
    method Attach(usable: bool, bytes: u32) returns (st: Status)
      requires Valid() && bytes <= flash.Length
      modifies this`capacity, this`ready, this`used, this`records, this`handed, this`past
      ensures Valid()
      ensures st == if usable && bytes > 0 then Ok else ErrParam
      ensures st != Ok ==> ready == old(ready) && capacity == old(capacity) && used == old(used) && past == old(past) && handed == old(handed)
      ensures st == Ok ==> ready && capacity == bytes && used == 0
      ensures st == Ok ==> past == EmptiedWith(transferred) && handed == [] && Undamaged()
    {
      hide AllLegal, At, EncodeAll, Orderly, Wrap;
      if !usable || bytes == 0 {
        return ErrParam;
      }
      EmptiedIsOrderly(transferred, active, offset);
      assert flash[..0] == [];
      capacity := bytes;
      ready := true;
      used := 0;
      records := 0;
      handed, past := [], EmptiedWith(transferred);
      return Ok;
    }

    /** A write within the device does as `w` says; one beyond its end fails. */
    method DeviceWrite(at: nat, src: seq<byte>, w: Write) returns (st: Status)
      requires at <= flash.Length
      modifies flash
      ensures st == if w.succeeds && at + |src| <= flash.Length then Ok else ErrHardware
      ensures flash[..at] == old(flash[..at])
      ensures st == Ok ==> flash[..at + |src|] == old(flash[..at]) + src
      ensures at + |src| <= flash.Length ==> flash[at + |src|..] == old(flash[at + |src|..])
    {
      st := if w.succeeds && at + |src| <= flash.Length then Ok else ErrHardware;
      var now := if st == Ok then src else w.left;
      forall i | 0 <= i < |now| && i < |src| && at + i < flash.Length {
        flash[at + i] := now[i];
      }
    }

    /** The two device writes of a store, after the used part; they fit whenever both succeed. */
    method WriteRecord(kind: nat, data: seq<byte>, header: Write, payload: Write) returns (st: Status)
      requires kind < KINDS && |data| < TWO_32 && used <= flash.Length
      modifies flash, this`writeFailures
      ensures st == if header.succeeds && payload.succeeds && used + HEADER + |data| <= flash.Length then Ok else ErrHardware
      ensures flash[..used] == old(flash[..used])
      ensures writeFailures == if st == ErrHardware then Wrap(old(writeFailures) + 1) else old(writeFailures)
      ensures st == Ok ==> flash[..used + HEADER + |data|] == old(flash[..used]) + HeaderOf(kind, sequence, data) + data
    {
      hide HeaderOf, Crc.Checksum;
      st := DeviceWrite(used, HeaderOf(kind, sequence, data), header);
      if st != Ok {
        writeFailures := Wrap(writeFailures + 1);
        return ErrHardware;
      }
      ghost var first := flash[..used + HEADER];
      st := DeviceWrite(used + HEADER, data, payload);
      assert flash[..used] == flash[..used + HEADER][..used] == first[..used];
      if st != Ok {
        writeFailures := Wrap(writeFailures + 1);
        return ErrHardware;
      }
    }

    /** storage_nand_store; `header` and `payload` say what the device does with the writes. */
    method Put(kind: nat, data: seq<byte>, header: Write, payload: Write) returns (st: Status)
      requires Valid() && |data| < TWO_32
      modifies this`used, this`records, this`sequence, this`writeFailures, flash, this`past
      ensures Valid()
      ensures st ==
        if kind >= KINDS || data == [] then ErrParam
        else if !ready then ErrUnsupported
        else if active then ErrBusy
        else if capacity - old(used) < Wrap(HEADER + |data|) then ErrRange
        else if !header.succeeds || !payload.succeeds || HEADER + |data| >= TWO_32 then ErrHardware
        else Ok
      ensures past == if st == Ok then old(past).(stored := old(past.stored) + [Record(kind, old(sequence), data)]) else old(past)
      ensures old(Undamaged()) ==> Undamaged()
      ensures st != Ok && st != ErrHardware ==> flash[..] == old(flash[..])
      ensures sequence == if st == Ok then Wrap(old(sequence) + 1) else old(sequence)
      ensures writeFailures == if st == ErrHardware then Wrap(old(writeFailures) + 1) else old(writeFailures)
    {
      hide Encode, HeaderOf, EncodeAll, AllLegal, At, Orderly, Counted, Wrap;
      if kind >= KINDS || data == [] {
        return ErrParam;
      }
      if !ready {
        return ErrUnsupported;
      }
      if active {
        return ErrBusy;
      }
      if capacity - used < Wrap(HEADER + |data|) {
        return ErrRange;
      }
      FitsDeviceIff(data);
      ghost var before := flash[..used];
      st := WriteRecord(kind, data, header, payload);
      if st == Ok {
        var r := Record(kind, sequence, data);
        Encoded(r);
        assert before + Encode(r) == before + HeaderOf(kind, sequence, data) + data;
        Book(r, before);
      }
    }

    /** A record that passes the capacity check fits the device exactly if its length with
        the header does not wrap 32 bits; if it fits, it fits the capacity too. */
    lemma FitsDeviceIff(data: seq<byte>)
      requires Sized() && capacity - used >= Wrap(HEADER + |data|)
      ensures used + HEADER + |data| <= flash.Length <==> HEADER + |data| < TWO_32
      ensures HEADER + |data| < TWO_32 ==> used + HEADER + |data| <= capacity
    {
      hide Wrap;
      if HEADER + |data| < TWO_32 {
        WrapSmall(HEADER + |data|);
      }
    }

    /** The record just written becomes part of the store. */
    method Book(r: Record, ghost before: seq<byte>)
      requires Legal(r) && Sized() && !active && used + HEADER + |r.data| <= capacity
      requires Counted(past, used, active, transferred, handed) && (past.intact ==> Orderly(before, past, active, offset, handed))
      requires |before| == used && flash[..used + HEADER + |r.data|] == before + Encode(r)
      modifies this`used, this`records, this`sequence, this`past
      ensures Valid() && past == old(past).(stored := old(past.stored) + [r]) && sequence == Wrap(old(sequence) + 1)
      ensures before == EncodeAll(old(past.stored)) ==> Undamaged()
    {
      hide Encode, EncodeAll, AllLegal, At, Orderly, Counted;
      if past.intact {
        AppendedIsOrderly(before, past, offset, handed, r);
      }
      AppendedIsCounted(past, used, transferred, handed, r);
      AtAppended(past.stored, r);
      EncodeAppend(past.stored, r);
      used := used + HEADER + |r.data|;
      CountBelowAt(past.stored + [r], |past.stored| + 1);
      records := Wrap(records + 1);
      sequence := Wrap(sequence + 1);
      past := past.(stored := past.stored + [r]);
    }

    /** An octet of the k-th payload decays, before, during or after a transfer. */
    method Decay(index: nat, value: byte, ghost k: nat)
      requires Valid() && past.intact && k < |past.stored|
      requires At(past.stored, k) + HEADER <= index < At(past.stored, k + 1)
      modifies flash, this`past
      ensures Valid() && index < used
      ensures flash[..used] == old(flash[..used])[index := value]
      ensures past == (if past.begun && active && index >= offset then old(past).(image := past.image) else old(past))
    {
      hide At, AllLegal, Orderly, Wrap;
      AtMonotone(past.stored, k + 1, |past.stored|);
      ghost var mem := flash[..used];
      DecayedIsOrderly(mem, past, active, offset, handed, k, index, value);
      if past.begun && active && index >= offset {
        past := past.(image := past.image[index := value]);
      }
      flash[index] := value;
      assert flash[..used] == mem[index := value];
    }

    /** An octet anywhere on the device changes: nothing is claimed of the headers after. */
    method Corrupt(index: nat, value: byte)
      requires Valid() && index < flash.Length
      modifies flash, this`past
      ensures Valid() && past == old(past).(intact := false)
      ensures flash[..] == old(flash[..])[index := value]
    {
      flash[index] := value;
      past := past.(intact := false);
    }

    /** storage_nand_transfer_begin. */
    method TransferBegin() returns (st: Status)
      requires Valid()
      modifies this`offset, this`transferred, this`active, this`handed, this`past
      ensures Valid()
      ensures st == if !ready then ErrUnsupported else if old(active) then ErrBusy else Ok
      ensures st == Ok ==> active && offset == 0 && transferred == 0 && handed == []
      ensures past == if st == Ok then old(past).(position := 0, image := flash[..used], sent := old(past.stored), begun := true) else old(past)
      ensures st != Ok ==> active == old(active) && handed == old(handed) && offset == old(offset) && transferred == old(transferred)
    {
      hide At, AllLegal, Orderly;
      st := if !ready then ErrUnsupported else if active then ErrBusy else Ok;
      if st == Ok {
        if past.intact {
          BegunIsOrderly(flash[..used], past, active, offset, handed);
        }
        WrapSmall(0);
        offset := 0;
        transferred := 0;
        active := true;
        handed, past := [], past.(position := 0, image := flash[..used], sent := past.stored, begun := true);
      }
    }

    /** How a turn leaves the transfer. */
    ghost predicate Turned(t: Turn, queueTakes: bool, offset0: u32, transferred0: u32, handed0: seq<HandOver>, past0: Past)
      reads this
    {
      match t
      case Finished => !active && offset == offset0 && transferred == transferred0 && handed == handed0 && past == past0
      case Broke => !active && offset == offset0 && transferred == transferred0 && handed == handed0 && past == past0
      case Passes(len) =>
        active && offset == Wrap(offset0 + HEADER + len) && transferred == transferred0 && handed == handed0 && past == past0.(position := past0.position + 1)
      case Offers(kind, data) =>
        && active
        && (if queueTakes then
              && offset == Wrap(offset0 + HEADER + |data|) && transferred == Wrap(transferred0 + 1)
              && handed == handed0 + [HandOver(ClassOf(kind), data)] && past == past0.(position := past0.position + 1)
            else offset == offset0 && transferred == transferred0 && handed == handed0 && past == past0)
    }

    /** Over intact headers, a turn that finds a record finds the one at the position. */
    lemma FindsItsRecord(headerReads: bool, payloadReads: bool)
      requires Valid() && active && past.begun && past.intact
      ensures past.sent == past.stored && HeadersIntact(past.image, past.sent) && past.position <= |past.sent|
      ensures var t := TurnAt(flash[..], offset, used, headerReads, payloadReads);
        && (t.Passes? ==> past.position < |past.sent| && t.len == |past.sent[past.position].data| && Sent(past.image, past.sent, past.position) == [])
        && (t.Offers? ==> past.position < |past.sent| && |t.data| == |past.sent[past.position].data| && Sent(past.image, past.sent, past.position) == [HandOver(ClassOf(t.kind), t.data)])
        && (past.position == |past.stored| ==> t == Finished)
        && (past.position < |past.stored| ==>
              if !headerReads then t == Broke
              else if |past.stored[past.position].data| > STAGE then t.Passes?
              else if !payloadReads then t == Broke
              else if Crc.Checksum(Payload(past.image, past.stored, past.position)) != Crc.Checksum(past.stored[past.position].data) then t.Passes?
              else t.Offers?)
    {
      hide TurnAt, Outgoing, At, EncodeAll, Crc.Checksum;
      assert flash[..][..used] == flash[..used];
      if past.position < |past.sent| {
        PayloadIs(past.image, past.sent, past.position);
      }
      TurnUnderWay(flash[..], used, past.image, past.sent, past.position, offset, handed, headerReads, payloadReads);
    }

    /** Moves past a record, one that was not handed over. */
    method Skip(len: u32)
      requires Valid() && active && past.begun
      requires past.intact ==> past.position < |past.sent| && len == |past.sent[past.position].data| && Sent(past.image, past.sent, past.position) == []
      modifies this`offset, this`readFailures, this`past
      ensures Valid() && offset == Wrap(old(offset) + HEADER + len) && past == old(past).(position := old(past.position) + 1)
      ensures past.intact ==> old(offset) < offset <= used
      ensures readFailures == Wrap(old(readFailures) + 1)
    {
      hide HeadersIntact, At, AllLegal, Sent, Outgoing, Wrap, Orderly;
      if past.intact {
        TurnedIsOrderly(flash[..used], past, offset, handed);
        WrapSmall(offset + HEADER + len);
        assert handed + [] == handed;
      }
      readFailures := Wrap(readFailures + 1);
      offset := Wrap(offset + HEADER + len);
      past := past.(position := past.position + 1);
    }

    /** Counts a record the queue took as handed over, and moves past it. */
    method Accept(kind: nat, data: seq<byte>, len: u32)
      requires Valid() && active && past.begun
      requires past.intact ==> past.position < |past.sent| && len == |past.sent[past.position].data| && Sent(past.image, past.sent, past.position) == [HandOver(ClassOf(kind), data)]
      modifies this`offset, this`handed, this`transferred, this`past
      ensures Valid() && offset == Wrap(old(offset) + HEADER + len) && past == old(past).(position := old(past.position) + 1)
      ensures handed == old(handed) + [HandOver(ClassOf(kind), data)] && transferred == Wrap(old(transferred) + 1)
      ensures past.intact ==> old(offset) < offset <= used
    {
      hide HeadersIntact, At, AllLegal, Sent, Outgoing, Wrap, Orderly;
      if past.intact {
        TurnedIsOrderly(flash[..used], past, offset, handed);
        WrapSmall(offset + HEADER + len);
      }
      WrapAdd(|handed|, 1);
      handed := handed + [HandOver(ClassOf(kind), data)];
      offset := Wrap(offset + HEADER + len);
      transferred := Wrap(transferred + 1);
      past := past.(position := past.position + 1);
    }

    lemma UndamagedIs(r: Record)
      requires Valid() && Undamaged() && past.intact && past.stored == [r]
      ensures Legal(r) && AllLegal([r]) && flash[..used] == EncodeAll([r])
    {
      assert r in past.stored;
    }

    lemma StoredLegal()
      requires Valid()
      ensures AllLegal(past.stored)
    {
    }

    lemma OneFits(data: seq<byte>)
      requires Valid() && |past.stored| == 1 && past.stored[0].data == data
      ensures used == HEADER + |data|
    {
      hide EncodeAll;
      AtNext(past.stored, 0);
      AtEnds(past.stored);
    }

    lemma HeaderHere()
      requires Valid() && active && past.begun && past.intact && past.position < |past.stored|
      ensures offset + HEADER <= used <= flash.Length
      ensures Get32(flash[..], offset) == MAGIC && Get32(flash[..], offset + 4) < KINDS
    {
      hide Get32, Outgoing, At, EncodeAll, Header;
      var k := past.position;
      assert HeaderAt(flash[..used], past.stored, k);
      assert past.stored[k] in past.stored;
      HeaderFields(past.stored[k]);
      AtNext(past.stored, k);
      AtMonotone(past.stored, k + 1, |past.stored|);
      assert flash[..used][offset..offset + HEADER] == flash[..][offset..offset + HEADER];
      SameFields(flash[..], offset, Header(past.stored[k]));
    }

    lemma SecondIsLater()
      requires Valid() && active && past.begun && past.intact && past.position == 1 < |past.stored|
      ensures 0 < offset < used
    {
      hide Outgoing, EncodeAll, Header;
      AtNext(past.stored, 0);
      AtMonotone(past.stored, 1, |past.stored|);
    }

    lemma CountsItsRecord()
      requires Valid() && past.intact && past.begun && active && past.position == |past.sent| == 1
      requires HeadersIntact(past.image, past.sent) && |Outgoing(past.image, past.sent, 1)| == 1
      ensures transferred == 1
    {
      hide Outgoing, HeadersIntact, Wrap, UnderWay;
      WrapSmall(1);
    }

    /** What the header and payload at the transfer's offset come to. */
    method Inspect(payloadReads: bool) returns (t: Turn)
      requires stage.Length == STAGE && stage != flash && offset < used && offset + HEADER <= flash.Length
      modifies stage
      ensures t == TurnAt(flash[..], offset, used, true, payloadReads)
      ensures stage[..] == Overlaid(old(stage[..]), PayloadRead(t, flash[..], offset))
    {
      hide Get32, Crc.Checksum, LengthAccepted, Overlaid;
      NothingOverlaid(stage[..]);
      var header := flash[offset..offset + HEADER];
      assert header == flash[..][offset..offset + HEADER];
      var magic, kind, len, sum := Get32(header, 0), Get32(header, 4), Get32(header, 12), Get32(header, 16);
      if magic != MAGIC || kind >= KINDS || len == 0 || !LengthAccepted(offset, len, used) {
        return Broke;
      }
      if len > STAGE {
        return Passes(len);
      }
      if !payloadReads || offset + HEADER + len > flash.Length {
        return Broke;
      }
      var data := Stage(offset + HEADER, len);
      assert data == flash[..][offset + HEADER..offset + HEADER + len];
      var now := Crc.Crc32(data);
      t := if now != sum then Passes(len) else Offers(kind, data);
    }

    lemma TurnsFit(payloadReads: bool)
      requires used <= flash.Length && offset < used
      ensures var t := TurnAt(flash[..], offset, used, true, payloadReads);
        && (t.Passes? ==> t.len < TWO_32) && (t.Offers? ==> |t.data| <= STAGE) && t != Finished
    {
      hide Get32, Crc.Checksum, LengthAccepted;
    }

    /** One turn that gets as far as a header. */
    method TakeTurn(payloadReads: bool, queueTakes: bool)
      requires Valid() && active && past.begun && offset < used && offset + HEADER <= flash.Length
      modifies this`active, this`offset, this`transferred, this`readFailures, this`handed, stage, this`past
      ensures Valid()
      ensures Turned(TurnAt(flash[..], old(offset), used, true, payloadReads), queueTakes, old(offset), old(transferred), old(handed), old(past))
      ensures past.intact && past.position > old(past.position) ==> old(offset) < offset <= used
      ensures readFailures == if TurnAt(flash[..], old(offset), used, true, payloadReads).Offers? then old(readFailures) else Wrap(old(readFailures) + 1)
      ensures stage[..] == Overlaid(old(stage[..]), PayloadRead(TurnAt(flash[..], old(offset), used, true, payloadReads), flash[..], old(offset)))
    {
      hide TurnAt, Wrap, Orderly, Sized, Counted, Sent, Payload, Crc.Checksum, Overlaid, PayloadRead;
      SizesHold();
      if past.intact {
        FindsItsRecord(true, payloadReads);
      }
      TurnsFit(payloadReads);
      var t := Inspect(payloadReads);
      match t {
        case Finished =>
        case Broke => Stop();
        case Passes(len) => Skip(len);
        case Offers(kind, data) =>
          if queueTakes {
            Accept(kind, data, |data|);
          }
      }
    }

    lemma SizesHold()
      requires Valid()
      ensures stage.Length == STAGE && stage != flash && used <= flash.Length
      ensures active ==> ready
      ensures active && !past.begun ==> used == 0
    {
    }

    /** A read failed, or what was read is no record: the transfer ends here. */
    method Stop()
      requires Valid()
      modifies this`active, this`readFailures
      ensures Valid() && !active && readFailures == Wrap(old(readFailures) + 1)
    {
      hide At, AllLegal, Orderly, Wrap;
      if past.intact {
        EndedIsOrderly(flash[..used], past, active, offset, handed);
      }
      readFailures := Wrap(readFailures + 1);
      active := false;
    }

    /** storage_nand_transfer_service, on whatever the device holds: one turn a call.
        `headerReads` and `payloadReads` say whether the device reads succeed, `queueTakes`
        whether the output queue has room. Over intact headers a turn advances exactly past
        the record at its position. */
    method TransferService(headerReads: bool, payloadReads: bool, queueTakes: bool)
      requires Valid()
      modifies this`active, this`offset, this`transferred, this`readFailures, this`handed, stage, this`past
      ensures Valid()
      ensures !old(active) ==> !active && offset == old(offset) && transferred == old(transferred) && handed == old(handed) && past == old(past)
      ensures old(active) ==>
        Turned(TurnAt(flash[..], old(offset), used, headerReads, payloadReads), queueTakes, old(offset), old(transferred), old(handed), old(past))
      ensures old(active) && past.begun && past.intact ==>
        var k := old(past.position);
        var here := k < |past.stored|;
        var long := here && |past.stored[k].data| > STAGE;
        var damaged := here && Crc.Checksum(Payload(past.image, past.sent, k)) != Crc.Checksum(past.stored[k].data);
        && past.position == (if here && headerReads && (long || (payloadReads && (damaged || queueTakes))) then k + 1 else k)
        && active == (here && headerReads && (long || payloadReads))
      ensures old(active) && past.begun && past.intact && past.position > old(past.position) ==> 0 <= used - offset < old(used - offset)
      ensures old(active) ==> var t := TurnAt(flash[..], old(offset), used, headerReads, payloadReads);
        readFailures == if t.Broke? || t.Passes? then Wrap(old(readFailures) + 1) else old(readFailures)
      ensures stage[..] == Overlaid(old(stage[..]),
        if old(active) then PayloadRead(TurnAt(flash[..], old(offset), used, headerReads, payloadReads), flash[..], old(offset)) else [])
    {
      hide Get32, Crc.Checksum, Wrap, LengthAccepted, Orderly, Sized, Counted, Sent, Payload, Overlaid;
      NothingOverlaid(stage[..]);
      SizesHold();
      if !active {
        return;
      }
      if past.begun && past.intact {
        FindsItsRecord(headerReads, payloadReads);
      }
      if offset >= used {
        Finish();
        return;
      }
      if !headerReads || offset + HEADER > flash.Length {
        Stop();
        return;
      }
      TakeTurn(payloadReads, queueTakes);
    }

    method Finish()
      requires Valid()
      modifies this`active
      ensures Valid() && !active
    {
      hide At, AllLegal, Orderly, Wrap;
      if past.intact {
        EndedIsOrderly(flash[..used], past, active, offset, handed);
      }
      active := false;
    }

    method Stage(at: nat, len: nat) returns (data: seq<byte>)
      requires stage.Length == STAGE && stage != flash && len <= STAGE && at + len <= flash.Length
      modifies stage
      ensures data == flash[at..at + len]
      ensures stage[..] == Overlaid(old(stage[..]), data)
    {
      forall i | 0 <= i < len {
        stage[i] := flash[at + i];
      }
      data := stage[..len];
    }

    /** storage_nand_clear; `erases` says whether the device reports success, `left` what it
        leaves in the used part either way. Over intact headers, what it erases had all been handed over since
        the store was last emptied, exactly if a transfer has begun since; if none has, it
        erases only when the count left from before happens to be the number of records. */
    method Clear(erases: bool, left: seq<byte>) returns (st: Status)
      requires Valid() && |left| == used
      modifies this`used, this`records, this`transferred, this`offset, this`writeFailures, flash
      modifies this`handed, this`past
      ensures Valid()
      ensures st ==
        if !ready then ErrUnsupported
        else if active then ErrBusy
        else if old(records) != 0 && old(transferred) != old(records) then ErrState
        else if !erases then ErrHardware else Ok
      ensures st == Ok && old(past.intact) && old(past.stored) != [] ==> (Complete(old(handed), old(past.image), old(past.stored)) <==> old(past.begun))
      ensures st == Ok && !old(past.begun) ==> old(handed) == [] && |old(past.stored)| == (if old(past.stored) == [] then 0 else old(past.countWhenEmptied))
      ensures st == Ok ==> past == EmptiedWith(0) && handed == [] && transferred == 0
      ensures st != Ok ==> handed == old(handed) && transferred == old(transferred) && used == old(used) && offset == old(offset)
      ensures writeFailures == if st == ErrHardware then Wrap(old(writeFailures) + 1) else old(writeFailures)
      ensures st != Ok ==> past == if st == ErrHardware then old(past).(intact := false) else old(past)
      ensures st != Ok && st != ErrHardware ==> flash[..] == old(flash[..])
      ensures st == Ok || st == ErrHardware ==> flash[..old(used)] == left
    {
      hide HeadersIntact, Outgoing, At, AllLegal, Sent, EncodeAll, Payload, UnderWay, Wrap;
      st := if !ready then ErrUnsupported
            else if active then ErrBusy
            else if records != 0 && transferred != records then ErrState
            else if !erases then ErrHardware else Ok;
      if st == Ok && past.intact && past.stored != [] {
        ErasesWhatWasSent();
      }
      if st == Ok || st == ErrHardware {
        Erase(left);
      }
      if st == ErrHardware {
        writeFailures := Wrap(writeFailures + 1);
      }
      if st == Ok {
        Empty();
      }
    }

    /** storage_nand_transfer_complete: over intact headers it means that everything stored
        has been handed over, exactly if a transfer has begun since the store was emptied. */
    method TransferComplete() returns (b: bool)
      requires Valid()
      ensures b <==> !active && transferred == records && records != 0
      ensures b && past.intact ==> past.stored != [] && (Complete(handed, past.image, past.stored) <==> past.begun)
    {
      hide HeadersIntact, Outgoing, At, AllLegal, Sent, EncodeAll, Payload, UnderWay, Wrap, Complete;
      b := !active && transferred == records && records != 0;
      if b && past.intact {
        ErasesWhatWasSent();
      }
    }

    /** What a clear is about to erase was handed over exactly if a transfer has begun. */
    lemma ErasesWhatWasSent()
      requires Valid() && past.intact && past.stored != [] && !active && transferred == records
      ensures Complete(handed, past.image, past.stored) <==> past.begun
    {
      hide HeadersIntact, Outgoing, At, AllLegal, Sent, EncodeAll, Payload, UnderWay, Wrap;
      if past.begun {
        OutgoingCount(past.image, past.sent, past.position);
        RecordsFit(flash[..used], past.stored);
        assert |past.sent| <= |past.stored|;
        WrapSmall(|handed|);
        CompleteWhenCounted(past.image, past.sent, past.position, past.stored);
      }
    }

    method Erase(left: seq<byte>)
      requires Valid() && !active && |left| == used
      modifies flash, this`past
      ensures Valid() && flash[..used] == left && flash[used..] == old(flash[used..])
      ensures past == old(past).(intact := false)
    {
      hide At, AllLegal, Orderly, Wrap;
      forall i | 0 <= i < |left| {
        flash[i] := left[i];
      }
      past := past.(intact := false);
    }

    method Empty()
      requires Sized() && !active
      modifies this`used, this`records, this`transferred, this`offset
      modifies this`handed, this`past
      ensures Valid() && past == EmptiedWith(0) && handed == [] && transferred == used == offset == 0
    {
      hide At, AllLegal, Orderly, Wrap;
      EmptiedIsOrderly(0, false, 0);
      used := 0;
      records := 0;
      transferred := 0;
      offset := 0;
      assert flash[..0] == [];
      handed, past := [], EmptiedWith(0);
    }
  }

  lemma NothingOverlaid(buffer: seq<byte>)
    ensures Overlaid(buffer, []) == buffer
  {
  }

  /** From an undamaged store every record of at most 512 octets goes out. */
  lemma {:induction false} AllAreOffered(image: seq<byte>, rs: seq<Record>, k: nat)
    requires AllLegal(rs) && image == EncodeAll(rs) && k <= |rs| && forall j :: 0 <= j < |rs| ==> |rs[j].data| <= STAGE
    ensures HeadersIntact(image, rs)
    ensures Outgoing(image, rs, k) == seq(k, j requires 0 <= j < k => HandOver(ClassOf(rs[j].kind), rs[j].data))
  {
    hide Crc.Checksum, EncodeAll, HeadersIntact, Payload, ClassOf;
    EncodedIsIntact(rs);
    if k > 0 {
      AllAreOffered(image, rs, k - 1);
    }
  }

  /** A store of one record, with a transfer begun. */
  method OneStored(s: Store, bytes: u32, data: seq<byte>)
    requires s.Valid() && !s.active && 0 < |data| <= STAGE && HEADER + |data| <= bytes <= s.flash.Length
    modifies s, s.flash
    ensures s.Valid() && s.active && s.ready && s.past.begun && s.past.intact && s.past.position == 0
    ensures s.past.stored == s.past.sent == [Record(0, old(s.sequence), data)]
    ensures AllLegal(s.past.stored) && s.past.image == EncodeAll(s.past.stored)
  {
    hide Crc.Checksum, Orderly, EncodeAll, Encode, At, AllLegal, Wrap;
    var attached := s.Attach(true, bytes);
    ghost var r := Record(0, s.sequence, data);
    WrapSmall(HEADER + |data|);
    var st := s.Put(0, data, WRITTEN, WRITTEN);
    s.UndamagedIs(r);
    st := s.TransferBegin();
  }

  /** A store that has just handed over its one record. */
  method OneHandedOver(s: Store, bytes: u32, data: seq<byte>)
    requires s.Valid() && !s.active && 0 < |data| <= STAGE && HEADER + |data| <= bytes <= s.flash.Length
    modifies s, s.flash, s.stage
    ensures s.Valid() && !s.active && s.ready && s.transferred == 1
  {
    hide Crc.Checksum, Orderly, EncodeAll, Encode, At, AllLegal, Payload, TurnAt, Outgoing, Wrap, Overlaid, PayloadRead, HeadersIntact;
    OneStored(s, bytes, data);
    AllAreOffered(s.past.image, s.past.stored, 1);
    s.TransferService(true, true, true);
    s.CountsItsRecord();
    s.TransferService(true, true, true);
  }

  /** Attaching a device again keeps the old transfer count: after a transfer of one record, a
      record stored since is erased without any transfer of it. */
  method ReattachForgets(device: array<byte>, bytes: u32, first: seq<byte>, second: seq<byte>)
      returns (st: Status, ghost erased: seq<Record>, ghost since: seq<HandOver>)
    requires 0 < |first| <= STAGE && second != []
    requires HEADER + |first| <= bytes && HEADER + |second| <= bytes <= device.Length < TWO_32
    modifies device
    ensures st == Ok && |erased| == 1 && erased[0].data == second && since == []
  {
    hide Orderly, EncodeAll, At, AllLegal, Wrap;
    var s := new Store(device);
    OneHandedOver(s, bytes, first);
    var attached := s.Attach(true, bytes);
    WrapSmall(HEADER + |second|);
    var put := s.Put(0, second, WRITTEN, WRITTEN);
    erased, since := s.past.stored, s.handed;
    st := s.Clear(true, seq(s.used, i => 0));
  }

  /** In any store a header whose length makes the sum wrap into the used part is passed
      over, to where the wrapped sum says. */
  lemma WrappedHeaderPasses(device: seq<byte>, offset: u32, used: u32, len: u32, payloadReads: bool)
    requires offset < used && offset + HEADER <= |device|
    requires HeaderClaims(device, offset, len)
    requires STAGE < len && TWO_32 <= offset + HEADER + len <= TWO_32 + used
    ensures TurnAt(device, offset, used, true, payloadReads) == Passes(len)
    ensures Wrap(offset + HEADER + len) == offset + HEADER + len - TWO_32
  {
    var h := device[offset..offset + HEADER];
    assert Get32(h, 0) == Get32(device, offset) && Get32(h, 4) == Get32(device, offset + 4) && Get32(h, 12) == Get32(device, offset + 12);
  }

  /** A record header of some kind is there, with this length in it. */
  ghost predicate HeaderClaims(device: seq<byte>, offset: nat, len: u32)
    requires offset + HEADER <= |device|
  {
    Get32(device, offset) == MAGIC && Get32(device, offset + 4) < KINDS && Get32(device, offset + 12) == len
  }

  /** The length field of the header at the transfer's offset changes to another value. */
  method DamageLength(s: Store, len: u32)
    requires s.Valid() && s.offset + HEADER <= s.flash.Length
    requires Get32(s.flash[..], s.offset) == MAGIC && Get32(s.flash[..], s.offset + 4) < KINDS
    modifies s.flash, s`past
    ensures s.Valid() && s.past == old(s.past).(intact := false)
    ensures HeaderClaims(s.flash[..], s.offset, len)
  {
    hide Orderly, Wrap, AllLegal, At, Get32, Put32;
    var at := s.offset + 12;
    var octets := Put32(len);
    ghost var before := s.flash[..];
    s.Corrupt(at, octets[0]);
    s.Corrupt(at + 1, octets[1]);
    s.Corrupt(at + 2, octets[2]);
    s.Corrupt(at + 3, octets[3]);
    assert s.flash[..][at..at + 4] == octets;
    GetAfterPut32(s.flash[..], at, len);
    assert s.flash[..][..at] == before[..at];
    GetInPrefix(s.flash[..], before[..at], s.offset);
    GetInPrefix(s.flash[..], before[..at], s.offset + 4);
    GetInPrefix(before, before[..at], s.offset);
    GetInPrefix(before, before[..at], s.offset + 4);
  }

  /** A fresh store of one record. */
  method Holding(device: array<byte>, bytes: u32, a: seq<byte>) returns (s: Store)
    requires 0 < |a| <= STAGE && HEADER + |a| <= bytes <= device.Length < TWO_32
    modifies device
    ensures fresh(s) && fresh(s.stage) && s.flash == device && s.Valid()
    ensures s.ready && !s.active && s.capacity == bytes && s.used == HEADER + |a| && s.sequence == 1
    ensures s.past.intact && s.past.stored == [Record(0, 0, a)] && s.Undamaged()
  {
    hide Orderly, EncodeAll, At, AllLegal, Crc.Checksum, Wrap, Counted;
    WrapSmall(HEADER + |a|);
    WrapSmall(1);
    s := new Store(device);
    var attached := s.Attach(true, bytes);
    var st := s.Put(0, a, WRITTEN, WRITTEN);
    s.OneFits(a);
  }

  /** A fresh store of two records of one length, with a transfer begun. */
  method TwoStored(device: array<byte>, bytes: u32, a: seq<byte>, b: seq<byte>) returns (s: Store)
    requires 0 < |a| == |b| <= STAGE && 2 * (HEADER + |a|) <= bytes <= device.Length < TWO_32
    modifies device
    ensures fresh(s) && fresh(s.stage) && s.flash == device && s.Valid()
    ensures s.active && s.past.begun && s.past.intact && s.past.position == 0 && s.handed == []
    ensures s.past.stored == s.past.sent == [Record(0, 0, a), Record(0, 1, b)]
    ensures AllLegal(s.past.stored) && s.past.image == EncodeAll(s.past.stored)
  {
    hide Orderly, EncodeAll, At, AllLegal, Crc.Checksum, Wrap, Counted;
    WrapSmall(HEADER + |b|);
    s := Holding(device, bytes, a);
    var st := s.Put(0, b, WRITTEN, WRITTEN);
    s.StoredLegal();
    st := s.TransferBegin();
  }

  /** A store of two records, its transfer past the first. */
  method OneOfTwo(device: array<byte>, bytes: u32, data: seq<byte>) returns (s: Store)
    requires 0 < |data| <= STAGE && 2 * (HEADER + |data|) <= bytes <= device.Length < TWO_32
    modifies device
    ensures fresh(s) && fresh(s.stage) && s.flash == device && s.Valid()
    ensures s.active && s.past.begun && s.past.intact && s.past.position == 1 && |s.past.stored| == 2
  {
    hide Orderly, EncodeAll, At, AllLegal, Wrap, TurnAt, Crc.Checksum, Get32, Payload, Overlaid, PayloadRead;
    s := TwoStored(device, bytes, data, data);
    s.TransferService(true, true, true);
  }

  /** Two records stored, the transfer past the first, and the length in the second's header
      damaged. */
  method OneOfTwoDamaged(device: array<byte>, bytes: u32, data: seq<byte>, len: u32) returns (s: Store)
    requires 0 < |data| <= STAGE && 2 * (HEADER + |data|) <= bytes <= device.Length < TWO_32
    modifies device
    ensures fresh(s) && fresh(s.stage) && s.flash == device && s.Valid()
    ensures s.active && s.past.begun && 0 < s.offset < s.used && s.offset + HEADER <= device.Length
    ensures HeaderClaims(device[..], s.offset, len)
  {
    hide Orderly, EncodeAll, At, AllLegal, Wrap, TurnAt, Crc.Checksum, Get32, Payload, Overlaid, PayloadRead;
    s := OneOfTwo(device, bytes, data);
    s.HeaderHere();
    s.SecondIsLater();
    DamageLength(s, len);
  }

  /** A length damaged to 2^32 - 21 passes the 32-bit check, and the transfer goes back by
      one octet instead of ending. */
  method DamagedLengthMovesBack(device: array<byte>, bytes: u32, data: seq<byte>) returns (s: Store, ghost at: u32)
    requires 0 < |data| <= STAGE && 2 * (HEADER + |data|) <= bytes <= device.Length < TWO_32
    modifies device
    ensures fresh(s) && s.Valid() && s.active && 0 < at && s.offset == at - 1
  {
    hide Orderly, EncodeAll, At, AllLegal, Wrap, TurnAt, Crc.Checksum, Get32, Payload, Overlaid, PayloadRead;
    s := OneOfTwoDamaged(device, bytes, data, STANDSTILL - 1);
    at := s.offset;
    WrappedHeaderPasses(s.flash[..], s.offset, s.used, STANDSTILL - 1, true);
    s.TransferService(true, true, true);
  }

  /** One turn of a transfer at the length 2^32 - 20, then an attempt to store and one to
      clear: the turn changes nothing but the failure count, and both are refused. */
  method TurnInPlace(s: Store, payloadReads: bool, queueTakes: bool, kind: nat, data: seq<byte>) returns (put: Status, cleared: Status)
    requires s.Valid() && s.active && s.past.begun && s.offset < s.used && s.offset + HEADER <= s.flash.Length
    requires HeaderClaims(s.flash[..], s.offset, STANDSTILL)
    requires kind < KINDS && data != [] && HEADER + |data| < TWO_32
    modifies s, s.stage, s.flash
    ensures s.Valid() && s.active && s.past.begun && s.flash[..] == old(s.flash[..])
    ensures s.offset == old(s.offset) && s.used == old(s.used) && s.past.stored == old(s.past.stored)
    ensures s.handed == old(s.handed) && s.transferred == old(s.transferred)
    ensures put == cleared == ErrBusy
  {
    hide Orderly, EncodeAll, At, AllLegal, Wrap, TurnAt, Crc.Checksum, Get32, Payload, Counted, HeaderClaims, Overlaid, PayloadRead, HeadersIntact, Sent, Complete, EmptiedWith;
    WrappedHeaderPasses(s.flash[..], s.offset, s.used, STANDSTILL, payloadReads);
    s.TransferService(true, payloadReads, queueTakes);
    put := s.Put(kind, data, WRITTEN, WRITTEN);
    cleared := s.Clear(true, seq(s.used, i => 0));
  }

  /** With the length 2^32 - 20 at its offset a transfer never ends: however many turns it
      gets, whatever else is read or taken, it stands where it stood, and all the while
      nothing can be stored or cleared. */
  method StandsStill(s: Store, payloadReads: seq<bool>, queueTakes: bool, kind: nat, data: seq<byte>) returns (answers: seq<(Status, Status)>)
    requires s.Valid() && s.active && s.past.begun && s.offset < s.used && s.offset + HEADER <= s.flash.Length
    requires HeaderClaims(s.flash[..], s.offset, STANDSTILL)
    requires kind < KINDS && data != [] && HEADER + |data| < TWO_32
    modifies s, s.stage, s.flash
    ensures s.Valid() && s.active && s.offset == old(s.offset) && s.flash[..] == old(s.flash[..])
    ensures s.handed == old(s.handed) && s.transferred == old(s.transferred) && s.past.stored == old(s.past.stored)
    ensures |answers| == |payloadReads| && forall k :: 0 <= k < |answers| ==> answers[k] == (ErrBusy, ErrBusy)
  {
    hide *;
    answers := [];
    for n := 0 to |payloadReads|
      invariant s.Valid() && s.active && s.past.begun && s.flash[..] == old(s.flash[..])
      invariant s.offset == old(s.offset) && s.used == old(s.used) && s.past.stored == old(s.past.stored)
      invariant s.handed == old(s.handed) && s.transferred == old(s.transferred)
      invariant |answers| == n && forall k :: 0 <= k < n ==> answers[k] == (ErrBusy, ErrBusy)
    {
      var put, cleared := TurnInPlace(s, payloadReads[n], queueTakes, kind, data);
      answers := answers + [(put, cleared)];
    }
  }

  /** Such a transfer arises from one damaged length. */
  method DamagedLengthStandsStill(device: array<byte>, bytes: u32, data: seq<byte>, payloadReads: seq<bool>, queueTakes: bool)
      returns (s: Store, ghost at: u32, answers: seq<(Status, Status)>)
    requires 0 < |data| <= STAGE && 2 * (HEADER + |data|) <= bytes <= device.Length < TWO_32
    modifies device
    ensures fresh(s) && s.Valid() && s.active && 0 < at == s.offset < s.used
    ensures |answers| == |payloadReads| && forall k :: 0 <= k < |answers| ==> answers[k] == (ErrBusy, ErrBusy)
  {
    hide Orderly, EncodeAll, At, AllLegal, Wrap, TurnAt, Crc.Checksum, Get32, Payload, HeaderClaims;
    s := OneOfTwoDamaged(device, bytes, data, STANDSTILL);
    at := s.offset;
    answers := StandsStill(s, payloadReads, queueTakes, 0, data);
  }

  /** Every record handed over, once, in order, with its class and with bytes that have
      the checksum it was stored with. */
  ghost predicate Complete(handed: seq<HandOver>, image: seq<byte>, rs: seq<Record>)
  {
    && HeadersIntact(image, rs)
    && |handed| == |rs|
    && forall k :: 0 <= k < |rs| ==> Sent(image, rs, k) == [handed[k]]
  }

  lemma NothingStored()
    ensures AllLegal([]) && At([], 0) == 0
  {
    EncodeNone();
  }

  lemma OutgoingStarts(image: seq<byte>, rs: seq<Record>)
    requires HeadersIntact(image, rs)
    ensures Outgoing(image, rs, 0) == []
  {
  }

  /** If a transfer has counted as many records as are stored, it handed over all of them. */
  lemma CompleteWhenCounted(image: seq<byte>, sent: seq<Record>, position: nat, rs: seq<Record>)
    requires sent <= rs && HeadersIntact(image, sent) && position <= |sent|
    ensures |Outgoing(image, sent, position)| <= position
    ensures |Outgoing(image, sent, position)| == |rs| ==> Complete(Outgoing(image, sent, position), image, rs)
  {
    hide Sent;
    OutgoingCount(image, sent, position);
    if |Outgoing(image, sent, position)| == |rs| {
      assert sent == rs;
    }
  }

  lemma IntactLegal(image: seq<byte>, rs: seq<Record>)
    requires HeadersIntact(image, rs)
    ensures AllLegal(rs)
  {
  }

  lemma IntactLength(image: seq<byte>, rs: seq<Record>)
    requires HeadersIntact(image, rs)
    ensures |image| == At(rs, |rs|)
  {
  }

  lemma HeadersAfterDecay(image: seq<byte>, rs: seq<Record>, k: nat, index: nat, value: byte)
    requires HeadersIntact(image, rs) && k < |rs|
    requires At(rs, k) + HEADER <= index < At(rs, k + 1) <= |image|
    ensures HeadersIntact(image[index := value], rs)
  {
    hide Header, At, AllLegal;
    var now := image[index := value];
    forall j | 0 <= j < |rs|
      ensures HeaderAt(now, rs, j)
    {
      assert HeaderAt(image, rs, j);
      if j <= k {
        AtMonotone(rs, j, k);
      } else {
        AtMonotone(rs, k + 1, j);
      }
      assert now[At(rs, j)..At(rs, j) + HEADER] == image[At(rs, j)..At(rs, j) + HEADER];
    }
  }

  lemma PayloadIs(image: seq<byte>, rs: seq<Record>, k: nat)
    requires AllLegal(rs) && |image| == At(rs, |rs|) && k < |rs|
    ensures At(rs, k) + HEADER + |rs[k].data| <= |image|
    ensures Payload(image, rs, k) == image[At(rs, k) + HEADER..At(rs, k) + HEADER + |rs[k].data|]
  {
    AtNext(rs, k);
    AtMonotone(rs, k + 1, |rs|);
  }

  /** Fewer records than octets, so the record count cannot wrap. */
  lemma {:induction false} RecordsFit(image: seq<byte>, rs: seq<Record>)
    requires HeadersIntact(image, rs) && |image| < TWO_32
    ensures |rs| < TWO_32
  {
    CountBelowAt(rs, |rs|);
  }

  lemma {:induction false} CountBelowAt(rs: seq<Record>, k: nat)
    requires AllLegal(rs) && k <= |rs|
    ensures k <= At(rs, k)
  {
    hide At, AllLegal;
    if k > 0 {
      CountBelowAt(rs, k - 1);
      AtNext(rs, k - 1);
    }
  }
}
