/** Space packets: the primary header and its octets, building and receiving a packet, and
    the sequence counts that show what was lost between the two. */
module SpacePacket {
  import opened Words
  import Crc
  import Seal

  const CLASSES: nat := 6
  const COMMAND: nat := 0
  const RAW: nat := 1
  const PROCESSED: nat := 2
  const HEALTH: nat := 3
  const EVENT: nat := 4
  const FILE: nat := 5

  const HEADER_BYTES: nat := 6
  const INTEGRITY_BYTES: nat := 4
  const APID_MAX: u16 := 0x7FF
  const APID_IDLE: u16 := 0x7FF
  const COUNTS: nat := 0x4000
  const DATA_FIELD_MAX: nat := 65536

  type bit = n: int | 0 <= n < 2

  datatype Header = Header(
    version: byte,
    telecommand: bit,
    secondary: bool,
    apid: u16,
    flags: byte,
    count: u16,
    dataLength: u16)

  /** What fits the fields of section 4.1.3 of CCSDS 133.0-B-2. */
  predicate Fits(h: Header)
  {
    h.version <= 7 && h.apid <= APID_MAX && h.count < COUNTS
  }

  predicate Legal(h: Header)
  {
    Fits(h) && h.flags < 4
  }

  // ---------- the header and its octets ----------

  /** Version in the top three bits, then type, secondary header flag and identifier. */
  function FirstWord(h: Header): u16
    requires Fits(h)
  {
    0x2000 * (h.version as int) + 0x1000 * (h.telecommand as int) + (if h.secondary then 0x800 else 0) + h.apid
  }

  /** Sequence flags in the top two bits, then the count. */
  function SecondWord(h: Header): u16
    requires Fits(h)
  {
    0x4000 * ((h.flags as int) % 4) + h.count
  }

  function Octets(h: Header): (r: seq<byte>)
    requires Fits(h)
    ensures |r| == HEADER_BYTES
  {
    Put16(FirstWord(h)) + Put16(SecondWord(h)) + Put16(h.dataLength)
  }

  function Parsed(s: seq<byte>): (h: Header)
    requires |s| >= HEADER_BYTES
    ensures Legal(h)
  {
    var word0, word1 := Get16(s, 0), Get16(s, 2);
    Header(
      word0 / 0x2000,
      (word0 / 0x1000) % 2,
      (word0 / 0x800) % 2 != 0,
      word0 % 0x800,
      word1 / 0x4000,
      word1 % 0x4000,
      Get16(s, 4))
  }

  lemma FirstWordApart(h: Header)
    requires Fits(h)
    ensures var w := FirstWord(h);
      && w / 0x2000 == h.version && (w / 0x1000) % 2 == h.telecommand
      && ((w / 0x800) % 2 != 0 <==> h.secondary) && w % 0x800 == h.apid
  {
    var w: int := FirstWord(h);
    var rest: int := (if h.secondary then 0x800 else 0) + h.apid;
    assert w == 0x800 * (4 * (h.version as int) + 2 * (h.telecommand as int) + (if h.secondary then 1 else 0)) + h.apid;
    assert w / 0x800 == 4 * (h.version as int) + 2 * (h.telecommand as int) + (if h.secondary then 1 else 0);
    assert w / 0x1000 == 2 * (h.version as int) + h.telecommand;
  }

  /** What was printed is parsed back, whatever follows it. */
  lemma ParsePrinted(h: Header, rest: seq<byte>)
    requires Legal(h)
    ensures Parsed(Octets(h) + rest) == h
  {
    hide FirstWord, SecondWord, Put16, Get16;
    var s := Octets(h) + rest;
    assert s[0..2] == Put16(FirstWord(h));
    assert s[2..4] == Put16(SecondWord(h));
    assert s[4..6] == Put16(h.dataLength);
    GetAfterPut16(s, 0, FirstWord(h));
    GetAfterPut16(s, 2, SecondWord(h));
    GetAfterPut16(s, 4, h.dataLength);
    FirstWordApart(h);
    SecondWordApart(h);
  }

  lemma SecondWordApart(h: Header)
    requires Legal(h)
    ensures SecondWord(h) / 0x4000 == h.flags && SecondWord(h) % 0x4000 == h.count
  {
  }

  lemma WordsTogether(s: seq<byte>)
    requires |s| >= HEADER_BYTES
    ensures FirstWord(Parsed(s)) == Get16(s, 0) && SecondWord(Parsed(s)) == Get16(s, 2)
  {
    hide Get16;
    var w: int := Get16(s, 0);
    var a := w / 0x800;
    assert w / 0x1000 == a / 2 && w / 0x2000 == a / 4;
    assert a == 4 * (a / 4) + 2 * ((a / 2) % 2) + a % 2;
  }

  /** And every six octets print back from what they parse to. */
  lemma PrintParsed(s: seq<byte>)
    requires |s| == HEADER_BYTES
    ensures Octets(Parsed(s)) == s
  {
    hide FirstWord, SecondWord, Put16, Get16, Parsed;
    WordsTogether(s);
    PutAfterGet16(s, 0);
    PutAfterGet16(s, 2);
    PutAfterGet16(s, 4);
    assert Parsed(s).dataLength == Get16(s, 4) by { LengthField(s); }
    assert s == s[0..2] + s[2..4] + s[4..6];
  }

  lemma LengthField(s: seq<byte>)
    requires |s| >= HEADER_BYTES
    ensures Parsed(s).dataLength == Get16(s, 4)
  {
  }

  /** Where section 4.1.3 of CCSDS 133.0-B-2 puts each field, most significant bit first. */
  lemma HeaderLayout(h: Header)
    requires Legal(h)
    ensures var o := Octets(h);
      && o[0] / 32 == h.version
      && o[0] / 16 % 2 == h.telecommand
      && (o[0] / 8 % 2 == 1 <==> h.secondary)
      && 256 * (o[0] as int % 8) + o[1] == h.apid
      && o[2] / 64 == h.flags
      && 256 * (o[2] as int % 64) + o[3] == h.count
      && 256 * (o[4] as int) + o[5] == h.dataLength
  {
    hide FirstWord, SecondWord;
    var o, w, v := Octets(h), FirstWord(h), SecondWord(h);
    assert o[0] == w / 256 && o[1] == w % 256 && o[2] == v / 256 && o[3] == v % 256;
    FirstWordLayout(h);
    SecondWordLayout(h);
  }

  lemma FirstWordLayout(h: Header)
    requires Legal(h)
    ensures var a: int := FirstWord(h) / 256;
      && a / 32 == h.version && a / 16 % 2 == h.telecommand && (a / 8 % 2 == 1 <==> h.secondary)
      && 256 * (a % 8) + FirstWord(h) % 256 == h.apid
  {
    var bits := 4 * (h.version as int) + 2 * (h.telecommand as int) + (if h.secondary then 1 else 0);
    assert FirstWord(h) == 0x800 * bits + h.apid;
    AboveIdentifier(bits, h.apid);
    BitsApart(h.version, h.telecommand, if h.secondary then 1 else 0);
    hide FirstWord;
  }

  lemma BitsApart(v: nat, t: nat, s: nat)
    requires t < 2 && s < 2
    ensures var bits := 4 * v + 2 * t + s; bits / 4 == v && bits / 2 % 2 == t && bits % 2 == s
  {
  }

  lemma AboveIdentifier(bits: nat, apid: nat)
    requires apid < 0x800
    ensures var w := 0x800 * bits + apid;
      && w / 256 / 8 == bits && w / 256 / 16 == bits / 2 && w / 256 / 32 == bits / 4
      && 256 * (w / 256 % 8) + w % 256 == apid
  {
    var w := 0x800 * bits + apid;
    assert w / 256 == 8 * bits + apid / 256;
  }

  lemma SecondWordLayout(h: Header)
    requires Legal(h)
    ensures var a: int := SecondWord(h) / 256; a / 64 == h.flags && 256 * (a % 64) + SecondWord(h) % 256 == h.count
  {
    var w: int := SecondWord(h);
    assert w == 256 * (64 * (h.flags as int) + h.count / 256) + h.count % 256;
    assert w / 256 == 64 * (h.flags as int) + h.count / 256;
  }

  // ---------- a packet ----------

  /** One application identifier per class. */
  predicate Apids(apids: seq<u16>)
  {
    && |apids| == CLASSES
    && (forall i :: 0 <= i < CLASSES ==> apids[i] < APID_IDLE)
    && (forall i, j :: 0 <= i < j < CLASSES ==> apids[i] != apids[j])
  }

  const K_DEFAULT_APID: seq<u16> := [0x001, 0x010, 0x011, 0x020, 0x030, 0x040]

  function BuiltHeader(apid: u16, count: u16, length: nat): (h: Header)
    requires apid <= APID_MAX && count < COUNTS && length + INTEGRITY_BYTES <= DATA_FIELD_MAX
    ensures Legal(h)
  {
    Header(0, 0, false, apid, 3, count, length + INTEGRITY_BYTES - 1)
  }

  function PacketOf(apid: u16, count: u16, app: seq<byte>): (r: seq<byte>)
    requires apid <= APID_MAX && count < COUNTS && |app| + INTEGRITY_BYTES <= DATA_FIELD_MAX
    ensures |r| == HEADER_BYTES + |app| + INTEGRITY_BYTES
  {
    Octets(BuiltHeader(apid, count, |app|)) + app + Put32(Crc.Checksum(app))
  }

  /** Every packet built is telemetry of version 1 without a secondary header, unsegmented, and
      says its own length. */
  lemma BuiltLayout(apid: u16, count: u16, app: seq<byte>)
    requires apid <= APID_MAX && count < COUNTS && |app| + INTEGRITY_BYTES <= DATA_FIELD_MAX
    ensures var p := PacketOf(apid, count, app);
      && p[0] < 8 && 256 * (p[0] as int) + p[1] == apid
      && p[2] / 64 == 3 && 256 * (p[2] as int % 64) + p[3] == count
      && HEADER_BYTES + 256 * (p[4] as int) + p[5] + 1 == |p|
      && p[HEADER_BYTES..HEADER_BYTES + |app|] == app
  {
    hide Crc.Checksum, Octets, Put32;
    var h := BuiltHeader(apid, count, |app|);
    HeaderLayout(h);
    var o, p := Octets(h), PacketOf(apid, count, app);
    assert p == o + app + Put32(Crc.Checksum(app));
    assert p[0] == o[0] && p[1] == o[1] && p[2] == o[2] && p[3] == o[3] && p[4] == o[4] && p[5] == o[5];
  }

  /** The first class from i on with this identifier, or the number of classes. */
  function ClassFrom(apids: seq<u16>, apid: u16, i: nat): (cls: nat)
    requires i <= |apids|
    ensures i <= cls <= |apids|
    decreases |apids| - i
  {
    if i == |apids| || apids[i] == apid then i else ClassFrom(apids, apid, i + 1)
  }

  lemma {:induction false} ClassFound(apids: seq<u16>, apid: u16, i: nat)
    requires i <= |apids|
    ensures var c := ClassFrom(apids, apid, i);
      && (c < |apids| ==> apids[c] == apid)
      && forall j :: i <= j < c ==> apids[j] != apid
    decreases |apids| - i
  {
    if i < |apids| && apids[i] != apid {
      ClassFound(apids, apid, i + 1);
    }
  }

  /** Under any assignment of distinct identifiers a class is found by its own. */
  lemma ClassOfItsApid(apids: seq<u16>, cls: nat)
    requires Apids(apids) && cls < CLASSES
    ensures ClassFrom(apids, apids[cls], 0) == cls
  {
    ClassFound(apids, apids[cls], 0);
  }

  /** What the receiver makes of a packet before it looks at its sequence count. */
  datatype Verdict =
    | TooShort
    | WrongLength
    | WrongChecksum
    | NoSuchClass
    | Routed(cls: nat, header: Header, app: seq<byte>)

  function Examine(apids: seq<u16>, packet: seq<byte>): Verdict
  {
    if |packet| < HEADER_BYTES then TooShort
    else
      var h := Parsed(packet);
      var field := (h.dataLength as int) + 1;
      if HEADER_BYTES + field != |packet| || field < INTEGRITY_BYTES then WrongLength
      else
        var app := packet[HEADER_BYTES..|packet| - INTEGRITY_BYTES];
        if Get32(packet, |packet| - INTEGRITY_BYTES) != Crc.Checksum(app) then WrongChecksum
        else
          var cls := ClassFrom(apids, h.apid, 0);
          if cls >= |apids| then NoSuchClass else Routed(cls, h, app)
  }

  /** What becomes of any octets, said of the octets themselves: the first thing wrong decides,
      and what is handed on is everything between header and checksum, for the class whose
      identifier is in the header, with the count that is there. */
  lemma ExaminedAs(apids: seq<u16>, p: seq<byte>)
    requires Apids(apids)
    ensures var v := Examine(apids, p);
      && (v.TooShort? <==> |p| < HEADER_BYTES)
      && (|p| >= HEADER_BYTES ==>
            var field, apid := 256 * (p[4] as int) + p[5] + 1, 256 * (p[0] as int % 8) + p[1];
            var whole := HEADER_BYTES + field == |p| && field >= INTEGRITY_BYTES;
            && (v.WrongLength? <==> !whole)
            && (whole ==>
                  && (v.WrongChecksum? <==> !Seal.Sealed(p[HEADER_BYTES..]))
                  && (v.NoSuchClass? <==> Seal.Sealed(p[HEADER_BYTES..]) && apid !in apids)
                  && (v.Routed? <==> Seal.Sealed(p[HEADER_BYTES..]) && apid in apids)
                  && (v.Routed? ==>
                        && v.cls < CLASSES && apids[v.cls] == apid
                        && v.header.count == 256 * (p[2] as int % 64) + p[3]
                        && v.app == p[HEADER_BYTES..|p| - INTEGRITY_BYTES])))
  {
    hide Crc.Checksum, ClassFrom, Parsed;
    if |p| >= HEADER_BYTES {
      ParsedFields(p);
      ClassFound(apids, Parsed(p).apid, 0);
      if HEADER_BYTES + (Parsed(p).dataLength as int) + 1 == |p| && |p| >= HEADER_BYTES + INTEGRITY_BYTES {
        ExaminedBySeal(apids, p);
      }
    }
  }

  lemma ParsedFields(p: seq<byte>)
    requires |p| >= HEADER_BYTES
    ensures var h := Parsed(p);
      && h.apid == 256 * (p[0] as int % 8) + p[1] && h.count == 256 * (p[2] as int % 64) + p[3]
      && h.dataLength == 256 * (p[4] as int) + p[5]
  {
    WordApart(p[0], p[1]);
    WordApart(p[2], p[3]);
  }

  lemma WordApart(a: byte, b: byte)
    ensures var w: int := 256 * (a as int) + b; w % 0x800 == 256 * (a as int % 8) + b && w % 0x4000 == 256 * (a as int % 64) + b
  {
  }

  /** The parts of a built packet, read back. */
  lemma PartsOfPacket(apid: u16, count: u16, app: seq<byte>)
    requires apid <= APID_MAX && count < COUNTS && |app| + INTEGRITY_BYTES <= DATA_FIELD_MAX
    ensures var p := PacketOf(apid, count, app);
      && Parsed(p) == BuiltHeader(apid, count, |app|)
      && p[HEADER_BYTES..|p| - INTEGRITY_BYTES] == app
      && Get32(p, |p| - INTEGRITY_BYTES) == Crc.Checksum(app)
  {
    hide Crc.Checksum, Parsed, Octets, Put32, Get32;
    var p := PacketOf(apid, count, app);
    var h := BuiltHeader(apid, count, |app|);
    ParsePrinted(h, app + Put32(Crc.Checksum(app)));
    assert p == Octets(h) + (app + Put32(Crc.Checksum(app)));
    assert p[|p| - INTEGRITY_BYTES..|p|] == Put32(Crc.Checksum(app));
    GetAfterPut32(p, |p| - INTEGRITY_BYTES, Crc.Checksum(app));
  }

  /** A packet built for a class arrives, under the same identifiers, as that class, that
      count and exactly those octets. */
  lemma BuiltIsRouted(apids: seq<u16>, cls: nat, count: u16, app: seq<byte>)
    requires Apids(apids) && cls < CLASSES && count < COUNTS && |app| + INTEGRITY_BYTES <= DATA_FIELD_MAX
    ensures Examine(apids, PacketOf(apids[cls], count, app)) == Routed(cls, BuiltHeader(apids[cls], count, |app|), app)
  {
    hide Crc.Checksum, Parsed, PacketOf, Get32, ClassFrom;
    PartsOfPacket(apids[cls], count, app);
    ClassOfItsApid(apids, cls);
  }

  /** What a receiver makes of a packet, from its data field on. */
  lemma ExaminedBySeal(apids: seq<u16>, p: seq<byte>)
    requires |p| >= HEADER_BYTES + INTEGRITY_BYTES
    requires HEADER_BYTES + (Parsed(p).dataLength as int) + 1 == |p|
    ensures Examine(apids, p) == WrongChecksum <==> !Seal.Sealed(p[HEADER_BYTES..])
    ensures Examine(apids, p) != WrongLength
  {
    hide Crc.Checksum, Parsed, ClassFrom;
    var d := p[HEADER_BYTES..];
    assert d[..|d| - 4] == p[HEADER_BYTES..|p| - INTEGRITY_BYTES];
  }

  lemma BuiltIsSealed(apid: u16, count: u16, app: seq<byte>)
    requires apid <= APID_MAX && count < COUNTS && |app| + INTEGRITY_BYTES <= DATA_FIELD_MAX
    ensures Seal.Sealed(PacketOf(apid, count, app)[HEADER_BYTES..])
  {
    hide Crc.Checksum, Octets, Put32, Get32;
    var d := PacketOf(apid, count, app)[HEADER_BYTES..];
    assert d == app + Put32(Crc.Checksum(app));
    assert d[|d| - 4..|d|] == Put32(Crc.Checksum(app)) && d[..|d| - 4] == app;
    GetAfterPut32(d, |d| - 4, Crc.Checksum(app));
  }

  /** A packet whose data field, application data and checksum together, is damaged within
      four consecutive octets is refused, whatever became of its header meanwhile, unless
      the header still gives its length and the damage is 61 D8 F4 EE across the end of
      at least two octets of application data. */
  lemma DamagedDataExactly(apids: seq<u16>, apid: u16, count: u16, app: seq<byte>, p: seq<byte>)
    requires apid <= APID_MAX && count < COUNTS && |app| + INTEGRITY_BYTES <= DATA_FIELD_MAX
    requires var built := PacketOf(apid, count, app);
      |p| == |built| && Crc.DamagedWithinFour(built[HEADER_BYTES..], p[HEADER_BYTES..])
    ensures var built := PacketOf(apid, count, app);
      Examine(apids, p) == WrongLength || Examine(apids, p) == WrongChecksum <==>
        !(&& Parsed(p).dataLength == Parsed(built).dataLength
          && |app| >= 2 && p[HEADER_BYTES..] == Seal.Slipped(built[HEADER_BYTES..]))
  {
    hide Crc.Checksum, Crc.DamagedWithinFour, Parsed, Seal.Sealed, Seal.Slipped, Examine, PacketOf;
    var built := PacketOf(apid, count, app);
    PartsOfPacket(apid, count, app);
    BuiltIsSealed(apid, count, app);
    Seal.UndetectedExactly(built[HEADER_BYTES..], p[HEADER_BYTES..]);
    if Parsed(p).dataLength == Parsed(built).dataLength {
      ExaminedBySeal(apids, p);
    } else {
      OtherLengthRefused(apids, p);
    }
  }

  lemma OtherLengthRefused(apids: seq<u16>, p: seq<byte>)
    requires |p| >= HEADER_BYTES && HEADER_BYTES + (Parsed(p).dataLength as int) + 1 != |p|
    ensures Examine(apids, p) == WrongLength
  {
    hide Crc.Checksum, Parsed;
  }

  /** The checksum does not cover the header: with any other count the packet is still
      accepted, and heard as that count. */
  lemma CountIsNotProtected(apids: seq<u16>, cls: nat, count: u16, other: u16, app: seq<byte>)
    requires Apids(apids) && cls < CLASSES && count < COUNTS && other < COUNTS
    requires |app| + INTEGRITY_BYTES <= DATA_FIELD_MAX
    ensures var built := PacketOf(apids[cls], count, app);
      Examine(apids, Octets(Parsed(built).(count := other)) + built[HEADER_BYTES..])
        == Routed(cls, Parsed(built).(count := other), app)
  {
    hide Crc.Checksum, Octets, Parsed, Examine, Put32;
    PartsOfPacket(apids[cls], count, app);
    var built := PacketOf(apids[cls], count, app);
    assert Octets(Parsed(built).(count := other)) + built[HEADER_BYTES..] == PacketOf(apids[cls], other, app);
    BuiltIsRouted(apids, cls, other, app);
  }

  // ---------- sequence counts ----------

  /** What the receiver remembers of one class: the count it expects next, if any. */
  datatype Expectation = Unheard | Next(count: u16)

  datatype Hearing = Hearing(awaited: seq<Expectation>, gaps: u32)

  const SILENCE: Hearing := Hearing([Unheard, Unheard, Unheard, Unheard, Unheard, Unheard], 0)

  predicate ShowsGap(e: Expectation, count: u16)
  {
    e.Next? && count != e.count
  }

  /** A gap is counted, and then adopted. */
  function Heard(h: Hearing, cls: nat, count: u16): (r: Hearing)
    requires |h.awaited| == CLASSES && cls < CLASSES && count < COUNTS
    ensures |r.awaited| == CLASSES
  {
    Hearing(
      h.awaited[cls := Next((count + 1) % COUNTS)],
      if ShowsGap(h.awaited[cls], count) then Wrap(h.gaps + 1) else h.gaps)
  }

  /** A delivery: the packet's class, and how many of its class had been built before it. */
  datatype Delivery = Delivery(cls: nat, index: nat)

  predicate OfClasses(ds: seq<Delivery>)
  {
    forall i :: 0 <= i < |ds| ==> ds[i].cls < CLASSES
  }

  function HeardAll(ds: seq<Delivery>): (h: Hearing)
    requires OfClasses(ds)
    ensures |h.awaited| == CLASSES
  {
    if ds == [] then SILENCE
    else
      Heard(HeardAll(ds[..|ds| - 1]), ds[|ds| - 1].cls, ds[|ds| - 1].index % COUNTS)
  }

  /** The last earlier delivery of a class. */
  function LastOf(ds: seq<Delivery>, cls: nat): Option<nat>
  {
    if ds == [] then None
    else if ds[|ds| - 1].cls == cls then Some(ds[|ds| - 1].index)
    else LastOf(ds[..|ds| - 1], cls)
  }

  predicate Adjacent(prev: nat, next: nat)
  {
    (next - prev) % COUNTS == 1
  }

  /** How many deliveries do not follow the delivery of their class before them. */
  function Breaks(ds: seq<Delivery>): nat
  {
    if ds == [] then 0
    else
      var d := ds[|ds| - 1];
      var last := LastOf(ds[..|ds| - 1], d.cls);
      Breaks(ds[..|ds| - 1]) + (if last.Some? && !Adjacent(last.value, d.index) then 1 else 0)
  }

  lemma AdjacentCounts(prev: nat, next: nat)
    ensures Adjacent(prev, next) <==> next % COUNTS == ((prev % COUNTS) + 1) % COUNTS
  {
  }

  /** What the receiver expects is the count after the last one it heard of the class. */
  ghost predicate Expects(h: Hearing, ds: seq<Delivery>, cls: nat)
    requires |h.awaited| == CLASSES && cls < CLASSES
  {
    var last := LastOf(ds, cls);
    h.awaited[cls] == if last.None? then Unheard else Next(((last.value % COUNTS) + 1) % COUNTS)
  }

  lemma {:induction false} ExpectsTheNext(ds: seq<Delivery>, cls: nat)
    requires cls < CLASSES && OfClasses(ds)
    ensures Expects(HeardAll(ds), ds, cls)
  {
    if ds != [] {
      ExpectsTheNext(ds[..|ds| - 1], cls);
    }
  }

  /** Whatever packets reach the receiver, in whatever interleaving of the classes: its gap
      count is the number of deliveries not adjacent to the one of their class before. */
  lemma {:induction false} GapsAreBreaks(ds: seq<Delivery>)
    requires OfClasses(ds)
    ensures HeardAll(ds).gaps == Wrap(Breaks(ds))
  {
    hide Wrap, Adjacent, LastOf;
    if ds == [] {
      WrapSmall(0);
    } else {
      var rest, d := ds[..|ds| - 1], ds[|ds| - 1];
      GapsAreBreaks(rest);
      ExpectsTheNext(rest, d.cls);
      var last := LastOf(rest, d.cls);
      if last.Some? {
        AdjacentCounts(last.value, d.index);
      }
      WrapAdd(Breaks(rest), 1);
    }
  }

  /** Between two packets delivered in the order they were built, a loss run shows exactly
      when its length is not a multiple of the count's range. */
  lemma LossShowsExactly(prev: nat, next: nat)
    requires prev < next
    ensures Adjacent(prev, next) <==> (next - prev - 1) % COUNTS == 0
  {
  }

  // ---------- the packets built, and any subsequence of them received ----------

  datatype Built = Built(cls: nat, app: seq<byte>)

  predicate Buildable(b: Built)
  {
    b.cls < CLASSES && |b.app| + INTEGRITY_BYTES <= DATA_FIELD_MAX
  }

  /** How many packets of a class were built. */
  function CountOf(log: seq<Built>, cls: nat): nat
  {
    if log == [] then 0 else CountOf(log[..|log| - 1], cls) + (if log[|log| - 1].cls == cls then 1 else 0)
  }

  /** The octets of the k-th packet built. */
  function BuiltOctets(apids: seq<u16>, log: seq<Built>, k: nat): seq<byte>
    requires Apids(apids) && k < |log| && Buildable(log[k])
  {
    PacketOf(apids[log[k].cls], CountOf(log[..k], log[k].cls) % COUNTS, log[k].app)
  }

  function DeliveryOf(log: seq<Built>, k: nat): Delivery
    requires k < |log|
  {
    Delivery(log[k].cls, CountOf(log[..k], log[k].cls))
  }

  /** Any packet built, whenever it arrives, is routed to its class with its own data and
      heard as its own build index. */
  lemma ArrivesAsBuilt(apids: seq<u16>, log: seq<Built>, k: nat)
    requires Apids(apids) && k < |log| && Buildable(log[k])
    ensures var v := Examine(apids, BuiltOctets(apids, log, k)); var d := DeliveryOf(log, k);
      v.Routed? && v.cls == d.cls == log[k].cls && v.app == log[k].app && v.header.count == d.index % COUNTS
  {
    hide Examine, PacketOf, CountOf;
    BuiltIsRouted(apids, log[k].cls, CountOf(log[..k], log[k].cls) % COUNTS, log[k].app);
  }

  lemma {:induction false} CountOfMore(log: seq<Built>, cls: nat, j: nat, k: nat)
    requires j <= k <= |log|
    ensures CountOf(log[..j], cls) <= CountOf(log[..k], cls)
    ensures forall i :: j <= i < k && log[i].cls == cls ==> CountOf(log[..j], cls) < CountOf(log[..k], cls)
  {
    if j < k {
      CountOfMore(log, cls, j, k - 1);
      assert log[..k][..k - 1] == log[..k - 1];
    }
  }

  /** Packets of one class are heard in the order they were built, so a break between two
      of them means that packets of that class built in between were lost. */
  lemma BreakMeansLoss(log: seq<Built>, j: nat, k: nat)
    requires j < k < |log| && log[j].cls == log[k].cls
    ensures DeliveryOf(log, j).index < DeliveryOf(log, k).index
    ensures !Adjacent(DeliveryOf(log, j).index, DeliveryOf(log, k).index) ==>
      CountOf(log[..k], log[k].cls) > CountOf(log[..j + 1], log[k].cls)
  {
    hide Adjacent;
    var c := log[k].cls;
    CountOfMore(log, c, j, k);
    CountOfMore(log, c, j + 1, k);
    assert log[..j + 1][..j] == log[..j];
    LossShowsExactly(CountOf(log[..j], c), CountOf(log[..k], c));
  }

  /** What one received packet adds to what the receiver has heard. */
  function HeardPacket(h: Hearing, v: Verdict): (r: Hearing)
    requires |h.awaited| == CLASSES
    requires v.Routed? ==> v.cls < CLASSES && v.header.count < COUNTS
    ensures |r.awaited| == CLASSES
  {
    if v.Routed? then Heard(h, v.cls, v.header.count) else h
  }

  lemma RoutedIsLegal(apids: seq<u16>, packet: seq<byte>)
    ensures var v := Examine(apids, packet); v.Routed? ==> v.cls < |apids| && v.header.count < COUNTS
  {
    hide Parsed, Crc.Checksum;
  }

  function HeardPackets(apids: seq<u16>, packets: seq<seq<byte>>): (h: Hearing)
    requires |apids| == CLASSES
    ensures |h.awaited| == CLASSES
  {
    if packets == [] then SILENCE
    else
      RoutedIsLegal(apids, packets[|packets| - 1]);
      HeardPacket(HeardPackets(apids, packets[..|packets| - 1]), Examine(apids, packets[|packets| - 1]))
  }

  /** Any packets built, delivered in any order and with any losses. */
  predicate Picks(log: seq<Built>, picks: seq<nat>)
  {
    && (forall k :: 0 <= k < |log| ==> Buildable(log[k]))
    && forall i :: 0 <= i < |picks| ==> picks[i] < |log|
  }

  function Deliveries(log: seq<Built>, picks: seq<nat>): (ds: seq<Delivery>)
    requires Picks(log, picks)
    ensures OfClasses(ds)
  {
    seq(|picks|, i requires 0 <= i < |picks| => DeliveryOf(log, picks[i]))
  }

  function Packets(apids: seq<u16>, log: seq<Built>, picks: seq<nat>): seq<seq<byte>>
    requires Apids(apids) && Picks(log, picks)
  {
    seq(|picks|, i requires 0 <= i < |picks| => BuiltOctets(apids, log, picks[i]))
  }

  lemma {:induction false} HeardAsDelivered(apids: seq<u16>, log: seq<Built>, picks: seq<nat>)
    requires Apids(apids) && Picks(log, picks)
    ensures HeardPackets(apids, Packets(apids, log, picks)) == HeardAll(Deliveries(log, picks))
  {
    hide Examine, BuiltOctets, DeliveryOf, Heard;
    if picks != [] {
      var rest := picks[..|picks| - 1];
      HeardAsDelivered(apids, log, rest);
      assert Packets(apids, log, picks)[..|picks| - 1] == Packets(apids, log, rest);
      assert Deliveries(log, picks)[..|picks| - 1] == Deliveries(log, rest);
      ArrivesAsBuilt(apids, log, picks[|picks| - 1]);
    }
  }

  /** The gap counter of a receiver given any of the packets a sender built, end to end. */
  lemma GapsEndToEnd(apids: seq<u16>, log: seq<Built>, picks: seq<nat>)
    requires Apids(apids) && Picks(log, picks)
    ensures HeardPackets(apids, Packets(apids, log, picks)).gaps == Wrap(Breaks(Deliveries(log, picks)))
  {
    hide HeardPackets, HeardAll, Packets, Deliveries, Wrap, Breaks;
    HeardAsDelivered(apids, log, picks);
    GapsAreBreaks(Deliveries(log, picks));
  }

  // ---------- the packet layer in place ----------

  datatype Handed = Nothing | Handed(cls: nat, header: Header, app: seq<byte>)

  /** comm_ccsds_build_header. */
  method BuildHeader(h: Header, buf: array<byte>) returns (st: Status)
    modifies buf
    ensures st == if buf.Length < HEADER_BYTES then ErrParam else if !Fits(h) then ErrRange else Ok
    ensures st != Ok ==> buf[..] == old(buf[..])
    ensures st == Ok ==> buf[..HEADER_BYTES] == Octets(h) && buf[HEADER_BYTES..] == old(buf[HEADER_BYTES..])
  {
    hide FirstWord, SecondWord;
    if buf.Length < HEADER_BYTES {
      return ErrParam;
    }
    if h.version > 7 || h.apid > APID_MAX || h.count > COUNTS - 1 {
      return ErrRange;
    }
    var a, b, c := Put16(FirstWord(h)), Put16(SecondWord(h)), Put16(h.dataLength);
    buf[0], buf[1], buf[2], buf[3], buf[4], buf[5] := a[0], a[1], b[0], b[1], c[0], c[1];
    assert buf[..HEADER_BYTES] == a + b + c;
    return Ok;
  }

  /** comm_ccsds_parse_header. */
  method ParseHeader(buf: seq<byte>) returns (st: Status, h: Header)
    ensures st == if |buf| < HEADER_BYTES then ErrParam else Ok
    ensures st == Ok ==> h == Parsed(buf)
  {
    if |buf| < HEADER_BYTES {
      return ErrParam, Header(0, 0, false, 0, 0, 0, 0);
    }
    var word0, word1 := Get16(buf, 0), Get16(buf, 2);
    h := Header(word0 / 0x2000, (word0 / 0x1000) % 2, (word0 / 0x800) % 2 != 0, word0 % 0x800, word1 / 0x4000, word1 % 0x4000, Get16(buf, 4));
    st := Ok;
  }

  class PacketLayer {
    var apid: seq<u16>
    var registered: seq<bool>
    var txCount: seq<u16>
    var sent: seq<u32>
    var seen: seq<bool>
    var awaited: seq<u16>
    var received: seq<u32>
    var gaps: u32
    var integrityErrors: u32
    var lengthErrors: u32
    var unroutable: u32
    ghost var log: seq<Built>

    ghost predicate Shaped()
      reads this
    {
      && Apids(apid)
      && |apid| == |registered| == |txCount| == |sent| == |seen| == |awaited| == |received| == CLASSES
    }

    /** The transmit counts are the numbers of packets built, as far as 14 and 32 bits go. */
    ghost predicate Counting()
      reads this
    {
      && |txCount| == |sent| == CLASSES
      && (forall k :: 0 <= k < |log| ==> Buildable(log[k]))
      && forall c :: 0 <= c < CLASSES ==> txCount[c] == CountOf(log, c) % COUNTS && sent[c] == Wrap(CountOf(log, c))
    }

    ghost function Hears(): (h: Hearing)
      requires Shaped()
      reads this
      ensures |h.awaited| == CLASSES
    {
      Hearing(seq(CLASSES, i requires 0 <= i < CLASSES && Shaped() reads this => if seen[i] then Next(awaited[i]) else Unheard), gaps)
    }

    constructor ()
      ensures Shaped() && Counting() && apid == K_DEFAULT_APID && log == []
      ensures Hears() == SILENCE
    {
      apid := K_DEFAULT_APID;
      registered := seq(CLASSES, i => false);
      txCount := seq(CLASSES, i => 0);
      sent := seq(CLASSES, i => 0);
      seen := seq(CLASSES, i => false);
      awaited := seq(CLASSES, i => 0);
      received := seq(CLASSES, i => 0);
      gaps, integrityErrors, lengthErrors, unroutable := 0, 0, 0, 0;
      log := [];
      new;
      assert Hears().awaited == SILENCE.awaited;
    }

    /** comm_ccsds_set_apid: accepted exactly if the identifier is usable and no other class
        has it, so identifiers stay distinct under every reassignment. */
    method SetApid(cls: nat, a: u16) returns (st: Status)
      requires Shaped()
      modifies this`apid
      ensures Shaped()
      ensures st == if cls >= CLASSES || a > APID_MAX || a == APID_IDLE then ErrParam
                    else if exists i :: 0 <= i < CLASSES && i != cls && old(apid)[i] == a then ErrState
                    else Ok
      ensures apid == if st == Ok then old(apid)[cls := a] else old(apid)
    {
      if cls >= CLASSES || a > APID_MAX || a == APID_IDLE {
        return ErrParam;
      }
      for i := 0 to CLASSES
        invariant forall j :: 0 <= j < i && j != cls ==> apid[j] != a
        invariant apid == old(apid)
      {
        if i != cls && apid[i] == a {
          return ErrState;
        }
      }
      apid := apid[cls := a];
      return Ok;
    }

    /** comm_ccsds_class_of: the class with this identifier, or the number of classes. */
    method ClassOf(a: u16) returns (cls: nat)
      requires Shaped()
      ensures cls == ClassFrom(apid, a, 0)
      ensures cls <= CLASSES && (cls < CLASSES <==> a in apid) && (cls < CLASSES ==> apid[cls] == a)
    {
      var i := 0;
      while i < CLASSES
        invariant 0 <= i <= CLASSES && ClassFrom(apid, a, i) == ClassFrom(apid, a, 0)
        invariant forall j :: 0 <= j < i ==> apid[j] != a
      {
        if apid[i] == a {
          return i;
        }
        i := i + 1;
      }
      return CLASSES;
    }

    /** comm_ccsds_register. */
    method Register(cls: nat, given: bool) returns (st: Status)
      requires Shaped()
      modifies this`registered
      ensures Shaped()
      ensures st == if cls >= CLASSES || !given then ErrParam else if old(registered)[cls] then ErrState else Ok
      ensures registered == if st == Ok then old(registered)[cls := true] else old(registered)
    {
      if cls >= CLASSES || !given {
        return ErrParam;
      }
      if registered[cls] {
        return ErrState;
      }
      registered := registered[cls := true];
      return Ok;
    }

    /** comm_ccsds_build: the packet in the buffer is the next of its class. */
    method Build(cls: nat, app: seq<byte>, buf: array<byte>) returns (st: Status, written: nat)
      requires Shaped() && Counting() && |app| + HEADER_BYTES + INTEGRITY_BYTES < TWO_32
      modifies buf, this`txCount, this`sent, this`log
      ensures Shaped() && Counting()
      ensures st == if cls >= CLASSES then ErrParam
                    else if |app| + INTEGRITY_BYTES > DATA_FIELD_MAX || buf.Length < HEADER_BYTES + |app| + INTEGRITY_BYTES then ErrRange
                    else Ok
      ensures log == if st == Ok then old(log) + [Built(cls, app)] else old(log)
      ensures st != Ok ==> buf[..] == old(buf[..])
      ensures st == Ok ==>
        && written == HEADER_BYTES + |app| + INTEGRITY_BYTES
        && buf[..written] == BuiltOctets(apid, log, |log| - 1)
        && buf[written..] == old(buf[written..])
    {
      hide Crc.Checksum, Put32, Octets, CountOf, Wrap, Apids;
      written := 0;
      if cls >= CLASSES {
        return ErrParam, 0;
      }
      var field := |app| + INTEGRITY_BYTES;
      var total := HEADER_BYTES + field;
      if field == 0 || field > DATA_FIELD_MAX || buf.Length < total {
        return ErrRange, 0;
      }
      CountBelow(cls);
      Fill(cls, app, buf);
      Advance(cls, app);
      return Ok, total;
    }

    lemma CountBelow(cls: nat)
      requires Shaped() && Counting() && cls < CLASSES
      ensures apid[cls] < APID_IDLE && txCount[cls] < COUNTS
    {
    }

    method Fill(cls: nat, app: seq<byte>, buf: array<byte>)
      requires Shaped() && cls < CLASSES && apid[cls] <= APID_MAX && txCount[cls] < COUNTS
      requires |app| + INTEGRITY_BYTES <= DATA_FIELD_MAX && buf.Length >= HEADER_BYTES + |app| + INTEGRITY_BYTES
      modifies buf
      ensures var total := HEADER_BYTES + |app| + INTEGRITY_BYTES;
        buf[..total] == PacketOf(apid[cls], txCount[cls], app) && buf[total..] == old(buf[total..])
    {
      hide Crc.Checksum, Put32, Octets, Apids;
      var total := HEADER_BYTES + |app| + INTEGRITY_BYTES;
      var h := BuiltHeader(apid[cls], txCount[cls], |app|);
      var st := BuildHeader(h, buf);
      assert buf[total..] == old(buf[HEADER_BYTES..])[|app| + INTEGRITY_BYTES..];
      for i := 0 to |app|
        invariant buf[..HEADER_BYTES] == Octets(h)
        invariant buf[HEADER_BYTES..HEADER_BYTES + i] == app[..i]
        invariant buf[total..] == old(buf[total..])
      {
        buf[HEADER_BYTES + i] := app[i];
      }
      ghost var head := buf[..HEADER_BYTES + |app|];
      assert head == Octets(h) + app;
      var c := Crc.Crc32(app);
      var octets := Put32(c);
      var at := HEADER_BYTES + |app|;
      buf[at], buf[at + 1], buf[at + 2], buf[at + 3] := octets[0], octets[1], octets[2], octets[3];
      assert buf[at..total] == octets;
      assert buf[..total] == buf[..at] + buf[at..total];
      assert buf[..at] == head;
    }

    /** The count wraps within its fourteen bits. */
    method Advance(cls: nat, app: seq<byte>)
      requires Shaped() && Counting() && Buildable(Built(cls, app))
      modifies this`txCount, this`sent, this`log
      ensures Shaped() && Counting() && log == old(log) + [Built(cls, app)]
      ensures CountOf(log[..|log| - 1], cls) % COUNTS == old(txCount)[cls]
    {
      hide Apids, Wrap;
      WrapAdd(CountOf(log, cls), 1);
      txCount := txCount[cls := (txCount[cls] + 1) % COUNTS];
      sent := sent[cls := Wrap((sent[cls] as int) + 1)];
      log := log + [Built(cls, app)];
      assert log[..|log| - 1] == old(log);
    }

    /** The count is checked only once the packet is known to be whole and routable. */
    method Hear(cls: nat, count: u16)
      requires Shaped() && cls < CLASSES && count < COUNTS
      modifies this`seen, this`awaited, this`received, this`gaps
      ensures Shaped()
      ensures Hears() == Heard(old(Hears()), cls, count)
      ensures received == old(received)[cls := Wrap((old(received)[cls] as int) + 1)]
    {
      hide Apids, Wrap;
      if seen[cls] && count != awaited[cls] {
        gaps := Wrap(gaps + 1);
      }
      seen := seen[cls := true];
      awaited := awaited[cls := (count + 1) % COUNTS];
      received := received[cls := Wrap((received[cls] as int) + 1)];
      assert Hears().awaited == Heard(old(Hears()), cls, count).awaited;
    }

    /** comm_ccsds_receive: `answer` is what the class's consumer returns. */
    method Receive(packet: seq<byte>, answer: Status) returns (st: Status, handed: Handed)
      requires Shaped() && |packet| < TWO_32
      modifies this`seen, this`awaited, this`received, this`gaps, this`integrityErrors, this`lengthErrors, this`unroutable
      ensures Shaped()
      ensures var v := Examine(apid, packet);
        && (v.Routed? ==> v.cls < CLASSES && v.header.count < COUNTS)
        && Hears() == HeardPacket(old(Hears()), v)
        && received == (if v.Routed? then old(received)[v.cls := Wrap((old(received)[v.cls] as int) + 1)] else old(received))
        && lengthErrors == (if v.WrongLength? then Wrap(old(lengthErrors) + 1) else old(lengthErrors))
        && integrityErrors == (if v.WrongChecksum? then Wrap(old(integrityErrors) + 1) else old(integrityErrors))
        && unroutable == (if v.NoSuchClass? || (v.Routed? && !registered[v.cls]) then Wrap(old(unroutable) + 1) else old(unroutable))
        && handed == (if v.Routed? && registered[v.cls] then Handed(v.cls, v.header, v.app) else Nothing)
        && st == (match v
                  case TooShort => ErrParam
                  case WrongLength => ErrIntegrity
                  case WrongChecksum => ErrIntegrity
                  case NoSuchClass => ErrUnsupported
                  case Routed(cls, _, _) => if registered[cls] then answer else ErrUnsupported)
    {
      hide Apids, Wrap, Crc.Checksum, Parsed, ClassFrom, Get32;
      RoutedIsLegal(apid, packet);
      handed := Nothing;
      var parsed, h := ParseHeader(packet);
      if parsed != Ok {
        return parsed, Nothing;
      }
      var field := (h.dataLength as int) + 1;
      if HEADER_BYTES + field != |packet| || field < INTEGRITY_BYTES {
        lengthErrors := Wrap(lengthErrors + 1);
        return ErrIntegrity, Nothing;
      }
      var app := packet[HEADER_BYTES..|packet| - INTEGRITY_BYTES];
      var c := Crc.Crc32(app);
      if Get32(packet, |packet| - INTEGRITY_BYTES) != c {
        integrityErrors := Wrap(integrityErrors + 1);
        return ErrIntegrity, Nothing;
      }
      var cls := ClassOf(h.apid);
      if cls >= CLASSES {
        unroutable := Wrap(unroutable + 1);
        return ErrUnsupported, Nothing;
      }
      assert Examine(apid, packet) == Routed(cls, h, app);
      Hear(cls, h.count);
      if !registered[cls] {
        unroutable := Wrap(unroutable + 1);
        return ErrUnsupported, Nothing;
      }
      return answer, Handed(cls, h, app);
    }
  }

  /** Build on one side, receive on the other under the same identifiers: the consumer of
      the class is handed exactly the octets the packet was built from. */
  method BuildThenReceive(tx: PacketLayer, rx: PacketLayer, cls: nat, app: seq<byte>, buf: array<byte>, answer: Status)
      returns (st: Status, handed: Handed)
    requires tx != rx && tx.Shaped() && tx.Counting() && rx.Shaped() && rx.apid == tx.apid
    requires cls < CLASSES && rx.registered[cls]
    requires |app| + INTEGRITY_BYTES <= DATA_FIELD_MAX && buf.Length >= HEADER_BYTES + |app| + INTEGRITY_BYTES
    modifies buf, tx`txCount, tx`sent, tx`log
    modifies rx`seen, rx`awaited, rx`received, rx`gaps, rx`integrityErrors, rx`lengthErrors, rx`unroutable
    ensures st == answer && handed.Handed? && handed.cls == cls && handed.app == app
    ensures handed.header.count == CountOf(old(tx.log), cls) % COUNTS
  {
    hide Crc.Checksum, Parsed, BuiltOctets, CountOf, Apids, Examine;
    var built, written := tx.Build(cls, app, buf);
    ArrivesAsBuilt(tx.apid, tx.log, |tx.log| - 1);
    assert tx.log[..|tx.log| - 1] == old(tx.log);
    st, handed := rx.Receive(buf[..written], answer);
  }
}
