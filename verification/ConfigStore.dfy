/** The live parameter block: its limits, its checksum, its stored image, and the pass
    that finds and repairs a block changed behind the setter's back. */
module ConfigStore {
  import opened Words
  import Crc
  import StoredChecksum
  import opened Calibration

  const PARAMS: nat := 30
  const MAGIC: u32 := 0x51434647
  const VERSION: u32 := 1

  type int32 = n: int | -0x8000_0000 <= n < 0x8000_0000

  datatype Definition = Definition(min: int32, max: int32, initial: int32, writableInFlight: bool)

  const K_DEF: seq<Definition> := [
    Definition(0, 50000, 27000, true),       // laser_tec_setpoint
    Definition(1, 1000, 100, true),          // laser_tec_band
    Definition(1000, 120000, 15000, false),  // laser_tec_nominal
    Definition(1000, 120000, 30000, false),  // laser_tec_timeout
    Definition(55000, 60000, 57500, true),   // laser_bias_target
    Definition(1, 1000, 1000, true),         // laser_bias_ramp
    Definition(1, 50, 30, true),             // laser_li_tolerance
    Definition(1000, 120000, 10000, false),  // mrr_budget
    Definition(1000, 120000, 20000, false),  // crow_budget
    Definition(1, 10000, 1000, true),        // crow_pump_budget
    Definition(1000, 120000, 10000, false),  // umzi_budget
    Definition(1, 10000, 1500, true),        // dli_stable_band
    Definition(1000, 240000, 30000, false),  // dli_settle_nominal
    Definition(1000, 240000, 60000, false),  // dli_settle_max
    Definition(1000, 120000, 10000, false),  // dli_phase_lock
    Definition(1000, 240000, 80000, false),  // dli_budget
    Definition(1, 1000, 140, true),          // dli_lock_rms
    Definition(1, 1000, 100, true),          // dli_lock_rms_strict
    Definition(300, 500, 400, true),         // dli_servo_bw
    Definition(1000, 120000, 5000, false),   // spad_budget
    Definition(100, 10000, 2000, false),     // spad_dark_check
    Definition(2, 100, 10, true),            // spad_dark_abort
    Definition(2, 10, 2, true),              // spad_dark_log
    Definition(1000, 60000, 10000, false),   // pvs_t1_budget
    Definition(1000, 300000, 120000, false), // pvs_t2_budget
    Definition(15, 128, 15, true),           // pvs_sweep_points
    Definition(1, 10, 2, true),              // pvs_sweep_settle
    Definition(1000, 10000, 5000, true),     // pvs_integration
    Definition(100, 10000, 1000, true),      // hk_period
    Definition(100, 10000, 1000, true)       // spw_start_timeout
  ]

  function DefOf(id: nat): Definition
    requires id < PARAMS
  {
    K_DEF[id]
  }

  predicate InRange(id: nat, value: int32)
    requires id < PARAMS
  {
    DefOf(id).min <= value <= DefOf(id).max
  }

  lemma DefaultsInRange(id: nat)
    requires id < PARAMS
    ensures InRange(id, DefOf(id).initial)
  {
  }

  /** The durations the stages are held to. */
  const STAGE_TIMES: set<nat> := {2, 3, 7, 8, 10, 12, 13, 14, 15, 19, 20, 23, 24}

  /** Exactly the stages' times are locked in flight; the laser's temperature can under no
      condition be set outside 0 to 50 degrees. */
  lemma WhatMayBeSet(id: nat)
    requires id < PARAMS
    ensures DefOf(id).writableInFlight <==> id !in STAGE_TIMES
    ensures InRange(id, DefOf(id).min) && InRange(id, DefOf(id).max)
    ensures forall v: int32 :: InRange(0, v) <==> 0 <= v <= 50_000
  {
    DefaultsInRange(id);
  }

  type Block = vs: seq<int32> | |vs| == PARAMS witness seq(PARAMS, i => 0)

  predicate Legal(vs: Block)
  {
    forall i :: 0 <= i < PARAMS ==> InRange(i, vs[i])
  }

  function Defaults(): (vs: Block)
    ensures forall i :: 0 <= i < PARAMS ==> vs[i] == DefOf(i).initial
  {
    seq(PARAMS, i requires 0 <= i < PARAMS => DefOf(i).initial)
  }

  lemma DefaultsAreLegal()
    ensures Legal(Defaults())
  {
    forall i | 0 <= i < PARAMS
      ensures InRange(i, Defaults()[i])
    {
      DefaultsInRange(i);
    }
  }

  // ---------- bytes in memory, as the processor lays them out ----------

  function BlockBytes(vs: seq<int32>): (r: seq<byte>)
    ensures |r| == 4 * |vs|
  {
    if vs == [] then [] else InMemory(Wrap(vs[0])) + BlockBytes(vs[1..])
  }

  /** live_crc. */
  function LiveCrc(vs: seq<int32>): u32
  {
    Crc.Checksum(BlockBytes(vs))
  }

  datatype Image = Image(magic: u32, version: u32, count: u32, reserved: u32, value: Block, crc: u32)

  /** What the checksum of an image covers, and the whole image as storage holds it. */
  function ImageBody(i: Image): seq<byte>
  {
    InMemory(i.magic) + InMemory(i.version) + InMemory(i.count) + InMemory(i.reserved) + BlockBytes(i.value)
  }

  function ImageBytes(i: Image): seq<byte>
  {
    ImageBody(i) + InMemory(i.crc)
  }

  function ImageCrc(i: Image): u32
  {
    Crc.Checksum(ImageBody(i))
  }

  predicate ImageSound(i: Image)
  {
    i.magic == MAGIC && i.version == VERSION && ImageCrc(i) == i.crc
  }

  /** The image svc_config_save writes. */
  function ImageOf(vs: Block): Image
  {
    var i := Image(MAGIC, VERSION, PARAMS, 0, vs, 0);
    i.(crc := ImageCrc(i))
  }

  lemma SavedImageIsSound(vs: Block)
    ensures ImageSound(ImageOf(vs)) && ImageOf(vs).value == vs && ImageOf(vs).count == PARAMS
  {
    hide Crc.Checksum, BlockBytes;
  }

  /** A stored image changed within four consecutive octets anywhere, its marks and its
      checksum included, is not taken. */
  lemma DamagedImageRefused(i: Image, j: Image)
    requires ImageSound(i) && Crc.DamagedWithinFour(ImageBytes(i), ImageBytes(j))
    ensures !ImageSound(j)
  {
    hide Crc.Checksum, Crc.DamagedWithinFour, ImageBody, InMemory;
    if ImageSound(j) {
      EndsInChecksum(ImageBody(i), i.crc);
      EndsInChecksum(ImageBody(j), j.crc);
      StoredChecksum.InMemoryDamageShows(ImageBytes(i), ImageBytes(j));
    }
  }

  lemma EndsInChecksum(body: seq<byte>, crc: u32)
    requires crc == Crc.Checksum(body)
    ensures StoredChecksum.SealedInMemory(body + InMemory(crc))
  {
    hide Crc.Checksum, InMemory;
    var s := body + InMemory(crc);
    assert s[..|s| - 4] == body && s[|s| - 4..] == InMemory(crc);
  }

  lemma WordInMemoryInjective(v: u32, w: u32)
    requires InMemory(v) == InMemory(w)
    ensures v == w
  {
    var a, b := InMemory(v), InMemory(w);
    assert a[0] == b[0] && a[1] == b[1] && a[2] == b[2] && a[3] == b[3];
    OctetsOf(v);
    OctetsOf(w);
  }

  lemma SignedWordInjective(v: int32, w: int32)
    requires Wrap(v) == Wrap(w)
    ensures v == w
  {
  }

  lemma {:induction false} BlockBytesAt(vs: seq<int32>, i: nat)
    requires i < |vs|
    ensures BlockBytes(vs)[4 * i..4 * i + 4] == InMemory(Wrap(vs[i]))
  {
    hide InMemory, Wrap;
    if i > 0 {
      BlockBytesAt(vs[1..], i - 1);
      assert BlockBytes(vs)[4 * i..4 * i + 4] == BlockBytes(vs[1..])[4 * (i - 1)..4 * (i - 1) + 4];
    }
  }

  /** Two blocks that differ in one parameter have memory that differs within four octets. */
  lemma OneParameterIsFourOctets(vs: seq<int32>, ws: seq<int32>, k: nat)
    requires |vs| == |ws| && k < |vs|
    requires vs[k] != ws[k] && forall i :: 0 <= i < |vs| && i != k ==> vs[i] == ws[i]
    ensures Crc.DamagedWithinFour(BlockBytes(vs), BlockBytes(ws))
  {
    hide InMemory, Wrap, BlockBytes;
    var a, b := BlockBytes(vs), BlockBytes(ws);
    if a == b {
      BlockBytesAt(vs, k);
      BlockBytesAt(ws, k);
      WordInMemoryInjective(Wrap(vs[k]), Wrap(ws[k]));
      SignedWordInjective(vs[k], ws[k]);
    }
    forall n | 0 <= n < |a| && a[n] != b[n]
      ensures 4 * k <= n < 4 * k + 4
    {
      var i := n / 4;
      BlockBytesAt(vs, i);
      BlockBytesAt(ws, i);
      assert a[n] == a[4 * i..4 * i + 4][n % 4] && b[n] == b[4 * i..4 * i + 4][n % 4];
    }
    assert Crc.WithinFour(a, b, 4 * k);
  }

  /** Corruption of one parameter changes the live checksum, even if the value it leaves
      is within the parameter's limits. */
  lemma OneParameterCorruptionShows(vs: seq<int32>, ws: seq<int32>, k: nat)
    requires |vs| == |ws| && k < |vs|
    requires vs[k] != ws[k] && forall i :: 0 <= i < |vs| && i != k ==> vs[i] == ws[i]
    ensures LiveCrc(vs) != LiveCrc(ws)
  {
    hide Crc.Checksum, Crc.DamagedWithinFour;
    OneParameterIsFourOctets(vs, ws, k);
    Crc.FourOctetDamageDetected(BlockBytes(vs), BlockBytes(ws));
  }

  // ---------- what a stored image does to a block ----------

  /** How many parameters an image supplies: its own count, but no more than are known. */
  function Supplied(i: Image): nat
  {
    if i.count < PARAMS then i.count else PARAMS
  }

  /** read_params on a sound image: what it supplies within limits is taken, what it
      supplies outside them becomes the default, and the rest stays as it is. */
  function Merged(vs: Block, image: Image): (r: Block)
    ensures forall i :: Supplied(image) <= i < PARAMS ==> r[i] == vs[i]
    ensures forall i :: 0 <= i < Supplied(image) ==> r[i] == (if InRange(i, image.value[i]) then image.value[i] else DefOf(i).initial)
  {
    seq(PARAMS, i requires 0 <= i < PARAMS =>
      if i >= Supplied(image) then vs[i] else if InRange(i, image.value[i]) then image.value[i] else DefOf(i).initial)
  }

  /** What taking a sound image over leaves, and what it tells: parameter by parameter, those
      the image counts take its value if that is within the parameter's limits and the default
      if not; the rest keep their own. */
  ghost predicate TakenOver(vs: Block, image: Image, r: Block)
  {
    forall i :: 0 <= i < PARAMS ==>
      r[i] == if i >= image.count then vs[i]
              else if K_DEF[i].min <= image.value[i] <= K_DEF[i].max then image.value[i]
              else K_DEF[i].initial
  }

  ghost predicate AllWithinLimits(image: Image)
  {
    forall i :: 0 <= i < PARAMS && i < image.count ==> K_DEF[i].min <= image.value[i] <= K_DEF[i].max
  }

  lemma MergedIsTakenOver(vs: Block, image: Image)
    ensures TakenOver(vs, image, Merged(vs, image))
    ensures SuppliesLegal(image) <==> AllWithinLimits(image)
  {
    forall i | 0 <= i < PARAMS
      ensures InRange(i, image.value[i]) <==> K_DEF[i].min <= image.value[i] <= K_DEF[i].max
    {
    }
  }

  /** How many of the first n parameters an image supplies out of range. */
  function Corrected(image: Image, n: nat): nat
    requires n <= PARAMS
  {
    if n == 0 then 0 else Corrected(image, n - 1) + (if InRange(n - 1, image.value[n - 1]) then 0 else 1)
  }

  lemma {:induction false} NoneCorrected(image: Image, n: nat)
    requires n <= PARAMS
    ensures Corrected(image, n) == 0 <==> forall i :: 0 <= i < n ==> InRange(i, image.value[i])
  {
    hide InRange;
    if n > 0 {
      NoneCorrected(image, n - 1);
    }
  }

  predicate SuppliesLegal(image: Image)
  {
    forall i :: 0 <= i < Supplied(image) ==> InRange(i, image.value[i])
  }

  lemma NoneIsLegal(image: Image)
    ensures Corrected(image, Supplied(image)) == 0 <==> SuppliesLegal(image)
  {
    hide InRange;
    NoneCorrected(image, Supplied(image));
  }

  /** What reading the parameter image gives. */
  datatype Source = NoStorage | Unreadable | Holds(image: Image)

  predicate Usable(source: Source)
  {
    source.Holds? && ImageSound(source.image)
  }

  /** The block svc_config_verify leaves once it has found something wrong. */
  function Repaired(vs: Block, source: Source): Block
  {
    if Usable(source) && SuppliesLegal(source.image) then Merged(vs, source.image) else Defaults()
  }

  /** A repair leaves a legal block exactly when it does not rest on a short image, or the
      parameters the short image does not supply were legal all along. */
  lemma RepairIsLegalIff(vs: Block, source: Source)
    ensures Legal(Repaired(vs, source)) <==>
      || !(Usable(source) && SuppliesLegal(source.image))
      || forall i :: Supplied(source.image) <= i < PARAMS ==> InRange(i, vs[i])
  {
    hide InRange, ImageSound;
    DefaultsAreLegal();
    if Usable(source) && SuppliesLegal(source.image) {
      var r := Merged(vs, source.image);
      forall i | Supplied(source.image) <= i < PARAMS
        ensures r[i] == vs[i]
      {
      }
    }
  }

  /** A sound image that supplies every parameter repairs the block to exactly its values. */
  lemma FullImageRestores(vs: Block, image: Image)
    requires ImageSound(image) && image.count >= PARAMS && Legal(image.value)
    ensures Repaired(vs, Holds(image)) == image.value
  {
    hide InRange, ImageSound;
    assert Merged(vs, image) == image.value;
  }

  /** An image from an earlier build with no parameters at all leaves a corrupted one in. */
  lemma ShortImageKeepsCorruption()
    ensures var vs: Block := Defaults()[29 := -1];
      var image := Image(MAGIC, VERSION, 0, 0, Defaults(), 0).(crc := ImageCrc(Image(MAGIC, VERSION, 0, 0, Defaults(), 0)));
      && Usable(Holds(image))
      && Repaired(vs, Holds(image)) == vs
      && !Legal(vs)
  {
    hide Crc.Checksum, BlockBytes;
    var vs: Block := Defaults()[29 := -1];
    var bare := Image(MAGIC, VERSION, 0, 0, Defaults(), 0);
    var image := bare.(crc := ImageCrc(bare));
    assert Merged(vs, image) == vs;
    assert !InRange(29, vs[29]);
  }

  // ---------- the calibration record ----------

  const CAL_MAGIC: u32 := 0x5143_4C42
  const CAL_VERSION: u32 := 1
  const LI_POINTS: nat := 16

  /** The calibration record as it lies in storage: the curve, then ten more words. */
  datatype Record = Record(magic: u32, version: u32, count: u32, reserved: u32, curve: Curve, other: Others, crc: u32)

  type Curve = c: seq<Point> | |c| == LI_POINTS witness seq(LI_POINTS, i => Point(0, 0))

  type Others = w: seq<u32> | |w| == 10 witness seq(10, i => 0)

  const BLANK: Record := Record(0, 0, 0, 0, seq(LI_POINTS, i => Point(0, 0)), seq(10, i => 0), 0)

  datatype CalSource = Missing | Stored(record: Record)

  function CurveBytes(ps: seq<Point>): seq<byte>
  {
    if ps == [] then [] else InMemory(ps[0].current) + InMemory(ps[0].power) + CurveBytes(ps[1..])
  }

  function WordBytes(ws: seq<u32>): seq<byte>
  {
    if ws == [] then [] else InMemory(ws[0]) + WordBytes(ws[1..])
  }

  function RecordBytes(r: Record): seq<byte>
  {
    InMemory(r.magic) + InMemory(r.version) + InMemory(r.count) + InMemory(r.reserved) + CurveBytes(r.curve) + WordBytes(r.other)
  }

  /** read_calibration takes a record only if it is marked, checks, and counts no more
      points than it has. */
  predicate RecordSound(r: Record)
  {
    r.magic == CAL_MAGIC && r.version == CAL_VERSION && Crc.Checksum(RecordBytes(r)) == r.crc && r.count <= LI_POINTS
  }

  /** The same holds of a stored calibration record. */
  lemma DamagedRecordRefused(r: Record, q: Record)
    requires RecordSound(r) && Crc.DamagedWithinFour(RecordBytes(r) + InMemory(r.crc), RecordBytes(q) + InMemory(q.crc))
    ensures !RecordSound(q)
  {
    hide Crc.Checksum, Crc.DamagedWithinFour, RecordBytes, InMemory;
    if RecordSound(q) {
      EndsInChecksum(RecordBytes(r), r.crc);
      EndsInChecksum(RecordBytes(q), q.crc);
      StoredChecksum.InMemoryDamageShows(RecordBytes(r) + InMemory(r.crc), RecordBytes(q) + InMemory(q.crc));
    }
  }

  /** The record svc_config_calibration_set keeps and writes. */
  function Signed(r: Record): Record
  {
    var m := r.(magic := CAL_MAGIC, version := CAL_VERSION);
    m.(crc := Crc.Checksum(RecordBytes(m)))
  }

  // ---------- the block in place ----------

  class Config {
    const value: array<int32>
    var liveCrc: u32
    var locked: bool
    var changes: u32
    var rejections: u32
    var corrections: u32
    var cal: Record
    var calValid: bool

    ghost predicate Shaped()
    {
      value.Length == PARAMS
    }

    function Values(): Block
      requires Shaped()
      reads value
    {
      value[..]
    }

    /** The checksum on record is that of the block. */
    ghost predicate Matches()
      requires Shaped()
      reads this, value
    {
      liveCrc == LiveCrc(Values())
    }

    constructor ()
      ensures Shaped() && Matches() && Legal(Values()) && Values() == Defaults() && !locked && fresh(value)
    {
      hide InRange, DefOf, Crc.Checksum, LiveCrc, Legal;
      value := new int32[PARAMS](i => 0);
      liveCrc, locked, changes, rejections, corrections := 0, false, 0, 0, 0;
      cal, calValid := BLANK, false;
      new;
      LoadDefaults();
      DefaultsAreLegal();
    }

    method LiveChecksum() returns (c: u32)
      requires Shaped()
      ensures c == LiveCrc(Values())
    {
      c := Crc.Crc32(BlockBytes(value[..]));
    }

    method LoadDefaults()
      requires Shaped()
      modifies value, this`liveCrc
      ensures Values() == Defaults() && Matches()
    {
      hide InRange, DefOf, Crc.Checksum, LiveCrc;
      for i := 0 to PARAMS
        invariant forall j :: 0 <= j < i ==> value[j] == DefOf(j).initial
      {
        value[i] := DefOf(i).initial;
      }
      assert Values() == Defaults();
      liveCrc := LiveChecksum();
    }

    /** svc_config_set. */
    method Set(id: nat, v: int32) returns (st: Status)
      requires Shaped()
      modifies value, this`liveCrc, this`rejections, this`changes
      ensures st == if id >= PARAMS then ErrParam
                    else if !InRange(id, v) then ErrRange
                    else if locked && !DefOf(id).writableInFlight then ErrState
                    else Ok
      ensures Values() == if st == Ok then old(Values())[id := v] else old(Values())
      ensures st == Ok ==> Matches() && K_DEF[id].min <= v <= K_DEF[id].max
      ensures st == ErrRange ==> v < K_DEF[id].min || v > K_DEF[id].max
      ensures st != Ok ==> liveCrc == old(liveCrc)
      ensures changes == if st == Ok then Wrap(old(changes) + 1) else old(changes)
      ensures rejections == if st == ErrRange || st == ErrState then Wrap(old(rejections) + 1) else old(rejections)
      ensures old(Legal(Values())) ==> Legal(Values())
    {
      hide K_DEF, Crc.Checksum, LiveCrc;
      if id >= PARAMS {
        return ErrParam;
      }
      if !InRange(id, v) {
        rejections := Wrap(rejections + 1);
        return ErrRange;
      }
      if locked && !DefOf(id).writableInFlight {
        rejections := Wrap(rejections + 1);
        return ErrState;
      }
      value[id] := v;
      liveCrc := LiveChecksum();
      changes := Wrap(changes + 1);
      return Ok;
    }

    /** svc_config_lock, svc_config_unlock. */
    method SetLocked(given: bool)
      modifies this`locked
      ensures locked == given
    {
      locked := given;
    }

    /** A bit flip, a stray write: one parameter changes without the setter. */
    method Corrupt(id: nat, v: int32)
      requires Shaped() && id < PARAMS
      modifies value
      ensures Values() == old(Values())[id := v]
    {
      value[id] := v;
    }

    /** The tests an image has to pass before anything is taken from it. */
    method CheckImage(source: Source) returns (st: Status)
      requires !source.NoStorage?
      ensures st == if source.Unreadable? then ErrHardware else if !ImageSound(source.image) then ErrIntegrity else Ok
      ensures source.Holds? ==> (st == ErrIntegrity <==>
        var i := source.image;
        i.magic != MAGIC || i.version != VERSION || Crc.Checksum(ImageBody(i)) != i.crc)
    {
      hide Crc.Checksum, ImageBody;
      if source.Unreadable? {
        return ErrHardware;
      }
      var image := source.image;
      if image.magic != MAGIC || image.version != VERSION {
        return ErrIntegrity;
      }
      var computed := Crc.Crc32(ImageBody(image));
      return if computed != image.crc then ErrIntegrity else Ok;
    }

    /** read_params. */
    method ReadParams(source: Source) returns (st: Status)
      requires Shaped() && !source.NoStorage?
      modifies value, this`liveCrc, this`corrections
      ensures st == if source.Unreadable? then ErrHardware
                    else if !ImageSound(source.image) then ErrIntegrity
                    else if SuppliesLegal(source.image) then Ok
                    else ErrRange
      ensures st == ErrHardware || st == ErrIntegrity ==> Values() == old(Values()) && liveCrc == old(liveCrc)
      ensures st == Ok || st == ErrRange ==> Values() == Merged(old(Values()), source.image) && Matches()
      ensures st == Ok || st == ErrRange ==>
        TakenOver(old(Values()), source.image, Values()) && (st == Ok <==> AllWithinLimits(source.image))
      ensures corrections ==
        if st == Ok || st == ErrRange then Wrap(old(corrections) + Corrected(source.image, Supplied(source.image))) else old(corrections)
    {
      hide InRange, DefOf, Crc.Checksum, LiveCrc, Wrap, TakenOver, AllWithinLimits, ImageBody, ImageSound, SuppliesLegal, Merged, Corrected, Supplied;
      var checked := CheckImage(source);
      if checked != Ok {
        return checked;
      }
      var image := source.image;
      MergedIsTakenOver(Values(), image);
      NoneIsLegal(image);
      var corrected := TakeOver(image);
      liveCrc := LiveChecksum();
      return if corrected == 0 then Ok else ErrRange;
    }

    /** The parameters a sound image supplies, one by one. */
    method TakeOver(image: Image) returns (corrected: nat)
      requires Shaped()
      modifies value, this`corrections
      ensures Values() == Merged(old(Values()), image)
      ensures corrected == Corrected(image, Supplied(image)) && corrections == Wrap(old(corrections) + corrected)
    {
      hide InRange, DefOf, Wrap;
      ghost var vs := Values();
      var n := Supplied(image);
      corrected := 0;
      WrapSmall(corrections);
      for i := 0 to n
        invariant corrected == Corrected(image, i) && corrections == Wrap(old(corrections) + corrected)
        invariant forall j :: 0 <= j < i ==> value[j] == if InRange(j, image.value[j]) then image.value[j] else DefOf(j).initial
        invariant forall j :: i <= j < PARAMS ==> value[j] == vs[j]
      {
        if InRange(i, image.value[i]) {
          value[i] := image.value[i];
        } else {
          value[i] := DefOf(i).initial;
          WrapAdd(old(corrections) + corrected, 1);
          corrections := Wrap(corrections + 1);
          corrected := corrected + 1;
        }
      }
      assert Values() == Merged(vs, image);
    }

    /** read_calibration, and what svc_config_load makes of it: a record that cannot be
        taken leaves the calibration invalid. */
    method ReadCalibration(source: CalSource)
      modifies this`cal, this`calValid
      ensures calValid <==> source.Stored? && RecordSound(source.record)
      ensures source.Stored? ==> (calValid <==>
        var r := source.record;
        r.magic == CAL_MAGIC && r.version == CAL_VERSION && r.count <= LI_POINTS && Crc.Checksum(RecordBytes(r)) == r.crc)
      ensures cal == if calValid then source.record else old(cal)
    {
      hide Crc.Checksum;
      calValid := false;
      if source.Missing? {
        return;
      }
      var r := source.record;
      if r.magic != CAL_MAGIC || r.version != CAL_VERSION {
        return;
      }
      var computed := Crc.Crc32(RecordBytes(r));
      if computed != r.crc || r.count > LI_POINTS {
        return;
      }
      cal, calValid := r, true;
    }

    /** svc_config_calibration_set: what is written is what is kept. */
    method SetCalibration(given: Option<Record>, write: Option<Status>) returns (st: Status, written: Option<Record>)
      modifies this`cal, this`calValid, this`changes
      ensures st == if given.None? then ErrParam
                    else if given.value.count > LI_POINTS then ErrRange
                    else if write.None? then Ok
                    else write.value
      ensures given.None? || given.value.count > LI_POINTS ==>
        written == None && cal == old(cal) && calValid == old(calValid) && changes == old(changes)
      ensures given.Some? && given.value.count <= LI_POINTS ==>
        && cal == Signed(given.value) && calValid && RecordSound(cal)
        && written == (if write.None? then None else Some(cal)) && changes == Wrap(old(changes) + 1)
    {
      hide Crc.Checksum;
      if given.None? {
        return ErrParam, None;
      }
      if given.value.count > LI_POINTS {
        return ErrRange, None;
      }
      var updated := given.value.(magic := CAL_MAGIC, version := CAL_VERSION);
      var c := Crc.Crc32(RecordBytes(updated));
      cal, calValid := updated.(crc := c), true;
      changes := Wrap(changes + 1);
      if write.None? {
        return Ok, None;
      }
      return write.value, Some(cal);
    }

    /** svc_config_load: the status tells of the parameter block only. */
    method Load(source: Source, calSource: CalSource) returns (st: Status)
      requires Shaped()
      modifies value, this`liveCrc, this`corrections, this`cal, this`calValid
      ensures st == if source.NoStorage? then ErrUnsupported
                    else if !Usable(source) then ErrIntegrity
                    else if SuppliesLegal(source.image) then Ok
                    else ErrRange
      ensures st == ErrUnsupported ==> Values() == old(Values()) && liveCrc == old(liveCrc) && calValid == old(calValid) && cal == old(cal)
      ensures st != ErrUnsupported ==> Matches()
      ensures st == ErrIntegrity ==> Values() == Defaults()
      ensures st == Ok || st == ErrRange ==> Values() == Merged(old(Values()), source.image)
      ensures st == Ok || st == ErrRange ==>
        TakenOver(old(Values()), source.image, Values()) && (st == Ok <==> AllWithinLimits(source.image))
      ensures st != ErrUnsupported ==> (calValid <==> calSource.Stored? && RecordSound(calSource.record))
      ensures cal == if st != ErrUnsupported && calValid then calSource.record else old(cal)
      ensures corrections ==
        if st == Ok || st == ErrRange then Wrap(old(corrections) + Corrected(source.image, Supplied(source.image))) else old(corrections)
    {
      hide InRange, DefOf, Crc.Checksum, LiveCrc, ImageCrc, RecordSound;
      if source.NoStorage? {
        return ErrUnsupported;
      }
      st := ReadParams(source);
      if st != Ok && st != ErrRange {
        LoadDefaults();
        st := ErrIntegrity;
      }
      ReadCalibration(calSource);
    }

    /** svc_config_save: without storage nothing is written, and otherwise the caller learns
        what the write of the image came to. */
    method Save(write: Option<Status>) returns (st: Status, image: Option<Image>)
      requires Shaped()
      ensures st == if write.None? then ErrUnsupported else write.value
      ensures image == if write.None? then None else Some(ImageOf(Values()))
    {
      hide Crc.Checksum;
      if write.None? {
        return ErrUnsupported, None;
      }
      var bare := Image(MAGIC, VERSION, PARAMS, 0, value[..], 0);
      var c := Crc.Crc32(ImageBody(bare));
      return write.value, Some(bare.(crc := c));
    }

    /** How many live parameters are out of range. */
    method CheckLimits() returns (outOfRange: nat)
      requires Shaped()
      ensures outOfRange == 0 <==> Legal(Values())
    {
      hide InRange;
      outOfRange := 0;
      for i := 0 to PARAMS
        invariant outOfRange == 0 <==> forall j :: 0 <= j < i ==> InRange(j, value[j])
      {
        if !InRange(i, value[i]) {
          outOfRange := outOfRange + 1;
        }
      }
    }

    /** svc_config_verify. */
    method Verify(source: Source) returns (st: Status)
      requires Shaped()
      modifies value, this`liveCrc, this`corrections
      ensures st == if old(Matches() && Legal(Values())) then Ok else ErrIntegrity
      ensures st == Ok ==> Values() == old(Values()) && liveCrc == old(liveCrc)
      ensures st != Ok ==> Values() == Repaired(old(Values()), source) && Matches()
      ensures st != Ok ==>
        if Usable(source) && AllWithinLimits(source.image) then TakenOver(old(Values()), source.image, Values()) else Values() == Defaults()
      ensures corrections ==
        if st == Ok then old(corrections)
        else Wrap(old(corrections) + 1 + (if Usable(source) then Corrected(source.image, Supplied(source.image)) else 0))
    {
      hide InRange, DefOf, Crc.Checksum, LiveCrc, ImageSound, Wrap, AllWithinLimits, TakenOver, Legal, SuppliesLegal, Corrected;
      if source.Holds? {
        MergedIsTakenOver(Values(), source.image);
        WrapAdd(corrections + 1, Corrected(source.image, Supplied(source.image)));
      }
      var live := LiveChecksum();
      var outOfRange := CheckLimits();
      if live == liveCrc && outOfRange == 0 {
        return Ok;
      }
      corrections := Wrap(corrections + 1);
      if !source.NoStorage? {
        var r := ReadParams(source);
        if r == Ok {
          return ErrIntegrity;
        }
      }
      LoadDefaults();
      return ErrIntegrity;
    }
  }

  /** Save then load gives back exactly the block saved, whatever the block was meanwhile. */
  method SaveThenLoad(a: Config, b: Config, cal: CalSource) returns (st: Status)
    requires a.Shaped() && b.Shaped() && Legal(a.Values()) && a.value != b.value
    modifies b.value, b`liveCrc, b`corrections, b`cal, b`calValid
    ensures st == Ok && b.Values() == a.Values() && b.Matches()
  {
    hide InRange, LiveCrc, ImageSound, ImageOf, RecordSound;
    var saved, image := a.Save(Some(Ok));
    SavedImageIsSound(a.Values());
    st := b.Load(Holds(image.value), cal);
    assert b.Values() == a.Values();
  }

  /** A calibration set on one side and loaded on another arrives whole. */
  method CalibrateThenLoad(a: Config, b: Config, r: Record, source: Source) returns (st: Status)
    requires a != b && b.Shaped() && r.count <= LI_POINTS && !source.NoStorage?
    modifies a`cal, a`calValid, a`changes, b.value, b`liveCrc, b`corrections, b`cal, b`calValid
    ensures b.calValid && b.cal == a.cal && b.cal.count == r.count && b.cal.curve == r.curve && b.cal.other == r.other
  {
    hide RecordSound, InRange, LiveCrc, ImageSound;
    var first, written := a.SetCalibration(Some(r), Some(Ok));
    st := b.Load(source, Stored(written.value));
  }

  /** Corruption of one parameter of a sound block is found; with a legal full image, or
      none that can be used, the block comes out legal and matching, equal to the image
      or to the defaults, and a second look finds nothing. */
  method CorruptVerifyVerify(c: Config, id: nat, v: int32, source: Source) returns (first: Status, second: Status)
    requires c.Shaped() && c.Matches() && id < PARAMS && c.Values()[id] != v
    requires Usable(source) ==> source.image.count >= PARAMS
    modifies c.value, c`liveCrc, c`corrections
    ensures first == ErrIntegrity && second == Ok
    ensures c.Matches() && Legal(c.Values())
    ensures c.Values() == if Usable(source) && Legal(source.image.value) then source.image.value else Defaults()
  {
    hide InRange, LiveCrc, ImageSound;
    ghost var vs := c.Values();
    c.Corrupt(id, v);
    OneParameterCorruptionShows(vs, c.Values(), id);
    first := c.Verify(source);
    RepairIsLegalIff(vs[id := v], source);
    if Usable(source) && Legal(source.image.value) {
      FullImageRestores(vs[id := v], source.image);
    }
    second := c.Verify(source);
  }
}
