/** The telecommand sequence: checking, dispatch, tracking, and the one terminal
    result every received command gets. */
module CommandSequence {
  import opened Words
  import Crc
  import FrameAssembler
  import Seal
  import SealBits

  const VERSION: byte := 1
  const COMMANDS: nat := 11

  datatype Definition = Definition(earlyOnly: bool, takesParameter: bool, budgetMs: u32)

  /** k_cmd, in identifier order; the mode command's only legal parameter is zero. */
  const K_CMD: seq<Definition> := [
    Definition(true, false, 2000),    // payload_on
    Definition(true, false, 2000),    // processor_on
    Definition(false, false, 2000),   // payload_off
    Definition(true, false, 5000),    // laser_on
    Definition(false, false, 1000),   // laser_off
    Definition(true, false, 2000),    // heaters_on
    Definition(false, false, 1000),   // heaters_off
    Definition(false, true, 1000),    // mode
    Definition(false, false, 1000),   // processor_reset
    Definition(false, false, 1000),   // power_on_reset
    Definition(false, false, 1000)    // flight_mode_reset
  ]

  datatype Verdict =
    | Completed
    | Accepted
    | RejectFormat
    | RejectUnknown
    | RejectState
    | RejectParam
    | RejectBusy
    | Failed
    | TimedOut
  {
    predicate Terminal() { !Accepted? }

    predicate Rejection() { RejectFormat? || RejectUnknown? || RejectState? || RejectParam? || RejectBusy? }

    predicate Failure() { Failed? || TimedOut? }
  }

  /** What ties a result to the command it answers. */
  datatype Tag = Tag(id: byte, sequence: u16, receiptMs: u32)

  datatype Result = Result(tag: Tag, verdict: Verdict, detail: u32)

  datatype Running = Running(tag: Tag, parameter: u32)

  /** A handler was called: for which command, with what parameter. */
  datatype Call = Call(id: byte, parameter: u32)

  /** The numeric value of a status, as it appears in a result's detail. */
  function Code(st: Status): u32
  {
    match st
    case Ok => 0
    case ErrParam => 1
    case ErrState => 2
    case ErrTimeout => 3
    case ErrHardware => 4
    case ErrRange => 5
    case ErrIntegrity => 6
    case ErrBusy => 7
    case ErrUnsupported => 8
  }

  /** The number of a verdict on the link. */
  function Number(v: Verdict): byte
  {
    match v
    case Completed => 0
    case Accepted => 1
    case RejectFormat => 16
    case RejectUnknown => 17
    case RejectState => 18
    case RejectParam => 19
    case RejectBusy => 20
    case Failed => 32
    case TimedOut => 33
  }

  /** The verdicts in the order of their numbers: outcomes, rejections from 16 on, failures
      from 32 on. */
  const VERDICTS: seq<Verdict> := [Completed, Accepted, RejectFormat, RejectUnknown, RejectState, RejectParam, RejectBusy, Failed, TimedOut]

  /** The verdict a receiver reads from a number. */
  function VerdictAt(n: byte): Option<Verdict>
  {
    if n < 2 then Some(VERDICTS[n])
    else if 16 <= n < 21 then Some(VERDICTS[n - 14])
    else if 32 <= n < 34 then Some(VERDICTS[n - 25])
    else None
  }

  /** The statuses in the order of their numbers. */
  const STATUSES: seq<Status> := [Ok, ErrParam, ErrState, ErrTimeout, ErrHardware, ErrRange, ErrIntegrity, ErrBusy, ErrUnsupported]

  /** Numbers and verdicts determine each other, and a number tells by its upper digit
      whether the command was rejected, failed, or neither. */
  lemma VerdictsAreNumbered(v: Verdict, n: byte)
    ensures VerdictAt(n) == Some(v) <==> Number(v) == n
    ensures v.Rejection() <==> Number(v) / 16 == 1
    ensures v.Failure() <==> Number(v) / 16 == 2
  {
  }

  /** So do details and statuses. */
  lemma StatusesAreNumbered(st: Status, n: u32)
    ensures n < |STATUSES| && STATUSES[n] == st <==> Code(st) == n
  {
  }

  const RESULT_ID: byte := 0xC6
  const RESULT_FRAME: nat := 18

  /** The frame send_result() puts on the link. */
  function ResultFrame(r: Result): (f: seq<byte>)
    ensures |f| == RESULT_FRAME
  {
    var body := [RESULT_ID, VERSION] + Put32(r.tag.receiptMs) + Put16(r.tag.sequence) + [r.tag.id, Number(r.verdict)] + Put32(r.detail);
    body + Put32(Crc.Checksum(body))
  }

  /** What a result puts on the link: nothing until a transmit function is set. */
  function Told(transmit: bool, r: Result): seq<seq<byte>>
  {
    if transmit then [ResultFrame(r)] else []
  }

  predicate LegalIn(id: byte, stage: nat)
  {
    id < COMMANDS && stage < STAGES && (K_CMD[id].earlyOnly ==> stage < 2)
  }

  predicate TakesParameter(id: byte)
    requires id < COMMANDS
  {
    K_CMD[id].takesParameter
  }

  /** comm_cmd_build. */
  function Build(id: byte, parameter: u32, sequence: u16): (r: seq<byte>)
    ensures |r| == FrameAssembler.FRAME
  {
    var body := [FrameAssembler.MARKER, VERSION, id] + Put32(parameter) + Put16(sequence);
    body + Put32(Crc.Checksum(body))
  }

  function TagOf(frame: seq<byte>, now: u32): Tag
    requires |frame| == FrameAssembler.FRAME
  {
    Tag(frame[2], Get16(frame, 7), now)
  }

  /** A built frame is a whole frame, and is taken apart into what it was built from. */
  lemma BuiltFrameDecodes(id: byte, parameter: u32, sequence: u16, now: u32)
    ensures FrameAssembler.FrameOk(Build(id, parameter, sequence))
    ensures Build(id, parameter, sequence)[1] == VERSION
    ensures TagOf(Build(id, parameter, sequence), now) == Tag(id, sequence, now)
    ensures Get32(Build(id, parameter, sequence), 3) == parameter
  {
    hide Crc.Checksum;
    var body := [FrameAssembler.MARKER, VERSION, id] + Put32(parameter) + Put16(sequence);
    var f := Build(id, parameter, sequence);
    assert f[..9] == body && f[9..13] == Put32(Crc.Checksum(body));
    GetAfterPut32(f, 9, Crc.Checksum(body));
    assert f[3..7] == Put32(parameter) && f[7..9] == Put16(sequence);
    GetAfterPut32(f, 3, parameter);
    GetAfterPut16(f, 7, sequence);
  }

  /** The sequence number a frame's undetected change leaves. */
  function SlippedSequence(sequence: u16): u16
  {
    Get16([SealBits.Mixed(Put16(sequence)[0], 0x61), SealBits.Mixed(Put16(sequence)[1], 0xD8)], 0)
  }

  /** So a burst of four octets can turn the frame of a command into another valid frame,
      of the same command and parameter but another sequence number. */
  lemma BurstCanRenumber(id: byte, parameter: u32, sequence: u16)
    ensures SlippedSequence(sequence) != sequence
    ensures Crc.DamagedWithinFour(Build(id, parameter, sequence), Build(id, parameter, SlippedSequence(sequence)))
  {
    hide Crc.Checksum, Crc.DamagedWithinFour, Seal.Sealed, SealBits.Mixed, Put32, Put16, Get16, Get32;
    var f, t := Build(id, parameter, sequence), SlippedSequence(sequence);
    var g := Build(id, parameter, t);
    var s := Seal.Slipped(f);
    BuiltFrameDecodes(id, parameter, sequence, 0);
    BuiltFrameDecodes(id, parameter, t, 0);
    FrameAssembler.SlippedFrameIsFrame(f);
    var octets := [SealBits.Mixed(Put16(sequence)[0], 0x61), SealBits.Mixed(Put16(sequence)[1], 0xD8)];
    PutAfterGet16(octets, 0);
    assert f[7..9] == Put16(sequence);
    assert f[7] == f[7..9][0] && f[8] == f[7..9][1];
    assert s[..9] == f[..7] + octets;
    assert g[..9] == f[..7] + Put16(t);
    SameBodySameFrame(s, g);
    SealBits.MixedChanges(Put16(sequence)[0], 0x61);
    assert octets[0..2] == octets;
    assert Put16(t)[0] != Put16(sequence)[0];
  }

  /** For one, sequence number 0 becomes 0x61D8. */
  lemma ZeroIsRenumbered()
    ensures SlippedSequence(0) == 0x61D8
  {
    hide SealBits.Mixed;
    SealBits.MixedWithZero(0x61);
    SealBits.MixedWithZero(0xD8);
  }

  lemma SameBodySameFrame(s: seq<byte>, g: seq<byte>)
    requires |s| == |g| == FrameAssembler.FRAME && s[..9] == g[..9]
    requires FrameAssembler.FrameOk(s) && FrameAssembler.FrameOk(g)
    ensures s == g
  {
    hide Crc.Checksum, Get32, Put32;
    PutAfterGet32(s, 9);
    PutAfterGet32(g, 9);
    assert s == s[..9] + s[9..13] && g == g[..9] + g[9..13];
  }

  /** A result frame is sealed, and gives back the whole result it was made from: two
      different results never share a frame. */
  lemma ResultFrameDecodes(r: Result)
    ensures var f := ResultFrame(r);
      && Seal.Sealed(f) && f[0] == RESULT_ID && f[1] == VERSION
      && Tag(f[8], Get16(f, 6), Get32(f, 2)) == r.tag
      && VerdictAt(f[9]) == Some(r.verdict) && Get32(f, 10) == r.detail
  {
    hide Crc.Checksum, Put32, Put16, Get32, Get16;
    var f := ResultFrame(r);
    VerdictsAreNumbered(r.verdict, f[9]);
    assert f[2..6] == Put32(r.tag.receiptMs);
    assert f[6..8] == Put16(r.tag.sequence);
    assert f[10..14] == Put32(r.detail);
    assert f[14..18] == Put32(Crc.Checksum(f[..14]));
    GetAfterPut32(f, 2, r.tag.receiptMs);
    GetAfterPut16(f, 6, r.tag.sequence);
    GetAfterPut32(f, 10, r.detail);
    GetAfterPut32(f, 14, Crc.Checksum(f[..14]));
  }

  lemma ResultFramesDiffer(r: Result, q: Result)
    requires ResultFrame(r) == ResultFrame(q)
    ensures r == q
  {
    hide ResultFrame, Get32, Get16;
    ResultFrameDecodes(r);
    ResultFrameDecodes(q);
  }

  /** comm_cmd_build, into the caller's buffer. */
  method BuildFrame(id: byte, parameter: u32, sequence: u16, buf: array<byte>) returns (st: Status, written: nat)
    modifies buf
    ensures st == if buf.Length < FrameAssembler.FRAME then ErrParam else Ok
    ensures st != Ok ==> buf[..] == old(buf[..])
    ensures st == Ok ==>
      && written == FrameAssembler.FRAME && buf[..written] == Build(id, parameter, sequence)
      && buf[written..] == old(buf[written..])
  {
    hide Crc.Checksum, Put32, Put16;
    if buf.Length < FrameAssembler.FRAME {
      return ErrParam, 0;
    }
    var body := [FrameAssembler.MARKER, VERSION, id] + Put32(parameter) + Put16(sequence);
    var c := Crc.Crc32(body);
    var frame := body + Put32(c);
    forall i | 0 <= i < |frame| {
      buf[i] := frame[i];
    }
    return Ok, |frame|;
  }

  /** Commands that remove energy, and the resets, are legal in every stage; those
      that apply energy only in the first two. */
  lemma EnergyMayAlwaysBeRemoved(id: byte, stage: nat)
    requires id < COMMANDS && stage < STAGES
    ensures id in {2, 4, 6, 7, 8, 9, 10} ==> LegalIn(id, stage)
    ensures id in {0, 1, 3, 5} ==> (LegalIn(id, stage) <==> stage < 2)
  {
  }

  /** A command is given one second to finish; two if it switches supplies, or heaters on; to
      turn the laser on, five. */
  lemma CommandBudgets(id: byte)
    requires id < COMMANDS
    ensures K_CMD[id].budgetMs == if id == 3 then 5000 else if id in {0, 1, 2, 5} then 2000 else 1000
  {
  }

  /** The outcome of a frame: the first check that refuses it, or else what its handler
      returns. `running` is the command in hand, `st` the handler's answer. */
  function Judge(frame: seq<byte>, running: Option<Running>, handler: seq<bool>, stage: nat, st: Status): Verdict
    requires |frame| == FrameAssembler.FRAME && |handler| == COMMANDS
  {
    if frame[1] != VERSION then RejectFormat
    else if frame[2] >= COMMANDS then RejectUnknown
    else if running.Some? then RejectBusy
    else if !LegalIn(frame[2], stage) then RejectState
    else if TakesParameter(frame[2]) && Get32(frame, 3) != 0 then RejectParam
    else Answered(handler[frame[2]], st)
  }

  function Answered(hasHandler: bool, st: Status): Verdict
  {
    if !hasHandler then Failed
    else if st == Ok then Completed
    else if st == ErrBusy then Accepted
    else Failed
  }

  function DetailOf(v: Verdict, frame: seq<byte>, running: Option<Running>, handler: seq<bool>, stage: nat, st: Status): u32
    requires |frame| == FrameAssembler.FRAME && |handler| == COMMANDS && stage < STAGES
    requires v == Judge(frame, running, handler, stage, st)
  {
    match v
    case RejectFormat => frame[1]
    case RejectUnknown => frame[2]
    case RejectBusy => running.value.tag.id
    case RejectState => stage
    case RejectParam => Get32(frame, 3)
    case Failed => if handler[frame[2]] then Code(st) else Code(ErrUnsupported)
    case _ => 0
  }

  function ResultOf(frame: seq<byte>, now: u32, running: Option<Running>, handler: seq<bool>, stage: nat, st: Status): Result
    requires |frame| == FrameAssembler.FRAME && |handler| == COMMANDS && stage < STAGES
  {
    var v := Judge(frame, running, handler, stage, st);
    Result(TagOf(frame, now), v, DetailOf(v, frame, running, handler, stage, st))
  }

  lemma ResultCases(frame: seq<byte>, now: u32, running: Option<Running>, handler: seq<bool>, stage: nat, st: Status)
    requires |frame| == FrameAssembler.FRAME && |handler| == COMMANDS && stage < STAGES
    ensures TagOf(frame, now).id == frame[2]
    ensures LegalIn(frame[2], stage) ==> frame[2] < COMMANDS
    ensures var r := ResultOf(frame, now, running, handler, stage, st);
      var tag := TagOf(frame, now);
      if frame[1] != VERSION then r == Result(tag, RejectFormat, frame[1])
      else if frame[2] >= COMMANDS then r == Result(tag, RejectUnknown, frame[2])
      else if running.Some? then r == Result(tag, RejectBusy, running.value.tag.id)
      else if !LegalIn(frame[2], stage) then r == Result(tag, RejectState, stage)
      else if TakesParameter(frame[2]) && Get32(frame, 3) != 0 then r == Result(tag, RejectParam, Get32(frame, 3))
      else r == Dispatched(tag, handler[frame[2]], st)
  {
  }

  /** The result dispatch gives. */
  function Dispatched(tag: Tag, hasHandler: bool, st: Status): Result
  {
    var v := Answered(hasHandler, st);
    Result(tag, v, if !v.Failed? then 0 else if hasHandler then Code(st) else Code(ErrUnsupported))
  }

  /** The handler calls a frame leads to: one, of its own command with its parameter, exactly if
      the frame is in order, no command is in hand, and the command is legal in the stage and has
      a handler. */
  function CallsOf(frame: seq<byte>, running: Option<Running>, handler: seq<bool>, stage: nat): seq<Call>
    requires |frame| == FrameAssembler.FRAME && |handler| == COMMANDS
  {
    if frame[1] == VERSION && running.None? && LegalIn(frame[2], stage) && (frame[2] == 7 ==> Get32(frame, 3) == 0) && handler[frame[2]]
    then [Call(frame[2], Get32(frame, 3))] else []
  }

  lemma CallsCases(frame: seq<byte>, running: Option<Running>, handler: seq<bool>, stage: nat)
    requires |frame| == FrameAssembler.FRAME && |handler| == COMMANDS
    ensures frame[1] != VERSION || frame[2] >= COMMANDS || running.Some? || !LegalIn(frame[2], stage) ==> CallsOf(frame, running, handler, stage) == []
    ensures frame[2] < COMMANDS && TakesParameter(frame[2]) && Get32(frame, 3) != 0 ==> CallsOf(frame, running, handler, stage) == []
    ensures frame[1] == VERSION && running.None? && LegalIn(frame[2], stage) && !(TakesParameter(frame[2]) && Get32(frame, 3) != 0) ==>
      CallsOf(frame, running, handler, stage) == if handler[frame[2]] then [Call(frame[2], Get32(frame, 3))] else []
  {
    hide Get32;
  }

  /** A command is acted on exactly when nothing refuses it, and a command that removes
      energy is refused only for its form or because another one is running. */
  lemma ActedOnWhen(frame: seq<byte>, running: Option<Running>, handler: seq<bool>, stage: nat, st: Status)
    requires |frame| == FrameAssembler.FRAME && |handler| == COMMANDS && stage < STAGES
    ensures var v := Judge(frame, running, handler, stage, st);
      && !v.TimedOut?
      && (!v.Rejection() <==>
            && frame[1] == VERSION
            && running.None?
            && LegalIn(frame[2], stage)
            && (frame[2] == 7 ==> Get32(frame, 3) == 0))
      && (v.Completed? <==> !v.Rejection() && handler[frame[2]] && st == Ok)
      && (v.Accepted? <==> !v.Rejection() && handler[frame[2]] && st == ErrBusy)
      && (frame[1] == VERSION && frame[2] in {2, 4, 6, 8, 9, 10} && running.None? ==> !v.Rejection())
  {
  }

  /** Which check refuses a frame, and that its result says what was wrong with it: every
      verdict has exactly one cause, the first in this order. */
  lemma RefusedBecause(frame: seq<byte>, now: u32, running: Option<Running>, handler: seq<bool>, stage: nat, st: Status)
    requires |frame| == FrameAssembler.FRAME && |handler| == COMMANDS && stage < STAGES
    ensures var r := ResultOf(frame, now, running, handler, stage, st);
      var known := frame[1] == VERSION && frame[2] < COMMANDS;
      var free := known && running.None?;
      && r.tag.id == frame[2] && r.tag.sequence == Get16(frame, 7) && r.tag.receiptMs == now
      && (r.verdict.RejectFormat? <==> frame[1] != VERSION)
      && (r.verdict.RejectUnknown? <==> frame[1] == VERSION && frame[2] >= COMMANDS)
      && (r.verdict.RejectBusy? <==> known && running.Some?)
      && (r.verdict.RejectState? <==> free && frame[2] in {0, 1, 3, 5} && stage >= 2)
      && (r.verdict.RejectParam? <==> free && frame[2] == 7 && Get32(frame, 3) != 0)
      && (r.verdict.RejectFormat? ==> r.detail == frame[1])
      && (r.verdict.RejectUnknown? ==> r.detail == frame[2])
      && (r.verdict.RejectBusy? ==> r.detail == running.value.tag.id)
      && (r.verdict.RejectState? ==> r.detail == stage)
      && (r.verdict.RejectParam? ==> r.detail == Get32(frame, 3))
      && (r.verdict.Failed? ==> r.detail < |STATUSES| && STATUSES[r.detail] == if handler[frame[2]] then st else ErrUnsupported)
      && (r.verdict.Completed? || r.verdict.Accepted? ==> r.detail == 0)
  {
    hide Get32, Get16;
  }

  function Terminated(results: seq<Result>): multiset<Tag>
  {
    if results == [] then multiset{}
    else
      var last := results[|results| - 1];
      Terminated(results[..|results| - 1]) + (if last.verdict.Terminal() then multiset{last.tag} else multiset{})
  }

  function Completions(results: seq<Result>): nat
  {
    if results == [] then 0
    else Completions(results[..|results| - 1]) + (if results[|results| - 1].verdict.Completed? then 1 else 0)
  }

  function Rejections(results: seq<Result>): nat
  {
    if results == [] then 0
    else Rejections(results[..|results| - 1]) + (if results[|results| - 1].verdict.Rejection() then 1 else 0)
  }

  function Failures(results: seq<Result>): nat
  {
    if results == [] then 0
    else Failures(results[..|results| - 1]) + (if results[|results| - 1].verdict.Failure() then 1 else 0)
  }

  lemma ResultAppended(results: seq<Result>, r: Result)
    ensures Terminated(results + [r]) == Terminated(results) + (if r.verdict.Terminal() then multiset{r.tag} else multiset{})
    ensures Completions(results + [r]) == Completions(results) + (if r.verdict.Completed? then 1 else 0)
    ensures Rejections(results + [r]) == Rejections(results) + (if r.verdict.Rejection() then 1 else 0)
    ensures Failures(results + [r]) == Failures(results) + (if r.verdict.Failure() then 1 else 0)
  {
    assert (results + [r])[..|results|] == results;
  }

  lemma {:induction false} TerminatedCount(results: seq<Result>)
    ensures |Terminated(results)| == Completions(results) + Rejections(results) + Failures(results)
  {
    if results != [] {
      TerminatedCount(results[..|results| - 1]);
    }
  }

  function InFlight(running: Option<Running>): multiset<Tag>
  {
    if running.Some? then multiset{running.value.tag} else multiset{}
  }

  predicate InHand(running: Option<Running>)
  {
    running.Some? ==> running.value.tag.id < COMMANDS
  }

  /** The terminal result of the command in hand, if asking it again gives one: still busy
      within its budget is none. */
  function Tracked(running: Option<Running>, st: Status, expired: bool): Option<Result>
    requires InHand(running)
  {
    if running.None? || (st == ErrBusy && !expired) then None
    else
      var tag := running.value.tag;
      if st == Ok then Some(Result(tag, Completed, 0))
      else if st == ErrBusy then Some(Result(tag, TimedOut, K_CMD[tag.id].budgetMs))
      else Some(Result(tag, Failed, Code(st)))
  }

  /** A command that finishes later is answered as it would have been at once: completed if
      its handler reports success, and otherwise failed with what the handler reports; one
      that does not finish within its budget has timed out. */
  lemma LateAsAtOnce(running: Running, st: Status, expired: bool)
    requires running.tag.id < COMMANDS
    ensures var late := Tracked(Some(running), st, expired);
      && (late.None? <==> st == ErrBusy && !expired)
      && (st != ErrBusy ==> late == Some(Dispatched(running.tag, true, st)))
      && (late.Some? ==> late.value.tag == running.tag)
      && (late.Some? && late.value.verdict.Completed? <==> st == Ok)
      && (late.Some? && late.value.verdict.TimedOut? <==> st == ErrBusy && expired)
      && (late.Some? && late.value.verdict.Failed? <==> st != Ok && st != ErrBusy)
      && (st != Ok && st != ErrBusy ==> late.value.detail < |STATUSES| && STATUSES[late.value.detail] == st)
      && (st == ErrBusy && expired ==> late.value.detail == K_CMD[running.tag.id].budgetMs)
  {
  }

  class CommandService {
    /** Which commands have a handler registered. */
    var handler: seq<bool>
    var running: Option<Running>
    var received: u32
    var completed: u32
    var rejected: u32
    var failed: u32
    var lastReceiptMs: u32
    /** Results decided, and the frames handed to the transmit function, oldest first. */
    var results: seq<Result>
    var transmit: bool
    var wire: seq<seq<byte>>
    /** The handler calls made, oldest first. */
    var calls: seq<Call>
    /** Every frame that reached the sequence. */
    ghost var commands: seq<Tag>

    /** Each counter is the number of results of its kind. */
    ghost predicate Tallied()
      reads this
    {
      && completed == Wrap(Completions(results))
      && rejected == Wrap(Rejections(results))
      && failed == Wrap(Failures(results))
    }

    /** One terminal result for every command received, less the one still running. */
    ghost predicate Valid()
      reads this
    {
      && |handler| == COMMANDS
      && Tallied()
      && received == Wrap(|commands|)
      && multiset(commands) == Terminated(results) + InFlight(running)
      && (running.Some? ==> running.value.tag.id < COMMANDS && handler[running.value.tag.id])
    }

    /** As Valid, but one received command has not been answered yet. */
    ghost predicate Owes(tag: Tag)
      reads this
    {
      && |handler| == COMMANDS
      && Tallied()
      && received == Wrap(|commands|)
      && multiset(commands) == Terminated(results) + InFlight(running) + multiset{tag}
      && (running.Some? ==> running.value.tag.id < COMMANDS && handler[running.value.tag.id])
    }

    /** The counters always balance. */
    lemma CountersBalance()
      requires Valid()
      ensures received == Wrap(completed + rejected + failed + (if running.Some? then 1 else 0))
    {
      hide Wrap;
      var c, r, f := Completions(results), Rejections(results), Failures(results);
      var k := if running.Some? then 1 else 0;
      TerminatedCount(results);
      assert |multiset(commands)| == |commands|;
      assert |commands| == c + r + f + k;
      WrapAdd(c, r + f + k);
      WrapAdd(r, completed + f + k);
      WrapAdd(f, completed + rejected + k);
      assert c + (r + f + k) == |commands|;
      assert completed + (r + f + k) == r + (completed + f + k);
      assert rejected + (completed + f + k) == f + (completed + rejected + k);
    }

    constructor ()
      ensures Valid() && commands == [] && results == [] && running == None && !transmit && wire == [] && calls == []
    {
      handler := seq(COMMANDS, i => i == 7);
      running := None;
      received, completed, rejected, failed, lastReceiptMs := 0, 0, 0, 0, 0;
      results, transmit, wire, calls := [], false, [], [];
      commands := [];
    }

    method SetTransmit(given: bool)
      requires Valid()
      modifies this`transmit
      ensures Valid() && transmit == given
    {
      transmit := given;
    }

    method Register(id: nat, given: bool) returns (st: Status)
      requires Valid()
      modifies this`handler
      ensures Valid()
      ensures st == if id >= COMMANDS || !given then ErrParam else if old(handler)[id] then ErrState else Ok
      ensures handler == if st == Ok then old(handler)[id := true] else old(handler)
    {
      if id >= COMMANDS || !given {
        return ErrParam;
      }
      if handler[id] {
        return ErrState;
      }
      handler := handler[id := true];
      return Ok;
    }

    /** Counts an outcome by its kind and appends it to the stream of results. */
    method Answer(tag: Tag, verdict: Verdict, detail: u32)
      requires Tallied()
      modifies this`results, this`wire, this`completed, this`rejected, this`failed
      ensures Tallied()
      ensures results == old(results) + [Result(tag, verdict, detail)]
      ensures wire == if transmit then old(wire) + [ResultFrame(Result(tag, verdict, detail))] else old(wire)
      ensures wire == old(wire) + Told(transmit, Result(tag, verdict, detail))
      ensures Terminated(results) ==
              old(Terminated(results)) + (if verdict.Terminal() then multiset{tag} else multiset{})
      ensures completed == if verdict.Completed? then Wrap(old(completed) + 1) else old(completed)
      ensures rejected == if verdict.Rejection() then Wrap(old(rejected) + 1) else old(rejected)
      ensures failed == if verdict.Failure() then Wrap(old(failed) + 1) else old(failed)
    {
      hide Wrap, Terminated, Completions, Rejections, Failures, ResultFrame;
      ResultAppended(results, Result(tag, verdict, detail));
      WrapAdd(Completions(results), 1);
      WrapAdd(Rejections(results), 1);
      WrapAdd(Failures(results), 1);
      if verdict.Completed? {
        completed := Wrap(completed + 1);
      } else if verdict.Rejection() {
        rejected := Wrap(rejected + 1);
      } else if verdict.Failure() {
        failed := Wrap(failed + 1);
      }
      results := results + [Result(tag, verdict, detail)];
      if transmit {
        wire := wire + [ResultFrame(Result(tag, verdict, detail))];
      }
    }

    /** The terminal result of the command that is owed one. */
    method Settle(tag: Tag, verdict: Verdict, detail: u32)
      requires Owes(tag) && verdict.Terminal()
      modifies this`results, this`wire, this`completed, this`rejected, this`failed
      ensures Valid()
      ensures results == old(results) + [Result(tag, verdict, detail)]
      ensures wire == old(wire) + Told(transmit, Result(tag, verdict, detail))
      ensures completed == if verdict.Completed? then Wrap(old(completed) + 1) else old(completed)
      ensures rejected == if verdict.Rejection() then Wrap(old(rejected) + 1) else old(rejected)
      ensures failed == if verdict.Failure() then Wrap(old(failed) + 1) else old(failed)
    {
      hide Wrap, Terminated, Completions, Rejections, Failures, InFlight, ResultFrame;
      Answer(tag, verdict, detail);
    }

    /** reject(). */
    method Reject(tag: Tag, verdict: Verdict, detail: u32)
      requires Owes(tag) && verdict.Rejection()
      modifies this`results, this`wire, this`completed, this`rejected, this`failed
      ensures Valid()
      ensures results == old(results) + [Result(tag, verdict, detail)]
      ensures wire == old(wire) + Told(transmit, Result(tag, verdict, detail))
    {
      Settle(tag, verdict, detail);
    }

    /** A command its handler has not finished with becomes the one in hand. */
    method Begin(tag: Tag, parameter: u32)
      requires Owes(tag) && running.None? && tag.id < COMMANDS && handler[tag.id]
      modifies this`completed, this`rejected, this`failed, this`running, this`results, this`wire
      ensures Valid() && running == Some(Running(tag, parameter))
      ensures results == old(results) + [Result(tag, Accepted, 0)]
      ensures wire == old(wire) + Told(transmit, Result(tag, Accepted, 0))
    {
      hide Wrap, Terminated, Completions, Rejections, Failures, ResultFrame;
      running := Some(Running(tag, parameter));
      Answer(tag, Accepted, 0);
    }

    /** The command in hand is let go, and is now owed its result. */
    method Release() returns (tag: Tag)
      requires Valid() && running.Some?
      modifies this`running
      ensures running == None && tag == old(running).value.tag && Owes(tag)
    {
      hide Wrap, Terminated, Completions, Rejections, Failures;
      tag := running.value.tag;
      running := None;
    }

    method Dispatch(tag: Tag, parameter: u32, st: Status)
      requires Owes(tag) && tag.id < COMMANDS && running.None?
      modifies this`completed, this`rejected, this`failed, this`running, this`results, this`wire, this`calls
      ensures Valid()
      ensures results == old(results) + [Dispatched(tag, handler[tag.id], st)]
      ensures wire == old(wire) + Told(transmit, Dispatched(tag, handler[tag.id], st))
      ensures running == if Dispatched(tag, handler[tag.id], st).verdict.Accepted? then Some(Running(tag, parameter)) else None
      ensures calls == if handler[tag.id] then old(calls) + [Call(tag.id, parameter)] else old(calls)
    {
      hide Wrap, Terminated, Completions, Rejections, Failures, InFlight, ResultFrame, Code;
      if !handler[tag.id] {
        Settle(tag, Failed, Code(ErrUnsupported));
        return;
      }
      calls := calls + [Call(tag.id, parameter)];
      if st == Ok {
        Settle(tag, Completed, 0);
      } else if st == ErrBusy {
        Begin(tag, parameter);
      } else {
        Settle(tag, Failed, Code(st));
      }
    }

    /** A known command in the right format, with none in hand. */
    method ActOn(frame: seq<byte>, stage: nat, now: u32, st: Status)
      requires |frame| == FrameAssembler.FRAME && stage < STAGES && Owes(TagOf(frame, now)) && running.None?
      requires frame[1] == VERSION && frame[2] < COMMANDS
      modifies this`completed, this`rejected, this`failed, this`running, this`results, this`wire, this`calls
      ensures Valid()
      ensures var r := ResultOf(frame, now, None, handler, stage, st);
        && results == old(results) + [r]
        && wire == old(wire) + Told(transmit, r)
        && running == (if r.verdict.Accepted? then Some(Running(TagOf(frame, now), Get32(frame, 3))) else None)
      ensures calls == old(calls) + CallsOf(frame, None, handler, stage)
    {
      hide Wrap, Terminated, Completions, Rejections, Failures, LegalIn, Get32, TagOf, TakesParameter, Code, InFlight;
      hide ResultOf, Judge, DetailOf, Answered, ResultFrame, CallsOf;
      var tag := TagOf(frame, now);
      var parameter := Get32(frame, 3);
      ResultCases(frame, now, None, handler, stage, st);
      CallsCases(frame, None, handler, stage);
      if !LegalIn(frame[2], stage) {
        Reject(tag, RejectState, stage);
      } else if TakesParameter(frame[2]) && parameter != 0 {
        Reject(tag, RejectParam, parameter);
      } else {
        Dispatch(tag, parameter, st);
      }
    }

    /** process(): one result per frame; `st` is what the handler returns if it is called. */
    method Process(frame: seq<byte>, stage: nat, now: u32, st: Status)
      requires Valid() && |frame| == FrameAssembler.FRAME && stage < STAGES
      modifies this
      ensures Valid() && handler == old(handler) && transmit == old(transmit)
      ensures commands == old(commands) + [TagOf(frame, now)] && lastReceiptMs == now
      ensures var r := ResultOf(frame, now, old(running), handler, stage, st);
        && results == old(results) + [r]
        && wire == old(wire) + Told(transmit, r)
        && running == (if r.verdict.Accepted? then Some(Running(TagOf(frame, now), Get32(frame, 3))) else old(running))
      ensures calls == old(calls) + CallsOf(frame, old(running), handler, stage)
    {
      hide Wrap, Terminated, Completions, Rejections, Failures, LegalIn, Get32, TagOf, TakesParameter, Code, InFlight;
      hide ResultOf, Dispatched, Judge, DetailOf, Answered, ResultFrame, Told, Owes, Tallied, CallsOf;
      var tag := TagOf(frame, now);
      var id := frame[2];
      ResultCases(frame, now, running, handler, stage, st);
      CallsCases(frame, running, handler, stage);
      Receive(tag, now);

      if frame[1] != VERSION {
        Reject(tag, RejectFormat, frame[1]);
      } else if id >= COMMANDS {
        Reject(tag, RejectUnknown, id);
      } else if running.Some? {
        Reject(tag, RejectBusy, running.value.tag.id);
      } else {
        ActOn(frame, stage, now, st);
      }
    }

    method Receive(tag: Tag, now: u32)
      requires Valid()
      modifies this`received, this`lastReceiptMs, this`commands
      ensures Owes(tag) && commands == old(commands) + [tag] && lastReceiptMs == now
    {
      hide Terminated, Completions, Rejections, Failures, InFlight, Wrap;
      WrapAdd(|commands|, 1);
      received := Wrap(received + 1);
      lastReceiptMs := now;
      commands := commands + [tag];
    }

    /** The result of a command that is in hand no longer. */
    method Conclude(tag: Tag, st: Status)
      requires Owes(tag) && tag.id < COMMANDS
      modifies this`completed, this`rejected, this`failed, this`results, this`wire
      ensures Valid()
      ensures var r := if st == ErrBusy then Result(tag, TimedOut, K_CMD[tag.id].budgetMs) else Dispatched(tag, true, st);
        results == old(results) + [r] && wire == old(wire) + Told(transmit, r)
      ensures completed == (if st == Ok then Wrap(old(completed) + 1) else old(completed)) && rejected == old(rejected)
      ensures failed == if st == Ok then old(failed) else Wrap(old(failed) + 1)
    {
      hide Wrap, Terminated, Completions, Rejections, Failures, InFlight, ResultFrame, Code, Told;
      if st == ErrBusy {
        Settle(tag, TimedOut, K_CMD[tag.id].budgetMs);
      } else if st == Ok {
        Settle(tag, Completed, 0);
      } else {
        Settle(tag, Failed, Code(st));
      }
    }

    /** The handler of the command in hand is called again. */
    method CallAgain()
      requires Valid() && running.Some?
      modifies this`calls
      ensures Valid() && calls == old(calls) + [Call(running.value.tag.id, running.value.parameter)]
    {
      calls := calls + [Call(running.value.tag.id, running.value.parameter)];
    }

    /** track(): the running command is asked again; its budget may have expired. */
    method Track(st: Status, expired: bool)
      requires Valid()
      modifies this`completed, this`rejected, this`failed, this`running, this`results, this`wire, this`calls
      ensures Valid() && rejected == old(rejected) && InHand(old(running))
      ensures var r := Tracked(old(running), st, expired);
        if r.None? then running == old(running) && results == old(results) && wire == old(wire)
        else running == None && results == old(results) + [r.value] && wire == old(wire) + Told(transmit, r.value)
      ensures old(running).Some? && st != ErrBusy ==>
        running == None && results == old(results) + [Dispatched(old(running).value.tag, true, st)]
      ensures old(running).Some? && st == ErrBusy && expired ==> running == None && |results| == |old(results)| + 1 && results[|old(results)|].verdict.TimedOut?
      ensures st == ErrBusy && !expired ==> running == old(running) && results == old(results)
      ensures completed == if old(running).Some? && st == Ok then Wrap(old(completed) + 1) else old(completed)
      ensures failed == if old(running).Some? && st != Ok && (st != ErrBusy || expired) then Wrap(old(failed) + 1) else old(failed)
      ensures calls == if old(running).Some? then old(calls) + [Call(old(running).value.tag.id, old(running).value.parameter)] else old(calls)
    {
      hide Wrap, Terminated, Completions, Rejections, Failures, InFlight, ResultFrame, Code, Told, Owes, Tallied;
      if running.Some? {
        LateAsAtOnce(running.value, st, expired);
        CallAgain();
        if st != ErrBusy || expired {
          var tag := Release();
          Conclude(tag, st);
        }
      }
    }

    /** comm_cmd_submit(): a frame already delimited by a space packet. */
    method Submit(frame: seq<byte>, stage: nat, now: u32, st: Status) returns (r: Status)
      requires Valid() && stage < STAGES
      modifies this
      ensures Valid()
      ensures r == Ok <==> |frame| == FrameAssembler.FRAME && FrameAssembler.FrameOk(frame)
      ensures r == ErrParam <==> |frame| != FrameAssembler.FRAME || frame[0] != FrameAssembler.MARKER
      ensures r == Ok || r == ErrParam || r == ErrIntegrity
      ensures handler == old(handler) && transmit == old(transmit)
      ensures r != Ok ==>
        && commands == old(commands) && results == old(results) && wire == old(wire)
        && running == old(running) && lastReceiptMs == old(lastReceiptMs) && calls == old(calls)
      ensures r == Ok ==>
        var result := ResultOf(frame, now, old(running), handler, stage, st);
        && commands == old(commands) + [TagOf(frame, now)] && lastReceiptMs == now
        && results == old(results) + [result] && wire == old(wire) + Told(transmit, result)
        && running == (if result.verdict.Accepted? then Some(Running(TagOf(frame, now), Get32(frame, 3))) else old(running))
        && calls == old(calls) + CallsOf(frame, old(running), handler, stage)
    {
      hide Crc.Checksum, ResultOf, TagOf, ResultFrame, Terminated, Completions, Rejections, Failures;
      if |frame| != FrameAssembler.FRAME {
        return ErrParam;
      }
      if frame[0] != FrameAssembler.MARKER {
        return ErrParam;
      }
      var sum := Crc.Crc32(frame[..FrameAssembler.FRAME - 4]);
      if Get32(frame, FrameAssembler.FRAME - 4) != sum {
        return ErrIntegrity;
      }
      Process(frame, stage, now, st);
      return Ok;
    }
  }
}
