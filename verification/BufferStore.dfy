/** Regions of external memory, and who owns each one at any moment. */
module BufferStore {
  import opened Words

  const REGIONS: nat := 7
  const CHANNELS: nat := 2
  const RAW_SLOTS: nat := 2

  datatype Owner = Nobody | PlDma | PsProcessing | Storage | Comms

  /** Whether a hand-over from one owner to the next is accepted. */
  function HandoffStatus(owners: seq<Owner>, there: seq<bool>, region: nat, from: Owner): Status
    requires |owners| == |there| == REGIONS
  {
    if region >= REGIONS then ErrParam
    else if !there[region] then ErrUnsupported
    else if owners[region] != from then ErrState
    else Ok
  }

  /** Releasing a region does not ask whether memory was ever given to it. */
  function ClearStatus(owners: seq<Owner>, region: nat, from: Owner): Status
    requires |owners| == REGIONS
  {
    if region >= REGIONS then ErrParam else if owners[region] != from then ErrState else Ok
  }

  /** The first of a channel's pair that has memory and no owner, or the number of regions. */
  function FreeSlot(owners: seq<Owner>, there: seq<bool>, channel: nat): (r: nat)
    requires |owners| == |there| == REGIONS
    ensures r <= REGIONS && (r < REGIONS ==> there[r] && owners[r].Nobody?)
    ensures r < REGIONS ==> channel < CHANNELS && channel * RAW_SLOTS <= r < channel * RAW_SLOTS + RAW_SLOTS
    ensures r < REGIONS ==> forall s :: channel * RAW_SLOTS <= s < r ==> !(there[s] && owners[s].Nobody?)
    ensures r == REGIONS && channel < CHANNELS ==> forall s :: channel * RAW_SLOTS <= s < channel * RAW_SLOTS + RAW_SLOTS ==>
      !(there[s] && owners[s].Nobody?)
  {
    if channel >= CHANNELS then REGIONS
    else
      var first := channel * RAW_SLOTS;
      if there[first] && owners[first].Nobody? then first
      else if there[first + 1] && owners[first + 1].Nobody? then first + 1
      else REGIONS
  }

  class Store {
    const owner: array<Owner>
    const used: array<u32>
    const base: array<array?<byte>>
    var violations: u32
    var handoffs: u32
    var overruns: u32
    /** How often each region was handed to the fabric. */
    ghost var armed: seq<nat>

    /** What is used of a region never exceeds its memory. */
    ghost predicate Valid()
      reads this, used, base
    {
      && owner.Length == used.Length == base.Length == REGIONS
      && |armed| == REGIONS
      && forall r :: 0 <= r < REGIONS ==> InBounds(r)
    }

    ghost predicate InBounds(r: nat)
      requires used.Length == base.Length == REGIONS && r < REGIONS
      reads used, base
    {
      && (base[r] == null ==> used[r] == 0)
      && (base[r] != null ==> 0 < base[r].Length < TWO_32 && used[r] <= base[r].Length)
    }

    ghost function There(): (t: seq<bool>)
      requires base.Length == REGIONS
      reads base
      ensures |t| == REGIONS && forall r :: 0 <= r < REGIONS ==> (t[r] <==> base[r] != null)
    {
      seq(REGIONS, r requires 0 <= r < REGIONS && base.Length == REGIONS reads base => base[r] != null)
    }

    /** The used part of a region. */
    ghost function Filled(r: nat): seq<byte>
      requires Valid() && r < REGIONS
      reads this, used, base, base[r]
    {
      assert InBounds(r);
      if base[r] == null then [] else base[r][..used[r]]
    }

    constructor ()
      ensures Valid() && fresh(owner) && fresh(used) && fresh(base)
      ensures owner[..] == seq(REGIONS, r => Nobody) && armed == seq(REGIONS, r => 0)
      ensures There() == seq(REGIONS, r => false)
    {
      owner := new Owner[REGIONS](r => Nobody);
      used := new u32[REGIONS](r => 0);
      base := new array?<byte>[REGIONS](r => null);
      violations, handoffs, overruns := 0, 0, 0;
      armed := seq(REGIONS, r => 0);
    }

    /** storage_ddr_set_region: memory does not move out from under an owner. */
    method SetRegion(region: nat, memory: array?<byte>) returns (st: Status)
      requires Valid() && (memory != null ==> memory.Length < TWO_32)
      modifies base, used
      ensures Valid()
      ensures st == if region >= REGIONS || memory == null || memory.Length == 0 then ErrParam
                    else if !owner[region].Nobody? then ErrState
                    else Ok
      ensures base[..] == if st == Ok then old(base[..])[region := memory] else old(base[..])
      ensures used[..] == if st == Ok then old(used[..])[region := 0] else old(used[..])
    {
      if region >= REGIONS || memory == null || memory.Length == 0 {
        return ErrParam;
      }
      if !owner[region].Nobody? {
        return ErrState;
      }
      base[region] := memory;
      used[region] := 0;
      assert forall r :: 0 <= r < REGIONS && r != region ==> old(InBounds(r)) ==> InBounds(r);
      return Ok;
    }

    method Violation()
      modifies this`violations
      ensures violations == Wrap(old(violations) + 1)
    {
      violations := Wrap(violations + 1);
    }

    /** storage_ddr_handoff: refused and counted unless the region is owned by `from`. */
    method Handoff(region: nat, from: Owner, next: Owner) returns (st: Status)
      requires Valid()
      modifies owner, this`violations, this`handoffs, this`armed
      ensures Valid()
      ensures st == HandoffStatus(old(owner[..]), There(), region, from)
      ensures st == Ok <==> region < REGIONS && base[region] != null && old(owner[region]) == from
      ensures st == ErrState <==> region < REGIONS && base[region] != null && old(owner[region]) != from
      ensures owner[..] == if st == Ok then old(owner[..])[region := next] else old(owner[..])
      ensures armed == if st == Ok && next.PlDma? then old(armed)[region := old(armed)[region] + 1] else old(armed)
      ensures violations == if st == ErrState then Wrap(old(violations) + 1) else old(violations)
      ensures handoffs == if st == Ok then Wrap(old(handoffs) + 1) else old(handoffs)
    {
      if region >= REGIONS {
        return ErrParam;
      }
      if base[region] == null {
        return ErrUnsupported;
      }
      if owner[region] != from {
        Violation();
        return ErrState;
      }
      owner[region] := next;
      handoffs := Wrap(handoffs + 1);
      if next.PlDma? {
        armed := armed[region := armed[region] + 1];
      }
      return Ok;
    }

    /** storage_ddr_clear. */
    method Clear(region: nat, from: Owner) returns (st: Status)
      requires Valid()
      modifies owner, used, this`violations
      ensures Valid()
      ensures st == ClearStatus(old(owner[..]), region, from)
      ensures st == Ok <==> region < REGIONS && old(owner[region]) == from
      ensures st == ErrState <==> region < REGIONS && old(owner[region]) != from
      ensures owner[..] == if st == Ok then old(owner[..])[region := Nobody] else old(owner[..])
      ensures used[..] == if st == Ok then old(used[..])[region := 0] else old(used[..])
      ensures violations == if st == ErrState then Wrap(old(violations) + 1) else old(violations)
    {
      if region >= REGIONS {
        return ErrParam;
      }
      if owner[region] != from {
        Violation();
        return ErrState;
      }
      used[region] := 0;
      owner[region] := Nobody;
      assert used[..] == old(used[..])[region := 0];
      assert owner[..] == old(owner[..])[region := Nobody];
      forall r | 0 <= r < REGIONS
        ensures InBounds(r)
      {
        assert old(InBounds(r));
      }
      return Ok;
    }

    /** Whether an owner may put this many more octets into a region. */
    ghost function WriteStatus(region: nat, who: Owner, length: nat): Status
      requires Valid()
      reads this, owner, used, base
    {
      if region >= REGIONS || length == 0 then ErrParam
      else if base[region] == null then ErrUnsupported
      else if owner[region] != who then ErrState
      else if used[region] + length > base[region].Length then ErrRange
      else Ok
    }

    /** storage_ddr_append: all of the data after what is there, or nothing. */
    method Append(region: nat, who: Owner, data: seq<byte>) returns (st: Status)
      requires Valid() && |data| < TWO_32
      modifies used, this`violations, this`overruns
      modifies if region < REGIONS && base[region] != null then {base[region]} else {}
      ensures Valid()
      ensures st == old(WriteStatus(region, who, |data|))
      ensures st == Ok <==>
        region < REGIONS && data != [] && base[region] != null && owner[region] == who && old(used[region]) + |data| <= base[region].Length
      ensures region < REGIONS ==> Filled(region) == if st == Ok then old(Filled(region)) + data else old(Filled(region))
      ensures forall r :: 0 <= r < REGIONS && r != region ==> used[r] == old(used[r])
      ensures st != Ok ==> forall r :: 0 <= r < REGIONS ==> Filled(r) == old(Filled(r))
      ensures overruns == if st == ErrRange then Wrap(old(overruns) + 1) else old(overruns)
      ensures violations == if st == ErrState then Wrap(old(violations) + 1) else old(violations)
    {
      if region >= REGIONS || |data| == 0 {
        return ErrParam;
      }
      if base[region] == null {
        return ErrUnsupported;
      }
      if owner[region] != who {
        Violation();
        return ErrState;
      }
      assert InBounds(region);
      if base[region].Length - used[region] < |data| {
        overruns := Wrap(overruns + 1);
        return ErrRange;
      }
      Copy(base[region], used[region], data);
      used[region] := used[region] + |data|;
      assert forall r :: 0 <= r < REGIONS && r != region ==> old(InBounds(r)) ==> InBounds(r);
      return Ok;
    }

    /** storage_ddr_set_used: what the fabric wrote without coming through here. */
    method SetUsed(region: nat, who: Owner, amount: u32) returns (st: Status)
      requires Valid()
      modifies used, this`violations, this`overruns
      ensures Valid()
      ensures st == if region >= REGIONS then ErrParam
                    else if base[region] == null then ErrUnsupported
                    else if owner[region] != who then ErrState
                    else if amount > base[region].Length then ErrRange
                    else Ok
      ensures used[..] == if st == Ok then old(used[..])[region := amount] else old(used[..])
      ensures overruns == if st == ErrRange then Wrap(old(overruns) + 1) else old(overruns)
      ensures violations == if st == ErrState then Wrap(old(violations) + 1) else old(violations)
    {
      if region >= REGIONS {
        return ErrParam;
      }
      if base[region] == null {
        return ErrUnsupported;
      }
      if owner[region] != who {
        Violation();
        return ErrState;
      }
      if amount > base[region].Length {
        overruns := Wrap(overruns + 1);
        return ErrRange;
      }
      used[region] := amount;
      assert used[..] == old(used[..])[region := amount];
      forall r | 0 <= r < REGIONS
        ensures InBounds(r)
      {
        assert old(InBounds(r));
      }
      return Ok;
    }

    /** storage_ddr_read: only to the owner. */
    method Read(region: nat, who: Owner) returns (st: Status, data: seq<byte>)
      requires Valid()
      modifies this`violations
      ensures st == if region >= REGIONS then ErrParam
                    else if base[region] == null then ErrUnsupported
                    else if owner[region] != who then ErrState
                    else Ok
      ensures data == if st == Ok then Filled(region) else []
      ensures violations == if st == ErrState then Wrap(old(violations) + 1) else old(violations)
    {
      if region >= REGIONS {
        return ErrParam, [];
      }
      if base[region] == null {
        return ErrUnsupported, [];
      }
      if owner[region] != who {
        Violation();
        return ErrState, [];
      }
      assert InBounds(region);
      return Ok, base[region][..used[region]];
    }

    /** storage_ddr_free_raw_slot. */
    method FreeRawSlot(channel: nat) returns (r: nat)
      requires Valid()
      ensures r == FreeSlot(owner[..], There(), channel)
      ensures r == REGIONS <==>
        channel >= CHANNELS || forall s :: channel * RAW_SLOTS <= s < channel * RAW_SLOTS + RAW_SLOTS ==> base[s] == null || !owner[s].Nobody?
    {
      if channel >= CHANNELS {
        return REGIONS;
      }
      var first := channel * RAW_SLOTS;
      for i := 0 to RAW_SLOTS
        invariant i > 0 ==> !(There()[first] && owner[first].Nobody?)
        invariant i > 1 ==> !(There()[first + 1] && owner[first + 1].Nobody?)
      {
        if base[first + i] != null && owner[first + i].Nobody? {
          return first + i;
        }
      }
      return REGIONS;
    }
  }

  /** The copy loop of storage_ddr_append. */
  method Copy(memory: array<byte>, at: nat, data: seq<byte>)
    requires at + |data| <= memory.Length
    modifies memory
    ensures memory[..at + |data|] == old(memory[..at]) + data
    ensures memory[at + |data|..] == old(memory[at + |data|..])
  {
    for i := 0 to |data|
      invariant memory[..at] == old(memory[..at])
      invariant memory[at..at + i] == data[..i]
      invariant memory[at + |data|..] == old(memory[at + |data|..])
    {
      memory[at + i] := data[i];
    }
    assert memory[..at + |data|] == memory[..at] + memory[at..at + |data|];
  }
}
