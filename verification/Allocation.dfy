/** Slots and ports for new groups: the least free number of each kind, so that what is
    distinct stays distinct however groups come and go.
    Models internal/orchestrator/orchestrator.go: reserveAimiliSlot, allocatePorts, and the
    allocation in Enable, adoptExistingSlot and Disable. */
module Allocation {
  import opened Wrappers

  datatype Group = Group(id: string, slot: int, publicPort: int, mixedPort: int)

  /** The limits as configuration validates them. */
  datatype Limits = Limits(publicStart: int, publicEnd: int, mixedStart: int, mixedEnd: int, maxSlots: int, maxGroups: int)

  predicate ValidLimits(l: Limits) {
    && 1 <= l.publicStart <= l.publicEnd <= 65535 && 1 <= l.mixedStart <= l.mixedEnd <= 65535
    && (l.publicEnd < l.mixedStart || l.mixedEnd < l.publicStart)
    && 1 <= l.maxGroups
  }

  /** `n` is the least number from `start` on that is not used. */
  predicate LeastFree(used: set<int>, start: int, n: int) {
    start <= n && n !in used && forall k :: start <= k < n ==> k in used
  }

  lemma {:induction false} FilledUpTo(used: set<int>, n: nat)
    requires forall k :: 0 <= k < n ==> k in used
    ensures n <= |used|
  {
    if n > 0 {
      assert n - 1 in used;
      FilledUpTo(used - {n - 1}, n - 1);
    }
  }

  function SlotsOf(groups: seq<Group>): set<int> {
    set g | g in groups :: g.slot
  }

  function PublicPorts(groups: seq<Group>): set<int> {
    set g | g in groups :: g.publicPort
  }

  function MixedPorts(groups: seq<Group>): set<int> {
    set g | g in groups :: g.mixedPort
  }

  /** `reserveAimiliSlot`: the least number no group and no slot has. It is found, with or
      without a limit on slots, after at most as many steps as there are numbers taken;
      with a limit it is refused exactly if every number below the limit is taken. */
  method ReserveSlot(groups: seq<Group>, listed: set<int>, maxSlots: int) returns (r: Result<nat>)
    ensures var used := SlotsOf(groups) + listed;
            && (r.Success? ==> LeastFree(used, 0, r.value) && r.value <= |used| && (maxSlots > 0 ==> r.value < maxSlots))
            && (r.Failure? <==> maxSlots > 0 && forall k :: 0 <= k < maxSlots ==> k in used)
  {
    var used := SlotsOf(groups) + listed;
    var number := 0;
    while true
      invariant 0 <= number && (forall k :: 0 <= k < number ==> k in used)
      invariant number <= |used| && (maxSlots > 0 ==> number <= maxSlots)
      decreases |used| - number
    {
      if maxSlots > 0 && number >= maxSlots {
        return Failure("slot_capacity_exceeded");
      }
      if number !in used {
        return Success(number);
      }
      FilledUpTo(used, number + 1);
      number := number + 1;
    }
  }

  /** One of the two searches of `allocatePorts`: zero if the range is full. */
  method FirstFree(used: set<int>, start: int, end: int) returns (port: int)
    requires 1 <= start
    ensures port == 0 <==> forall p :: start <= p <= end ==> p in used
    ensures port != 0 ==> LeastFree(used, start, port) && port <= end
  {
    port := 0;
    var p := start;
    while p <= end
      invariant start <= p && (forall k :: start <= k < p ==> k in used)
    {
      if p !in used {
        return p;
      }
      p := p + 1;
    }
  }

  /** `allocatePorts`: the least free pair, or exhaustion exactly if a range is full. */
  method AllocatePorts(l: Limits, groups: seq<Group>) returns (publicPort: int, mixedPort: int, ok: bool)
    requires ValidLimits(l)
    ensures ok <==> !(forall p :: l.publicStart <= p <= l.publicEnd ==> p in PublicPorts(groups))
                    && !(forall p :: l.mixedStart <= p <= l.mixedEnd ==> p in MixedPorts(groups))
    ensures ok ==> LeastFree(PublicPorts(groups), l.publicStart, publicPort) && publicPort <= l.publicEnd
    ensures ok ==> LeastFree(MixedPorts(groups), l.mixedStart, mixedPort) && mixedPort <= l.mixedEnd
  {
    publicPort := FirstFree(PublicPorts(groups), l.publicStart, l.publicEnd);
    mixedPort := FirstFree(MixedPorts(groups), l.mixedStart, l.mixedEnd);
    ok := publicPort > 0 && mixedPort > 0;
  }

  lemma {:induction false} FullRange(used: set<int>, start: int, end: int)
    requires forall p :: start <= p <= end ==> p in used
    ensures end - start + 1 <= |used|
    decreases |used|
  {
    if start <= end {
      FullRange(used - {end}, start, end - 1);
    }
  }

  lemma {:induction false} PortsAreFew(groups: seq<Group>)
    ensures |PublicPorts(groups)| <= |groups| && |MixedPorts(groups)| <= |groups|
  {
    if groups != [] {
      var init, last := groups[..|groups| - 1], groups[|groups| - 1];
      PortsAreFew(init);
      assert groups == init + [last];
      assert PublicPorts(groups) == PublicPorts(init) + {last.publicPort};
      assert MixedPorts(groups) == MixedPorts(init) + {last.mixedPort};
    }
  }

  /** Ports never run out while there are fewer groups than ports in either range. */
  lemma FewGroupsLeavePorts(l: Limits, groups: seq<Group>)
    requires |groups| < l.publicEnd - l.publicStart + 1 && |groups| < l.mixedEnd - l.mixedStart + 1
    ensures exists p :: l.publicStart <= p <= l.publicEnd && p !in PublicPorts(groups)
    ensures exists p :: l.mixedStart <= p <= l.mixedEnd && p !in MixedPorts(groups)
  {
    PortsAreFew(groups);
    if forall p :: l.publicStart <= p <= l.publicEnd ==> p in PublicPorts(groups) {
      FullRange(PublicPorts(groups), l.publicStart, l.publicEnd);
      assert false;
    }
    if forall p :: l.mixedStart <= p <= l.mixedEnd ==> p in MixedPorts(groups) {
      FullRange(MixedPorts(groups), l.mixedStart, l.mixedEnd);
      assert false;
    }
  }

  // -------------------------------------------------------------------- runs

  predicate Apart(a: Group, b: Group) {
    a.id != b.id && a.slot != b.slot && a.publicPort != b.publicPort && a.mixedPort != b.mixedPort
    && a.publicPort != b.mixedPort && a.mixedPort != b.publicPort
  }

  predicate InRange(l: Limits, g: Group) {
    && l.publicStart <= g.publicPort <= l.publicEnd && l.mixedStart <= g.mixedPort <= l.mixedEnd
  }

  predicate AllApart(groups: seq<Group>) {
    forall i, j :: 0 <= i < j < |groups| ==> Apart(groups[i], groups[j])
  }

  predicate AllInRange(l: Limits, groups: seq<Group>) {
    forall i :: 0 <= i < |groups| ==> InRange(l, groups[i])
  }

  function Without(groups: seq<Group>, id: string): (r: seq<Group>)
    ensures forall g :: g in r <==> g in groups && g.id != id
  {
    if groups == [] then []
    else
      var init := Without(groups[..|groups| - 1], id);
      assert groups == groups[..|groups| - 1] + [groups[|groups| - 1]];
      if groups[|groups| - 1].id == id then init else init + [groups[|groups| - 1]]
  }

  lemma {:induction false} WithoutIsApart(groups: seq<Group>, id: string)
    requires AllApart(groups)
    ensures AllApart(Without(groups, id)) && |Without(groups, id)| <= |groups|
  {
    if groups != [] {
      var init, last := groups[..|groups| - 1], groups[|groups| - 1];
      WithoutIsApart(init, id);
      var r := Without(init, id);
      forall i | 0 <= i < |r| ensures Apart(r[i], last) {
        assert r[i] in init;
        var k :| 0 <= k < |init| && init[k] == r[i];
        assert Apart(groups[k], groups[|groups| - 1]);
      }
    }
  }

  lemma OneMoreApart(l: Limits, groups: seq<Group>, g: Group)
    requires ValidLimits(l) && AllApart(groups) && AllInRange(l, groups) && InRange(l, g)
    requires forall i :: 0 <= i < |groups| ==> groups[i].id != g.id
    requires g.slot !in SlotsOf(groups) && g.publicPort !in PublicPorts(groups) && g.mixedPort !in MixedPorts(groups)
    ensures AllApart(groups + [g]) && AllInRange(l, groups + [g])
  {
    forall i | 0 <= i < |groups| ensures Apart(groups[i], g) {
      assert groups[i] in groups;
      assert groups[i].slot in SlotsOf(groups) && groups[i].publicPort in PublicPorts(groups) && groups[i].mixedPort in MixedPorts(groups);
      assert InRange(l, groups[i]);
    }
  }

  lemma LastApart(l: Limits, groups: seq<Group>, g: Group, slot: int)
    requires AllApart(groups + [g]) && AllInRange(l, groups + [g]) && slot !in SlotsOf(groups)
    ensures AllApart(groups + [g.(slot := slot)]) && AllInRange(l, groups + [g.(slot := slot)])
  {
    var all, now := groups + [g], groups + [g.(slot := slot)];
    forall i, j | 0 <= i < j < |now| ensures Apart(now[i], now[j]) {
      assert Apart(all[i], all[j]);
      assert now[i] == groups[i] && groups[i] in groups;
      assert groups[i].slot in SlotsOf(groups);
    }
    forall i | 0 <= i < |now| ensures InRange(l, now[i]) {
      assert InRange(l, all[i]);
    }
  }

  /** How a call ends: done, refused without effect, or reported as failed after it took
      effect. */
  datatype Call = Done | Refused | Late

  predicate Took(c: Call) {
    !c.Refused?
  }

  /** How the steps of one provisioning end: the insertion of the row, the slot the egress
      service made, if it made one, all checks and the panel up to the save, that save, the
      protocol record, the removal of what was made elsewhere, the deletion of the row, and
      the save of a row that stays. */
  datatype Steps = Steps(
    inserted: Call,
    created: Option<int>,
    provisioned: bool,
    saved: Call,
    moded: bool,
    removed: bool,
    deleted: Call,
    marked: Call)

  /** A provisioning that fails leaves no row, exactly if the deletion of its row was
      reached and took effect; it is reached unless something made elsewhere could not be
      removed. */
  predicate RowStays(steps: Steps) {
    !((steps.created.None? || steps.removed) && Took(steps.deleted))
  }

  /** What makes a provisioning succeed once its row is there: every step goes well, and no
      other group has the slot that was made. */
  predicate Provides(steps: Steps, number: int, others: seq<Group>) {
    steps.provisioned && number >= 0 && number !in SlotsOf(others) && steps.saved.Done? && steps.moded
  }

  /** A port is left in both ranges. */
  predicate PortsLeft(l: Limits, groups: seq<Group>) {
    && !(forall p :: l.publicStart <= p <= l.publicEnd ==> p in PublicPorts(groups))
    && !(forall p :: l.mixedStart <= p <= l.mixedEnd ==> p in MixedPorts(groups))
  }

  class Pool {
    var groups: seq<Group>
    const limits: Limits

    constructor (limits: Limits)
      requires ValidLimits(limits)
      ensures Valid() && groups == [] && this.limits == limits
    {
      this.limits := limits;
      this.groups := [];
    }

    /** No id, slot or port is given out twice, and no port in both roles. */
    predicate Valid()
      reads this
    {
      ValidLimits(limits) && AllApart(groups) && AllInRange(limits, groups)
    }

    predicate Known(id: string)
      reads this
    {
      exists i :: 0 <= i < |groups| && groups[i].id == id
    }

    /** The row `g` may be added. */
    predicate Fresh(g: Group)
      reads this
    {
      && !Known(g.id) && InRange(limits, g) && g.slot !in SlotsOf(groups)
      && g.publicPort !in PublicPorts(groups) && g.mixedPort !in MixedPorts(groups)
    }

    /** The save of the last row with the slot `number`: the index on slots and the column's
        own check may refuse it. */
    method SaveSlot(ghost before: seq<Group>, number: int, call: Call) returns (ok: bool)
      requires Valid() && |groups| == |before| + 1 && groups[..|before|] == before
      modifies this
      ensures Valid() && |groups| == |before| + 1 && groups[..|before|] == before
      ensures ok <==> number >= 0 && number !in SlotsOf(before) && call.Done?
      ensures ok ==> groups[|before|].slot == number
      ensures groups[|before|] == old(groups[|before|]).(slot := groups[|before|].slot)
      ensures groups[|before|].slot == number || groups[|before|].slot == old(groups[|before|].slot)
    {
      var rest, last := groups[..|groups| - 1], groups[|groups| - 1];
      if number < 0 || number in SlotsOf(rest) || !Took(call) {
        return false;
      }
      LastApart(limits, rest, last, number);
      groups := rest + [last.(slot := number)];
      ok := call.Done?;
    }

    /** `rollbackSlotProvision`: the row is deleted unless something made elsewhere could
        not be removed; a row that stays is marked, under the slot that was made. */
    method RollbackSlotProvision(ghost before: seq<Group>, number: int, steps: Steps, cause: string) returns (error: string)
      requires Valid() && |groups| == |before| + 1 && groups[..|before|] == before
      requires steps.created == Some(number)
      modifies this
      ensures Valid()
      ensures error == if steps.removed && steps.deleted.Done? then cause else "repair_required"
      ensures if RowStays(steps) then |groups| == |before| + 1 && groups[..|before|] == before else groups == before
      ensures RowStays(steps) ==>
                && groups[|before|] == old(groups[|before|]).(slot := groups[|before|].slot)
                && (groups[|before|].slot == number || groups[|before|].slot == old(groups[|before|].slot))
    {
      error := "repair_required";
      if steps.removed {
        if steps.deleted.Done? {
          error := cause;
        }
        if Took(steps.deleted) {
          groups := groups[..|groups| - 1];
          return;
        }
      }
      var marked := SaveSlot(before, number, steps.marked);
    }

    /** `provisionGroupForSlot`, for the row inserted last. */
    method Provision(ghost before: seq<Group>, number: int, steps: Steps) returns (error: Option<string>)
      requires Valid() && |groups| == |before| + 1 && groups[..|before|] == before
      requires steps.created == Some(number)
      modifies this
      ensures Valid()
      ensures if error.None? || RowStays(steps) then |groups| == |before| + 1 && groups[..|before|] == before else groups == before
      ensures error.None? || RowStays(steps) ==>
                && groups[|before|] == old(groups[|before|]).(slot := groups[|before|].slot)
                && (groups[|before|].slot == number || (error.Some? && groups[|before|].slot == old(groups[|before|].slot)))
      ensures error.None? <==> Provides(steps, number, before)
      ensures error.Some? && error.value != "repair_required" ==> !RowStays(steps)
    {
      if steps.provisioned {
        var ok := SaveSlot(before, number, steps.saved);
        if ok && steps.moded {
          return None;
        }
      }
      var code := RollbackSlotProvision(before, number, steps, "provision_failed");
      error := Some(code);
    }

    /** `Enable`: a row with the reserved slot first, then the slot the egress service
        really made. Success adds one row with the least free ports and the slot that was
        made. A failure adds nothing, or leaves the row with the same ports under one of
        the two slots: exactly if it could not be deleted again. */
    method Enable(id: string, listed: set<int>, steps: Steps) returns (error: Option<string>)
      requires Valid()
      modifies this
      ensures Valid()
      ensures groups == old(groups) || (|groups| == |old(groups)| + 1 && groups[..|old(groups)|] == old(groups))
      ensures error.None? ==> groups != old(groups) && steps.created == Some(groups[|old(groups)|].slot)
      ensures error.None? <==>
                && |old(groups)| < limits.maxGroups && PortsLeft(limits, old(groups)) && !old(Known(id))
                && !(limits.maxSlots > 0 && forall k :: 0 <= k < limits.maxSlots ==> k in SlotsOf(old(groups)) + listed)
                && steps.inserted.Done? && steps.created.Some? && Provides(steps, steps.created.value, old(groups))
      ensures error.Some? && groups != old(groups) ==> RowStays(steps) || steps.inserted.Late?
      ensures error in {Some("slot_create_failed"), Some("provision_failed"), Some("repair_required")} ==> (groups != old(groups) <==> RowStays(steps))
      ensures error.Some? && groups != old(groups) ==>
                var g := groups[|old(groups)|];
                steps.created == Some(g.slot) || LeastFree(SlotsOf(old(groups)) + listed, 0, g.slot)
      ensures error.Some? && steps.inserted.Done? && steps.created.Some? && error.value != "repair_required" ==> groups == old(groups)
      ensures groups != old(groups) ==>
                var g := groups[|old(groups)|];
                && g.id == id && LeastFree(PublicPorts(old(groups)), limits.publicStart, g.publicPort)
                && LeastFree(MixedPorts(old(groups)), limits.mixedStart, g.mixedPort)
    {
      if |groups| >= limits.maxGroups {
        return Some("capacity_exceeded");
      }
      var publicPort, mixedPort, ok := AllocatePorts(limits, groups);
      if !ok {
        return Some("port_capacity_exceeded");
      }
      var reserved := ReserveSlot(groups, listed, limits.maxSlots);
      if reserved.Failure? {
        return Some("slot_capacity_exceeded");
      }
      var row := Group(id, reserved.value, publicPort, mixedPort);
      if Known(id) || !Took(steps.inserted) {
        return Some("proxy group already exists");
      }
      ghost var before := groups;
      Insert(row);
      if steps.inserted.Late? {
        return Some("storage_failed");
      }
      if steps.created.None? {
        if Took(steps.deleted) {
          groups := groups[..|groups| - 1];
        }
        return Some("slot_create_failed");
      }
      error := Provision(before, steps.created.value, steps);
    }

    method Insert(row: Group)
      requires Valid() && Fresh(row)
      modifies this
      ensures Valid() && groups == old(groups) + [row]
    {
      OneMoreApart(limits, groups, row);
      groups := groups + [row];
    }

    /** `adoptExistingSlot`: a slot that is there already, if no group has it. The row has
        that slot from the beginning and, if it stays, for good; the slot itself is not
        deleted on failure. */
    method Adopt(id: string, number: int, steps: Steps) returns (error: Option<string>)
      requires Valid()
      modifies this
      ensures Valid()
      ensures groups == old(groups) || (|groups| == |old(groups)| + 1 && groups[..|old(groups)|] == old(groups))
      ensures error.None? ==> groups != old(groups)
      ensures error.None? <==> PortsLeft(limits, old(groups)) && !old(Known(id)) && steps.inserted.Done? && Provides(steps, number, old(groups))
      ensures error.Some? && groups != old(groups) ==> RowStays(steps.(created := Some(number))) || steps.inserted.Late?
      ensures error in {Some("provision_failed"), Some("repair_required")} ==> (groups != old(groups) <==> RowStays(steps.(created := Some(number))))
      ensures error.Some? && steps.inserted.Done? && error.value != "repair_required" ==> groups == old(groups)
      ensures groups != old(groups) ==>
                var g := groups[|old(groups)|];
                && g.id == id && g.slot == number
                && LeastFree(PublicPorts(old(groups)), limits.publicStart, g.publicPort)
                && LeastFree(MixedPorts(old(groups)), limits.mixedStart, g.mixedPort)
    {
      if number < 0 {
        return Some("invalid_response");
      }
      if number in SlotsOf(groups) {
        return Some("ownership_conflict");
      }
      var publicPort, mixedPort, ok := AllocatePorts(limits, groups);
      if !ok {
        return Some("port_capacity_exceeded");
      }
      if Known(id) || !Took(steps.inserted) {
        return Some("proxy group already exists");
      }
      ghost var before := groups;
      Insert(Group(id, number, publicPort, mixedPort));
      if steps.inserted.Late? {
        return Some("storage_failed");
      }
      error := Provision(before, number, steps.(created := Some(number)));
    }

    /** `Disable`, as far as the table is concerned: the numbers of the group are free again
        exactly if its row is deleted, and that is only tried after the group was marked
        and everything elsewhere was removed. */
    method Disable(id: string, marked: Call, removed: bool, deleted: Call) returns (error: Option<string>)
      requires Valid()
      modifies this
      ensures Valid()
      ensures groups == if old(Known(id)) && marked.Done? && removed && Took(deleted) then Without(old(groups), id) else old(groups)
      ensures error.None? <==> old(Known(id)) && marked.Done? && removed && deleted.Done?
    {
      if !Known(id) {
        return Some("not_found");
      }
      if !marked.Done? {
        return Some("storage_failed");
      }
      if !removed {
        return Some("repair_required");
      }
      if Took(deleted) {
        WithoutIsApart(groups, id);
        assert forall g :: g in Without(groups, id) ==> g in groups;
        groups := Without(groups, id);
      }
      error := if deleted.Done? then None else Some("storage_failed");
    }
  }
}
