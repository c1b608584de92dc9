/** Moving all groups to the candidates now attached to their slots, under a uniqueness
    constraint that a swap would violate half-way.
    Models internal/store/proxygroups.go, ReassignProxyGroupCandidates, and the part of
    internal/orchestrator/reconcile.go, refreshAssignedGroups, that builds its argument. */
module CandidateReassignment {
  import opened Wrappers
  import Decimal

  /** `bucket` stands for country and proxy type: the table is UNIQUE on bucket and
      candidate together. */
  datatype Row = Row(bucket: string, candidate: string, version: int)

  type Table = map<string, Row>

  predicate Unique(t: Table) {
    forall a, b :: a in t && b in t && a != b && t[a].bucket == t[b].bucket ==> t[a].candidate != t[b].candidate
  }

  /** The characters `strings.TrimSpace` takes off. */
  predicate Blank(ch: char) {
    var code := ch as int;
    9 <= code <= 13 || code in {0x20, 0x85, 0xA0, 0x1680, 0x2028, 0x2029, 0x202F, 0x205F, 0x3000} || 0x2000 <= code <= 0x200A
  }

  function TrimLeft(s: string): string {
    if s != [] && Blank(s[0]) then TrimLeft(s[1..]) else s
  }

  function TrimRight(s: string): string {
    if s != [] && Blank(s[|s| - 1]) then TrimRight(s[..|s| - 1]) else s
  }

  function Trim(s: string): string {
    TrimRight(TrimLeft(s))
  }

  lemma {:induction false} TrimRightEnds(s: string)
    ensures TrimRight(s) == [] || (!Blank(TrimRight(s)[|TrimRight(s)| - 1]) && TrimRight(s)[0] == s[0])
  {
    if s != [] && Blank(s[|s| - 1]) {
      TrimRightEnds(s[..|s| - 1]);
    }
  }

  lemma {:induction false} TrimLeftEnds(s: string)
    ensures TrimLeft(s) == [] || !Blank(TrimLeft(s)[0])
  {
    if s != [] && Blank(s[0]) {
      TrimLeftEnds(s[1..]);
    }
  }

  /** A trimmed text is not trimmed any further. */
  lemma TrimIsIdempotent(s: string)
    ensures Trim(Trim(s)) == Trim(s)
  {
    TrimLeftEnds(s);
    TrimRightEnds(TrimLeft(s));
  }

  predicate WellFormedId(id: string) {
    |id| >= 4 && id[..4] == "agw-"
  }

  predicate WellFormedCandidate(c: string) {
    c != "" && c == Trim(c) && |c| <= 256 && forall i :: 0 <= i < |c| ==> c[i] != '\0' && c[i] != '\r' && c[i] != '\n'
  }

  predicate WellFormed(assignments: map<string, string>) {
    forall id :: id in assignments ==> WellFormedId(id) && WellFormedCandidate(assignments[id])
  }

  predicate Injective(assignments: map<string, string>) {
    forall a, b :: a in assignments && b in assignments && a != b ==> assignments[a] != assignments[b]
  }

  /** A row outside the assignment already has a candidate that is being assigned in its
      bucket. */
  predicate Outsider(t: Table, assignments: map<string, string>) {
    exists a, b :: a in assignments && a in t && b in t && b !in assignments && t[a].bucket == t[b].bucket && t[b].candidate == assignments[a]
  }

  /** The table the reassignment promises: a permutation of candidates, or any other
      injective choice, applied at once. */
  function Reassigned(t: Table, assignments: map<string, string>): Table {
    map id | id in t :: if id in assignments then Row(t[id].bucket, assignments[id], t[id].version + 1) else t[id]
  }

  /** The temporary name of a row: `~agw-reassign-<now>-<index>-<attempt>`. */
  function TemporaryName(now: nat, index: nat, attempt: nat): string {
    "~agw-reassign-" + Decimal.Text(now) + "-" + Decimal.Text(index) + "-" + Decimal.Text(attempt)
  }

  lemma TemporaryNamesDiffer(now: nat, index: nat, a: nat, b: nat)
    requires TemporaryName(now, index, a) == TemporaryName(now, index, b)
    ensures a == b
  {
    var p := "~agw-reassign-" + Decimal.Text(now) + "-" + Decimal.Text(index) + "-";
    assert TemporaryName(now, index, a) == p + Decimal.Text(a);
    assert TemporaryName(now, index, b) == p + Decimal.Text(b);
    assert Decimal.Text(a) == (p + Decimal.Text(a))[|p|..] == (p + Decimal.Text(b))[|p|..] == Decimal.Text(b);
    Decimal.TextInjective(a, b);
  }

  function Candidates(t: Table): set<string> {
    set id | id in t :: t[id].candidate
  }

  /** The search for a fresh name. It ends: after as many attempts as there are names that
      could be taken it must have found a free one. */
  method FreshName(t: Table, reserved: set<string>, now: nat, index: nat) returns (name: string)
    ensures name !in reserved && name !in Candidates(t)
    ensures exists attempt: nat :: attempt <= |reserved + Candidates(t)| && name == TemporaryName(now, index, attempt)
  {
    var blocked := reserved + Candidates(t);
    var attempt := 0;
    name := TemporaryName(now, index, attempt);
    ghost var tried: set<string> := {};
    while name in blocked
      invariant name == TemporaryName(now, index, attempt)
      invariant tried <= blocked && |tried| == attempt
      invariant forall s :: s in tried ==> exists k: nat :: k < attempt && s == TemporaryName(now, index, k)
      decreases |blocked| - attempt
    {
      if name in tried {
        var k: nat :| k < attempt && name == TemporaryName(now, index, k);
        TemporaryNamesDiffer(now, index, k, attempt);
      }
      tried := tried + {name};
      SubsetSize(tried, blocked);
      attempt := attempt + 1;
      name := TemporaryName(now, index, attempt);
    }
    SubsetSize(tried, blocked);
  }

  lemma {:induction false} SubsetSize(a: set<string>, b: set<string>)
    requires a <= b
    ensures |a| <= |b|
    decreases |a|
  {
    if |a| > 0 {
      var x :| x in a;
      SubsetSize(a - {x}, b - {x});
    }
  }

  /** While the first loop runs: staged rows have fresh names, the rest is as it was. */
  ghost predicate Staged(t: Table, now: Table, done: set<string>, reserved: set<string>) {
    && now.Keys == t.Keys
    && (forall id :: id in t && id !in done ==> now[id] == t[id])
    && (forall id :: id in t && id in done ==> now[id].bucket == t[id].bucket && now[id].version == t[id].version && now[id].candidate !in reserved)
  }

  /** While the second loop runs: finished rows are final, staged ones still fresh. */
  ghost predicate Finishing(t: Table, now: Table, assignments: map<string, string>, todo: set<string>) {
    && now.Keys == t.Keys
    && (forall id :: id in t && id !in assignments ==> now[id] == t[id])
    && (forall id :: id in t && id in assignments && id in todo ==>
          now[id].bucket == t[id].bucket && now[id].version == t[id].version && now[id].candidate !in assignments.Values)
    && (forall id :: id in t && id in assignments && id !in todo ==> now[id] == Row(t[id].bucket, assignments[id], t[id].version + 1))
  }

  /** What the unique index says to one update. */
  predicate Free(t: Table, id: string, candidate: string)
    requires id in t
  {
    forall other :: other in t && other != id && t[other].bucket == t[id].bucket ==> t[other].candidate != candidate
  }

  lemma UpdateKeepsUnique(t: Table, id: string, row: Row)
    requires Unique(t) && id in t && row.bucket == t[id].bucket && Free(t, id, row.candidate)
    ensures Unique(t[id := row])
  {
  }

  class Store {
    var table: Table

    constructor (table: Table)
      ensures this.table == table
    {
      this.table := table;
    }

    /** The checks before the transaction. */
    static method Validate(assignments: map<string, string>) returns (error: Option<string>)
      ensures error.None? <==> WellFormed(assignments) && Injective(assignments)
      ensures error.Some? ==> error.value in {"invalid proxy group candidate reassignment", "proxy group already exists"}
    {
      error := None;
      var todo := assignments.Keys;
      var seen: set<string> := {};
      while |todo| > 0
        invariant todo <= assignments.Keys
        invariant seen == set id | id in assignments.Keys - todo :: assignments[id]
        invariant forall id :: id in assignments && id !in todo ==> WellFormedId(id) && WellFormedCandidate(assignments[id])
        invariant forall a, b :: a in assignments && b in assignments && a !in todo && b !in todo && a != b ==> assignments[a] != assignments[b]
        decreases |todo|
      {
        var id :| id in todo;
        if !(WellFormedId(id) && WellFormedCandidate(assignments[id])) {
          return Some("invalid proxy group candidate reassignment");
        }
        if assignments[id] in seen {
          var other :| other in assignments.Keys - todo && assignments[other] == assignments[id];
          return Some("proxy group already exists");
        }
        seen := seen + {assignments[id]};
        todo := todo - {id};
      }
    }

    /** `ReassignProxyGroupCandidates`. It commits exactly if the assignment is well formed
        and injective, all its groups exist, and no row outside it holds one of the new
        candidates; then all candidates have moved at once. Otherwise, or if the database
        fails, the table is as before. Every table in between satisfies the index. */
    method ReassignProxyGroupCandidates(assignments: map<string, string>, now: nat, faulty: bool) returns (error: Option<string>)
      requires Unique(table)
      modifies this
      ensures Unique(table)
      ensures table == if error.None? then Reassigned(old(table), assignments) else old(table)
      ensures error.None? <==>
              assignments != map[] && now != 0 && !faulty && WellFormed(assignments) && Injective(assignments)
              && assignments.Keys <= old(table).Keys && !Outsider(old(table), assignments)
    {
      if assignments == map[] || now == 0 {
        return Some("invalid proxy group candidate reassignment");
      }
      error := Validate(assignments);
      if error.Some? {
        return;
      }
      var staged;
      staged, error := Stage(table, assignments, now);
      if error.Some? {
        return;
      }
      var final;
      final, error := Finish(table, staged, assignments);
      if error.Some? {
        return;
      }
      if faulty {
        return Some("commit proxy group candidate reassignment");
      }
      assert final == Reassigned(table, assignments);
      table := final;
    }

    /** The first loop: every row to a fresh temporary name. */
    static method Stage(t: Table, assignments: map<string, string>, now: nat) returns (staged: Table, error: Option<string>)
      requires Unique(t)
      ensures Unique(staged)
      ensures error.None? <==> assignments.Keys <= t.Keys
      ensures error.None? ==> Staged(t, staged, assignments.Keys, assignments.Values)
    {
      staged, error := t, None;
      var todo := assignments.Keys;
      var index := 0;
      while |todo| > 0
        invariant todo <= assignments.Keys && Unique(staged)
        invariant Staged(t, staged, assignments.Keys - todo, assignments.Values)
        invariant assignments.Keys - todo <= t.Keys
        decreases |todo|
      {
        var id :| id in todo;
        var temporary := FreshName(staged, assignments.Values, now, index);
        if id !in staged {
          return staged, Some("proxy group not found");
        }
        StageOne(t, staged, assignments.Keys - todo, assignments.Values, id, temporary);
        staged := staged[id := staged[id].(candidate := temporary)];
        todo := todo - {id};
        assert assignments.Keys - todo == assignments.Keys - (todo + {id}) + {id};
        index := index + 1;
      }
      assert assignments.Keys - todo == assignments.Keys;
    }

    /** The second loop: every row to its candidate, as far as the index allows. */
    static method Finish(ghost t: Table, staged: Table, assignments: map<string, string>) returns (final: Table, error: Option<string>)
      requires Unique(staged) && Injective(assignments) && assignments.Keys <= t.Keys
      requires Staged(t, staged, assignments.Keys, assignments.Values)
      ensures Unique(final)
      ensures error.None? <==> !Outsider(t, assignments)
      ensures error.None? ==> final == Reassigned(t, assignments)
    {
      final, error := staged, None;
      var todo := assignments.Keys;
      while |todo| > 0
        invariant todo <= assignments.Keys && Unique(final)
        invariant Finishing(t, final, assignments, todo)
        invariant NoOutsiderBut(t, assignments, todo)
        decreases |todo|
      {
        var id :| id in todo;
        FreeUnlessOutsider(t, final, assignments, todo, id);
        if !Free(final, id, assignments[id]) {
          OutsiderFound(t, assignments, id);
          return final, Some("proxy group already exists");
        }
        FinishOne(t, final, assignments, todo, id);
        final := final[id := Row(final[id].bucket, assignments[id], final[id].version + 1)];
        todo := todo - {id};
      }
      FinishedIsReassigned(t, final, assignments, todo);
    }
  }

  lemma StageOne(t: Table, now: Table, done: set<string>, reserved: set<string>, id: string, name: string)
    requires Unique(now) && Staged(t, now, done, reserved) && id in now && name !in reserved && name !in Candidates(now)
    ensures Unique(now[id := now[id].(candidate := name)])
    ensures Staged(t, now[id := now[id].(candidate := name)], done + {id}, reserved)
  {
    FreshIsFree(now, id, name);
    UpdateKeepsUnique(now, id, now[id].(candidate := name));
  }

  lemma FreshIsFree(t: Table, id: string, name: string)
    requires id in t && name !in Candidates(t)
    ensures Free(t, id, name)
  {
    assert forall other :: other in t ==> t[other].candidate in Candidates(t);
  }

  /** Nobody outside holds a candidate of the rows that are finished. */
  ghost predicate NoOutsiderBut(t: Table, assignments: map<string, string>, todo: set<string>) {
    forall a :: a in assignments && a !in todo && a in t ==> NobodyOutsideHas(t, assignments, a)
  }

  ghost predicate NobodyOutsideHas(t: Table, assignments: map<string, string>, a: string)
    requires a in assignments && a in t
  {
    forall b :: b in t && b !in assignments && t[b].bucket == t[a].bucket ==> t[b].candidate != assignments[a]
  }

  lemma OutsiderFound(t: Table, assignments: map<string, string>, id: string)
    requires id in assignments && id in t && !NobodyOutsideHas(t, assignments, id)
    ensures Outsider(t, assignments)
  {
  }

  lemma FinishOne(t: Table, now: Table, assignments: map<string, string>, todo: set<string>, id: string)
    requires Unique(now) && Finishing(t, now, assignments, todo) && id in todo && todo <= assignments.Keys && assignments.Keys <= t.Keys
    requires Free(now, id, assignments[id])
    ensures Unique(now[id := Row(now[id].bucket, assignments[id], now[id].version + 1)])
    ensures Finishing(t, now[id := Row(now[id].bucket, assignments[id], now[id].version + 1)], assignments, todo - {id})
  {
    UpdateKeepsUnique(now, id, Row(now[id].bucket, assignments[id], now[id].version + 1));
  }

  lemma FinishedIsReassigned(t: Table, now: Table, assignments: map<string, string>, todo: set<string>)
    requires Finishing(t, now, assignments, todo) && |todo| == 0 && NoOutsiderBut(t, assignments, todo)
    ensures now == Reassigned(t, assignments) && !Outsider(t, assignments)
  {
    assert todo == {};
    assert forall a :: a in assignments && a in t ==> NobodyOutsideHas(t, assignments, a);
  }

  /** Only a row outside the assignment can be in the way of the second loop. */
  lemma FreeUnlessOutsider(t: Table, now: Table, assignments: map<string, string>, todo: set<string>, id: string)
    requires Injective(assignments) && assignments.Keys <= t.Keys && Finishing(t, now, assignments, todo) && id in todo && todo <= assignments.Keys
    ensures Free(now, id, assignments[id]) <==> NobodyOutsideHas(t, assignments, id)
  {
    assert assignments[id] in assignments.Values;
    if NobodyOutsideHas(t, assignments, id) {
      forall other | other in now && other != id && now[other].bucket == now[id].bucket
        ensures now[other].candidate != assignments[id]
      {
        if other in assignments && other !in todo {
          assert now[other].candidate == assignments[other];
        }
      }
    } else {
      var b :| b in t && b !in assignments && t[b].bucket == t[id].bucket && t[b].candidate == assignments[id];
      assert now[b] == t[b];
    }
  }

  // ---------------------------------------------------------------- reconcile

  /** A group and a slot as the reconciliation reads them. */
  datatype Group = Group(id: string, slot: int, candidate: string)

  datatype Slot = Slot(node: string, egressOk: bool, status: string)

  /** The candidate a group's slot reports, trimmed; empty if there is no such slot. */
  function NodeOf(slots: map<int, Slot>, g: Group): string {
    if g.slot in slots then Trim(slots[g.slot].node) else ""
  }

  predicate Usable(slots: map<int, Slot>, g: Group) {
    && g.slot in slots && slots[g.slot].egressOk && (slots[g.slot].status == "up" || slots[g.slot].status == "ready")
    && NodeOf(slots, g) != ""
  }

  predicate DistinctIds(groups: seq<Group>) {
    forall i, j :: 0 <= i < j < |groups| ==> groups[i].id != groups[j].id
  }

  predicate DistinctNodes(slots: map<int, Slot>, groups: seq<Group>) {
    forall i, j :: 0 <= i < j < |groups| ==> NodeOf(slots, groups[i]) != NodeOf(slots, groups[j])
  }

  predicate AllUsable(slots: map<int, Slot>, groups: seq<Group>) {
    forall i :: 0 <= i < |groups| ==> Usable(slots, groups[i])
  }

  function AssignmentOf(slots: map<int, Slot>, groups: seq<Group>): map<string, string> {
    if groups == [] then map[]
    else AssignmentOf(slots, groups[..|groups| - 1])[groups[|groups| - 1].id := NodeOf(slots, groups[|groups| - 1])]
  }

  function DriftedOf(slots: map<int, Slot>, groups: seq<Group>): set<string> {
    if groups == [] then {}
    else
      var g := groups[|groups| - 1];
      DriftedOf(slots, groups[..|groups| - 1]) + if NodeOf(slots, g) != Trim(g.candidate) then {g.id} else {}
  }

  function NodesOf(slots: map<int, Slot>, groups: seq<Group>): set<string> {
    if groups == [] then {} else NodesOf(slots, groups[..|groups| - 1]) + {NodeOf(slots, groups[|groups| - 1])}
  }

  lemma {:induction false} NodesAre(slots: map<int, Slot>, groups: seq<Group>, node: string)
    ensures node in NodesOf(slots, groups) <==> exists i :: 0 <= i < |groups| && NodeOf(slots, groups[i]) == node
  {
    if groups != [] {
      var init, g := groups[..|groups| - 1], groups[|groups| - 1];
      NodesAre(slots, init, node);
      if node in NodesOf(slots, init) {
        var i :| 0 <= i < |init| && NodeOf(slots, init[i]) == node;
        assert groups[i] == init[i];
      }
      if NodeOf(slots, g) == node {
        assert groups[|groups| - 1] == g;
      }
      if i :| 0 <= i < |groups| && NodeOf(slots, groups[i]) == node {
        assert i < |init| ==> init[i] == groups[i];
      }
    }
  }

  /** Every group on a usable slot, and on another node than those before it. */
  predicate Complete(slots: map<int, Slot>, groups: seq<Group>) {
    groups == [] ||
    (Complete(slots, groups[..|groups| - 1]) && Usable(slots, groups[|groups| - 1])
     && NodeOf(slots, groups[|groups| - 1]) !in NodesOf(slots, groups[..|groups| - 1]))
  }

  lemma {:induction false} CompleteMeans(slots: map<int, Slot>, groups: seq<Group>)
    ensures Complete(slots, groups) <==> AllUsable(slots, groups) && DistinctNodes(slots, groups)
  {
    if groups != [] {
      var init, g := groups[..|groups| - 1], groups[|groups| - 1];
      CompleteMeans(slots, init);
      NodesAre(slots, init, NodeOf(slots, g));
      assert forall i :: 0 <= i < |init| ==> init[i] == groups[i];
      if AllUsable(slots, groups) && DistinctNodes(slots, groups) {
        forall i | 0 <= i < |init| ensures Usable(slots, init[i]) && NodeOf(slots, init[i]) != NodeOf(slots, g) {
          assert Usable(slots, groups[i]) && NodeOf(slots, groups[i]) != NodeOf(slots, groups[|groups| - 1]);
        }
      }
    }
  }

  lemma {:induction false} IncompletePrefix(slots: map<int, Slot>, groups: seq<Group>, k: nat)
    requires k <= |groups| && !Complete(slots, groups[..k])
    ensures !Complete(slots, groups)
    decreases |groups|
  {
    if k < |groups| {
      assert groups[..|groups| - 1][..k] == groups[..k];
      IncompletePrefix(slots, groups[..|groups| - 1], k);
    } else {
      assert groups[..k] == groups;
    }
  }

  /** The loop of `refreshAssignedGroups` that builds the assignment: it is complete
      exactly if every group sits on a usable slot and no two of them on the same
      candidate. */
  method BuildAssignments(groups: seq<Group>, slots: map<int, Slot>) returns (complete: bool, assignments: map<string, string>, drifted: set<string>)
    ensures complete <==> AllUsable(slots, groups) && DistinctNodes(slots, groups)
    ensures complete ==> assignments == AssignmentOf(slots, groups) && drifted == DriftedOf(slots, groups)
  {
    CompleteMeans(slots, groups);
    complete, assignments, drifted := true, map[], {};
    var seen: set<string> := {};
    for k := 0 to |groups|
      invariant complete && Complete(slots, groups[..k])
      invariant assignments == AssignmentOf(slots, groups[..k]) && drifted == DriftedOf(slots, groups[..k])
      invariant seen == NodesOf(slots, groups[..k])
    {
      var group := groups[k];
      assert groups[..k + 1][..k] == groups[..k] && groups[..k + 1][|groups[..k + 1]| - 1] == group;
      var candidate := NodeOf(slots, group);
      if !Usable(slots, group) || candidate in seen {
        IncompletePrefix(slots, groups, k + 1);
        return false, assignments, drifted;
      }
      seen := seen + {candidate};
      assignments := assignments[group.id := candidate];
      if candidate != Trim(group.candidate) {
        drifted := drifted + {group.id};
      }
    }
    assert groups[..|groups|] == groups;
  }

  /** Drifted are exactly the groups whose slot has moved on to another candidate. */
  lemma {:induction false} DriftedMeans(slots: map<int, Slot>, groups: seq<Group>, id: string)
    ensures id in DriftedOf(slots, groups) <==>
            exists i :: 0 <= i < |groups| && groups[i].id == id && NodeOf(slots, groups[i]) != Trim(groups[i].candidate)
  {
    if groups != [] {
      var init, g := groups[..|groups| - 1], groups[|groups| - 1];
      DriftedMeans(slots, init, id);
      if id in DriftedOf(slots, init) {
        var i :| 0 <= i < |init| && init[i].id == id && NodeOf(slots, init[i]) != Trim(init[i].candidate);
        assert groups[i] == init[i];
      }
      if i :| 0 <= i < |groups| && groups[i].id == id && NodeOf(slots, groups[i]) != Trim(groups[i].candidate) {
        assert i < |init| ==> init[i] == groups[i];
      }
    }
  }

  /** The assignment is defined on exactly the groups, and sends each to its node. */
  lemma {:induction false} AssignmentMeans(slots: map<int, Slot>, groups: seq<Group>, id: string)
    requires DistinctIds(groups)
    ensures id in AssignmentOf(slots, groups) <==> exists i :: 0 <= i < |groups| && groups[i].id == id
    ensures forall i :: 0 <= i < |groups| && groups[i].id == id ==> id in AssignmentOf(slots, groups) && AssignmentOf(slots, groups)[id] == NodeOf(slots, groups[i])
  {
    if groups != [] {
      var init, g := groups[..|groups| - 1], groups[|groups| - 1];
      AssignmentMeans(slots, init, id);
      assert forall i :: 0 <= i < |init| ==> init[i] == groups[i];
      assert groups[|groups| - 1].id == g.id;
    }
  }

  /** A complete assignment is injective, and of trimmed candidates. */
  lemma CompleteIsInjective(slots: map<int, Slot>, groups: seq<Group>)
    requires DistinctIds(groups) && AllUsable(slots, groups) && DistinctNodes(slots, groups)
    ensures var a := AssignmentOf(slots, groups);
            Injective(a) && forall id :: id in a ==> a[id] != "" && a[id] == Trim(a[id])
  {
    var a := AssignmentOf(slots, groups);
    forall id | id in a ensures a[id] != "" && a[id] == Trim(a[id]) {
      AssignmentMeans(slots, groups, id);
      var i :| 0 <= i < |groups| && groups[i].id == id;
      assert Usable(slots, groups[i]);
      TrimIsIdempotent(slots[groups[i].slot].node);
    }
    forall x, y | x in a && y in a && x != y ensures a[x] != a[y] {
      AssignmentMeans(slots, groups, x);
      AssignmentMeans(slots, groups, y);
      var i :| 0 <= i < |groups| && groups[i].id == x;
      var j :| 0 <= j < |groups| && groups[j].id == y;
      if i < j {
        assert NodeOf(slots, groups[i]) != NodeOf(slots, groups[j]);
      } else {
        assert j < i && NodeOf(slots, groups[j]) != NodeOf(slots, groups[i]);
      }
    }
  }

  predicate ShortAndPlain(s: string) {
    |s| <= 256 && forall i :: 0 <= i < |s| ==> s[i] != '\0' && s[i] != '\r' && s[i] != '\n'
  }

  /** The assignment reconciliation builds over all groups always meets the conditions of
      the store, whatever permutation it is, when ids and candidates are well formed: a
      total assignment leaves no row outside that could be in the way. */
  lemma CompleteAssignmentCommits(t: Table, slots: map<int, Slot>, groups: seq<Group>)
    requires DistinctIds(groups) && AllUsable(slots, groups) && DistinctNodes(slots, groups)
    requires forall id :: id in t <==> exists i :: 0 <= i < |groups| && groups[i].id == id
    requires forall i :: 0 <= i < |groups| ==> WellFormedId(groups[i].id) && ShortAndPlain(NodeOf(slots, groups[i]))
    ensures var a := AssignmentOf(slots, groups);
            WellFormed(a) && Injective(a) && a.Keys == t.Keys && !Outsider(t, a) && Unique(Reassigned(t, a))
  {
    var a := AssignmentOf(slots, groups);
    CompleteIsInjective(slots, groups);
    forall id ensures id in a <==> id in t {
      AssignmentMeans(slots, groups, id);
    }
    forall id | id in a ensures WellFormedId(id) && WellFormedCandidate(a[id]) {
      AssignmentMeans(slots, groups, id);
      var i :| 0 <= i < |groups| && groups[i].id == id;
    }
  }

  /** A permutation of the candidates of all groups leaves the set of candidates as it was,
      keeps every group in its bucket, and counts every version up by one. */
  lemma PermutationKeepsCandidates(t: Table, assignments: map<string, string>)
    requires assignments.Keys == t.Keys && assignments.Values == Candidates(t)
    ensures Candidates(Reassigned(t, assignments)) == Candidates(t)
    ensures forall id :: id in t ==>
              Reassigned(t, assignments)[id].bucket == t[id].bucket && Reassigned(t, assignments)[id].version == t[id].version + 1
  {
    var now := Reassigned(t, assignments);
    forall c ensures c in Candidates(now) <==> c in assignments.Values {
      if c in assignments.Values {
        var id :| id in assignments && assignments[id] == c;
        assert id in now && now[id].candidate == c;
      }
    }
  }
}
