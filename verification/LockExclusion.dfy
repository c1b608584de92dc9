/** What the locks of the orchestrator keep apart: operations that change something never
    overlap, and two operations on the same key are never inside at the same time.
    Models internal/orchestrator/locks.go and the lock nesting of the operations. */
module LockExclusion {
  import opened Wrappers
  import opened OperationLocks

  /** Every operation but a check changes something. */
  predicate Mutating(op: Operation) {
    !op.Check?
  }

  /** The key an operation works under, besides the mutation lock. */
  function KeyOf(op: Operation): Option<string> {
    match op
    case Check(id) => Some(id)
    case Rotate(id) => Some(id)
    case SwitchProtocolMode(id) => Some(id)
    case ReplaceCandidate(id) => if id == "agw-main" then None else Some(id)
    case RecoverProtocolModes(_) => None
    case Activate(_, _) => Some("activation")
    case Reconcile(_, _) => Some("activation")
    case _ => Some("all")
  }

  /** A key stays held until an event of its own. */
  lemma {:induction false} StaysHeld(before: seq<Event>, k: string, rest: seq<Event>)
    requires forall e :: e in rest ==> e.key != k
    ensures k in Held(before + [Acquire(k)] + rest)
  {
    var t := before + [Acquire(k)] + rest;
    if rest == [] {
      assert t[..|t| - 1] == before && t[|t| - 1] == Acquire(k);
    } else {
      var init, last := rest[..|rest| - 1], rest[|rest| - 1];
      assert last in rest;
      StaysHeld(before, k, init);
      assert t[..|t| - 1] == before + [Acquire(k)] + init && t[|t| - 1] == last;
    }
  }

  /** What an operation does inside its outer lock concerns higher keys only. */
  lemma InsideIsAbove(op: Operation)
    requires Proper(op) && Mutating(op)
    ensures var c := CallOf(op);
            && c.mutates && c.key == KeyOf(op) && (c.key.Some? ==> c.key != Some("mutation"))
            && AllAbove(TraceAll(c.inner, true), if c.key.Some? then Rank(c.key.value) + 1 else 1)
  {
    var c := CallOf(op);
    OperationFits(op);
    FittingAllIsOrdered(c.inner, if c.key.Some? then Rank(c.key.value) + 1 else 1, true, {});
  }

  lemma HeldAround(k: string, rest: seq<Event>, p: nat)
    requires 0 < p < |rest| + 2 && forall e :: e in rest ==> e.key != k
    ensures k in Held(([Acquire(k)] + rest + [Release(k)])[..p])
  {
    StaysHeld([], k, rest[..p - 1]);
    assert ([Acquire(k)] + rest + [Release(k)])[..p] == [] + [Acquire(k)] + rest[..p - 1];
  }

  /** The part of an operation inside its mutation lock. */
  function Body(op: Operation): seq<Event> {
    var c := CallOf(op);
    match c.key
    case Some(k) => [Acquire(k)] + TraceAll(c.inner, true) + [Release(k)]
    case None => TraceAll(c.inner, true)
  }

  lemma BodyIsInside(op: Operation)
    requires Proper(op) && Mutating(op)
    ensures Trace(CallOf(op), false) == [Acquire("mutation")] + Body(op) + [Release("mutation")]
    ensures forall e :: e in Body(op) ==> e.key != "mutation"
  {
    InsideIsAbove(op);
    MutatingTrace(CallOf(op));
  }

  /** From its first event to its last an operation that changes something holds the
      mutation lock. */
  lemma HoldsMutation(op: Operation, p: nat)
    requires Proper(op) && Mutating(op) && 0 < p < |Trace(CallOf(op), false)|
    ensures "mutation" in Held(Trace(CallOf(op), false)[..p])
  {
    BodyIsInside(op);
    HeldAround("mutation", Body(op), p);
  }

  /** The operation has taken its own key and not given it back. */
  predicate Inside(op: Operation, p: nat) {
    var n := |Trace(CallOf(op), false)|;
    if Mutating(op) then 1 < p && p + 1 < n else 0 < p < n
  }

  lemma HoldsKey(op: Operation, p: nat)
    requires Proper(op) && KeyOf(op).Some? && Inside(op, p)
    ensures KeyOf(op).value in Held(Trace(CallOf(op), false)[..p])
  {
    var c, t, k := CallOf(op), Trace(CallOf(op), false), KeyOf(op).value;
    if Mutating(op) {
      InsideIsAbove(op);
      MutatingTrace(c);
      var inside := TraceAll(c.inner, true);
      assert t == [Acquire("mutation"), Acquire(k)] + inside + [Release(k), Release("mutation")];
      AboveIsOther(c.inner, k, p - 2);
      StaysHeld([Acquire("mutation")], k, inside[..p - 2]);
      assert t[..p] == [Acquire("mutation")] + [Acquire(k)] + inside[..p - 2];
    } else {
      CheckTrace(k);
      StaysHeld([], k, []);
      assert t[..p] == [] + [Acquire(k)] + [];
    }
  }

  lemma CheckTrace(id: string)
    ensures Trace(CallOf(Check(id)), false) == [Acquire(id), Release(id)]
  {
    assert TraceAll(CallOf(Check(id)).inner, false) == [];
  }

  lemma AboveIsOther(inner: seq<Call>, k: string, n: nat)
    requires n <= |TraceAll(inner, true)| && AllAbove(TraceAll(inner, true), Rank(k) + 1)
    ensures forall e :: e in TraceAll(inner, true)[..n] ==> e.key != k
  {
    var inside := TraceAll(inner, true);
    forall e | e in inside[..n] ensures e.key != k {
      assert e in inside;
    }
  }

  lemma {:induction false} SameThreads(s: System, schedule: seq<nat>)
    requires Shaped(s) && Runs(s, schedule)
    ensures After(s, schedule).traces == s.traces && |After(s, schedule).at| == |s.at|
  {
    if schedule != [] {
      SameThreads(s, schedule[..|schedule| - 1]);
    }
  }

  lemma OneHolder(ops: seq<Operation>, schedule: seq<nat>, i: nat, j: nat, k: string)
    requires forall n :: 0 <= n < |ops| ==> Proper(ops[n])
    requires Runs(Starting(ops), schedule) && i < |ops| && j < |ops| && i != j
    ensures var s := After(Starting(ops), schedule);
            |s.at| == |ops| && (k in HeldBy(s, i) ==> k !in HeldBy(s, j))
  {
    SameThreads(Starting(ops), schedule);
    NeverDeadlocked(ops, schedule);
  }

  /** What a thread holds is read off its trace. */
  lemma HeldByTrace(ops: seq<Operation>, schedule: seq<nat>, i: nat)
    requires Runs(Starting(ops), schedule) && i < |ops|
    ensures var s, t := After(Starting(ops), schedule), Trace(CallOf(ops[i]), false);
            |s.at| == |s.traces| == |ops| && s.traces[i] == t && s.at[i] <= |t| && HeldBy(s, i) == Held(t[..s.at[i]])
  {
    SameThreads(Starting(ops), schedule);
  }

  /** No two operations that change something are ever under way at the same time, whatever
      ran before and however the threads are scheduled. */
  lemma MutationsExclude(ops: seq<Operation>, schedule: seq<nat>, i: nat, j: nat)
    requires forall k :: 0 <= k < |ops| ==> Proper(ops[k])
    requires Runs(Starting(ops), schedule) && i < |ops| && j < |ops| && i != j && Mutating(ops[i]) && Mutating(ops[j])
    ensures var s := After(Starting(ops), schedule);
            && |s.at| == |s.traces| == |ops|
            && (0 < s.at[i] < |s.traces[i]| ==> s.at[j] == 0 || s.at[j] == |s.traces[j]|)
  {
    var s := After(Starting(ops), schedule);
    HeldByTrace(ops, schedule, i);
    HeldByTrace(ops, schedule, j);
    OneHolder(ops, schedule, i, j, "mutation");
    if 0 < s.at[i] < |s.traces[i]| {
      HoldsMutation(ops[i], s.at[i]);
      assert "mutation" !in HeldBy(s, j);
      if 0 < s.at[j] < |s.traces[j]| {
        HoldsMutation(ops[j], s.at[j]);
      }
    }
  }

  /** Two operations with the same key, a check and a rotation of one group for instance,
      are never inside at the same time. */
  lemma KeysExclude(ops: seq<Operation>, schedule: seq<nat>, i: nat, j: nat)
    requires forall k :: 0 <= k < |ops| ==> Proper(ops[k])
    requires Runs(Starting(ops), schedule) && i < |ops| && j < |ops| && i != j && KeyOf(ops[i]).Some? && KeyOf(ops[i]) == KeyOf(ops[j])
    ensures var s := After(Starting(ops), schedule);
            |s.at| == |ops| && (Inside(ops[i], s.at[i]) ==> !Inside(ops[j], s.at[j]))
  {
    var s, k := After(Starting(ops), schedule), KeyOf(ops[i]).value;
    HeldByTrace(ops, schedule, i);
    HeldByTrace(ops, schedule, j);
    OneHolder(ops, schedule, i, j, k);
    if Inside(ops[i], s.at[i]) {
      HoldsKey(ops[i], s.at[i]);
      assert k !in HeldBy(s, j);
      if Inside(ops[j], s.at[j]) {
        HoldsKey(ops[j], s.at[j]);
      }
    }
  }
}
