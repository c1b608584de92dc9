/** The locks of the orchestrator: one mutex per key, taken by nested calls whose context
    says whether the mutation lock is already theirs. Any number of operations run at
    once; none of them ever waits for ever.
    Models internal/orchestrator/locks.go and the lock nesting of Activate, Enable, Check,
    Rotate, Disable, Reconcile, SwitchProtocolModeExpected, RecoverProtocolModes,
    RotateMixedCredentials, setMixedPolicy, ReplaceCandidate and CleanupLegacyAggregate. */
module OperationLocks {
  import opened Wrappers

  /** A call: whether it asks for the mutation lock, the key it locks then, and the calls
      it makes with its context while it holds them. */
  datatype Call = Call(mutates: bool, key: Option<string>, inner: seq<Call>)

  datatype Event = Acquire(key: string) | Release(key: string)

  /** The order in which keys are taken. */
  function Rank(key: string): nat {
    if key == "mutation" then 0 else if key == "activation" then 1 else 2
  }

  /** What a call does to the locks; `carries` says that its context holds the mutation
      lock already, in which case `lockMutation` does nothing. */
  function Trace(c: Call, carries: bool): seq<Event>
    decreases c, 0
  {
    var takes := c.mutates && !carries;
    var inside := TraceAll(c.inner, carries || c.mutates);
    var keyed := match c.key case Some(k) => [Acquire(k)] + inside + [Release(k)] case None => inside;
    if takes then [Acquire("mutation")] + keyed + [Release("mutation")] else keyed
  }

  function TraceAll(calls: seq<Call>, carries: bool): seq<Event>
    decreases calls
  {
    if calls == [] then [] else Trace(calls[0], carries) + TraceAll(calls[1..], carries)
  }

  // -------------------------------------------------------------- operations

  datatype Operation =
    | Enable
    | Disable
    | Check(id: string)
    | Rotate(id: string)
    | SwitchProtocolMode(id: string)
    | ReplaceCandidate(id: string)
    | RecoverProtocolModes(ids: seq<string>)
    | RotateMixedCredentials
    | SetMixedPolicy
    | CleanupLegacyAggregate
    | Activate(disables: bool, restores: bool)
    | Reconcile(checked: seq<string>, enabled: nat)

  function Locked(mutates: bool, key: string): Call {
    Call(mutates, Some(key), [])
  }

  function EachLocked(ids: seq<string>): seq<Call> {
    seq(|ids|, i requires 0 <= i < |ids| => Locked(false, ids[i]))
  }

  /** The nesting as the methods have it. Reconcile may disable what it has enabled. */
  function CallOf(op: Operation): Call {
    match op
    case Enable => Locked(true, "all")
    case Disable => Locked(true, "all")
    case Check(id) => Locked(false, id)
    case Rotate(id) => Locked(true, id)
    case SwitchProtocolMode(id) => Locked(true, id)
    case ReplaceCandidate(id) => if id == "agw-main" then Call(true, None, []) else Locked(true, id)
    case RecoverProtocolModes(ids) => Call(true, None, EachLocked(ids))
    case RotateMixedCredentials => Locked(true, "all")
    case SetMixedPolicy => Locked(true, "all")
    case CleanupLegacyAggregate => Locked(true, "all")
    case Activate(disables, restores) =>
      Call(true, Some("activation"),
           (if disables then [Locked(true, "all")] else []) + [Locked(true, "all")] + (if restores then [Locked(true, "all")] else []))
    case Reconcile(checked, enabled) =>
      Call(true, Some("activation"), EachLocked(checked) + seq(enabled, i => Locked(true, "all")))
  }

  /** No id is one of the reserved keys that come before it. */
  predicate ProperId(id: string) {
    id != "mutation" && id != "activation"
  }

  predicate Proper(op: Operation) {
    match op
    case Check(id) => true
    case Rotate(id) => id != "mutation"
    case SwitchProtocolMode(id) => id != "mutation"
    case ReplaceCandidate(id) => id != "mutation"
    case RecoverProtocolModes(ids) => forall i :: 0 <= i < |ids| ==> ids[i] != "mutation"
    case Reconcile(checked, _) => forall i :: 0 <= i < |checked| ==> ProperId(checked[i])
    case _ => true
  }

  // ------------------------------------------------------------------ order

  /** The call only takes keys of rank `floor` or more, each above those around it. */
  predicate Fits(c: Call, floor: nat, carries: bool)
    decreases c, 0
  {
    var takes := c.mutates && !carries;
    var above := if takes then 1 else floor;
    && (takes ==> floor == 0)
    && (c.key.Some? ==> above <= Rank(c.key.value))
    && FitAll(c.inner, if c.key.Some? then Rank(c.key.value) + 1 else above, carries || c.mutates)
  }

  predicate FitAll(calls: seq<Call>, floor: nat, carries: bool)
    decreases calls
  {
    calls == [] || (Fits(calls[0], floor, carries) && FitAll(calls[1..], floor, carries))
  }

  function Held(trace: seq<Event>): set<string> {
    if trace == [] then {}
    else
      var before := Held(trace[..|trace| - 1]);
      match trace[|trace| - 1]
      case Acquire(k) => before + {k}
      case Release(k) => before - {k}
  }

  /** Each acquired key is above all that are held at that point, and what is released is
      held; `around` is held before the trace begins. */
  predicate Ordered(trace: seq<Event>, around: set<string>) {
    trace == [] ||
    (Ordered(trace[..|trace| - 1], around)
     && match trace[|trace| - 1]
        case Acquire(k) => forall h :: h in around + Held(trace[..|trace| - 1]) ==> Rank(h) < Rank(k)
        case Release(k) => k in Held(trace[..|trace| - 1]))
  }

  lemma {:induction false} HeldConcat(a: seq<Event>, b: seq<Event>)
    requires Held(a) == {}
    ensures Held(a + b) == Held(b)
  {
    if b == [] {
      assert a + b == a;
    } else {
      assert (a + b)[..|a + b| - 1] == a + b[..|b| - 1];
      HeldConcat(a, b[..|b| - 1]);
    }
  }

  lemma {:induction false} OrderedConcat(a: seq<Event>, b: seq<Event>, around: set<string>)
    requires Ordered(a, around) && Held(a) == {} && Ordered(b, around)
    ensures Ordered(a + b, around)
  {
    if b == [] {
      assert a + b == a;
    } else {
      assert (a + b)[..|a + b| - 1] == a + b[..|b| - 1];
      OrderedConcat(a, b[..|b| - 1], around);
      HeldConcat(a, b[..|b| - 1]);
    }
  }

  /** A trace around which one more key is held. */
  lemma {:induction false} Wrap(k: string, inside: seq<Event>, around: set<string>)
    requires Ordered(inside, around + {k}) && (forall h :: h in around ==> Rank(h) < Rank(k))
    requires forall e :: e in inside ==> e.key != k
    ensures Ordered([Acquire(k)] + inside, around) && Held([Acquire(k)] + inside) == Held(inside) + {k}
  {
    var t := [Acquire(k)] + inside;
    if inside == [] {
      assert t == [Acquire(k)] && t[..0] == [];
      assert Ordered(t[..0], around) && Held(t[..0]) == {};
      assert around + {} == around;
    } else {
      var init := inside[..|inside| - 1];
      assert t[..|t| - 1] == [Acquire(k)] + init;
      assert inside[|inside| - 1] in inside;
      Wrap(k, init, around);
    }
  }

  lemma {:induction false} Close(k: string, inside: seq<Event>, around: set<string>)
    requires Ordered(inside, around + {k}) && Held(inside) == {} && (forall h :: h in around ==> Rank(h) < Rank(k))
    requires forall e :: e in inside ==> e.key != k
    ensures Ordered([Acquire(k)] + inside + [Release(k)], around) && Held([Acquire(k)] + inside + [Release(k)]) == {}
  {
    Wrap(k, inside, around);
    var t := [Acquire(k)] + inside + [Release(k)];
    assert t[..|t| - 1] == [Acquire(k)] + inside;
  }

  predicate AllAbove(trace: seq<Event>, floor: nat) {
    forall e :: e in trace ==> floor <= Rank(e.key)
  }

  /** A call that fits is a trace in order that ends with nothing held. */
  lemma {:induction false} FittingIsOrdered(c: Call, floor: nat, carries: bool, around: set<string>)
    requires Fits(c, floor, carries) && (forall h :: h in around ==> Rank(h) < floor)
    ensures var t := Trace(c, carries); Ordered(t, around) && Held(t) == {} && AllAbove(t, floor)
    decreases c, 0
  {
    var takes := c.mutates && !carries;
    var above := if takes then 1 else floor;
    var outer := if takes then around + {"mutation"} else around;
    var inside := TraceAll(c.inner, carries || c.mutates);
    var keyed := match c.key case Some(k) => [Acquire(k)] + inside + [Release(k)] case None => inside;
    match c.key {
      case Some(k) =>
        FittingAllIsOrdered(c.inner, Rank(k) + 1, carries || c.mutates, outer + {k});
        Close(k, inside, outer);
      case None =>
        FittingAllIsOrdered(c.inner, above, carries || c.mutates, outer);
    }
    assert Ordered(keyed, outer) && Held(keyed) == {} && AllAbove(keyed, above);
    if takes {
      Close("mutation", keyed, around);
    }
  }

  lemma {:induction false} FittingAllIsOrdered(calls: seq<Call>, floor: nat, carries: bool, around: set<string>)
    requires FitAll(calls, floor, carries) && (forall h :: h in around ==> Rank(h) < floor)
    ensures var t := TraceAll(calls, carries); Ordered(t, around) && Held(t) == {} && AllAbove(t, floor)
    decreases calls
  {
    if calls != [] {
      FittingIsOrdered(calls[0], floor, carries, around);
      FittingAllIsOrdered(calls[1..], floor, carries, around);
      OrderedConcat(Trace(calls[0], carries), TraceAll(calls[1..], carries), around);
      HeldConcat(Trace(calls[0], carries), TraceAll(calls[1..], carries));
    }
  }

  lemma {:induction false} EachFits(ids: seq<string>, floor: nat)
    ensures FitAll(EachLocked(ids), floor, true) <==> forall i :: 0 <= i < |ids| ==> floor <= Rank(ids[i])
  {
    if ids != [] {
      assert EachLocked(ids)[1..] == EachLocked(ids[1..]);
      EachFits(ids[1..], floor);
      var rest := ids[1..];
      assert EachLocked(ids)[0] == Locked(false, ids[0]);
      assert Fits(Locked(false, ids[0]), floor, true) <==> floor <= Rank(ids[0]);
      assert forall i :: 1 <= i < |ids| ==> ids[i] == rest[i - 1];
      if FitAll(EachLocked(ids), floor, true) {
        forall i | 0 <= i < |ids| ensures floor <= Rank(ids[i]) {
          assert i > 0 ==> ids[i] == rest[i - 1];
        }
      }
      if forall i :: 0 <= i < |ids| ==> floor <= Rank(ids[i]) {
        forall i | 0 <= i < |rest| ensures floor <= Rank(rest[i]) {
          assert rest[i] == ids[i + 1];
        }
      }
    }
  }

  lemma {:induction false} FitConcat(a: seq<Call>, b: seq<Call>, floor: nat, carries: bool)
    ensures FitAll(a + b, floor, carries) <==> FitAll(a, floor, carries) && FitAll(b, floor, carries)
  {
    if a == [] {
      assert a + b == b;
    } else {
      assert (a + b)[1..] == a[1..] + b;
      FitConcat(a[1..], b, floor, carries);
    }
  }

  lemma {:induction false} EnablesFit(n: nat)
    ensures FitAll(seq(n, i => Locked(true, "all")), 2, true)
  {
    if n > 0 {
      var all := seq(n, i => Locked(true, "all"));
      assert all[1..] == seq(n - 1, i => Locked(true, "all"));
      EnablesFit(n - 1);
    }
  }

  /** An operation keeps to the order exactly if no id it locks under the mutation lock is
      that lock's own key, nor, in a reconciliation, that of the activation lock. */
  lemma OperationFits(op: Operation)
    ensures Proper(op) <==> Fits(CallOf(op), 0, false)
  {
    match op {
      case RecoverProtocolModes(ids) => EachFits(ids, 1);
      case Activate(disables, restores) =>
        var inner := CallOf(op).inner;
        EnablesFit(|inner|);
        assert inner == seq(|inner|, i => Locked(true, "all"));
      case Reconcile(checked, enabled) =>
        EachFits(checked, 2);
        EnablesFit(enabled);
        FitConcat(EachLocked(checked), seq(enabled, i => Locked(true, "all")), 2, true);
      case _ =>
    }
  }

  // ----------------------------------------------------------------- threads

  /** The threads with what they still have to do behind their counters, and the mutexes
      that are taken. */
  datatype System = System(traces: seq<seq<Event>>, at: seq<nat>, owner: map<string, nat>)

  predicate Shaped(s: System) {
    |s.at| == |s.traces| && forall i :: 0 <= i < |s.at| ==> s.at[i] <= |s.traces[i]|
  }

  predicate Unfinished(s: System, i: nat)
    requires Shaped(s)
  {
    i < |s.at| && s.at[i] < |s.traces[i]|
  }

  function NextEvent(s: System, i: nat): Event
    requires Shaped(s) && Unfinished(s, i)
  {
    s.traces[i][s.at[i]]
  }

  /** A thread can go on unless it waits for a mutex. */
  predicate CanStep(s: System, i: nat)
    requires Shaped(s)
  {
    Unfinished(s, i) && (NextEvent(s, i).Acquire? ==> NextEvent(s, i).key !in s.owner)
  }

  function Step(s: System, i: nat): System
    requires Shaped(s) && CanStep(s, i)
  {
    var next := s.(at := s.at[i := s.at[i] + 1]);
    match NextEvent(s, i)
    case Acquire(k) => next.(owner := s.owner[k := i])
    case Release(k) => next.(owner := s.owner - {k})
  }

  function HeldBy(s: System, i: nat): set<string>
    requires Shaped(s) && i < |s.at|
  {
    Held(s.traces[i][..s.at[i]])
  }

  /** The mutexes are exactly those the threads hold, each by one thread. */
  ghost predicate Consistent(s: System) {
    && Shaped(s)
    && (forall i :: 0 <= i < |s.at| ==> Ordered(s.traces[i], {}) && Held(s.traces[i]) == {})
    && OwnersHold(s)
  }

  lemma {:induction false} OrderedAt(t: seq<Event>, p: nat, around: set<string>)
    requires Ordered(t, around) && p < |t|
    ensures match t[p]
            case Acquire(k) => forall h :: h in around + Held(t[..p]) ==> Rank(h) < Rank(k)
            case Release(k) => k in Held(t[..p])
  {
    if p == |t| - 1 {
      assert t[..p] == t[..|t| - 1];
    } else {
      OrderedAt(t[..|t| - 1], p, around);
      assert t[..|t| - 1][..p] == t[..p];
    }
  }

  lemma HeldAfter(s: System, i: nat, j: nat)
    requires Shaped(s) && CanStep(s, i) && j < |s.at|
    ensures Shaped(Step(s, i)) && Step(s, i).traces == s.traces
    ensures HeldBy(Step(s, i), j) == if j != i then HeldBy(s, j) else
              match NextEvent(s, i) case Acquire(k) => HeldBy(s, i) + {k} case Release(k) => HeldBy(s, i) - {k}
  {
    var t, p := s.traces[i], s.at[i];
    assert t[..p + 1][..p] == t[..p];
  }

  ghost predicate OwnersHold(s: System)
    requires Shaped(s)
  {
    && (forall i, k :: 0 <= i < |s.at| && k in HeldBy(s, i) ==> k in s.owner && s.owner[k] == i)
    && (forall k :: k in s.owner ==> s.owner[k] < |s.at| && k in HeldBy(s, s.owner[k]))
  }

  lemma AcquireKeepsOwners(s: System, i: nat)
    requires Shaped(s) && OwnersHold(s) && CanStep(s, i) && NextEvent(s, i).Acquire?
    ensures Shaped(Step(s, i)) && OwnersHold(Step(s, i))
  {
    var next, key := Step(s, i), NextEvent(s, i).key;
    HeldAfter(s, i, i);
    forall j, k | 0 <= j < |s.at| && k in HeldBy(next, j) ensures k in next.owner && next.owner[k] == j {
      HeldAfter(s, i, j);
    }
    forall k | k in next.owner ensures next.owner[k] < |s.at| && k in HeldBy(next, next.owner[k]) {
      HeldAfter(s, i, next.owner[k]);
    }
  }

  lemma ReleaseKeepsOwners(s: System, i: nat)
    requires Shaped(s) && OwnersHold(s) && CanStep(s, i) && NextEvent(s, i).Release? && NextEvent(s, i).key in HeldBy(s, i)
    ensures Shaped(Step(s, i)) && OwnersHold(Step(s, i))
  {
    var next, key := Step(s, i), NextEvent(s, i).key;
    HeldAfter(s, i, i);
    forall j, k | 0 <= j < |s.at| && k in HeldBy(next, j) ensures k in next.owner && next.owner[k] == j {
      HeldAfter(s, i, j);
      assert k in HeldBy(s, j) && s.owner[k] == j && s.owner[key] == i;
    }
    forall k | k in next.owner ensures next.owner[k] < |s.at| && k in HeldBy(next, next.owner[k]) {
      HeldAfter(s, i, next.owner[k]);
    }
  }

  lemma StepKeepsConsistent(s: System, i: nat)
    requires Consistent(s) && CanStep(s, i)
    ensures Consistent(Step(s, i))
  {
    OrderedAt(s.traces[i], s.at[i], {});
    if NextEvent(s, i).Acquire? {
      AcquireKeepsOwners(s, i);
    } else {
      ReleaseKeepsOwners(s, i);
    }
  }

  lemma FinishedHoldsNothing(s: System, i: nat)
    requires Consistent(s) && i < |s.at|
    ensures s.at[i] == |s.traces[i]| ==> HeldBy(s, i) == {}
  {
    if s.at[i] == |s.traces[i]| {
      assert s.traces[i][..s.at[i]] == s.traces[i];
    }
  }

  /** A thread that cannot go on waits for a key above all it holds, and the owner of that
      key is another unfinished thread. */
  lemma Waits(s: System, i: nat) returns (owner: nat)
    requires Consistent(s) && Unfinished(s, i) && !CanStep(s, i)
    ensures var k := NextEvent(s, i).key;
            && NextEvent(s, i).Acquire? && k in s.owner && owner == s.owner[k] && owner != i
            && Unfinished(s, owner) && k in HeldBy(s, owner)
            && forall h :: h in HeldBy(s, i) ==> Rank(h) < Rank(k)
  {
    var k := NextEvent(s, i).key;
    OrderedAt(s.traces[i], s.at[i], {});
    forall h | h in HeldBy(s, i) ensures Rank(h) < Rank(k) {
      assert h in {} + Held(s.traces[i][..s.at[i]]);
    }
    owner := s.owner[k];
    assert k in HeldBy(s, owner);
    FinishedHoldsNothing(s, owner);
  }

  /** No deadlock: as long as a thread is not finished, some thread can go on. Whoever
      waits, waits for one that waits for a higher key, and there are only three ranks. */
  lemma SomeThreadCanStep(s: System, i: nat) returns (j: nat)
    requires Consistent(s) && Unfinished(s, i)
    ensures CanStep(s, j)
  {
    j := i;
    if !CanStep(s, j) {
      var k0 := NextEvent(s, j).key;
      j := Waits(s, j);
      if !CanStep(s, j) {
        var k1 := NextEvent(s, j).key;
        var first := j;
        j := Waits(s, j);
        assert Rank(k0) < Rank(k1);
        if !CanStep(s, j) {
          var k2 := NextEvent(s, j).key;
          var second := j;
          j := Waits(s, j);
          assert Rank(k1) < Rank(k2) && Rank(k2) <= 2;
          if !CanStep(s, j) {
            var k3 := NextEvent(s, j).key;
            var third := Waits(s, j);
            assert false;
          }
        }
      }
    }
  }

  function Starting(ops: seq<Operation>): System {
    System(seq(|ops|, i requires 0 <= i < |ops| => Trace(CallOf(ops[i]), false)), seq(|ops|, i => 0), map[])
  }

  predicate Runs(s: System, schedule: seq<nat>)
    requires Shaped(s)
    decreases |schedule|, 0
  {
    schedule == [] || (Runs(s, schedule[..|schedule| - 1]) && CanStep(After(s, schedule[..|schedule| - 1]), schedule[|schedule| - 1]))
  }

  function After(s: System, schedule: seq<nat>): (r: System)
    requires Shaped(s) && Runs(s, schedule)
    ensures Shaped(r)
    decreases |schedule|, 1
  {
    if schedule == [] then s else Step(After(s, schedule[..|schedule| - 1]), schedule[|schedule| - 1])
  }

  lemma ProperIsOrdered(op: Operation)
    requires Proper(op)
    ensures Ordered(Trace(CallOf(op), false), {}) && Held(Trace(CallOf(op), false)) == {}
  {
    OperationFits(op);
    FittingIsOrdered(CallOf(op), 0, false, {});
  }

  lemma StartIsConsistent(ops: seq<Operation>)
    requires forall i :: 0 <= i < |ops| ==> Proper(ops[i])
    ensures Consistent(Starting(ops))
  {
    var s := Starting(ops);
    forall i | 0 <= i < |ops| ensures Ordered(s.traces[i], {}) && Held(s.traces[i]) == {} {
      assert s.traces[i] == Trace(CallOf(ops[i]), false);
      ProperIsOrdered(ops[i]);
    }
    NobodyHolds(s);
  }

  lemma NobodyHolds(s: System)
    requires |s.at| == |s.traces| && s.owner == map[] && forall i :: 0 <= i < |s.at| ==> s.at[i] == 0
    ensures Shaped(s) && OwnersHold(s)
  {
    assert forall i :: 0 <= i < |s.at| ==> s.traces[i][..s.at[i]] == [];
  }

  lemma {:induction false} AfterIsConsistent(s: System, schedule: seq<nat>)
    requires Consistent(s) && Runs(s, schedule)
    ensures Consistent(After(s, schedule))
  {
    if schedule != [] {
      AfterIsConsistent(s, schedule[..|schedule| - 1]);
      StepKeepsConsistent(After(s, schedule[..|schedule| - 1]), schedule[|schedule| - 1]);
    }
  }

  /** Deadlock freedom for any number of operations under any schedule: whatever was run so
      far, while an operation is not finished some operation can go on; and no mutex is
      ever held twice. */
  lemma NeverDeadlocked(ops: seq<Operation>, schedule: seq<nat>)
    requires forall i :: 0 <= i < |ops| ==> Proper(ops[i])
    requires Runs(Starting(ops), schedule)
    ensures var s := After(Starting(ops), schedule);
            && (forall i :: Unfinished(s, i) ==> exists j :: CanStep(s, j))
            && (forall i, j, k :: 0 <= i < |s.at| && 0 <= j < |s.at| && k in HeldBy(s, i) && k in HeldBy(s, j) ==> i == j)
  {
    var s := After(Starting(ops), schedule);
    StartIsConsistent(ops);
    AfterIsConsistent(Starting(ops), schedule);
    forall i | Unfinished(s, i) ensures exists j :: CanStep(s, j) {
      var j := SomeThreadCanStep(s, i);
    }
    forall i, j, k | 0 <= i < |s.at| && 0 <= j < |s.at| && k in HeldBy(s, i) && k in HeldBy(s, j) ensures i == j {
      assert s.owner[k] == i;
    }
  }

  // ------------------------------------------------------------ reserved keys

  /** The trace, of an operation alone, locks a key it holds; `held` is held before. */
  predicate SelfBlocks(t: seq<Event>, held: set<string>) {
    t != [] &&
    match t[0]
    case Acquire(k) => k in held || SelfBlocks(t[1..], held + {k})
    case Release(k) => SelfBlocks(t[1..], held - {k})
  }

  lemma LockedTrace(k: string)
    ensures Trace(Locked(false, k), true) == [Acquire(k), Release(k)]
  {
    assert TraceAll(Locked(false, k).inner, true) == [];
  }

  lemma MutatingTrace(c: Call)
    requires c.mutates
    ensures var inside := TraceAll(c.inner, true);
            Trace(c, false) ==
            match c.key
            case Some(k) => [Acquire("mutation"), Acquire(k)] + inside + [Release(k), Release("mutation")]
            case None => [Acquire("mutation")] + inside + [Release("mutation")]
  {
  }

  /** An operation that locks one key after the other waits for itself if one of them is
      held around it. */
  lemma {:induction false} EachSelfBlocks(ids: seq<string>, after: seq<Event>, held: set<string>, i: nat)
    requires i < |ids| && ids[i] in held
    ensures SelfBlocks(TraceAll(EachLocked(ids), true) + after, held)
  {
    var first := Trace(Locked(false, ids[0]), true);
    var rest := TraceAll(EachLocked(ids[1..]), true) + after;
    assert EachLocked(ids)[1..] == EachLocked(ids[1..]);
    LockedTrace(ids[0]);
    assert TraceAll(EachLocked(ids), true) + after == [Acquire(ids[0]), Release(ids[0])] + rest;
    assert ([Acquire(ids[0]), Release(ids[0])] + rest)[1..] == [Release(ids[0])] + rest;
    assert ([Release(ids[0])] + rest)[1..] == rest;
    if ids[0] !in held {
      EachSelfBlocks(ids[1..], after, held, i - 1);
      assert held + {ids[0]} - {ids[0]} == held;
    }
  }

  function Improper(ids: seq<string>, reserved: set<string>): (i: nat)
    requires exists i :: 0 <= i < |ids| && ids[i] in reserved
    ensures i < |ids| && ids[i] in reserved
  {
    if ids[0] in reserved then 0
    else
      assert exists i :: 0 <= i < |ids[1..]| && ids[1..][i] in reserved by {
        var i :| 0 <= i < |ids| && ids[i] in reserved;
        assert ids[1..][i - 1] == ids[i];
      }
      1 + Improper(ids[1..], reserved)
  }

  /** An improper operation locks a key it holds. */
  lemma ImproperSelfBlocks(op: Operation)
    requires !Proper(op)
    ensures SelfBlocks(Trace(CallOf(op), false), {})
  {
    match op {
      case RecoverProtocolModes(ids) => RecoverSelfBlocks(ids);
      case Reconcile(checked, enabled) => ReconcileSelfBlocks(checked, enabled);
      case _ => LockedSelfBlocks();
    }
  }

  lemma LockedSelfBlocks()
    ensures SelfBlocks(Trace(Locked(true, "mutation"), false), {})
  {
    MutatingTrace(Locked(true, "mutation"));
    var t := Trace(Locked(true, "mutation"), false);
    assert t[0] == Acquire("mutation") && t[1..][0] == Acquire("mutation");
  }

  lemma RecoverSelfBlocks(ids: seq<string>)
    requires !Proper(RecoverProtocolModes(ids))
    ensures SelfBlocks(Trace(CallOf(RecoverProtocolModes(ids)), false), {})
  {
    var t, after := Trace(CallOf(RecoverProtocolModes(ids)), false), [Release("mutation")];
    MutatingTrace(CallOf(RecoverProtocolModes(ids)));
    assert t[0] == Acquire("mutation") && t[1..] == TraceAll(EachLocked(ids), true) + after;
    EachSelfBlocks(ids, after, {} + {"mutation"}, Improper(ids, {"mutation"}));
  }

  lemma ReconcileSelfBlocks(checked: seq<string>, enabled: nat)
    requires !Proper(Reconcile(checked, enabled))
    ensures SelfBlocks(Trace(CallOf(Reconcile(checked, enabled)), false), {})
  {
    var t, enables := Trace(CallOf(Reconcile(checked, enabled)), false), seq(enabled, i => Locked(true, "all"));
    var after := TraceAll(enables, true) + [Release("activation"), Release("mutation")];
    MutatingTrace(CallOf(Reconcile(checked, enabled)));
    TraceConcat(EachLocked(checked), enables, true);
    assert t[0] == Acquire("mutation") && t[1..][0] == Acquire("activation");
    assert t[1..][1..] == TraceAll(EachLocked(checked), true) + after;
    EachSelfBlocks(checked, after, {} + {"mutation"} + {"activation"}, Improper(checked, {"mutation", "activation"}));
  }

  lemma {:induction false} TraceConcat(a: seq<Call>, b: seq<Call>, carries: bool)
    ensures TraceAll(a + b, carries) == TraceAll(a, carries) + TraceAll(b, carries)
  {
    if a == [] {
      assert a + b == b;
    } else {
      assert (a + b)[1..] == a[1..] + b;
      TraceConcat(a[1..], b, carries);
    }
  }

  function Alone(n: nat): seq<nat> {
    seq(n, i => 0)
  }

  /** A thread that runs alone gets as far as the lock it holds already, and no further. */
  lemma {:induction false} AloneItWaits(s: System, p: nat) returns (n: nat)
    requires Shaped(s) && |s.traces| == 1 && Runs(s, Alone(p)) && p <= |s.traces[0]|
    requires After(s, Alone(p)).traces == s.traces && After(s, Alone(p)).at == [p]
    requires SelfBlocks(s.traces[0][p..], After(s, Alone(p)).owner.Keys)
    ensures Runs(s, Alone(n)) && Unfinished(After(s, Alone(n)), 0) && !CanStep(After(s, Alone(n)), 0)
    ensures |After(s, Alone(n)).at| == 1
    decreases |s.traces[0]| - p
  {
    var t, here := s.traces[0], After(s, Alone(p));
    assert t[p..][0] == t[p] && t[p..][1..] == t[p + 1..];
    if CanStep(here, 0) {
      assert Alone(p + 1)[..p] == Alone(p) && Alone(p + 1)[p] == 0;
      var next := After(s, Alone(p + 1));
      assert next == Step(here, 0) && next.at == [p + 1];
      assert next.owner.Keys == match t[p] case Acquire(k) => here.owner.Keys + {k} case Release(k) => here.owner.Keys - {k};
      n := AloneItWaits(s, p + 1);
    } else {
      n := p;
    }
  }

  /** Some run of the operation alone ends with it waiting for ever: nothing can go on. */
  ghost predicate CanWaitForItself(op: Operation) {
    exists schedule :: Runs(Starting([op]), schedule) && Unfinished(After(Starting([op]), schedule), 0)
                       && forall j :: !CanStep(After(Starting([op]), schedule), j)
  }

  lemma StartsAlone(op: Operation)
    ensures var s := Starting([op]);
            && s.traces == [Trace(CallOf(op), false)] && Shaped(s) && Alone(0) == [] && Runs(s, Alone(0))
            && After(s, Alone(0)) == s && s.at == [0] && s.owner.Keys == {} && s.traces[0][0..] == Trace(CallOf(op), false)
  {
    assert Alone(0) == [];
  }

  /** An operation given a reserved key as an id waits for itself. */
  lemma ReservedIdWaitsForItself(op: Operation) returns (schedule: seq<nat>)
    requires !Proper(op)
    ensures var s := Starting([op]);
            Runs(s, schedule) && Unfinished(After(s, schedule), 0) && forall j :: !CanStep(After(s, schedule), j)
  {
    ImproperSelfBlocks(op);
    StartsAlone(op);
    var n := AloneItWaits(Starting([op]), 0);
    schedule := Alone(n);
  }

  /** The condition on ids is exact, operation by operation: an operation is proper exactly
      if it never waits for itself. */
  lemma ProperIsExact(op: Operation)
    ensures Proper(op) <==> !CanWaitForItself(op)
  {
    if !Proper(op) {
      var schedule := ReservedIdWaitsForItself(op);
    } else if CanWaitForItself(op) {
      var s := Starting([op]);
      var schedule :| Runs(s, schedule) && Unfinished(After(s, schedule), 0) && forall j :: !CanStep(After(s, schedule), j);
      StartIsConsistent([op]);
      AfterIsConsistent(s, schedule);
      var j := SomeThreadCanStep(After(s, schedule), 0);
    }
  }

  // ------------------------------------------------------------- the program

  /** The table of mutexes: an entry is made the first time a key is locked. */
  class Locks {
    var mutexes: map<string, Option<nat>>

    constructor ()
      ensures mutexes == map[]
    {
      mutexes := map[];
    }

    /** The keys whose mutex is taken, and by whom. */
    function Owner(): map<string, nat>
      reads this
    {
      map k | k in mutexes && mutexes[k].Some? :: mutexes[k].value
    }

    /** `lock`, each time the mutex is looked at: its caller owns the key from then on if
        it was free, and goes on waiting otherwise. */
    method Lock(key: string, thread: nat) returns (passes: bool)
      modifies this
      ensures passes <==> key !in old(Owner())
      ensures Owner() == if passes then old(Owner())[key := thread] else old(Owner())
      ensures mutexes.Keys == old(mutexes).Keys + {key}
    {
      if key !in mutexes {
        mutexes := mutexes[key := None];
      }
      passes := mutexes[key].None?;
      if passes {
        mutexes := mutexes[key := Some(thread)];
      }
    }

    /** The function `lock` returns. */
    method Unlock(key: string)
      requires key in Owner()
      modifies this
      ensures Owner() == old(Owner()) - {key}
      ensures mutexes.Keys == old(mutexes).Keys
    {
      mutexes := mutexes[key := None];
    }

    /** `lockMutation`: nothing at all if the context carries the lock already. */
    method LockMutation(carries: bool, thread: nat) returns (passes: bool)
      modifies this
      ensures passes <==> carries || "mutation" !in old(Owner())
      ensures Owner() == if passes && !carries then old(Owner())["mutation" := thread] else old(Owner())
    {
      passes := carries;
      if !carries {
        passes := Lock("mutation", thread);
      }
    }
  }
}
