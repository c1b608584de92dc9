/** One cycle of the helper's service: every request in the spool in the order of its file
    name, each answered before it is removed, and recovery only after all of them.
    Models scripts/aimili_xui_protocol_transaction.py, process_spool and
    process_spool_cycle. */
module ProtocolSpool {
  import opened Wrappers
  import opened Fates
  import opened PanelTemplate
  import opened PanelDatabase
  import opened HelperSteps
  import opened ProtocolHelper
  import opened SpoolRuns
  import PA = ProtocolAgreement

  function ActionText(a: Action): string {
    match a
    case DoApply => "apply"
    case DoFinalize => "finalize"
    case DoRenew => "renew"
    case DoRollback => "rollback"
  }

  function FileName(n: Name): string {
    n.op + "." + ActionText(n.action) + ".json"
  }

  /** The order of `sorted` on file names. */
  predicate AtMost(a: string, b: string) {
    if a == [] then true
    else if b == [] then false
    else a[0] < b[0] || (a[0] == b[0] && AtMost(a[1..], b[1..]))
  }

  lemma {:induction false} AtMostTotal(a: string, b: string)
    ensures AtMost(a, b) || AtMost(b, a)
  {
    if a != [] && b != [] && a[0] == b[0] {
      AtMostTotal(a[1..], b[1..]);
    }
  }

  lemma {:induction false} AtMostTransitive(a: string, b: string, c: string)
    requires AtMost(a, b) && AtMost(b, c)
    ensures AtMost(a, c)
  {
    if a != [] && a[0] == b[0] == c[0] {
      AtMostTransitive(a[1..], b[1..], c[1..]);
    }
  }

  lemma {:induction false} CommonPrefix(p: string, a: string, b: string)
    ensures AtMost(p + a, p + b) <==> AtMost(a, b)
  {
    if p == [] {
      assert p + a == a && p + b == b;
    } else {
      assert (p + a)[1..] == p[1..] + a && (p + b)[1..] == p[1..] + b;
      CommonPrefix(p[1..], a, b);
    }
  }

  function Rank(a: Action): nat {
    match a
    case DoApply => 0
    case DoFinalize => 1
    case DoRenew => 2
    case DoRollback => 3
  }

  /** The requests of one operation come in the order apply, finalize, renew, rollback,
      whatever its id is. */
  lemma OneOperationInOrder(op: string, a: Action, b: Action)
    ensures AtMost(FileName(Name(op, a)), FileName(Name(op, b))) <==> Rank(a) <= Rank(b)
  {
    var x, y := "." + ActionText(a) + ".json", "." + ActionText(b) + ".json";
    assert FileName(Name(op, a)) == op + x && FileName(Name(op, b)) == op + y;
    CommonPrefix(op, x, y);
    CommonPrefix(".", ActionText(a) + ".json", ActionText(b) + ".json");
    assert x == "." + (ActionText(a) + ".json") && y == "." + (ActionText(b) + ".json");
    var u, v := ActionText(a) + ".json", ActionText(b) + ".json";
    if a != b {
      assert u[0] != v[0] || u[1] != v[1];
      assert u[0] == v[0] ==> AtMost(u[1..], v[1..]) == (u[1] < v[1]);
    } else {
      AtMostTotal(u, v);
    }
  }

  function OutcomeOf(r: Reply): Outcome {
    match r
    case Answer(status, code) => Outcome(status, code)
    case Raised(code) => Outcome("failed", code)
    case Died => Outcome("failed", "transaction_failed")
  }

  class ProtocolSpool {
    const manager: ProtocolTransactionManager
    var requests: map<Name, Envelope>
    var results: map<Name, Outcome>
    const owned: bool
    const path: string
    const tokens: int -> string

    constructor (manager: ProtocolTransactionManager, requests: map<Name, Envelope>, results: map<Name, Outcome>,
        owned: bool, path: string, tokens: int -> string)
      ensures this.manager == manager && this.requests == requests && this.results == results
    {
      this.manager := manager;
      this.requests := requests;
      this.results := results;
      this.owned := owned;
      this.path := path;
      this.tokens := tokens;
    }

    /** Every result that names an end is true of the disk. */
    static predicate Truthful(results: map<Name, Outcome>, names: set<Name>, d: Disk) {
      forall n :: n in names && n in results ==> TrueOf(d, n, results[n])
    }

    /** Tombstones stay, and only one operation is worked on. */
    static predicate Settles(before: Disk, after: Disk, op: string) {
      && ProtocolTransactionManager.OnlyOp(before, after, op)
      && (op in before.ops && !before.ops[op].Open? ==> op in after.ops && after.ops[op] == before.ops[op])
    }

    /** Carries out the action a name asks for: nothing else begins, ends or is forgotten,
        and the answer is true when it is given. */
    method Dispatch(n: Name, e: Envelope) returns (r: Reply)
      requires manager.Valid()
      modifies manager`clock, manager`disk, manager`log, manager`leave, manager`base, manager`troubled, manager`since
      ensures manager.Valid() && Settles(old(manager.disk), manager.disk, n.op)
      ensures manager.base == old(manager.log) && LeaveFits(n, e, old(manager.disk), manager.leave)
      ensures !r.Died? ==> TrueNow(manager.disk, n, OutcomeOf(r))
      ensures n.action == DoRenew ==> manager.disk == old(manager.disk)
      ensures n.action == DoApply && n.op in old(manager.disk).ops ==> manager.disk.ops == old(manager.disk).ops
      ensures n.action == DoFinalize && IsOpen(old(manager.disk), n.op) && old(manager.disk).ops[n.op].phase == Applied ==>
                r in {Answer("finalized", ""), Raised("snapshot_write_failed"), Died}
                || (r == Raised("invalid_request") && !e.wellFormed && manager.disk == old(manager.disk))
      ensures n.action == DoRollback && n.op in old(manager.disk).ops && old(manager.disk).ops[n.op] == Finalized && e.wellFormed ==>
                r == Answer("failed", "operation_finalized")
      ensures r.Died? ==> manager.troubled
      ensures (n.action == DoApply && e.wellFormed && e.request.operation == n.op && !manager.troubled
               && old(manager.Startable(manager.disk, e.request, owned, path, tokens))) ==> r == Answer("applied", "")
      ensures n.action == DoFinalize && e.wellFormed && !manager.troubled && IsOpen(old(manager.disk), n.op) && old(manager.disk).ops[n.op].phase == Applied ==>
                r == Answer("finalized", "")
      ensures n.action == DoRollback && e.wellFormed && !manager.troubled && Undoable(old(manager.disk), n.op) ==> r == Answer("rolled_back", "")
    {
      manager.Enter(Nothing);
      if !e.wellFormed {
        return Raised("invalid_request");
      }
      match n.action {
        case DoApply =>
          if e.request.operation != n.op {
            return Raised("invalid_request");
          }
          r := manager.Apply(e.request, true, owned, path, tokens);
        case DoFinalize => r := manager.Finalize(n.op);
        case DoRenew => r := manager.Renew(n.op);
        case DoRollback => r := manager.Rollback(n.op);
      }
    }

    /** The first of the remaining names. */
    static method First(todo: set<Name>) returns (n: Name)
      requires |todo| > 0
      ensures n in todo && forall m :: m in todo ==> AtMost(FileName(n), FileName(m))
    {
      n :| n in todo;
      var rest := todo - {n};
      AtMostTotal(FileName(n), FileName(n));
      while |rest| > 0
        invariant rest <= todo && n in todo
        invariant forall m :: m in todo && m !in rest ==> AtMost(FileName(n), FileName(m))
        decreases |rest|
      {
        var m :| m in rest;
        AtMostTotal(FileName(n), FileName(m));
        if !AtMost(FileName(n), FileName(m)) {
          forall k | k in todo && k !in rest ensures AtMost(FileName(m), FileName(k)) {
            AtMostTransitive(FileName(m), FileName(n), FileName(k));
          }
          AtMostTotal(FileName(m), FileName(m));
          n := m;
        }
        rest := rest - {m};
      }
    }

    lemma TruthStays(results: map<Name, Outcome>, names: set<Name>, before: Disk, after: Disk, op: string)
      requires Truthful(results, names, before) && Settles(before, after, op)
      ensures Truthful(results, names, after)
    {
      forall n | n in names && n in results ensures TrueOf(after, n, results[n]) {
        assert TrueOf(before, n, results[n]);
      }
    }

    /** One request: carried out, answered, removed; `deed` is how far that got. */
    method ProcessOne(n: Name, ghost done: set<Name>) returns (trouble: Option<Reply>, ghost deed: Deed)
      requires manager.Valid() && n in requests && n !in done && Truthful(results, done, manager.disk)
      modifies this`requests, this`results, manager`clock, manager`disk, manager`log, manager`leave, manager`base, manager`troubled, manager`since
      ensures manager.Valid() && Settles(old(manager.disk), manager.disk, n.op)
      ensures manager.base == old(manager.log) && manager.leave == deed.call && LeaveFits(n, old(requests)[n], old(manager.disk), deed.call)
      ensures requests == Requests(old(requests), n, deed) && results == Results(old(results), n, deed)
      ensures deed.answer.Some? ==> TrueNow(manager.disk, n, deed.answer.value)
      ensures deed.removed ==> deed.answer.Some?
      ensures trouble.None? ==> deed.removed && Truthful(results, done + {n}, manager.disk)
      ensures trouble.Some? ==> !trouble.value.Answer?
      ensures trouble.None? && n.action == DoFinalize && IsOpen(old(manager.disk), n.op) && old(manager.disk).ops[n.op].phase == Applied ==>
                deed.answer.value in {Outcome("finalized", ""), Outcome("failed", "snapshot_write_failed"), Outcome("failed", "invalid_request")}
      ensures n.action == DoRenew ==> manager.disk == old(manager.disk)
      ensures n.action == DoApply && n.op in old(manager.disk).ops ==> manager.disk.ops == old(manager.disk).ops
      ensures trouble.Some? ==> manager.troubled
    {
      var r := Dispatch(n, requests[n]);
      deed := Deed(manager.leave, None, false);
      if r.Died? {
        return Some(Died), deed;
      }
      TruthStays(results, done, old(manager.disk), manager.disk, n.op);
      trouble, deed := WriteAndRemove(n, OutcomeOf(r), manager.leave);
    }

    /** The result is written, then the request removed. */
    method WriteAndRemove(n: Name, o: Outcome, ghost call: Leave) returns (trouble: Option<Reply>, ghost deed: Deed)
      requires manager.Valid() && n in requests
      modifies this`requests, this`results, manager`clock, manager`troubled
      ensures manager.Valid() && deed.call == call
      ensures requests == Requests(old(requests), n, deed) && results == Results(old(results), n, deed)
      ensures deed.answer in {None, Some(o)} && (deed.removed ==> deed.answer.Some?)
      ensures trouble.None? ==> deed.removed
      ensures trouble.Some? ==> !trouble.value.Answer? && manager.troubled
    {
      deed := Deed(call, None, false);
      var fate := manager.Poll();
      if fate.Kill? {
        return Some(Died), deed;
      }
      if Took(fate) {
        results := results[n := o];
        deed := Deed(call, Some(o), false);
      }
      if !fate.Done? {
        return Some(Raised("result_write_failed")), deed;
      }
      fate := manager.Poll();
      if fate.Kill? {
        return Some(Died), deed;
      }
      if Took(fate) {
        requests := requests - {n};
        deed := deed.(removed := true);
      }
      if !fate.Done? {
        return Some(Raised("request_cleanup_failed")), deed;
      }
      trouble := None;
    }

    /** An operation that was applied is finalized before its rollback is looked at, unless
        the write of the tombstone itself failed. */
    static ghost predicate NotOvertaken(was: Disk, done: set<Name>, results: map<Name, Outcome>) {
      forall op :: Name(op, DoFinalize) in done && Name(op, DoFinalize) in results
                   && IsOpen(was, op) && was.ops[op].phase == Applied ==>
        results[Name(op, DoFinalize)] in {Outcome("finalized", ""), Outcome("failed", "snapshot_write_failed"), Outcome("failed", "invalid_request")}
    }

    /** An operation that was applied is left alone until its finalize comes: an apply that
        is replayed before does not touch it. */
    static ghost predicate Waiting(was: Disk, now: Disk, todo: set<Name>) {
      forall op :: Name(op, DoFinalize) in todo && IsOpen(was, op) && was.ops[op].phase == Applied ==>
        op in now.ops && now.ops[op] == was.ops[op]
    }

    static lemma StillWaiting(was: Disk, before: Disk, now: Disk, todo: set<Name>, n: Name)
      requires Waiting(was, before, todo) && Settles(before, now, n.op) && n in todo
      requires n.action == DoApply && n.op in before.ops ==> now.ops == before.ops
      requires forall m :: m in todo ==> AtMost(FileName(n), FileName(m))
      ensures Waiting(was, now, todo - {n})
    {
      forall op | Name(op, DoFinalize) in todo - {n} && IsOpen(was, op) && was.ops[op].phase == Applied
        ensures op in now.ops && now.ops[op] == was.ops[op]
      {
        OneOperationInOrder(op, n.action, DoFinalize);
        assert n.op == op ==> n.action == DoApply;
      }
    }

    static lemma OneMore(was: Disk, before: Disk, listed: set<Name>, todo: set<Name>, n: Name, answers: map<Name, Outcome>, results: map<Name, Outcome>)
      requires NotOvertaken(was, listed - todo, answers) && Waiting(was, before, todo) && n in todo && todo <= listed
      requires forall m :: m in listed - todo ==> m in answers && m in results && results[m] == answers[m]
      requires n.action == DoFinalize && IsOpen(before, n.op) && before.ops[n.op].phase == Applied ==>
                 n in results && results[n] in {Outcome("finalized", ""), Outcome("failed", "snapshot_write_failed"), Outcome("failed", "invalid_request")}
      ensures NotOvertaken(was, listed - (todo - {n}), results)
    {
      forall op | Name(op, DoFinalize) in listed - (todo - {n}) && Name(op, DoFinalize) in results
                  && IsOpen(was, op) && was.ops[op].phase == Applied
        ensures results[Name(op, DoFinalize)] in {Outcome("finalized", ""), Outcome("failed", "snapshot_write_failed"), Outcome("failed", "invalid_request")}
      {
        if Name(op, DoFinalize) == n {
          assert before.ops[op] == was.ops[op];
        } else {
          assert Name(op, DoFinalize) in listed - todo;
        }
      }
    }

    /** What this service has come to, as the composed machine has it. */
    ghost predicate InStep(s: PA.System, inbound: int)
      reads this, manager
      requires manager.Valid()
    {
      Linked(s, manager.start, manager.log, requests, results, inbound)
    }

    /** The loop with the requests in `todo` still to come. */
    ghost predicate Through(was: Disk, listed: set<Name>, todo: set<Name>)
      reads this, manager
    {
      && todo <= listed && requests.Keys == todo
      && (forall n :: n in listed - todo ==> n in results)
      && Truthful(results, listed - todo, manager.disk)
      && Waiting(was, manager.disk, todo)
      && NotOvertaken(was, listed - todo, results)
    }

    /** One turn of the loop. */
    method Turn(n: Name, todo: set<Name>, ghost was: Disk, ghost listed: set<Name>) returns (trouble: Option<Reply>, ghost deed: Deed)
      requires manager.Valid() && Through(was, listed, todo) && n in todo
      requires forall m :: m in todo ==> AtMost(FileName(n), FileName(m))
      modifies this`requests, this`results, manager`clock, manager`disk, manager`log, manager`leave, manager`base, manager`troubled, manager`since
      ensures manager.Valid() && manager.base == old(manager.log) && manager.leave == deed.call
      ensures n in old(requests) && LeaveFits(n, old(requests)[n], old(manager.disk), deed.call)
      ensures requests == Requests(old(requests), n, deed) && results == Results(old(results), n, deed)
      ensures deed.answer.Some? ==> TrueNow(manager.disk, n, deed.answer.value)
      ensures deed.removed ==> deed.answer.Some?
      ensures trouble.None? ==> Through(was, listed, todo - {n})
      ensures trouble.Some? ==> manager.troubled
    {
      ghost var before, answers := manager.disk, results;
      trouble, deed := ProcessOne(n, listed - todo);
      if trouble.None? {
        StillWaiting(was, before, manager.disk, todo, n);
        OneMore(was, before, listed, todo, n, answers, results);
        assert listed - todo + {n} == listed - (todo - {n});
      }
    }

    /** The same turn in the composed machine. */
    lemma TurnIsRun(s: PA.System, moves: seq<PA.Move>, log: seq<Step>, asked: map<Name, Envelope>, answers: map<Name, Outcome>, inbound: int, n: Name, deed: Deed)
      returns (longer: seq<PA.Move>)
      requires manager.Valid() && manager.Clean() && manager.base == log && manager.leave == deed.call
      requires ValidRun(manager.start, log) && PA.Run(s, moves) && n in asked
      requires CleanRun(manager.start, log) ==> Linked(PA.End(s, moves), manager.start, log, asked, answers, inbound)
      requires LeaveFits(n, asked[n], HelperSteps.After(manager.start, log), deed.call)
      requires requests == Requests(asked, n, deed) && results == Results(answers, n, deed)
      requires deed.answer.Some? ==> TrueNow(manager.disk, n, deed.answer.value)
      requires deed.removed ==> deed.answer.Some?
      ensures PA.Run(s, longer) && InStep(PA.End(s, longer), inbound)
    {
      CleanBefore(manager.start, log, manager.log, deed.call);
      var more := RequestIsRun(PA.End(s, moves), manager.start, log, manager.log, asked, answers, inbound, n, deed);
      RunThen(s, moves, more);
      longer := moves + more;
    }

    lemma CleanEarlier(log: seq<Step>)
      requires manager.Valid() && manager.base == log && ValidRun(manager.start, log)
      ensures manager.Clean() ==> Start(manager.start) && CleanRun(manager.start, log)
    {
      if manager.Clean() {
        CleanBefore(manager.start, log, manager.log, manager.leave);
      }
    }

    /** `process_spool`. When it is through the whole listing, every listed request is
        answered and gone; every answer that names an end is true, so finalized and
        rolled back are never both answered; and no finalize was overtaken. However it
        ends, what it did is a run of the composed machine, unless it began an operation
        on a helper that was not idle. */
    method ProcessSpool(ghost s: PA.System, ghost inbound: int) returns (trouble: Option<Reply>, ghost moves: seq<PA.Move>)
      requires manager.Valid()
      modifies this`requests, this`results, manager`clock, manager`disk, manager`log, manager`leave, manager`base, manager`troubled, manager`since
      ensures manager.Valid()
      ensures trouble.None? ==> requests == map[] && forall n :: n in old(requests) ==> n in results
      ensures trouble.None? ==> Truthful(results, old(requests).Keys, manager.disk)
      ensures trouble.None? ==> NotOvertaken(old(manager.disk), old(requests).Keys, results)
      ensures old(InStep(s, inbound)) && manager.Clean() ==> PA.Run(s, moves) && InStep(PA.End(s, moves), inbound)
      ensures trouble.Some? ==> manager.troubled
    {
      var todo := requests.Keys;
      ghost var listed, was, linked := requests.Keys, manager.disk, InStep(s, inbound);
      moves := [];
      while |todo| > 0
        invariant manager.Valid() && Through(was, listed, todo)
        invariant linked && manager.Clean() ==> PA.Run(s, moves) && InStep(PA.End(s, moves), inbound)
        decreases |todo|
      {
        var n := First(todo);
        ghost var log, asked, answers := manager.log, requests, results;
        ghost var deed;
        trouble, deed := Turn(n, todo, was, listed);
        if linked && manager.Clean() {
          CleanEarlier(log);
          moves := TurnIsRun(s, moves, log, asked, answers, inbound, n, deed);
        }
        if trouble.Some? {
          return;
        }
        todo := todo - {n};
      }
      trouble := None;
      assert listed - todo == listed;
    }

    /** `process_spool_cycle`: recovery comes only after every listed request was answered
        and removed, so it never forgets an operation whose apply could be replayed; and
        the whole cycle, cut off anywhere, is a run of the composed machine. */
    method ProcessSpoolCycle(young: set<string>, ghost s: PA.System, ghost inbound: int) returns (trouble: Option<Reply>, ghost moves: seq<PA.Move>)
      requires manager.Valid()
      modifies this`requests, this`results, manager`clock, manager`disk, manager`log, manager`leave, manager`base, manager`troubled, manager`since
      ensures manager.Valid()
      ensures trouble.None? ==> requests == map[] && Truthful(results, old(requests).Keys, manager.disk)
      ensures trouble.None? ==> forall op :: op in manager.disk.ops && manager.disk.ops[op].Open? ==>
                manager.disk.ops[op].phase == RepairRequired || op in young
      ensures old(InStep(s, inbound)) && manager.Clean() ==> PA.Run(s, moves) && InStep(PA.End(s, moves), inbound)
      ensures trouble.Some? ==> manager.troubled
    {
      trouble, moves := ProcessSpool(s, inbound);
      if trouble.None? {
        ghost var after, log := manager.disk, manager.log;
        trouble := manager.RecoverPending(young);
        assert forall n :: n in results && TrueOf(after, n, results[n]) ==> TrueOf(manager.disk, n, results[n]);
        if old(InStep(s, inbound)) && manager.Clean() {
          CleanBefore(manager.start, log, manager.log, ForRecovery);
          ghost var more := RecoveryIsRun(PA.End(s, moves), manager.start, log, manager.log, results, inbound);
          RunThen(s, moves, more);
          moves := moves + more;
        }
      }
    }
  }
}
