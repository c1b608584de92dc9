/** The service of the helper in the composed machine of Gateway and helper: what it does
    for one request, and in recovery, is a run of that machine.
    Models scripts/aimili_xui_protocol_transaction.py, process_spool and
    process_spool_cycle, as internal/orchestrator/protocolmode.go relies on them. */
module SpoolRuns {
  import opened Wrappers
  import opened PanelTemplate
  import opened PanelDatabase
  import opened HelperView
  import HS = HelperSteps
  import PA = ProtocolAgreement

  datatype Action = DoApply | DoFinalize | DoRenew | DoRollback

  /** `<operation>.<action>.json`. */
  datatype Name = Name(op: string, action: Action)

  datatype Outcome = Outcome(status: string, code: string)

  /** What a request in the spool carries besides its name; only apply reads it. */
  datatype Envelope = Envelope(wellFormed: bool, request: Request)

  /** A result that names an end is true of the disk, and stays so. */
  predicate TrueOf(d: HS.Disk, n: Name, o: Outcome) {
    && (n.action == DoFinalize && o.status == "finalized" ==> n.op in d.ops && d.ops[n.op] == HS.Finalized)
    && (n.action == DoRollback && o.status == "rolled_back" ==> n.op in d.ops && d.ops[n.op] == HS.RolledBack)
    && (n.action == DoRollback && o == Outcome("failed", "operation_finalized") ==> n.op in d.ops && d.ops[n.op] == HS.Finalized)
  }

  /** What is true of an answer when it is given: besides the ends, that an operation is
      applied, or that there is no such operation. */
  predicate TrueNow(d: HS.Disk, n: Name, o: Outcome) {
    && TrueOf(d, n, o)
    && (n.action == DoApply && o.status == "applied" ==> HS.IsOpen(d, n.op) && d.ops[n.op].phase == HS.Applied)
    && (n.action == DoRollback && o == Outcome("failed", "operation_not_applied") ==> n.op !in d.ops)
  }

  // ---------------------------------------------------- the spool as the machine has it

  function InSpool(a: PA.Action): Action {
    match a
    case Apply => DoApply
    case Finalize => DoFinalize
    case Rollback => DoRollback
  }

  /** What the Gateway reads from a result. */
  function VerdictOf(action: Action, o: Outcome): PA.Verdict {
    if action == DoApply && o.status == "applied" then PA.SaidApplied
    else if action == DoFinalize && o.status == "finalized" then PA.SaidFinalized
    else if action == DoRollback && o.status == "rolled_back" then PA.SaidRolledBack
    else if action == DoRollback && o == Outcome("failed", "operation_finalized") then PA.SaidAlreadyFinalized
    else if action == DoRollback && o == Outcome("failed", "operation_not_applied") then PA.SaidNotApplied
    else PA.SaidOther
  }

  /** Requests and results are those of the machine, which has no renewals. */
  ghost predicate SameFiles(s: PA.System, requests: set<Name>, results: map<Name, Outcome>) {
    && (forall op: string, a: PA.Action :: (op, a) in s.requests <==> Name(op, InSpool(a)) in requests)
    && (forall op: string, a: PA.Action :: (op, a) in s.results <==> Name(op, InSpool(a)) in results)
    && (forall op: string, a: PA.Action :: (op, a) in s.results ==> s.results[(op, a)] == VerdictOf(InSpool(a), results[Name(op, InSpool(a))]))
  }

  /** Every apply in the spool is one the Gateway issued, for this inbound. */
  ghost predicate Published(s: PA.System, requests: map<Name, Envelope>, inbound: int) {
    forall n :: n in requests && n.action == DoApply && requests[n].wellFormed && requests[n].request.operation == n.op ==>
      Issued(s, requests[n].request, inbound)
  }

  predicate Issued(s: PA.System, r: Request, inbound: int) {
    r.operation in s.issued && s.issued[r.operation].source == r.oldMode && s.issued[r.operation].target == r.newMode && r.inbound == inbound
  }

  // ------------------------------------------------------------------ steps

  /** The machine lets the helper do what the call at work may do. */
  ghost predicate Serving(s: PA.System, l: HS.Leave, inbound: int) {
    match l
    case ForApply(r) => (r.operation, PA.Apply) in s.requests && r.operation !in s.answered && Issued(s, r, inbound)
    case ForFinalize(op) => (op, PA.Finalize) in s.requests
    case ForRollback(op) => (op, PA.Rollback) in s.requests
    case ForForget(_) => false
    case ForRecovery => forall op :: op in s.answered ==> (op, PA.Apply) !in s.requests
    case Nothing => true
  }

  /** Every durable step of a call that is served is a move the machine allows, or is not
      seen at all. */
  lemma StepIsPrompted(s: PA.System, h: HS.History, d: HS.Disk, step: HS.Step, l: HS.Leave, inbound: int)
    requires HS.Inv(h, d) && HS.Allowed(d, step) && HS.Permits(l, step)
    requires OnInbound(d, inbound) && s.helper == View(h, d, inbound) && Serving(s, l, inbound)
    ensures OnInbound(HS.Effect(d, step), inbound)
    ensures var after := View(HS.Track(h, d, step), HS.Effect(d, step), inbound);
            match Seen(d, step)
            case None => s.helper == after
            case Some(m) => PA.Can(s, PA.Step(m)) && PA.Act(s, PA.Step(m)) == s.(helper := after)
  {
    StepIsMove(h, d, step, inbound);
  }

  predicate IsGateways(m: PA.Move) {
    !m.Step? && !m.Answer? && !m.Consume?
  }

  /** Whatever the Gateway does meanwhile, the call goes on being served, and neither the
      helper nor a result changes nor does a request disappear. */
  lemma GatewayLeavesServing(s: PA.System, m: PA.Move, l: HS.Leave, inbound: int)
    requires PA.Sound(s) && PA.Can(s, m) && IsGateways(m) && Serving(s, l, inbound)
    ensures Serving(PA.Act(s, m), l, inbound)
    ensures PA.Act(s, m).helper == s.helper && PA.Act(s, m).results == s.results && s.requests <= PA.Act(s, m).requests
  {
    if !PA.Publishes(m) {
      PA.GatewayFrame(s, m);
    }
  }

  /** The steps of one call are a run of the machine that changes nothing but the helper. */
  lemma {:induction false} StepsAreMoves(start: HS.Disk, was: seq<HS.Step>, log: seq<HS.Step>, l: HS.Leave, s: PA.System, inbound: int) returns (moves: seq<PA.Move>)
    requires HS.Start(start) && HS.ValidRun(start, was) && HS.ValidRun(start, log) && HS.CleanRun(start, log) && HS.Only(was, log, l)
    requires OnInbound(HS.After(start, was), inbound) && s.helper == View(HS.HistoryOf(start, was), HS.After(start, was), inbound)
    requires Serving(s, l, inbound)
    ensures OnInbound(HS.After(start, log), inbound)
    ensures PA.Run(s, moves) && PA.End(s, moves) == s.(helper := View(HS.HistoryOf(start, log), HS.After(start, log), inbound))
    decreases |log|
  {
    if log == was {
      moves := [];
    } else {
      var init, last := log[..|log| - 1], log[|log| - 1];
      moves := StepsAreMoves(start, was, init, l, s, inbound);
      HS.WriteAhead(start, init);
      var mid := PA.End(s, moves);
      StepIsPrompted(mid, HS.HistoryOf(start, init), HS.After(start, init), last, l, inbound);
      match Seen(HS.After(start, init), last) {
        case None =>
        case Some(m) =>
          PA.ExtendRun(s, moves, PA.Step(m));
          moves := moves + [PA.Step(m)];
      }
    }
  }

  lemma {:induction false} RunThen(s: PA.System, a: seq<PA.Move>, b: seq<PA.Move>)
    requires PA.Run(s, a) && PA.Run(PA.End(s, a), b)
    ensures PA.Run(s, a + b) && PA.End(s, a + b) == PA.End(PA.End(s, a), b)
  {
    if b == [] {
      assert a + b == a;
    } else {
      RunThen(s, a, b[..|b| - 1]);
      assert (a + b)[..|a + b| - 1] == a + b[..|b| - 1];
    }
  }

  lemma {:induction false} RunStaysSound(s: PA.System, moves: seq<PA.Move>)
    requires PA.Sound(s) && PA.Run(s, moves)
    ensures PA.Sound(PA.End(s, moves))
  {
    if moves != [] {
      RunStaysSound(s, moves[..|moves| - 1]);
      PA.MoveKeepsSound(PA.End(s, moves[..|moves| - 1]), moves[|moves| - 1]);
    }
  }

  /** A clean run was clean before its last call. */
  lemma {:induction false} CleanBefore(start: HS.Disk, was: seq<HS.Step>, log: seq<HS.Step>, l: HS.Leave)
    requires HS.ValidRun(start, was) && HS.ValidRun(start, log) && HS.CleanRun(start, log) && HS.Only(was, log, l)
    ensures HS.CleanRun(start, was)
    decreases |log|
  {
    if log != was {
      CleanBefore(start, was, log[..|log| - 1], l);
    }
  }

  // --------------------------------------------------------------- one request

  /** What the service has come to: a clean helper that works on this inbound only, seen as
      the machine's, with the machine's requests and results. */
  ghost predicate Linked(s: PA.System, start: HS.Disk, log: seq<HS.Step>, requests: map<Name, Envelope>, results: map<Name, Outcome>, inbound: int)
    requires HS.ValidRun(start, log)
  {
    && HS.Start(start) && HS.CleanRun(start, log) && OnInbound(HS.After(start, log), inbound)
    && s.helper == View(HS.HistoryOf(start, log), HS.After(start, log), inbound)
    && SameFiles(s, requests.Keys, results) && Published(s, requests, inbound) && PA.Sound(s)
  }

  /** The call made for a request, given the operations there were. */
  predicate LeaveFits(n: Name, e: Envelope, d: HS.Disk, l: HS.Leave) {
    || l.Nothing?
    || (n.action == DoApply && e.wellFormed && e.request.operation == n.op && n.op !in d.ops && l == HS.ForApply(e.request))
    || (n.action == DoFinalize && l == HS.ForFinalize(n.op))
    || (n.action == DoRollback && l == HS.ForRollback(n.op))
  }

  /** A request in the spool is served: in particular an apply that starts anew was never
      answered as applied. */
  lemma RequestIsServed(s: PA.System, start: HS.Disk, log: seq<HS.Step>, requests: map<Name, Envelope>, results: map<Name, Outcome>, inbound: int, n: Name, l: HS.Leave)
    requires HS.ValidRun(start, log) && Linked(s, start, log, requests, results, inbound)
    requires n in requests && LeaveFits(n, requests[n], HS.After(start, log), l)
    ensures Serving(s, l, inbound)
  {
    match l {
      case ForApply(r) =>
        assert Name(r.operation, InSpool(PA.Apply)) in requests.Keys;
        assert r.operation !in s.helper.ops;
      case ForFinalize(op) => assert Name(op, InSpool(PA.Finalize)) in requests.Keys;
      case ForRollback(op) => assert Name(op, InSpool(PA.Rollback)) in requests.Keys;
      case _ =>
    }
  }

  function ActionOf(a: Action): PA.Action
    requires a != DoRenew
  {
    match a
    case DoApply => PA.Apply
    case DoFinalize => PA.Finalize
    case DoRollback => PA.Rollback
  }

  /** An answer that is true of the disk is one the machine allows. */
  lemma AnswerIsAllowed(s: PA.System, h: HS.History, d: HS.Disk, inbound: int, n: Name, o: Outcome)
    requires s.helper == View(h, d, inbound) && TrueNow(d, n, o)
    requires n.action != DoRenew && (n.op, ActionOf(n.action)) in s.requests
    ensures PA.Can(s, PA.Answer(n.op, ActionOf(n.action), VerdictOf(n.action, o)))
  {
  }

  lemma AnswerShows(s: PA.System, requests: set<Name>, results: map<Name, Outcome>, n: Name, o: Outcome)
    requires SameFiles(s, requests, results)
    ensures n.action == DoRenew ==> SameFiles(s, requests, results[n := o])
    ensures n.action != DoRenew ==>
              var a := ActionOf(n.action);
              var v := VerdictOf(n.action, o);
              SameFiles(s.(results := s.results[(n.op, a) := v], answered := if v == PA.SaidApplied then s.answered + {n.op} else s.answered),
                        requests, results[n := o])
  {
  }

  lemma ConsumeShows(s: PA.System, requests: set<Name>, results: map<Name, Outcome>, n: Name)
    requires SameFiles(s, requests, results)
    ensures n.action == DoRenew ==> SameFiles(s, requests - {n}, results)
    ensures n.action != DoRenew ==> SameFiles(s.(requests := s.requests - {(n.op, ActionOf(n.action))}), requests - {n}, results)
  {
  }

  /** What was done about one request: the call, perhaps its answer, perhaps its removal. */
  datatype Deed = Deed(call: HS.Leave, answer: Option<Outcome>, removed: bool)

  function Results(results: map<Name, Outcome>, n: Name, deed: Deed): map<Name, Outcome> {
    match deed.answer case Some(o) => results[n := o] case None => results
  }

  function Requests(requests: map<Name, Envelope>, n: Name, deed: Deed): map<Name, Envelope> {
    if deed.removed then requests - {n} else requests
  }

  lemma CallIsRun(s: PA.System, start: HS.Disk, was: seq<HS.Step>, log: seq<HS.Step>, requests: map<Name, Envelope>, results: map<Name, Outcome>,
      inbound: int, l: HS.Leave) returns (moves: seq<PA.Move>)
    requires HS.ValidRun(start, was) && Linked(s, start, was, requests, results, inbound) && Serving(s, l, inbound)
    requires HS.ValidRun(start, log) && HS.CleanRun(start, log) && HS.Only(was, log, l)
    ensures PA.Run(s, moves) && Linked(PA.End(s, moves), start, log, requests, results, inbound)
    ensures PA.End(s, moves).requests == s.requests
  {
    moves := StepsAreMoves(start, was, log, l, s, inbound);
    RunStaysSound(s, moves);
  }

  lemma AnswerIsRun(s: PA.System, start: HS.Disk, log: seq<HS.Step>, requests: map<Name, Envelope>, results: map<Name, Outcome>,
      inbound: int, n: Name, o: Outcome) returns (moves: seq<PA.Move>)
    requires HS.ValidRun(start, log) && Linked(s, start, log, requests, results, inbound) && n in requests
    requires TrueNow(HS.After(start, log), n, o)
    ensures PA.Run(s, moves) && Linked(PA.End(s, moves), start, log, requests, results[n := o], inbound)
  {
    AnswerShows(s, requests.Keys, results, n, o);
    moves := [];
    if n.action != DoRenew {
      assert Name(n.op, InSpool(ActionOf(n.action))) in requests.Keys;
      AnswerIsAllowed(s, HS.HistoryOf(start, log), HS.After(start, log), inbound, n, o);
      var m := PA.Answer(n.op, ActionOf(n.action), VerdictOf(n.action, o));
      PA.ExtendRun(s, [], m);
      moves := [] + [m];
      PA.MoveKeepsSound(s, m);
    }
  }

  lemma RemovalIsRun(s: PA.System, start: HS.Disk, log: seq<HS.Step>, requests: map<Name, Envelope>, results: map<Name, Outcome>,
      inbound: int, n: Name) returns (moves: seq<PA.Move>)
    requires HS.ValidRun(start, log) && Linked(s, start, log, requests, results, inbound) && n in requests && n in results
    ensures PA.Run(s, moves) && Linked(PA.End(s, moves), start, log, requests - {n}, results, inbound)
  {
    ConsumeShows(s, requests.Keys, results, n);
    assert (requests - {n}).Keys == requests.Keys - {n};
    moves := [];
    if n.action != DoRenew {
      assert Name(n.op, InSpool(ActionOf(n.action))) in requests.Keys;
      var m := PA.Consume(n.op, ActionOf(n.action));
      PA.ExtendRun(s, [], m);
      moves := [] + [m];
      PA.MoveKeepsSound(s, m);
    }
  }

  /** One request is a run of the machine: the steps of its call, its answer, its removal,
      or the beginning of these. */
  lemma RequestIsRun(s: PA.System, start: HS.Disk, was: seq<HS.Step>, log: seq<HS.Step>, requests: map<Name, Envelope>, results: map<Name, Outcome>,
      inbound: int, n: Name, deed: Deed) returns (moves: seq<PA.Move>)
    requires HS.ValidRun(start, was) && Linked(s, start, was, requests, results, inbound) && n in requests
    requires HS.ValidRun(start, log) && HS.CleanRun(start, log) && HS.Only(was, log, deed.call)
    requires LeaveFits(n, requests[n], HS.After(start, was), deed.call)
    requires deed.answer.Some? ==> TrueNow(HS.After(start, log), n, deed.answer.value)
    requires deed.removed ==> deed.answer.Some?
    ensures PA.Run(s, moves)
    ensures Linked(PA.End(s, moves), start, log, Requests(requests, n, deed), Results(results, n, deed), inbound)
  {
    RequestIsServed(s, start, was, requests, results, inbound, n, deed.call);
    moves := CallIsRun(s, start, was, log, requests, results, inbound, deed.call);
    if deed.answer.Some? {
      var more := AnswerIsRun(PA.End(s, moves), start, log, requests, results, inbound, n, deed.answer.value);
      RunThen(s, moves, more);
      moves := moves + more;
    }
    if deed.removed {
      var more := RemovalIsRun(PA.End(s, moves), start, log, requests, Results(results, n, deed), inbound, n);
      RunThen(s, moves, more);
      moves := moves + more;
    }
  }

  /** ... and so is recovery, once every request is answered and gone. */
  lemma RecoveryIsRun(s: PA.System, start: HS.Disk, was: seq<HS.Step>, log: seq<HS.Step>, results: map<Name, Outcome>, inbound: int) returns (moves: seq<PA.Move>)
    requires HS.ValidRun(start, was) && Linked(s, start, was, map[], results, inbound)
    requires HS.ValidRun(start, log) && HS.CleanRun(start, log) && HS.Only(was, log, HS.ForRecovery)
    ensures PA.Run(s, moves) && Linked(PA.End(s, moves), start, log, map[], results, inbound)
  {
    moves := CallIsRun(s, start, was, log, map[], results, inbound, HS.ForRecovery);
  }

  // ------------------------------------------------------ the Gateway in between

  /** A fresh installation, seen as the machine's. */
  lemma FreshIsLinked(s: PA.System, start: HS.Disk, inbound: int)
    requires HS.Start(start) && start.ops == map[] && PA.Initial(s) && ModeIn(start.db, inbound) == Some(s.record.active)
    ensures Linked(s, start, [], map[], map[], inbound)
  {
    assert ViewOps(start.ops) == map[];
  }

  /** The file a move of the Gateway writes. */
  function Filed(s: PA.System, m: PA.Move, requests: map<Name, Envelope>, e: Envelope): map<Name, Envelope> {
    match m
    case PublishApply => requests[Name(s.record.op, DoApply) := e]
    case PublishFinalize => requests[Name(s.record.op, DoFinalize) := e]
    case PublishRollback => requests[Name(s.record.op, DoRollback) := e]
    case _ => requests
  }

  lemma FilingShows(s: PA.System, m: PA.Move, requests: map<Name, Envelope>, results: map<Name, Outcome>, e: Envelope)
    requires PA.Can(s, m) && IsGateways(m) && SameFiles(s, requests.Keys, results)
    ensures SameFiles(PA.Act(s, m), Filed(s, m, requests, e).Keys, results)
  {
    if !PA.Publishes(m) {
      PA.GatewayFrame(s, m);
    }
  }

  lemma FilingPublishes(s: PA.System, m: PA.Move, requests: map<Name, Envelope>, e: Envelope, inbound: int)
    requires PA.Can(s, m) && IsGateways(m) && PA.Sound(s) && Published(s, requests, inbound)
    requires m.PublishApply? ==> Issued(s, e.request, inbound)
    ensures Published(PA.Act(s, m), Filed(s, m, requests, e), inbound)
  {
    if !PA.Publishes(m) {
      PA.GatewayFrame(s, m);
    }
  }

  /** The Gateway moves between the calls of the helper: the link holds on, with the file
      it has written if it published something. */
  lemma GatewayKeepsLinked(s: PA.System, m: PA.Move, start: HS.Disk, log: seq<HS.Step>, requests: map<Name, Envelope>, results: map<Name, Outcome>,
      inbound: int, e: Envelope)
    requires HS.ValidRun(start, log) && Linked(s, start, log, requests, results, inbound) && PA.Can(s, m) && IsGateways(m)
    requires m.PublishApply? ==> e.request.operation == s.record.op && e.request.oldMode == s.record.active && e.request.newMode == s.record.desired && e.request.inbound == inbound
    ensures Linked(PA.Act(s, m), start, log, Filed(s, m, requests, e), results, inbound)
  {
    FilingShows(s, m, requests, results, e);
    FilingPublishes(s, m, requests, e, inbound);
    PA.MoveKeepsSound(s, m);
    GatewayLeavesServing(s, m, HS.Nothing, inbound);
  }
}
