/** The Gateway and the root helper as two processes that crash independently and share
    only a file spool. The state machine below lets the helper take its durable steps, be
    late, or die; lets the Gateway publish, time out, fail to save, or die; and keeps all
    old requests and results around.
    Models internal/orchestrator/protocolmode.go (SwitchProtocolModeExpected,
    RecoverProtocolModes, rollbackProtocolMode, convergeRecoveredProtocolMode,
    revalidateProtocolRepair, mark*Repair), internal/protocoltxn/client.go (the spool) and
    the helper as HelperView shows it. */
module ProtocolAgreement {
  import opened Wrappers
  import opened PanelTemplate
  import opened HelperView

  datatype State = Ready | Switching | SubscriptionPending | RollingBack | RepairRequired

  /** The fingerprint of a request; the digest is injective, so it is kept as the request. */
  datatype Fingerprint = Fingerprint(op: string, source: Mode, target: Mode)

  /** `EgressProtocolMode`, as stored. */
  datatype Record = Record(active: Mode, desired: Mode, state: State, op: string, hash: Option<Fingerprint>)

  /** Where the one Gateway session is. Only durable state survives a crash, which makes
      the session Quiet. */
  datatype Session =
    | Quiet
    | Recorded | Asked | Confirmed | Pending | Verified | Finalizing | Finished
    | Undoing(applied: bool) | UndoAsked | Undone
    | Recovering | RecoverAsked | FoundFinalized | FoundUndone
    | OldChecked | NewChecked
    | Repairing | RepairChecked

  datatype Action = Apply | Finalize | Rollback

  datatype Verdict = SaidApplied | SaidFinalized | SaidRolledBack | SaidAlreadyFinalized | SaidNotApplied | SaidOther

  /** `issued` and `answered` record history: the requests ever made, and the operations
      whose apply was ever answered with success. */
  datatype System = System(
    helper: Helper,
    requests: set<(string, Action)>,
    results: map<(string, Action), Verdict>,
    record: Record,
    session: Session,
    issued: map<string, Fingerprint>,
    answered: set<string>)

  /** A save is done, fails, or fails although it took effect; after the last the version
      in memory is stale, so that no later save of the session gets through. */
  datatype Save = Saved | SaveFailed | SaveLate

  datatype Move =
    // the helper
    | Step(m: HelperMove)
    | Answer(op: string, action: Action, verdict: Verdict)
    | Consume(op: string, action: Action)
    // SwitchProtocolModeExpected
    | BeginSwitch(op: string, target: Mode, save: Save)
    | PublishApply
    | SeeApplied
    | SavePending(save: Save)
    | CheckTarget
    | PublishFinalize
    | SeeFinalized
    | SaveReadyNew(save: Save)
    | MarkFinalizedRepair(save: Save)
    // rollbackProtocolMode
    | GiveUp(save: Save)
    | PublishRollback
    | SeeRolledBack
    | SkipRollback
    // recoverProtocolMode
    | BeginRecover(save: Save)
    | SeeAlreadyFinalized
    | SeeUndone
    | CheckNew
    | CheckOld
    | SaveReadyOld(save: Save)
    // mark*Repair, revalidateProtocolRepair
    | MarkRepair(save: Save)
    | LeaseRepair(save: Save)
    | BeginRepair
    | CheckRepair
    | SaveReadyRepaired(save: Save)
    | Crash // or simply the end of a call

  predicate InFlight(r: Record) {
    r.state == Switching || r.state == SubscriptionPending || r.state == RollingBack
  }

  predicate Heard(s: System, action: Action, verdict: Verdict) {
    (s.record.op, action) in s.results && s.results[(s.record.op, action)] == verdict
  }

  /** The helper takes a step for a request that is in the spool, or on its own in
      recovery, which comes after every request of the cycle was consumed: an answered
      apply whose operation is forgotten is no longer there to be replayed. */
  predicate Prompted(s: System, m: HelperMove) {
    match m
    case Begin(op, source, target) =>
      (op, Apply) in s.requests && op in s.issued && s.issued[op].source == source && s.issued[op].target == target
    case Commit(op) => (op, Finalize) in s.requests
    case Bury(op) => (op, Rollback) in s.requests
    case Forget(op) => op in s.answered ==> (op, Apply) !in s.requests
    case _ => true
  }

  /** What the helper may answer. */
  predicate Truthful(h: Helper, op: string, action: Action, verdict: Verdict) {
    match verdict
    case SaidApplied => action == Apply && op in h.ops && h.ops[op].Applied?
    case SaidFinalized => action == Finalize && op in h.ops && h.ops[op].Finalized?
    case SaidRolledBack => action == Rollback && op in h.ops && h.ops[op].RolledBack?
    case SaidAlreadyFinalized => action == Rollback && op in h.ops && h.ops[op].Finalized?
    case SaidNotApplied => action == Rollback && op !in h.ops
    case SaidOther => true
  }

  /** What each process is able to do. The Gateway acts on results and on the checks it
      makes; a check of a mode passes only while the row is in that mode. */
  predicate Can(s: System, m: Move) {
    var h, r := s.helper, s.record;
    match m
    case Step(hm) => Able(h, hm) && Prompted(s, hm)
    case Answer(op, action, verdict) => (op, action) in s.requests && Truthful(h, op, action, verdict)
    case Consume(op, action) => (op, action) in s.requests && (op, action) in s.results
    case BeginSwitch(op, target, _) => s.session == Quiet && r.state == Ready && target != r.active && op !in s.issued
    case PublishApply => s.session == Recorded
    case SeeApplied => s.session == Asked && Heard(s, Apply, SaidApplied)
    case SavePending(_) => s.session == Confirmed
    case CheckTarget => s.session == Pending && h.row == Some(r.desired)
    case PublishFinalize => s.session == Verified
    case SeeFinalized => s.session == Finalizing && Heard(s, Finalize, SaidFinalized)
    case SaveReadyNew(_) => s.session == Finished || s.session == NewChecked
    case MarkFinalizedRepair(_) => s.session == Finished
    case GiveUp(_) =>
      s.session in {Recorded, Asked, Confirmed, Pending, Verified, Finalizing}
    case PublishRollback => s.session == Undoing(true) || s.session == Recovering
    case SeeRolledBack => s.session == UndoAsked && Heard(s, Rollback, SaidRolledBack)
    case SkipRollback => s.session == Undoing(false)
    case BeginRecover(_) => s.session == Quiet && InFlight(r)
    case SeeAlreadyFinalized =>
      && s.session == RecoverAsked && Heard(s, Rollback, SaidAlreadyFinalized)
      && r.desired != r.active && r.hash == Some(Fingerprint(r.op, r.active, r.desired))
    case SeeUndone => s.session == RecoverAsked && (Heard(s, Rollback, SaidRolledBack) || Heard(s, Rollback, SaidNotApplied))
    case CheckNew => s.session == FoundFinalized && h.row == Some(r.desired)
    case CheckOld => (s.session == Undone || s.session == FoundUndone) && h.row == Some(r.active)
    case SaveReadyOld(_) => s.session == OldChecked
    case MarkRepair(_) => s.session !in {Quiet, Repairing, RepairChecked} || (s.session == Quiet && InFlight(r))
    case LeaseRepair(_) => s.session == Quiet && r.state == Ready
    case BeginRepair => s.session == Quiet && r.state == RepairRequired
    case CheckRepair => s.session == Repairing && h.row == Some(r.active)
    case SaveReadyRepaired(_) => s.session == RepairChecked
    case Crash => true
  }

  /** A save: the record as stored afterwards, and the session that goes on only if the
      save was seen to succeed. */
  function Store(s: System, save: Save, next: Record, session: Session, otherwise: Session): System {
    match save
    case Saved => s.(record := next, session := session)
    case SaveFailed => s.(session := otherwise)
    case SaveLate => s.(record := next, session := Quiet)
  }

  function Act(s: System, m: Move): System
    requires Can(s, m)
  {
    var r := s.record;
    match m
    case Step(hm) => s.(helper := Next(s.helper, hm))
    case Answer(op, action, verdict) =>
      s.(results := s.results[(op, action) := verdict],
         answered := if verdict == SaidApplied then s.answered + {op} else s.answered)
    case Consume(op, action) => s.(requests := s.requests - {(op, action)})
    case BeginSwitch(op, target, save) =>
      var hash := Fingerprint(op, r.active, target);
      Store(s, save, Record(r.active, target, Switching, op, Some(hash)), Recorded, Quiet).(issued := s.issued[op := hash])
    case PublishApply => s.(requests := s.requests + {(r.op, Apply)}, session := Asked)
    case SeeApplied => s.(session := Confirmed)
    case SavePending(save) => Store(s, save, r.(state := SubscriptionPending), Pending, Confirmed)
    case CheckTarget => s.(session := Verified)
    case PublishFinalize => s.(requests := s.requests + {(r.op, Finalize)}, session := Finalizing)
    case SeeFinalized => s.(session := Finished)
    case SaveReadyNew(save) =>
      Store(s, save, r.(active := r.desired, state := Ready), Quiet, if s.session == Finished then Finished else Quiet)
    case MarkFinalizedRepair(save) => Store(s, save, r.(active := r.desired, state := RepairRequired), Quiet, Quiet)
    case GiveUp(save) =>
      Store(s, save, r.(state := RollingBack), Undoing(s.session != Recorded && s.session != Asked), Quiet)
    case PublishRollback =>
      s.(requests := s.requests + {(r.op, Rollback)}, session := if s.session == Recovering then RecoverAsked else UndoAsked)
    case SeeRolledBack => s.(session := Undone)
    case SkipRollback => s.(session := Undone)
    case BeginRecover(save) =>
      if r.state == RollingBack then s.(session := Recovering)
      else Store(s, save, r.(state := RollingBack), Recovering, Quiet)
    case SeeAlreadyFinalized => s.(session := FoundFinalized)
    case SeeUndone => s.(session := FoundUndone)
    case CheckNew => s.(session := NewChecked)
    case CheckOld => s.(session := OldChecked)
    case SaveReadyOld(save) => Store(s, save, r.(desired := r.active, state := Ready), Quiet, Quiet)
    case MarkRepair(save) => Store(s, save, r.(desired := r.active, state := RepairRequired), Quiet, Quiet)
    case LeaseRepair(save) => Store(s, save, r.(desired := r.active, state := RepairRequired), Quiet, Quiet)
    case BeginRepair => s.(session := Repairing)
    case CheckRepair => s.(session := RepairChecked)
    case SaveReadyRepaired(save) => Store(s, save, r.(desired := r.active, state := Ready), Quiet, Quiet)
    case Crash => s.(session := Quiet)
  }

  // --------------------------------------------------------------------- runs

  predicate Run(s: System, moves: seq<Move>)
    decreases |moves|, 0
  {
    moves == [] || (Run(s, moves[..|moves| - 1]) && Can(End(s, moves[..|moves| - 1]), moves[|moves| - 1]))
  }

  function End(s: System, moves: seq<Move>): System
    requires Run(s, moves)
    decreases |moves|, 1
  {
    if moves == [] then s else Act(End(s, moves[..|moves| - 1]), moves[|moves| - 1])
  }

  lemma ExtendRun(s: System, moves: seq<Move>, m: Move)
    requires Run(s, moves) && Can(End(s, moves), m)
    ensures Run(s, moves + [m]) && End(s, moves + [m]) == Act(End(s, moves), m)
  {
    assert (moves + [m])[..|moves|] == moves;
  }

  /** A fresh installation: nothing in the spool, a ready record that matches the row. */
  predicate Initial(s: System) {
    && s.helper.ops == map[] && s.helper.row == s.helper.committed == Some(s.record.active)
    && s.requests == {} && s.results == map[] && s.issued == map[] && s.answered == {}
    && s.record.state == Ready && s.record.active == s.record.desired
    && s.session == Quiet
  }

  // ------------------------------------------- what holds without any guarantee

  predicate IsFinalized(h: Helper, op: string) {
    op in h.ops && h.ops[op].Finalized?
  }

  /** The operation is not finalized and can never be. */
  predicate Settled(s: System, op: string) {
    && !IsFinalized(s.helper, op)
    && ((op, Finalize) !in s.requests || op !in s.helper.ops || s.helper.ops[op].RolledBack?)
  }

  /** What the spool keeps of the past is true of the helper. */
  predicate SpoolTrue(s: System) {
    IssuedTrue(s) && AnsweredTrue(s)
  }

  predicate IssuedTrue(s: System) {
    var h := s.helper;
    && (forall q :: q in s.requests ==> q.0 in s.issued)
    && (forall q :: q in s.results ==> q.0 in s.issued)
    && (forall op :: op in h.ops ==> op in s.issued)
    && (forall op :: op in s.answered ==> op in s.issued)
    && (forall op :: op in s.issued ==> s.issued[op].op == op && s.issued[op].source != s.issued[op].target)
    && (forall op :: op in h.ops && OpenOp(h, op) ==> h.ops[op].source == s.issued[op].source && h.ops[op].target == s.issued[op].target)
  }

  predicate AnsweredTrue(s: System) {
    var h := s.helper;
    && (forall op :: op in s.answered ==> (op, Apply) in s.results)
    && (forall op :: op in s.answered && op !in h.ops ==> (op, Apply) !in s.requests)
    && (forall op :: op in s.answered && op in h.ops ==> !h.ops[op].Working?)
    && (forall op :: op in h.ops && h.ops[op].Finalized? ==> op in s.answered)
  }

  predicate VerdictsTrue(s: System) {
    && (forall q :: q in s.requests && q.1 == Finalize ==> q.0 in s.answered)
    && (forall q :: q in s.results ==> VerdictTrue(s, q.0, q.1, s.results[q]))
  }

  predicate VerdictTrue(s: System, op: string, action: Action, verdict: Verdict) {
    match verdict
    case SaidApplied => op in s.answered
    case SaidFinalized => IsFinalized(s.helper, op)
    case SaidRolledBack => op in s.helper.ops && s.helper.ops[op].RolledBack?
    case SaidAlreadyFinalized => IsFinalized(s.helper, op)
    case SaidNotApplied => action == Rollback && Settled(s, op)
    case SaidOther => true
  }

  /** The stored record alone: a ready or broken one has no mode left to reach, one in
      flight names the request it is about. */
  predicate RecordSound(s: System) {
    var r := s.record;
    && (!InFlight(r) ==> r.active == r.desired)
    && (InFlight(r) ==>
          && r.active != r.desired && r.hash == Some(Fingerprint(r.op, r.active, r.desired))
          && r.op in s.issued && s.issued[r.op] == Fingerprint(r.op, r.active, r.desired))
  }

  /** No finalize was ever published for the recorded operation, nor a rollback. */
  predicate Untouched(s: System) {
    (s.record.op, Finalize) !in s.requests && !IsFinalized(s.helper, s.record.op) && NoRollback(s)
  }

  predicate NoRollback(s: System) {
    (s.record.op, Rollback) !in s.requests && (s.record.op, Rollback) !in s.results
  }

  /** What the session may rely on. */
  predicate SessionSound(s: System) {
    var r := s.record;
    match s.session
    case Quiet => true
    case Recorded => r.state == Switching && Untouched(s) && (r.op, Apply) !in s.requests && r.op !in s.answered
    case Asked => r.state == Switching && Untouched(s)
    case Confirmed => r.state == Switching && Untouched(s) && r.op in s.answered
    case Pending => r.state == SubscriptionPending && Untouched(s) && r.op in s.answered
    case Verified => r.state == SubscriptionPending && Untouched(s) && r.op in s.answered
    case Finalizing => r.state == SubscriptionPending && r.op in s.answered && NoRollback(s)
    case Finished => r.state == SubscriptionPending && IsFinalized(s.helper, r.op)
    case Undoing(applied) => r.state == RollingBack && NoRollback(s) && (!applied ==> Untouched(s))
    case UndoAsked => r.state == RollingBack
    case Undone => r.state == RollingBack && Settled(s, r.op)
    case Recovering => r.state == RollingBack
    case RecoverAsked => r.state == RollingBack
    case FoundFinalized => r.state == RollingBack && IsFinalized(s.helper, r.op)
    case NewChecked => r.state == RollingBack && IsFinalized(s.helper, r.op)
    case FoundUndone => r.state == RollingBack && Settled(s, r.op)
    case OldChecked => r.state == RollingBack && Settled(s, r.op)
    case Repairing => r.state == RepairRequired
    case RepairChecked => r.state == RepairRequired
  }

  predicate Sound(s: System) {
    SpoolTrue(s) && VerdictsTrue(s) && RecordSound(s) && SessionSound(s)
  }

  /** A step of the helper works on one operation. */
  lemma OneOperation(h: Helper, m: HelperMove)
    requires Able(h, m)
    ensures forall op :: op != m.op ==> (op in Next(h, m).ops <==> op in h.ops)
    ensures forall op :: op != m.op && op in h.ops ==> Next(h, m).ops[op] == h.ops[op]
    ensures m.op in h.ops ==> OpenOp(h, m.op)
  {
  }

  lemma SettledStays(s: System, m: HelperMove, op: string)
    requires Sound(s) && Can(s, Step(m)) && Settled(s, op)
    ensures Settled(Act(s, Step(m)), op)
  {
    OneOperation(s.helper, m);
  }

  lemma StepKeepsIssued(s: System, m: HelperMove)
    requires IssuedTrue(s) && Can(s, Step(m))
    ensures IssuedTrue(Act(s, Step(m)))
  {
    OneOperation(s.helper, m);
  }

  lemma StepKeepsAnswered(s: System, m: HelperMove)
    requires AnsweredTrue(s) && VerdictsTrue(s) && Can(s, Step(m))
    ensures AnsweredTrue(Act(s, Step(m)))
  {
    OneOperation(s.helper, m);
    assert m.Commit? ==> (m.op, Finalize) in s.requests;
  }

  lemma StepKeepsVerdicts(s: System, m: HelperMove)
    requires Sound(s) && Can(s, Step(m))
    ensures VerdictsTrue(Act(s, Step(m)))
  {
    var next := Act(s, Step(m));
    OneOperation(s.helper, m);
    forall q | q in next.results ensures VerdictTrue(next, q.0, q.1, next.results[q]) {
      assert VerdictTrue(s, q.0, q.1, s.results[q]);
      if s.results[q] == SaidNotApplied {
        SettledStays(s, m, q.0);
      }
    }
  }

  lemma StepKeepsSession(s: System, m: HelperMove)
    requires Sound(s) && Can(s, Step(m))
    ensures RecordSound(Act(s, Step(m))) && SessionSound(Act(s, Step(m)))
  {
    OneOperation(s.helper, m);
    if Settled(s, s.record.op) {
      SettledStays(s, m, s.record.op);
    }
    assert Untouched(s) ==> Untouched(Act(s, Step(m)));
  }

  lemma StepKeepsSound(s: System, m: HelperMove)
    requires Sound(s) && Can(s, Step(m))
    ensures Sound(Act(s, Step(m)))
  {
    StepKeepsIssued(s, m);
    StepKeepsAnswered(s, m);
    StepKeepsVerdicts(s, m);
    StepKeepsSession(s, m);
  }

  lemma AnswerKeepsSound(s: System, op: string, action: Action, verdict: Verdict)
    requires Sound(s) && Can(s, Answer(op, action, verdict))
    ensures Sound(Act(s, Answer(op, action, verdict)))
  {
    var next := Act(s, Answer(op, action, verdict));
    assert SpoolTrue(next);
    forall q | q in next.results ensures VerdictTrue(next, q.0, q.1, next.results[q]) {
      if q != (op, action) {
        assert VerdictTrue(s, q.0, q.1, s.results[q]);
      }
    }
  }

  lemma ConsumeKeepsSound(s: System, op: string, action: Action)
    requires Sound(s) && Can(s, Consume(op, action))
    ensures Sound(Act(s, Consume(op, action)))
  {
    var next := Act(s, Consume(op, action));
    forall q | q in next.results ensures VerdictTrue(next, q.0, q.1, next.results[q]) {
      assert VerdictTrue(s, q.0, q.1, s.results[q]);
    }
  }

  predicate Publishes(m: Move) {
    m.PublishApply? || m.PublishFinalize? || m.PublishRollback?
  }

  lemma PublishKeepsSpool(s: System, m: Move)
    requires Sound(s) && Can(s, m) && Publishes(m)
    ensures SpoolTrue(Act(s, m)) && VerdictsTrue(Act(s, m))
  {
    var next := Act(s, m);
    assert SpoolTrue(next);
    forall q | q in next.results ensures VerdictTrue(next, q.0, q.1, next.results[q]) {
      assert VerdictTrue(s, q.0, q.1, s.results[q]);
    }
  }

  lemma PublishKeepsSession(s: System, m: Move)
    requires RecordSound(s) && SessionSound(s) && Can(s, m) && Publishes(m)
    ensures RecordSound(Act(s, m)) && SessionSound(Act(s, m))
  {
  }

  /** A move that only saves or looks keeps what the spool says. */
  lemma SpoolUntouched(s: System, next: System)
    requires SpoolTrue(s) && VerdictsTrue(s)
    requires next.helper == s.helper && next.requests == s.requests && next.results == s.results && next.answered == s.answered
    requires next.issued == s.issued
             || (exists op: string, f: Fingerprint :: op !in s.issued && next.issued == s.issued[op := f] && f.op == op && f.source != f.target)
    ensures SpoolTrue(next) && VerdictsTrue(next)
  {
    assert forall op :: op in s.issued ==> op in next.issued && next.issued[op] == s.issued[op];
    forall q | q in next.results ensures VerdictTrue(next, q.0, q.1, next.results[q]) {
      assert VerdictTrue(s, q.0, q.1, s.results[q]);
    }
  }

  predicate Hears(m: Move) {
    m.SeeApplied? || m.SeeFinalized? || m.SeeRolledBack? || m.SeeAlreadyFinalized? || m.SeeUndone?
  }

  lemma HearingKeepsSession(s: System, m: Move)
    requires VerdictsTrue(s) && RecordSound(s) && SessionSound(s) && Can(s, m) && Hears(m)
    ensures RecordSound(Act(s, m)) && SessionSound(Act(s, m))
  {
    var action := if m.SeeApplied? then Apply else if m.SeeFinalized? then Finalize else Rollback;
    assert VerdictTrue(s, s.record.op, action, s.results[(s.record.op, action)]);
  }

  predicate Forward(m: Move) {
    m.SavePending? || m.CheckTarget? || m.SaveReadyNew? || m.MarkFinalizedRepair? || m.CheckNew?
  }

  lemma BeginKeepsSession(s: System, m: Move)
    requires Sound(s) && Can(s, m) && m.BeginSwitch?
    ensures RecordSound(Act(s, m)) && SessionSound(Act(s, m))
  {
    assert forall q :: q in s.requests || q in s.results ==> q.0 != m.op;
    assert m.op !in s.helper.ops && m.op !in s.answered;
  }

  lemma ForwardKeepsSession(s: System, m: Move)
    requires RecordSound(s) && SessionSound(s) && Can(s, m) && Forward(m)
    ensures RecordSound(Act(s, m)) && SessionSound(Act(s, m))
  {
  }

  predicate Backward(m: Move) {
    m.GiveUp? || m.SkipRollback? || m.BeginRecover? || m.CheckOld? || m.SaveReadyOld?
  }

  lemma BackwardKeepsSession(s: System, m: Move)
    requires RecordSound(s) && SessionSound(s) && Can(s, m) && Backward(m)
    ensures RecordSound(Act(s, m)) && SessionSound(Act(s, m))
  {
  }

  predicate Repairs(m: Move) {
    m.MarkRepair? || m.LeaseRepair? || m.BeginRepair? || m.CheckRepair? || m.SaveReadyRepaired? || m.Crash?
  }

  lemma RepairKeepsSession(s: System, m: Move)
    requires RecordSound(s) && SessionSound(s) && Can(s, m) && Repairs(m)
    ensures RecordSound(Act(s, m)) && SessionSound(Act(s, m))
  {
  }

  predicate IsQuietMove(m: Move) {
    m.BeginSwitch? || Hears(m) || Forward(m) || Backward(m) || Repairs(m)
  }

  predicate SameSpool(a: System, b: System) {
    a.helper == b.helper && a.requests == b.requests && a.results == b.results && a.answered == b.answered
  }

  lemma HearingFrame(s: System, m: Move)
    requires Can(s, m) && Hears(m)
    ensures SameSpool(Act(s, m), s) && Act(s, m).issued == s.issued
  {
  }

  lemma ForwardFrame(s: System, m: Move)
    requires Can(s, m) && (m.BeginSwitch? || Forward(m))
    ensures SameSpool(Act(s, m), s)
    ensures Act(s, m).issued == if m.BeginSwitch? then s.issued[m.op := Fingerprint(m.op, s.record.active, m.target)] else s.issued
  {
  }

  lemma BackwardFrame(s: System, m: Move)
    requires Can(s, m) && Backward(m)
    ensures SameSpool(Act(s, m), s) && Act(s, m).issued == s.issued
  {
  }

  lemma RepairFrame(s: System, m: Move)
    requires Can(s, m) && Repairs(m)
    ensures SameSpool(Act(s, m), s) && Act(s, m).issued == s.issued
  {
  }

  lemma GatewayFrame(s: System, m: Move)
    requires Can(s, m) && IsQuietMove(m)
    ensures SameSpool(Act(s, m), s)
    ensures Act(s, m).issued == if m.BeginSwitch? then s.issued[m.op := Fingerprint(m.op, s.record.active, m.target)] else s.issued
  {
    if Hears(m) {
      HearingFrame(s, m);
    } else if Backward(m) {
      BackwardFrame(s, m);
    } else if Repairs(m) {
      RepairFrame(s, m);
    } else {
      ForwardFrame(s, m);
    }
  }

  lemma GatewayKeepsSpool(s: System, m: Move)
    requires SpoolTrue(s) && VerdictsTrue(s) && Can(s, m) && IsQuietMove(m)
    ensures SpoolTrue(Act(s, m)) && VerdictsTrue(Act(s, m))
  {
    GatewayFrame(s, m);
    if m.BeginSwitch? {
      BeginIsFresh(s, m);
    }
    SpoolUntouched(s, Act(s, m));
  }

  lemma BeginIsFresh(s: System, m: Move)
    requires Can(s, m) && m.BeginSwitch?
    ensures m.op !in s.issued && Fingerprint(m.op, s.record.active, m.target).source != m.target
  {
  }

  lemma GatewayKeepsSession(s: System, m: Move)
    requires Sound(s) && Can(s, m) && IsQuietMove(m)
    ensures RecordSound(Act(s, m)) && SessionSound(Act(s, m))
  {
    if m.BeginSwitch? {
      BeginKeepsSession(s, m);
    } else if Hears(m) {
      HearingKeepsSession(s, m);
    } else if Forward(m) {
      ForwardKeepsSession(s, m);
    } else if Backward(m) {
      BackwardKeepsSession(s, m);
    } else {
      RepairKeepsSession(s, m);
    }
  }

  lemma MoveKeepsSound(s: System, m: Move)
    requires Sound(s) && Can(s, m)
    ensures Sound(Act(s, m))
  {
    if m.Step? {
      StepKeepsSound(s, m.m);
    } else if m.Answer? {
      AnswerKeepsSound(s, m.op, m.action, m.verdict);
    } else if m.Consume? {
      ConsumeKeepsSound(s, m.op, m.action);
    } else if Publishes(m) {
      PublishKeepsSpool(s, m);
      PublishKeepsSession(s, m);
    } else {
      GatewayKeepsSpool(s, m);
      GatewayKeepsSession(s, m);
    }
  }

  /** Over all runs whatever: the record is sound and the session knows what it thinks
      it knows. */
  lemma {:induction false} RunKeepsSound(s: System, moves: seq<Move>)
    requires Initial(s) && Run(s, moves)
    ensures Sound(End(s, moves))
  {
    if moves != [] {
      RunKeepsSound(s, moves[..|moves| - 1]);
      MoveKeepsSound(End(s, moves[..|moves| - 1]), moves[|moves| - 1]);
    }
  }
}
