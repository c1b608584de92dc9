/** When the two processes of ProtocolAgreement agree on the mode of the inbound: under
    which guards they always do, and that each guard is needed exactly where it stands.
    Models internal/orchestrator/protocolmode.go and
    scripts/aimili_xui_protocol_transaction.py, taken together. */
module ComposedAgreement {
  import opened Wrappers
  import opened PanelTemplate
  import opened HelperView
  import opened ProtocolAgreement

  /** The agreement: a ready record and no open operation mean that the row is in the
      recorded mode. */
  predicate Agreement(s: System) {
    s.record.state == Ready && NoOpenOp(s.helper) ==> s.helper.row == Some(s.record.active)
  }

  /** The three situations in which the program as written can lose the agreement. Each
      is something the process about to act could look up first: the helper, whether
      another operation is still open when one begins, and whether the row really is in
      the new mode when one is finalized; the Gateway, whether the mode it has just seen
      in a repair is the target of an operation that is still open. */
  predicate Guarded(s: System, m: Move) {
    match m
    case Step(Begin(_, _, _)) => NoOpenOp(s.helper)
    case Step(Commit(op)) => op in s.helper.ops && s.helper.ops[op].Applied? && s.helper.row == Some(s.helper.ops[op].target)
    case CheckRepair => RowIsNoOpenTarget(s.helper)
    case _ => true
  }

  predicate RowIsNoOpenTarget(h: Helper) {
    forall op :: op in h.ops && OpenOp(h, op) ==> h.row != Some(h.ops[op].target)
  }

  // ---------------------------------------------------------------- invariant

  /** The helper, as the write-ahead discipline leaves it. */
  predicate HelperTight(h: Helper) {
    && (NoOpenOp(h) ==> h.row == h.committed)
    && (forall a, b :: a in h.ops && b in h.ops && OpenOp(h, a) && OpenOp(h, b) ==> a == b)
    && (forall op :: op in h.ops && OpenOp(h, op) ==>
          && h.committed == Some(h.ops[op].source)
          && h.ops[op].source != h.ops[op].target
          && (h.row == Some(h.ops[op].source) || h.row == Some(h.ops[op].target)))
  }

  /** A finalize request is waiting that the helper would carry out. */
  predicate Danger(s: System, op: string) {
    (op, Finalize) in s.requests && op in s.helper.ops && s.helper.ops[op].Applied? && s.helper.row == Some(s.helper.ops[op].target)
  }

  /** The record follows what was committed, and only the recorded operation can still
      be committed. */
  predicate RecordTight(s: System) {
    var r := s.record;
    && (r.state == Ready ==> s.helper.committed == Some(r.active))
    && (InFlight(r) ==> s.helper.committed == Some(if IsFinalized(s.helper, r.op) then r.desired else r.active))
    && (s.session == RepairChecked ==> s.helper.committed == Some(r.active))
    && (forall op :: op in s.helper.ops && Danger(s, op) ==> op == r.op && r.state != Ready && s.session != RepairChecked)
  }

  predicate Tight(s: System) {
    Sound(s) && HelperTight(s.helper) && RecordTight(s)
  }

  lemma TightAgrees(s: System)
    requires Tight(s)
    ensures Agreement(s)
  {
  }

  lemma StepKeepsHelper(s: System, m: HelperMove)
    requires Tight(s) && Can(s, Step(m)) && Guarded(s, Step(m))
    ensures HelperTight(Next(s.helper, m))
  {
    var h, next := s.helper, Next(s.helper, m);
    OneOperation(h, m);
    assert forall op :: op in next.ops && op != m.op && OpenOp(next, op) ==> OpenOp(h, op);
    if m.Begin? {
      assert OpenOp(next, m.op);
    } else {
      assert OpenOp(h, m.op);
      if m.Commit? || m.Bury? || m.Forget? {
        assert NoOpenOp(next);
      } else {
        assert OpenOp(next, m.op);
      }
    }
  }

  /** No step of the helper leaves a waiting finalize it would carry out: an answered
      operation is the only open one, its row is never written again, and every step on
      it takes it away from its finalize. */
  lemma StepLeavesNoDanger(s: System, m: HelperMove, op: string)
    requires Tight(s) && Can(s, Step(m)) && Guarded(s, Step(m)) && op in Next(s.helper, m).ops
    ensures !Danger(Act(s, Step(m)), op)
  {
    OneOperation(s.helper, m);
    StepKeepsHelper(s, m);
    var h, next := s.helper, Next(s.helper, m);
    assert m.Begin? || OpenOp(h, m.op);
    assert OpenOp(next, op) && op != m.op ==> OpenOp(h, op);
    assert Danger(Act(s, Step(m)), op) ==> OpenOp(next, op);
  }

  lemma StepFinalizes(h: Helper, m: HelperMove, op: string)
    requires Able(h, m)
    ensures IsFinalized(Next(h, m), op) <==> IsFinalized(h, op) || m == Commit(op)
    ensures !m.Commit? ==> Next(h, m).committed == h.committed
    ensures m.Commit? ==> Next(h, m).committed == h.row && IsFinalized(Next(h, m), m.op) && h.ops[m.op].Applied?
  {
  }

  lemma StepKeepsRecord(s: System, m: HelperMove)
    requires Tight(s) && Can(s, Step(m)) && Guarded(s, Step(m))
    ensures RecordTight(Act(s, Step(m)))
  {
    var next := Act(s, Step(m));
    StepFinalizes(s.helper, m, s.record.op);
    if m.Commit? {
      assert Danger(s, m.op);
      assert s.helper.ops[m.op].target == s.issued[m.op].target;
    }
    forall op | op in next.helper.ops ensures !Danger(next, op) {
      StepLeavesNoDanger(s, m, op);
    }
  }

  lemma SpoolKeepsRecord(s: System, m: Move)
    requires Tight(s) && Can(s, m) && (m.Answer? || m.Consume? || Publishes(m))
    ensures HelperTight(Act(s, m).helper) && RecordTight(Act(s, m))
  {
    var next := Act(s, m);
    assert next.helper == s.helper;
    assert forall op :: op in s.helper.ops && Danger(next, op) ==> Danger(s, op) || op == s.record.op;
  }

  /** When the Gateway calls an operation off or done, no finalize is waiting any more,
      and the mode it is about to record is the committed one. */
  lemma NothingWaits(s: System, m: Move)
    requires RecordSound(s) && SessionSound(s) && RecordTight(s) && Can(s, m) && (m.SaveReadyOld? || m.SaveReadyNew?)
    ensures forall op :: op in s.helper.ops ==> !Danger(s, op)
    ensures s.helper.committed == Some(if m.SaveReadyNew? then s.record.desired else s.record.active)
  {
    forall op | op in s.helper.ops ensures !Danger(s, op) {
      assert Danger(s, op) ==> op == s.record.op;
    }
  }

  /** A repair that passes its check while no open operation has the row's mode as its
      target has found the committed mode. */
  lemma RepairIsRight(s: System)
    requires Tight(s) && Can(s, CheckRepair) && Guarded(s, CheckRepair)
    ensures s.helper.committed == Some(s.record.active)
    ensures forall op :: op in s.helper.ops ==> !Danger(s, op)
  {
    var h := s.helper;
    forall op | op in h.ops ensures !Danger(s, op) {
      assert h.ops[op].Applied? ==> OpenOp(h, op);
    }
    if !NoOpenOp(h) {
      var op :| op in h.ops && OpenOp(h, op);
      assert h.row == Some(h.ops[op].source);
    }
  }

  lemma SameDanger(s: System, m: Move)
    requires Can(s, m) && IsQuietMove(m)
    ensures Act(s, m).helper == s.helper
    ensures forall op :: op in s.helper.ops ==> Danger(Act(s, m), op) == Danger(s, op)
  {
    GatewayFrame(s, m);
  }

  lemma CheckKeepsRecord(s: System, m: Move)
    requires Tight(s) && Can(s, m) && Guarded(s, m) && (m.CheckRepair? || m.BeginSwitch?)
    ensures RecordTight(Act(s, m))
  {
    SameDanger(s, m);
    if m.CheckRepair? {
      RepairIsRight(s);
    } else {
      assert m.op !in s.helper.ops;
    }
  }

  lemma ReadyKeepsRecord(s: System, m: Move)
    requires RecordSound(s) && SessionSound(s) && RecordTight(s) && Can(s, m) && (m.SaveReadyOld? || m.SaveReadyNew? || m.SaveReadyRepaired?)
    ensures RecordTight(Act(s, m))
  {
    SameDanger(s, m);
    if !m.SaveReadyRepaired? {
      NothingWaits(s, m);
    }
  }

  lemma LookKeepsRecord(s: System, m: Move)
    requires Tight(s) && Can(s, m) && IsQuietMove(m) && !m.CheckRepair?
    requires Act(s, m).record == s.record
    requires Act(s, m).session == RepairChecked ==> s.session == RepairChecked
    ensures RecordTight(Act(s, m))
  {
    SameDanger(s, m);
  }

  lemma OnlyInFlight(s: System, m: Move)
    requires SessionSound(s) && Can(s, m) && (m.SavePending? || m.GiveUp? || m.BeginRecover?)
    ensures InFlight(s.record)
  {
  }

  /** A change of state that is neither to nor from ready. */
  lemma FlightKeepsRecord(s: System, m: Move)
    requires RecordTight(s) && InFlight(s.record) && Can(s, m) && (m.SavePending? || m.GiveUp? || m.BeginRecover?)
    ensures RecordTight(Act(s, m))
  {
    SameDanger(s, m);
  }

  lemma BreakKeepsRecord(s: System, m: Move)
    requires RecordTight(s) && Can(s, m) && (m.MarkRepair? || m.LeaseRepair? || m.MarkFinalizedRepair?)
    ensures RecordTight(Act(s, m))
  {
    SameDanger(s, m);
  }

  lemma MoveKeepsTight(s: System, m: Move)
    requires Tight(s) && Can(s, m) && Guarded(s, m)
    ensures Tight(Act(s, m))
  {
    MoveKeepsSound(s, m);
    if m.Step? {
      StepKeepsHelper(s, m.m);
      StepKeepsRecord(s, m.m);
    } else if m.Answer? || m.Consume? || Publishes(m) {
      SpoolKeepsRecord(s, m);
    } else {
      SameDanger(s, m);
      if m.CheckRepair? || m.BeginSwitch? {
        CheckKeepsRecord(s, m);
      } else if m.SaveReadyOld? || m.SaveReadyNew? || m.SaveReadyRepaired? {
        ReadyKeepsRecord(s, m);
      } else if m.SavePending? || m.GiveUp? || m.BeginRecover? {
        OnlyInFlight(s, m);
        FlightKeepsRecord(s, m);
      } else if m.MarkRepair? || m.LeaseRepair? || m.MarkFinalizedRepair? {
        BreakKeepsRecord(s, m);
      } else {
        LookKeepsRecord(s, m);
      }
    }
  }

  predicate AllGuarded(s: System, moves: seq<Move>)
    requires Run(s, moves)
  {
    moves == [] || (AllGuarded(s, moves[..|moves| - 1]) && Guarded(End(s, moves[..|moves| - 1]), moves[|moves| - 1]))
  }

  lemma {:induction false} RunKeepsTight(s: System, moves: seq<Move>)
    requires Tight(s) && Run(s, moves) && AllGuarded(s, moves)
    ensures Tight(End(s, moves))
  {
    if moves != [] {
      RunKeepsTight(s, moves[..|moves| - 1]);
      MoveKeepsTight(End(s, moves[..|moves| - 1]), moves[|moves| - 1]);
    }
  }

  /** Composed agreement. With the Gateway crashing anywhere, the helper crashing anywhere,
      requests delayed, replayed and timed out, and saves failing with or without effect:
      in every state of every run in which the three guards were respected, a ready record
      and no open operation mean that the inbound runs the recorded mode. */
  lemma AgreementAlwaysHolds(s: System, moves: seq<Move>)
    requires Initial(s) && Run(s, moves) && AllGuarded(s, moves)
    ensures Agreement(End(s, moves))
  {
    RunKeepsTight(s, moves);
    TightAgrees(End(s, moves));
  }
}
