/** The guards of ComposedAgreement are exact. Each is met at every move or can be broken,
    and where it is broken the agreement is lost although every later move is guarded. */
module AgreementGuards {
  import opened Wrappers
  import opened PanelTemplate
  import opened HelperView
  import opened ProtocolAgreement
  import opened ComposedAgreement

  /** `t` can follow `s` by guarded moves. */
  ghost predicate Reaches(s: System, t: System) {
    exists moves :: Run(s, moves) && AllGuarded(s, moves) && End(s, moves) == t
  }

  lemma Stay(s: System)
    ensures Reaches(s, s)
  {
    var none: seq<Move> := [];
    assert Run(s, none) && AllGuarded(s, none) && End(s, none) == s;
  }

  lemma Go(s: System, t: System, m: Move) returns (next: System)
    requires Reaches(s, t) && Can(t, m) && Guarded(t, m)
    ensures next == Act(t, m) && Reaches(s, next)
  {
    var moves :| Run(s, moves) && AllGuarded(s, moves) && End(s, moves) == t;
    ExtendRun(s, moves, m);
    assert (moves + [m])[..|moves|] == moves;
    assert AllGuarded(s, moves + [m]);
    next := Act(t, m);
  }

  lemma ReachedIsTight(s: System, t: System)
    requires Tight(s) && Reaches(s, t)
    ensures Tight(t) && Agreement(t)
  {
    var moves :| Run(s, moves) && AllGuarded(s, moves) && End(s, moves) == t;
    RunKeepsTight(s, moves);
    TightAgrees(t);
  }

  /** A guarded move never leads to a lost agreement. */
  lemma GuardedIsSafe(s: System, m: Move)
    requires Tight(s) && Can(s, m) && Guarded(s, m)
    ensures forall t :: Reaches(Act(s, m), t) ==> Agreement(t)
  {
    MoveKeepsTight(s, m);
    forall t | Reaches(Act(s, m), t) ensures Agreement(t) {
      ReachedIsTight(Act(s, m), t);
    }
  }

  // -------------------------------------------------------------- finalizing

  lemma FinishSwitch(s0: System, s: System) returns (t: System)
    requires Reaches(s0, s) && s.session == Finalizing && (s.record.op, Finalize) in s.requests && IsFinalized(s.helper, s.record.op)
    ensures Reaches(s0, t) && t.helper == s.helper && t.session == Quiet && t.requests == s.requests
    ensures t.record == s.record.(active := s.record.desired, state := Ready)
    ensures t.issued == s.issued && t.answered == s.answered
    ensures forall q :: q in s.results ==> q in t.results
  {
    t := Go(s0, s, Answer(s.record.op, Finalize, SaidFinalized));
    t := Go(s0, t, SeeFinalized);
    t := Go(s0, t, SaveReadyNew(Saved));
  }

  /** The guard of finalize. A finalize that finds the row in another mode than the new
      one, because a restore was cut off before it was recorded, ends with a ready record
      of a mode the inbound is not in. */
  lemma FinalizeGuardIsExact(s: System)
    requires Tight(s) && s.session == Finalizing && Can(s, Step(Commit(s.record.op)))
    ensures Guarded(s, Step(Commit(s.record.op))) <==>
            (forall t :: Reaches(Act(s, Step(Commit(s.record.op))), t) ==> Agreement(t))
  {
    var op := s.record.op;
    var next := Act(s, Step(Commit(op)));
    if Guarded(s, Step(Commit(op))) {
      GuardedIsSafe(s, Step(Commit(op)));
    } else {
      assert OpenOp(s.helper, op);
      assert NoOpenOp(next.helper);
      Stay(next);
      var t := FinishSwitch(next, next);
      assert Reaches(next, t) && !Agreement(t);
    }
  }

  // ----------------------------------------------------------------- undoing

  lemma RestoreIsForgotten(s0: System, s: System, op: string) returns (t: System)
    requires Reaches(s0, s) && op in s.helper.ops && OpenOp(s.helper, op)
    requires op in s.answered ==> (op, Apply) in s.results
    ensures Reaches(s0, t) && t.record == s.record
    ensures t.helper == Helper(Some(s.helper.ops[op].source), s.helper.committed, s.helper.ops - {op})
  {
    t := s;
    if (op, Apply) in s.requests && op in s.answered {
      t := Go(s0, t, Consume(op, Apply));
    }
    t := Go(s0, t, Step(Restore(op)));
    t := Go(s0, t, Step(Forget(op)));
  }

  // ----------------------------------------------------------------- repairs

  /** The guard of a repair. A repair that accepts the mode an open operation is still
      in the middle of making is undone together with that operation. */
  lemma RepairGuardIsExact(s: System)
    requires Tight(s) && Can(s, CheckRepair)
    ensures Guarded(s, CheckRepair) <==> (forall t :: Reaches(Act(s, CheckRepair), t) ==> Agreement(t))
  {
    var next := Act(s, CheckRepair);
    if Guarded(s, CheckRepair) {
      GuardedIsSafe(s, CheckRepair);
    } else {
      var op :| op in s.helper.ops && OpenOp(s.helper, op) && s.helper.row == Some(s.helper.ops[op].target);
      Stay(next);
      var t := Go(next, next, SaveReadyRepaired(Saved));
      t := RestoreIsForgotten(next, t, op);
      assert NoOpenOp(t.helper) by {
        forall o | o in t.helper.ops ensures !OpenOp(t.helper, o) {
          assert o in s.helper.ops && o != op;
          assert OpenOp(t.helper, o) == OpenOp(s.helper, o);
        }
      }
      assert Reaches(next, t) && !Agreement(t);
    }
  }

  // --------------------------------------------------------------- beginning

  /** The rest of a switch that goes well, from an operation just begun. */
  lemma ApplyGoesWell(s0: System, s: System) returns (t: System)
    requires Reaches(s0, s) && s.session == Asked && (s.record.op, Apply) in s.requests
    requires s.record.op in s.helper.ops && s.helper.ops[s.record.op] == Working(s.record.active, s.record.desired)
    ensures Reaches(s0, t) && t.session == Verified
    ensures t.record == s.record.(state := SubscriptionPending) && t.requests == s.requests && t.issued == s.issued
    ensures t.helper == Helper(Some(s.record.desired), s.helper.committed, s.helper.ops[s.record.op := Applied(s.record.active, s.record.desired)])
    ensures t.answered == s.answered + {s.record.op}
    ensures t.results == s.results[(s.record.op, Apply) := SaidApplied]
  {
    var op := s.record.op;
    t := Go(s0, s, Step(Write(op)));
    t := Go(s0, t, Step(MarkApplied(op)));
    t := Go(s0, t, Answer(op, Apply, SaidApplied));
    t := Go(s0, t, SeeApplied);
    t := Go(s0, t, SavePending(Saved));
    t := Go(s0, t, CheckTarget);
  }

  lemma FinalizeGoesWell(s0: System, s: System) returns (t: System)
    requires Reaches(s0, s) && s.session == Verified
    requires s.record.op in s.helper.ops && s.helper.ops[s.record.op] == Applied(s.record.active, s.record.desired)
    requires s.helper.row == Some(s.record.desired)
    ensures Reaches(s0, t) && t.session == Quiet
    ensures t.record == s.record.(active := s.record.desired, state := Ready)
    ensures t.helper == Helper(s.helper.row, s.helper.row, s.helper.ops[s.record.op := Finalized])
    ensures t.requests == s.requests + {(s.record.op, Finalize)} && t.answered == s.answered && t.issued == s.issued
    ensures forall q :: q in s.results ==> q in t.results
  {
    t := Go(s0, s, PublishFinalize);
    t := Go(s0, t, Step(Commit(s.record.op)));
    t := FinishSwitch(s0, t);
  }

  predicate OnlyOpen(h: Helper, a: string, b: string) {
    forall op :: op in h.ops && OpenOp(h, op) ==> op == a || op == b
  }

  /** The run that breaks the agreement once `other` and the operation just begun are
      both open: the switch succeeds, then recovery undoes `other`. */
  lemma OverlapIsUndone(s: System, other: string) returns (t: System)
    requires s.session == Asked && (s.record.op, Apply) in s.requests
    requires s.record.op in s.helper.ops && s.helper.ops[s.record.op] == Working(s.record.active, s.record.desired)
    requires s.record.active != s.record.desired
    requires other != s.record.op && other in s.helper.ops && OpenOp(s.helper, other) && OnlyOpen(s.helper, other, s.record.op)
    requires s.helper.ops[other].source == s.record.active && (other in s.answered ==> (other, Apply) in s.results)
    ensures Reaches(s, t) && !Agreement(t)
  {
    Stay(s);
    t := ApplyGoesWell(s, s);
    t := FinalizeGoesWell(s, t);
    assert OpenOp(t.helper, other);
    t := RestoreIsForgotten(s, t, other);
    assert NoOpenOp(t.helper) by {
      forall o | o in t.helper.ops ensures !OpenOp(t.helper, o) {
        assert o in s.helper.ops && o != other;
        assert o != s.record.op ==> OpenOp(t.helper, o) == OpenOp(s.helper, o);
      }
    }
  }

  /** What the state looks like right after an unguarded begin. */
  lemma OverlapShape(s: System, source: Mode, target: Mode, other: string)
    requires Tight(s) && s.session == Asked && Can(s, Step(Begin(s.record.op, source, target)))
    requires other in s.helper.ops && OpenOp(s.helper, other)
    ensures source == s.record.active && target == s.record.desired && other != s.record.op
    ensures OnlyOpen(s.helper, other, s.record.op)
    ensures s.helper.ops[other].source == s.record.active
    ensures other in s.answered ==> (other, Apply) in s.results
  {
  }

  /** The guard of apply. If an operation begins while another is still open, the
      recovery of the other one later puts the row back under a ready record. */
  lemma BeginGuardIsExact(s: System, source: Mode, target: Mode)
    requires Tight(s) && s.session == Asked && Can(s, Step(Begin(s.record.op, source, target)))
    ensures Guarded(s, Step(Begin(s.record.op, source, target))) <==>
            (forall t :: Reaches(Act(s, Step(Begin(s.record.op, source, target))), t) ==> Agreement(t))
  {
    var op := s.record.op;
    var next := Act(s, Step(Begin(op, source, target)));
    if Guarded(s, Step(Begin(op, source, target))) {
      GuardedIsSafe(s, Step(Begin(op, source, target)));
    } else {
      var other :| other in s.helper.ops && OpenOp(s.helper, other);
      OverlapShape(s, source, target, other);
      assert next.helper.ops == s.helper.ops[op := Working(source, target)];
      var t := OverlapIsUndone(next, other);
    }
  }

  // ------------------------------------------- each guard can really be broken

  lemma Ask(s0: System, s: System, op: string, target: Mode) returns (t: System)
    requires Reaches(s0, s) && s.session == Quiet && s.record.state == Ready && target != s.record.active && op !in s.issued
    ensures Reaches(s0, t) && t.session == Asked && t.helper == s.helper && t.results == s.results && t.answered == s.answered
    ensures t.record == Record(s.record.active, target, Switching, op, Some(Fingerprint(op, s.record.active, target)))
    ensures t.requests == s.requests + {(op, Apply)}
    ensures t.issued == s.issued[op := Fingerprint(op, s.record.active, target)]
  {
    t := Go(s0, s, BeginSwitch(op, target, Saved));
    t := Go(s0, t, PublishApply);
  }

  /** The Gateway is told of a failure or waits in vain, and finds the old mode in place. */
  lemma CallOff(s0: System, s: System) returns (t: System)
    requires Reaches(s0, s) && s.session == Asked && s.helper.row == Some(s.record.active)
    ensures Reaches(s0, t) && t == s.(session := Quiet, record := s.record.(desired := s.record.active, state := Ready))
  {
    t := Go(s0, s, GiveUp(Saved));
    t := Go(s0, t, SkipRollback);
    t := Go(s0, t, CheckOld);
    t := Go(s0, t, SaveReadyOld(Saved));
  }

  lemma BeginAsked(s0: System, s: System) returns (t: System)
    requires Reaches(s0, s) && s.session == Asked && NoOpenOp(s.helper) && s.record.op !in s.helper.ops
    requires s.record.active != s.record.desired && s.helper.row == Some(s.record.active)
    requires (s.record.op, Apply) in s.requests && s.record.op in s.issued
    requires s.issued[s.record.op] == Fingerprint(s.record.op, s.record.active, s.record.desired)
    ensures Reaches(s0, t)
    ensures t == s.(helper := s.helper.(ops := s.helper.ops[s.record.op := Working(s.record.active, s.record.desired)]))
  {
    t := Go(s0, s, Step(Begin(s.record.op, s.record.active, s.record.desired)));
  }

  /** A switch asked for and begun. */
  lemma SwitchBegun(s0: System, s: System, op: string, target: Mode) returns (t: System)
    requires Reaches(s0, s) && s.session == Quiet && s.record.state == Ready && target != s.record.active
    requires op !in s.issued && op !in s.helper.ops && NoOpenOp(s.helper) && s.helper.row == Some(s.record.active)
    ensures Reaches(s0, t) && t.session == Asked
    ensures t.record == Record(s.record.active, target, Switching, op, Some(Fingerprint(op, s.record.active, target)))
    ensures t.helper == Helper(s.helper.row, s.helper.committed, s.helper.ops[op := Working(s.record.active, target)])
    ensures t.requests == s.requests + {(op, Apply)}
    ensures t.issued == s.issued[op := Fingerprint(op, s.record.active, target)]
  {
    t := Ask(s0, s, op, target);
    t := BeginAsked(s0, t);
  }

  lemma Twice(ops: map<string, OpView>, op: string, a: OpView, b: OpView)
    ensures ops[op := a][op := b] == ops[op := b]
  {
  }

  /** A switch that goes well up to the check of the new mode. */
  lemma SwitchToVerified(s0: System, s: System, op: string, target: Mode) returns (t: System)
    requires Reaches(s0, s) && s.session == Quiet && s.record.state == Ready && target != s.record.active
    requires op !in s.issued && op !in s.helper.ops && NoOpenOp(s.helper) && s.helper.row == Some(s.record.active)
    ensures Reaches(s0, t) && t.session == Verified
    ensures t.record == Record(s.record.active, target, SubscriptionPending, op, Some(Fingerprint(op, s.record.active, target)))
    ensures t.helper == Helper(Some(target), s.helper.committed, s.helper.ops[op := Applied(s.record.active, target)])
    ensures t.requests == s.requests + {(op, Apply)}
    ensures t.issued == s.issued[op := Fingerprint(op, s.record.active, target)]
  {
    t := SwitchBegun(s0, s, op, target);
    t := ApplyGoesWell(s0, t);
    Twice(s.helper.ops, op, Working(s.record.active, target), Applied(s.record.active, target));
  }

  lemma SwitchSucceeds(s0: System, s: System, op: string, target: Mode) returns (t: System)
    requires Reaches(s0, s) && s.session == Quiet && s.record.state == Ready && target != s.record.active
    requires op !in s.issued && op !in s.helper.ops && NoOpenOp(s.helper) && s.helper.row == Some(s.record.active)
    ensures Reaches(s0, t) && t.session == Quiet && t.record.active == target && t.record.state == Ready
    ensures t.helper == Helper(Some(target), Some(target), s.helper.ops[op := Finalized])
    ensures t.requests == s.requests + {(op, Apply), (op, Finalize)}
    ensures t.issued == s.issued[op := Fingerprint(op, s.record.active, target)]
  {
    t := SwitchToVerified(s0, s, op, target);
    t := FinalizeGoesWell(s0, t);
    Twice(s.helper.ops, op, Applied(s.record.active, target), Finalized);
  }

  lemma SwitchLosesLease(s0: System, s: System, op: string, target: Mode) returns (t: System)
    requires Reaches(s0, s) && s.session == Quiet && s.record.state == Ready && target != s.record.active
    requires op !in s.issued && op !in s.helper.ops && NoOpenOp(s.helper) && s.helper.row == Some(s.record.active)
    ensures Reaches(s0, t) && t.session == Quiet && t.record.active == s.record.active && t.record.state == RepairRequired
    ensures t.helper == Helper(Some(target), Some(target), s.helper.ops[op := Finalized])
    ensures t.requests == s.requests + {(op, Apply), (op, Finalize)}
    ensures t.issued == s.issued[op := Fingerprint(op, s.record.active, target)]
  {
    t := SwitchToVerified(s0, s, op, target);
    t := LoseLease(s0, t);
    Twice(s.helper.ops, op, Applied(s.record.active, target), Finalized);
  }

  /** A helper killed right after its first snapshot answers the replay with a conflict;
      the Gateway then finds the old mode in place, and may begin the next operation
      while the first is still open. */
  lemma BeginGuardCanBreak(s0: System, a: string, b: string, target: Mode) returns (t: System)
    requires Initial(s0) && a != b && target != s0.record.active
    ensures Reaches(s0, t) && t.session == Asked && t.record.op == b
    ensures Can(t, Step(Begin(b, s0.record.active, target))) && !Guarded(t, Step(Begin(b, s0.record.active, target)))
  {
    Stay(s0);
    t := SwitchBegun(s0, s0, a, target);
    t := ReplayConflicts(s0, t);
    t := Ask(s0, t, b, target);
    assert OpenOp(t.helper, a);
  }

  /** The replay of a request whose operation was left behind is answered and consumed,
      and the Gateway calls the operation off. */
  lemma ReplayConflicts(s0: System, s: System) returns (t: System)
    requires Reaches(s0, s) && s.session == Asked && (s.record.op, Apply) in s.requests && s.helper.row == Some(s.record.active)
    ensures Reaches(s0, t) && t.session == Quiet && t.helper == s.helper && t.issued == s.issued
    ensures t.record == s.record.(desired := s.record.active, state := Ready)
  {
    t := Go(s0, s, Answer(s.record.op, Apply, SaidOther));
    t := Go(s0, t, Consume(s.record.op, Apply));
    t := CallOff(s0, t);
  }

  /** A recovery killed between its restore and the removal of the operation leaves an
      operation that still counts as applied, in the old mode. */
  lemma FinalizeGuardCanBreak(s0: System, a: string, target: Mode) returns (t: System)
    requires Initial(s0) && target != s0.record.active
    ensures Reaches(s0, t) && t.session == Finalizing && t.record.op == a
    ensures Can(t, Step(Commit(a))) && !Guarded(t, Step(Commit(a)))
  {
    Stay(s0);
    t := SwitchToVerified(s0, s0, a, target);
    t := RestoredUnderFinalize(s0, t);
  }

  lemma RestoredUnderFinalize(s0: System, s: System) returns (t: System)
    requires Reaches(s0, s) && s.session == Verified && s.record.active != s.record.desired
    requires s.record.op in s.helper.ops && s.helper.ops[s.record.op] == Applied(s.record.active, s.record.desired)
    ensures Reaches(s0, t) && t.session == Finalizing && t.record == s.record
    ensures Can(t, Step(Commit(s.record.op))) && !Guarded(t, Step(Commit(s.record.op)))
  {
    t := Go(s0, s, Step(Restore(s.record.op)));
    t := Go(s0, t, PublishFinalize);
  }

  /** An apply called off long ago may be carried out late, and reach the very mode a
      repair is looking for. */
  lemma RepairGuardCanBreak(s0: System, late: string, there: string, back: string, target: Mode) returns (t: System)
    requires Initial(s0) && late != there && there != back && late != back && target != s0.record.active
    ensures Reaches(s0, t) && Can(t, CheckRepair) && !Guarded(t, CheckRepair)
  {
    var home := s0.record.active;
    Stay(s0);
    t := Ask(s0, s0, late, target);
    t := CallOff(s0, t);
    t := SwitchSucceeds(s0, t, there, target);
    t := SwitchLosesLease(s0, t, back, home);
    t := LateApply(s0, t, late, home, target);
  }

  /** The lease of the main egress is lost right after the finalize: the record keeps the
      old mode although the new one is committed. */
  lemma LoseLease(s0: System, s: System) returns (t: System)
    requires Reaches(s0, s) && s.session == Verified && s.helper.row == Some(s.record.desired)
    requires s.record.op in s.helper.ops && s.helper.ops[s.record.op] == Applied(s.record.active, s.record.desired)
    ensures Reaches(s0, t) && t.session == Quiet && t.record == s.record.(desired := s.record.active, state := RepairRequired)
    ensures t.helper == Helper(s.helper.row, s.helper.row, s.helper.ops[s.record.op := Finalized])
    ensures t.requests == s.requests + {(s.record.op, Finalize)} && t.issued == s.issued
  {
    t := Go(s0, s, PublishFinalize);
    t := Go(s0, t, Step(Commit(s.record.op)));
    t := Go(s0, t, MarkRepair(Saved));
  }

  lemma LateApply(s0: System, s: System, late: string, home: Mode, target: Mode) returns (t: System)
    requires Reaches(s0, s) && NoOpenOp(s.helper) && late !in s.helper.ops && s.helper.row == Some(home) && home != target
    requires (late, Apply) in s.requests && late in s.issued && s.issued[late] == Fingerprint(late, home, target)
    requires s.session == Quiet && s.record.state == RepairRequired && s.record.active == target
    ensures Reaches(s0, t) && Can(t, CheckRepair) && !Guarded(t, CheckRepair)
  {
    t := Go(s0, s, Step(Begin(late, home, target)));
    t := Go(s0, t, Step(Write(late)));
    t := Go(s0, t, BeginRepair);
    assert OpenOp(t.helper, late);
  }
}
