/** The Gateway's own code for a protocol switch and its recovery, run against a world
    that moves the helper and the spool between any two of its actions, fails its calls
    and kills it.
    Models internal/orchestrator/protocolmode.go: SwitchProtocolModeExpected,
    rollbackProtocolMode, RecoverProtocolModes, recoverProtocolMode,
    convergeRecoveredProtocolMode, revalidateProtocolRepair and the mark*Repair
    functions; and internal/protocoltxn/client.go, execute. */
module ProtocolGateway {
  import opened Wrappers
  import opened Fates
  import opened PanelTemplate
  import opened HelperView
  import opened ProtocolAgreement
  import opened GatewayRecord

  datatype Reply = Okay | Err(code: string) | Died

  /** The moves that save the record. */
  predicate Saves(m: Move) {
    m.SavePending? || m.SaveReadyNew? || m.MarkFinalizedRepair? || m.GiveUp? || m.BeginRecover? || m.SaveReadyOld?
    || m.MarkRepair? || m.LeaseRepair? || m.SaveReadyRepaired? || m.BeginSwitch?
  }

  /** The record a save stores, and the session it goes on with once it succeeded. */
  function Stored(r: Record, m: Move): Record
    requires Saves(m)
  {
    match m
    case BeginSwitch(op, target, _) => Record(r.active, target, Switching, op, Some(Fingerprint(op, r.active, target)))
    case SavePending(_) => r.(state := SubscriptionPending)
    case SaveReadyNew(_) => r.(active := r.desired, state := Ready)
    case MarkFinalizedRepair(_) => r.(active := r.desired, state := RepairRequired)
    case GiveUp(_) => r.(state := RollingBack)
    case BeginRecover(_) => r.(state := RollingBack)
    case SaveReadyOld(_) => r.(desired := r.active, state := Ready)
    case MarkRepair(_) => r.(desired := r.active, state := RepairRequired)
    case LeaseRepair(_) => r.(desired := r.active, state := RepairRequired)
    case SaveReadyRepaired(_) => r.(desired := r.active, state := Ready)
  }

  function GoesOn(session: Session, m: Move): Session
    requires Saves(m)
  {
    match m
    case BeginSwitch(op, target, _) => Recorded
    case SavePending(_) => Pending
    case GiveUp(_) => Undoing(session != Recorded && session != Asked)
    case BeginRecover(_) => Recovering
    case _ => Quiet
  }

  /** Where a save that failed without effect leaves the session: two callers still have
      something to do. */
  function FallsBack(session: Session, m: Move): Session
    requires Saves(m)
  {
    if m.SavePending? then Confirmed
    else if m.SaveReadyNew? && session == Finished then Finished
    else Quiet
  }

  predicate SameGateway(a: System, b: System) {
    a.record == b.record && a.session == b.session && a.issued == b.issued
  }

  /** Whether a save can be made depends on the Gateway alone, and not on how it goes. */
  lemma AnySave(s: System, t: System, m: Move, save: Save)
    requires Saves(m) && Can(s, m) && SameGateway(s, t)
    ensures Can(t, m.(save := save))
  {
  }

  lemma SaveMeans(s: System, m: Move)
    requires Saves(m) && Can(s, m) && (m.BeginRecover? ==> s.record.state != RollingBack)
    ensures Act(s, m).record == if m.save == SaveFailed then s.record else Stored(s.record, m)
    ensures Act(s, m).session == match m.save case Saved => GoesOn(s.session, m) case SaveFailed => FallsBack(s.session, m) case SaveLate => Quiet
    ensures !m.BeginSwitch? ==> Act(s, m).issued == s.issued
    ensures Act(s, m).helper == s.helper
  {
  }

  lemma ReadyNewIsFinalized(s: System, m: Move)
    requires SessionSound(s) && Can(s, m) && m.SaveReadyNew?
    ensures IsFinalized(s.helper, s.record.op)
  {
  }

  function AfterPublish(session: Session, m: Move): Session
    requires Publishes(m)
  {
    if m.PublishApply? then Asked else if m.PublishFinalize? then Finalizing
    else if session == Recovering then RecoverAsked else UndoAsked
  }

  ghost predicate KeepsFinalized(before: System, after: System) {
    forall op :: IsFinalized(before.helper, op) ==> IsFinalized(after.helper, op)
  }

  /** A part of the program that succeeds exactly if nothing disturbs it. */
  predicate Counts(before: nat, now: nat, r: Reply) {
    if r == Okay then now == before else before < now
  }

  predicate Environment(m: Move) {
    m.Step? || m.Answer? || m.Consume?
  }

  /** What a turn of recovery finds: whether it is the main egress, whether the target and
      the lease of the main egress are to be had, and whether a ready record still carries
      an error code. */
  datatype Turn = Turn(main: bool, reachable: bool, notice: bool)

  /** How a turn of recovery leaves its egress. */
  predicate Recovered(before: Record, after: System, unsaved: bool, r: Reply) {
    && (r == Okay ==> after.record.state == Ready)
    && (r != Died && !unsaved ==> !InFlight(after.record) && (r == Okay <==> after.record.state == Ready))
    && (before.state == Ready ==> after.record == before)
    && (after.record.active == before.active || (after.record.active == before.desired && IsFinalized(after.helper, after.record.op)))
  }

  /** The list goes on after a turn that went well, and after a repair that remains. */
  predicate GoesPast(before: Record, r: Reply) {
    r == Okay || (before.state == State.RepairRequired && r.Err? && r.code != "storage_failed")
  }

  /** What recovery answers after these turns, of which the last may have stopped it. */
  function Summary(was: seq<System>, replies: seq<Reply>): Reply
    requires |replies| <= |was|
  {
    if replies != [] && !GoesPast(was[|replies| - 1].record, replies[|replies| - 1]) then replies[|replies| - 1]
    else if AllOkay(replies) then Okay else Err("repair_required")
  }

  predicate AllOkay(replies: seq<Reply>) {
    forall i :: 0 <= i < |replies| ==> replies[i] == Okay
  }

  class Orchestrator {
    var sys: System
    var clock: nat
    /** Set once a save was not seen to succeed. */
    ghost var unsaved: bool
    /** How often a call was not done, an answer was missing or not the one hoped for, or a
        check found another mode. */
    ghost var troubles: nat
    /** The last answer of the helper. */
    ghost var heard: Option<Verdict>
    ghost var log: seq<Move>
    ghost const start: System
    const fates: Schedule
    const world: nat -> seq<Move>

    constructor (start: System, fates: Schedule, world: nat -> seq<Move>)
      requires Initial(start)
      ensures Valid() && sys == start && log == [] && this.start == start && !unsaved
    {
      this.sys := start;
      this.start := start;
      this.clock := 0;
      this.fates := fates;
      this.world := world;
      this.log := [];
      this.unsaved := false;
      this.troubles := 0;
      this.heard := None;
    }

    /** The system is where a run from a fresh installation leads. */
    ghost predicate Valid()
      reads this
    {
      Initial(start) && Run(start, log) && End(start, log) == sys
    }

    method Do(m: Move)
      requires Valid() && Can(sys, m)
      modifies this`sys, this`log
      ensures Valid() && sys == Act(old(sys), m) && log == old(log) + [m]
      ensures KeepsFinalized(old(sys), sys)
    {
      forall op | IsFinalized(sys.helper, op) ensures IsFinalized(Act(sys, m).helper, op) {
        FinalizedStays(sys, m, op);
      }
      ExtendRun(start, log, m);
      sys := Act(sys, m);
      log := log + [m];
    }

    /** The helper and the spool go on for a while. */
    method Wait()
      requires Valid()
      modifies this`sys, this`log, this`clock
      ensures Valid() && sys.record == old(sys).record && sys.session == old(sys).session && sys.issued == old(sys).issued
      ensures KeepsFinalized(old(sys), sys)
    {
      var moves := world(clock);
      clock := clock + 1;
      for i := 0 to |moves|
        invariant Valid() && sys.record == old(sys).record && sys.session == old(sys).session && sys.issued == old(sys).issued
        invariant KeepsFinalized(old(sys), sys)
      {
        if Environment(moves[i]) && Can(sys, moves[i]) {
          Do(moves[i]);
        }
      }
    }

    /** The fate of the next action, with the world going on before it; a killed Gateway
        forgets its session. */
    method Next() returns (fate: Fate)
      requires Valid()
      modifies this`sys, this`log, this`clock, this`troubles
      ensures Valid() && sys.record == old(sys).record && sys.issued == old(sys).issued
      ensures sys.session == if fate.Kill? then Quiet else old(sys).session
      ensures KeepsFinalized(old(sys), sys)
      ensures troubles == old(troubles) + (if fate.Done? then 0 else 1)
    {
      Wait();
      fate := fates(clock);
      clock := clock + 1;
      troubles := troubles + (if fate.Done? then 0 else 1);
      if fate.Kill? {
        Do(Crash);
      }
    }

    /** `saveProtocolState`, compare-and-set on the version. */
    method Persist(m: Move) returns (r: Reply)
      requires Valid() && Saves(m) && m.save == Saved && Can(sys, m) && (m.BeginRecover? ==> sys.record.state != RollingBack)
      modifies this`sys, this`log, this`clock, this`unsaved, this`troubles
      ensures Valid()
      ensures r == Okay || r == Died || r == Err("storage_failed")
      ensures r == Okay ==> sys.record == Stored(old(sys).record, m) && sys.session == GoesOn(old(sys).session, m)
      ensures r == Died ==> sys.session == Quiet && sys.record == old(sys).record
      ensures r == Err("storage_failed") ==>
                || (sys.session == FallsBack(old(sys).session, m) && sys.record == old(sys).record)
                || (sys.session == Quiet && sys.record == Stored(old(sys).record, m))
      ensures r == Err("storage_failed") ==> unsaved
      ensures r != Err("storage_failed") ==> unsaved == old(unsaved)
      ensures !m.BeginSwitch? ==> sys.issued == old(sys).issued
      ensures KeepsFinalized(old(sys), sys)
      ensures m.SaveReadyNew? && sys.record != old(sys).record ==> IsFinalized(sys.helper, sys.record.op)
      ensures Counts(old(troubles), troubles, r)
    {
      var fate := Next();
      if fate.Kill? {
        return Died;
      }
      AnySave(old(sys), sys, m, Saved);
      r := SaveAs(m, fate);
    }

    /** The save as its fate decides. */
    method SaveAs(m: Move, fate: Fate) returns (r: Reply)
      requires Valid() && Saves(m) && m.save == Saved && Can(sys, m) && (m.BeginRecover? ==> sys.record.state != RollingBack) && !fate.Kill?
      modifies this`sys, this`log, this`unsaved
      ensures Valid()
      ensures r == if fate.Done? then Okay else Err("storage_failed")
      ensures r == Okay ==> sys.record == Stored(old(sys).record, m) && sys.session == GoesOn(old(sys).session, m)
      ensures r.Err? ==>
                || (sys.session == FallsBack(old(sys).session, m) && sys.record == old(sys).record)
                || (sys.session == Quiet && sys.record == Stored(old(sys).record, m))
      ensures unsaved == (old(unsaved) || r.Err?)
      ensures !m.BeginSwitch? ==> sys.issued == old(sys).issued
      ensures KeepsFinalized(old(sys), sys)
      ensures m.SaveReadyNew? && sys.record != old(sys).record ==> IsFinalized(sys.helper, sys.record.op)
    {
      var save := if fate.Done? then Saved else if fate.Fails? then SaveFailed else SaveLate;
      AnySave(sys, sys, m, save);
      SaveMeans(sys, m.(save := save));
      if m.SaveReadyNew? {
        RunKeepsSound(start, log);
        ReadyNewIsFinalized(sys, SaveReadyNew(save));
      }
      Do(m.(save := save));
      if save == Saved {
        r := Okay;
      } else {
        unsaved := true;
        r := Err("storage_failed");
      }
    }

    /** `createOrMatch`: the request is in the spool, or perhaps not. */
    method Publish(m: Move) returns (r: Reply)
      requires Valid() && Publishes(m) && Can(sys, m)
      modifies this`sys, this`log, this`clock, this`troubles
      ensures Valid() && KeepsFinalized(old(sys), sys)
      ensures sys.record == old(sys).record && sys.issued == old(sys).issued
      ensures r == Okay || r == Died || r == Err("publish_failed")
      ensures r == Okay ==> sys.session == AfterPublish(old(sys).session, m)
      ensures r == Died ==> sys.session == Quiet
      ensures r == Err("publish_failed") ==> sys.session == old(sys).session || sys.session == AfterPublish(old(sys).session, m)
      ensures Counts(old(troubles), troubles, r)
    {
      var fate := Next();
      if fate.Kill? {
        return Died;
      }
      if Took(fate) {
        Do(m);
      }
      r := if fate.Done? then Okay else Err("publish_failed");
    }

    /** `readResult` in its polling loop: an answer of the helper, or none in time. */
    method Await(action: Action, ghost hoped: set<Verdict>) returns (r: Reply, verdict: Verdict)
      requires Valid()
      modifies this`sys, this`log, this`clock, this`troubles, this`heard
      ensures Valid() && KeepsFinalized(old(sys), sys)
      ensures sys.record == old(sys).record && sys.issued == old(sys).issued
      ensures r == Okay || r == Died || r == Err("timeout")
      ensures r == Okay ==> Heard(sys, action, verdict)
      ensures sys.session == if r == Died then Quiet else old(sys).session
      ensures r != Okay || verdict !in hoped ==> old(troubles) < troubles
      ensures r == Okay && verdict in hoped ==> troubles == old(troubles)
      ensures r == Okay ==> heard == Some(verdict)
    {
      verdict := SaidOther;
      var fate := Next();
      if fate.Kill? {
        return Died, verdict;
      }
      if fate.Done? && (sys.record.op, action) in sys.results {
        verdict := sys.results[(sys.record.op, action)];
        heard := Some(verdict);
        if verdict !in hoped {
          troubles := troubles + 1;
        }
        return Okay, verdict;
      }
      troubles := troubles + 1;
      r := Err("timeout");
    }

    /** A request and the one answer that is wanted. */
    method Ask(m: Move, action: Action, wanted: Verdict, refused: string) returns (r: Reply)
      requires Valid() && Publishes(m) && Can(sys, m)
      modifies this`sys, this`log, this`clock, this`troubles, this`heard
      ensures Valid() && KeepsFinalized(old(sys), sys)
      ensures sys.record == old(sys).record && sys.issued == old(sys).issued
      ensures r == Okay ==> Heard(sys, action, wanted) && sys.session == AfterPublish(old(sys).session, m)
      ensures r == Died ==> sys.session == Quiet
      ensures r.Err? ==> sys.session == old(sys).session || sys.session == AfterPublish(old(sys).session, m)
      ensures Counts(old(troubles), troubles, r)
    {
      r := Publish(m);
      if r != Okay {
        return;
      }
      var verdict;
      r, verdict := Await(action, {wanted});
      if r == Okay && verdict != wanted {
        r := Err(refused);
      }
    }

    /** A call that only looks at other systems. */
    method Look(code: string) returns (r: Reply)
      requires Valid() && code != ""
      modifies this`sys, this`log, this`clock, this`troubles
      ensures Valid() && KeepsFinalized(old(sys), sys)
      ensures sys.record == old(sys).record && sys.issued == old(sys).issued
      ensures r == Okay || r == Died || r == Err(code)
      ensures sys.session == if r == Died then Quiet else old(sys).session
      ensures Counts(old(troubles), troubles, r)
    {
      var fate := Next();
      r := if fate.Kill? then Died else if fate.Done? then Okay else Err(code);
    }

    /** `verifySubscription` and `verifyProtocolTarget`: passes only while the inbound is
        in the given mode. */
    method Verify(mode: Mode, code: string) returns (r: Reply)
      requires Valid() && code != ""
      modifies this`sys, this`log, this`clock, this`troubles
      ensures Valid() && KeepsFinalized(old(sys), sys)
      ensures sys.record == old(sys).record && sys.issued == old(sys).issued
      ensures r == Okay || r == Died || r == Err(code)
      ensures r == Okay ==> sys.helper.row == Some(mode)
      ensures sys.session == if r == Died then Quiet else old(sys).session
      ensures Counts(old(troubles), troubles, r)
    {
      r := Look(code);
      if r == Okay && sys.helper.row != Some(mode) {
        troubles := troubles + 1;
        r := Err(code);
      }
    }

    /** `markProtocolRepairWithCode` and `markMutationLeaseRepair`: the save may fail, the
        answer is the same. */
    method MarkForRepair(m: Move) returns (r: Reply)
      requires Valid() && (m == MarkRepair(Saved) || m == LeaseRepair(Saved) || m == MarkFinalizedRepair(Saved)) && Can(sys, m)
      modifies this`sys, this`log, this`clock, this`unsaved, this`troubles
      ensures Valid() && KeepsFinalized(old(sys), sys)
      ensures r == Died || r == Err("repair_required")
      ensures sys.session == Quiet && sys.issued == old(sys).issued
      ensures sys.record == old(sys).record || sys.record == Stored(old(sys).record, m)
      ensures r != Died && !unsaved ==> sys.record == Stored(old(sys).record, m)
      ensures old(unsaved) ==> unsaved
      ensures old(troubles) <= troubles
    {
      var saved := Persist(m);
      r := if saved == Died then Died else Err("repair_required");
    }

    /** How a call on a record in flight may end: the session is over; unless the process
        died or a save failed the record is settled; and the mode recorded as active is
        the one before, or the desired one if the helper had finalized the operation. */
    ghost predicate Ends(before: System, r: Reply)
      reads this
    {
      && sys.session == Quiet
      && (r != Died && !unsaved ==> !InFlight(sys.record))
      && sys.record.op == before.record.op
      && (sys.record.active == before.record.active
          || (sys.record.active == before.record.desired && IsFinalized(sys.helper, sys.record.op)))
    }

    // ------------------------------------------------- rollbackProtocolMode

    /** The part of a rollback that asks the helper. */
    method Withdraw() returns (r: Reply)
      requires Valid() && sys.session == Undoing(true)
      modifies this`sys, this`log, this`clock, this`troubles, this`heard
      ensures Valid() && KeepsFinalized(old(sys), sys)
      ensures sys.record == old(sys).record && sys.issued == old(sys).issued
      ensures r == Okay ==> sys.session == Undone
      ensures r == Died ==> sys.session == Quiet
      ensures r.Err? ==> sys.session == Undoing(true) || sys.session == UndoAsked
      ensures Counts(old(troubles), troubles, r)
    {
      r := Ask(PublishRollback, Rollback, SaidRolledBack, "protocol_rollback_failed");
      if r != Okay {
        return;
      }
      Do(SeeRolledBack);
    }

    /** The lease is looked at once more after the ready record was stored. */
    method LeaseHeld(main: bool) returns (r: Reply)
      requires Valid() && sys.session == Quiet && sys.record.state == Ready
      modifies this`sys, this`log, this`clock, this`unsaved, this`troubles
      ensures Valid() && KeepsFinalized(old(sys), sys) && sys.session == Quiet && sys.issued == old(sys).issued
      ensures sys.record == old(sys).record || sys.record == Stored(old(sys).record, LeaseRepair(Saved))
      ensures r == Okay ==> sys.record == old(sys).record
      ensures r.Err? && !unsaved ==> sys.record.state == RepairRequired
      ensures old(unsaved) ==> unsaved
      ensures Counts(old(troubles), troubles, r)
      ensures !main ==> r == Okay
    {
      r := Okay;
      if main {
        r := Look("mutation_lease_lost");
        if r.Err? {
          r := MarkForRepair(LeaseRepair(Saved));
        }
      }
    }

    /** Stores the ready record recovery or rollback has arrived at. */
    method StoreReady(m: Move, main: bool) returns (r: Reply)
      requires Valid() && Can(sys, m) && (m == SaveReadyOld(Saved) || (m == SaveReadyNew(Saved) && sys.session == NewChecked))
      modifies this`sys, this`log, this`clock, this`unsaved, this`troubles
      ensures Valid() && KeepsFinalized(old(sys), sys) && sys.session == Quiet && sys.issued == old(sys).issued
      ensures var ready := Stored(old(sys).record, m);
              && sys.record in {old(sys).record, ready, Stored(ready, LeaseRepair(Saved))}
              && (r == Okay ==> sys.record == ready)
              && (r.Err? && !unsaved ==> sys.record == Stored(ready, LeaseRepair(Saved)))
      ensures old(unsaved) ==> unsaved
      ensures Counts(old(troubles), troubles, r)
      ensures !main && r.Err? ==> unsaved
    {
      r := Persist(m);
      if r.Err? {
        r := Err("repair_required");
      } else if r == Okay {
        r := LeaseHeld(main);
      }
    }

    /** The checks before a record may be called ready in the old mode again. */
    method ConfirmOld(main: bool) returns (r: Reply)
      requires Valid() && (sys.session == Undone || sys.session == FoundUndone)
      modifies this`sys, this`log, this`clock, this`troubles
      ensures Valid() && KeepsFinalized(old(sys), sys)
      ensures sys.record == old(sys).record && sys.issued == old(sys).issued
      ensures r == Okay ==> sys.session == OldChecked
      ensures r == Died ==> sys.session == Quiet
      ensures r.Err? ==> sys.session in {Undone, FoundUndone, OldChecked}
      ensures Counts(old(troubles), troubles, r)
    {
      r := Verify(sys.record.active, "protocol_rollback_validation_failed");
      if r == Okay {
        Do(CheckOld);
        if main {
          r := Look("mutation_lease_lost");
        }
      }
    }

    /** From a record that is rolling back and undone to a ready one in the old mode. */
    method SettleOld(main: bool) returns (r: Reply)
      requires Valid() && (sys.session == Undone || sys.session == FoundUndone) && sys.record.state == RollingBack
      modifies this`sys, this`log, this`clock, this`unsaved, this`troubles
      ensures Valid() && KeepsFinalized(old(sys), sys) && Ends(old(sys), r)
      ensures sys.record.active == old(sys).record.active && (old(unsaved) ==> unsaved) && sys.issued == old(sys).issued
      ensures r == Okay ==> sys.record.state == Ready
      ensures r.Err? && !unsaved ==> sys.record.state == RepairRequired
      ensures Counts(old(troubles), troubles, r)
      ensures r == Okay ==> sys.record == old(sys).record.(desired := old(sys).record.active, state := Ready)
    {
      r := ConfirmOld(main);
      if r.Err? {
        r := MarkForRepair(MarkRepair(Saved));
      } else if r == Okay {
        r := StoreOld(main);
      }
    }

    /** The ready record in the old mode, once it was confirmed. */
    method StoreOld(main: bool) returns (r: Reply)
      requires Valid() && sys.session == OldChecked && sys.record.state == RollingBack
      modifies this`sys, this`log, this`clock, this`unsaved, this`troubles
      ensures Valid() && KeepsFinalized(old(sys), sys) && sys.session == Quiet && sys.issued == old(sys).issued
      ensures sys.record.op == old(sys).record.op && sys.record.active == old(sys).record.active
      ensures r == Okay ==> sys.record.state == Ready
      ensures r.Err? && !unsaved ==> sys.record.state == RepairRequired
      ensures old(unsaved) ==> unsaved
      ensures Counts(old(troubles), troubles, r)
      ensures r == Okay ==> sys.record == old(sys).record.(desired := old(sys).record.active, state := Ready)
    {
      r := StoreReady(SaveReadyOld(Saved), main);
    }

    /** `rollbackProtocolMode`. */
    method RollBackSwitch(main: bool, cause: string) returns (r: Reply)
      requires Valid() && sys.session in {Recorded, Asked, Confirmed, Pending, Verified, Finalizing} && InFlight(sys.record)
      modifies this`sys, this`log, this`clock, this`unsaved, this`troubles, this`heard
      ensures Valid() && KeepsFinalized(old(sys), sys) && Ends(old(sys), r)
      ensures r != Okay && sys.record.active == old(sys).record.active && (old(unsaved) ==> unsaved)
      ensures old(troubles) <= troubles
      ensures troubles == old(troubles) ==>
                r == Err(cause) && sys.record == old(sys).record.(desired := old(sys).record.active, state := Ready)
    {
      var applied := sys.session != Recorded && sys.session != Asked;
      r := Persist(GiveUp(Saved));
      if r == Died {
        return;
      }
      if r != Okay {
        return Err("repair_required");
      }
      r := UndoSwitch(applied, main);
      if r == Okay {
        r := Err(cause);
      }
    }

    /** The rollback from its stored beginning: the helper is asked only if the apply had
        been seen to succeed. */
    method UndoSwitch(applied: bool, main: bool) returns (r: Reply)
      requires Valid() && sys.session == Undoing(applied) && sys.record.state == RollingBack
      modifies this`sys, this`log, this`clock, this`unsaved, this`troubles, this`heard
      ensures Valid() && KeepsFinalized(old(sys), sys) && Ends(old(sys), r)
      ensures sys.record.active == old(sys).record.active && (old(unsaved) ==> unsaved)
      ensures Counts(old(troubles), troubles, r)
      ensures r == Okay ==> sys.record == old(sys).record.(desired := old(sys).record.active, state := Ready)
    {
      if applied {
        r := Withdraw();
      } else {
        Do(SkipRollback);
        r := Okay;
      }
      if r.Err? {
        r := MarkForRepair(MarkRepair(Saved));
      } else if r == Okay {
        r := SettleOld(main);
      }
    }

    // -------------------------------------------- SwitchProtocolModeExpected

    /** Asks for the apply and the first renewal of its lease. */
    method AskApply() returns (r: Reply)
      requires Valid() && sys.session == Recorded
      modifies this`sys, this`log, this`clock, this`troubles, this`heard
      ensures Valid() && KeepsFinalized(old(sys), sys)
      ensures sys.record == old(sys).record && sys.issued == old(sys).issued
      ensures r == Okay ==> sys.session == Confirmed
      ensures r == Died ==> sys.session == Quiet
      ensures r.Err? ==> sys.session == Recorded || sys.session == Asked || sys.session == Confirmed
      ensures Counts(old(troubles), troubles, r)
    {
      r := Ask(PublishApply, Apply, SaidApplied, "protocol_apply_failed");
      if r != Okay {
        return;
      }
      Do(SeeApplied);
      r := Look("protocol_renew_failed");
    }

    method AskFinalize() returns (r: Reply)
      requires Valid() && sys.session == Verified
      modifies this`sys, this`log, this`clock, this`troubles, this`heard
      ensures Valid() && KeepsFinalized(old(sys), sys)
      ensures sys.record == old(sys).record && sys.issued == old(sys).issued
      ensures r == Okay ==> sys.session == Finished
      ensures r == Died ==> sys.session == Quiet
      ensures r.Err? ==> sys.session == Verified || sys.session == Finalizing
      ensures Counts(old(troubles), troubles, r)
    {
      r := Ask(PublishFinalize, Finalize, SaidFinalized, "protocol_finalize_failed");
      if r != Okay {
        return;
      }
      Do(SeeFinalized);
    }

    /** Stores the ready record of a finalized switch; if that fails without effect, the
        new mode is at least stored as one that asks for repair. */
    method StoreNew(main: bool) returns (r: Reply)
      requires Valid() && sys.session == Finished && sys.record.state == SubscriptionPending
      modifies this`sys, this`log, this`clock, this`unsaved, this`troubles
      ensures Valid() && KeepsFinalized(old(sys), sys) && sys.session == Quiet && sys.record.op == old(sys).record.op
      ensures sys.record.active == old(sys).record.active || sys.record.active == old(sys).record.desired
      ensures r == Okay ==> sys.record == old(sys).record.(active := old(sys).record.desired, state := Ready)
      ensures r.Err? && !unsaved ==> sys.record.state == RepairRequired
      ensures old(unsaved) ==> unsaved
      ensures Counts(old(troubles), troubles, r)
      ensures !main && r.Err? ==> unsaved
    {
      r := Persist(SaveReadyNew(Saved));
      if r.Err? {
        if sys.session == Quiet {
          // The version in memory is stale: the save of the repair state fails as well.
          return Err("repair_required");
        }
        r := MarkForRepair(MarkFinalizedRepair(Saved));
      } else if r == Okay {
        r := LeaseHeld(main);
      }
    }

    lemma FoundIsFinalized()
      requires Valid() && (sys.session == Finished || sys.session == FoundFinalized)
      ensures IsFinalized(sys.helper, sys.record.op)
    {
      RunKeepsSound(start, log);
    }

    /** The end of a finalized switch. */
    method SettleNew(main: bool) returns (r: Reply)
      requires Valid() && sys.session == Finished && sys.record.state == SubscriptionPending
      modifies this`sys, this`log, this`clock, this`unsaved, this`troubles
      ensures Valid() && KeepsFinalized(old(sys), sys) && Ends(old(sys), r)
      ensures r == Okay ==> sys.record == old(sys).record.(active := old(sys).record.desired, state := Ready)
      ensures r == Okay ==> IsFinalized(sys.helper, sys.record.op)
      ensures r.Err? && !unsaved ==> sys.record.state == RepairRequired
      ensures old(unsaved) ==> unsaved
      ensures Counts(old(troubles), troubles, r)
      ensures !main && r.Err? ==> unsaved
    {
      FoundIsFinalized();
      r := Okay;
      if main {
        r := Look("mutation_lease_lost");
      }
      if r.Err? {
        r := MarkForRepair(MarkRepair(Saved));
      } else if r == Okay {
        r := StoreNew(main);
      }
    }

    /** The switch from its stored beginning to its end. */
    method CarryOut(main: bool) returns (r: Reply)
      requires Valid() && sys.session == Recorded && sys.record.state == Switching
      modifies this`sys, this`log, this`clock, this`unsaved, this`troubles, this`heard
      ensures Valid() && KeepsFinalized(old(sys), sys) && Ends(old(sys), r)
      ensures r == Okay ==> sys.record == old(sys).record.(active := old(sys).record.desired, state := Ready)
      ensures r == Okay ==> IsFinalized(sys.helper, sys.record.op)
      ensures r.Err? && !unsaved && sys.record.state == Ready ==> sys.record.active == old(sys).record.active
      ensures old(unsaved) ==> unsaved
      ensures Counts(old(troubles), troubles, r)
      ensures !main && !unsaved && r.Err? && troubles == old(troubles) + 1 ==> sys.record.state == Ready
    {
      var stale;
      r, stale := Establish();
      if stale {
        // The rollback cannot store anything either.
        return;
      }
      if r == Okay {
        r := FinishSwitch(main);
      } else if r.Err? {
        r := RollBackSwitch(main, r.code);
      }
    }

    /** Apply, the pending record, and the checks of the new mode; `stale` says that the
        version in memory is, so that nothing more can be stored. */
    method Establish() returns (r: Reply, stale: bool)
      requires Valid() && sys.session == Recorded && sys.record.state == Switching
      modifies this`sys, this`log, this`clock, this`unsaved, this`troubles, this`heard
      ensures Valid() && KeepsFinalized(old(sys), sys) && sys.issued == old(sys).issued
      ensures sys.record == old(sys).record || sys.record == old(sys).record.(state := SubscriptionPending)
      ensures r == Okay ==> sys.session == Verified && sys.record.state == SubscriptionPending && !stale
      ensures r == Died ==> sys.session == Quiet && !stale
      ensures stale ==> r == Err("repair_required") && sys.session == Quiet && unsaved
      ensures r.Err? && !stale ==> sys.session in {Recorded, Asked, Confirmed, Pending}
      ensures (old(unsaved) ==> unsaved) && Counts(old(troubles), troubles, r)
    {
      stale := false;
      r := AskApply();
      if r == Okay {
        r, stale := StorePending();
      }
      if r == Okay {
        r := CheckNewMode();
      }
    }

    method StorePending() returns (r: Reply, stale: bool)
      requires Valid() && sys.session == Confirmed && sys.record.state == Switching
      modifies this`sys, this`log, this`clock, this`unsaved, this`troubles
      ensures Valid() && KeepsFinalized(old(sys), sys) && sys.issued == old(sys).issued
      ensures sys.record == old(sys).record || sys.record == old(sys).record.(state := SubscriptionPending)
      ensures r == Okay ==> sys.session == Pending && sys.record.state == SubscriptionPending && !stale
      ensures r == Died ==> sys.session == Quiet && !stale
      ensures stale ==> r == Err("repair_required") && sys.session == Quiet && unsaved
      ensures r.Err? && !stale ==> sys.session == Confirmed
      ensures (old(unsaved) ==> unsaved) && Counts(old(troubles), troubles, r)
    {
      r := Persist(SavePending(Saved));
      stale := r.Err? && sys.session == Quiet;
      if stale {
        r := Err("repair_required");
      }
    }

    method CheckNewMode() returns (r: Reply)
      requires Valid() && sys.session == Pending
      modifies this`sys, this`log, this`clock, this`troubles
      ensures Valid() && KeepsFinalized(old(sys), sys) && sys.issued == old(sys).issued && sys.record == old(sys).record
      ensures r == Okay ==> sys.session == Verified
      ensures r == Died ==> sys.session == Quiet
      ensures r.Err? ==> sys.session == Pending
      ensures Counts(old(troubles), troubles, r)
    {
      r := Verify(sys.record.desired, "protocol_validation_failed");
      if r == Okay {
        Do(CheckTarget);
      }
    }

    /** From the verified new mode on: the lease of the main egress, then the finalize. */
    method FinishSwitch(main: bool) returns (r: Reply)
      requires Valid() && sys.session == Verified && sys.record.state == SubscriptionPending
      modifies this`sys, this`log, this`clock, this`unsaved, this`troubles, this`heard
      ensures Valid() && KeepsFinalized(old(sys), sys) && Ends(old(sys), r)
      ensures r == Okay ==> sys.record == old(sys).record.(active := old(sys).record.desired, state := Ready)
      ensures r == Okay ==> IsFinalized(sys.helper, sys.record.op)
      ensures r.Err? && !unsaved && sys.record.state == Ready ==> sys.record.active == old(sys).record.active
      ensures old(unsaved) ==> unsaved
      ensures Counts(old(troubles), troubles, r)
      ensures !main && !unsaved && r.Err? && troubles == old(troubles) + 1 ==> sys.record.state == Ready
    {
      if main {
        r := Look("mutation_lease_lost");
        if r == Died {
          return;
        }
        if r != Okay {
          r := MarkForRepair(MarkRepair(Saved));
          return;
        }
      }
      r := AskFinalize();
      match r {
        case Died =>
        case Okay => r := SettleNew(main);
        case Err(code) => r := RollBackSwitch(main, code);
      }
    }

    /** `SwitchProtocolModeExpected` with a fresh operation id; `prepared` stands for the
        lookups and checks before the first save. Success means a ready record in the
        target mode, and, if that is not where it was, an operation the helper finalized.
        Failure leaves a ready record in the old mode or one that asks for repair, unless
        the process died or a save failed. */
    method SwitchProtocolMode(op: string, target: Mode, main: bool, prepared: bool) returns (r: Reply)
      requires Valid() && sys.session == Quiet && op !in sys.issued
      modifies this`sys, this`log, this`clock, this`unsaved, this`troubles, this`heard
      ensures Valid() && sys.session == Quiet
      ensures r == Okay ==> sys.record.state == Ready && sys.record.active == target
      ensures r == Okay && old(sys).record.active != target ==> IsFinalized(sys.helper, sys.record.op)
      ensures r.Err? && sys.record.state == Ready && !unsaved ==> sys.record.active == old(sys).record.active
      ensures r != Died && !unsaved && !InFlight(old(sys).record) ==> !InFlight(sys.record)
      ensures InFlight(old(sys).record) ==> r == Err("operation_busy") && sys == old(sys)
      ensures old(troubles) <= troubles
      ensures prepared && !InFlight(old(sys).record) && troubles == old(troubles) ==>
                r == Okay && sys.record.state == Ready && sys.record.active == target
      ensures !main && !unsaved && r.Err? && old(sys).record.state == Ready && troubles == old(troubles) + 1 ==> sys.record.state == Ready
    {
      if sys.record.state == RepairRequired {
        r := RevalidateRepair();
        if r != Okay {
          return;
        }
      }
      if sys.record.state == Ready && sys.record.active == target {
        return Okay;
      }
      if sys.record.state != Ready {
        return Err("operation_busy");
      }
      if !prepared {
        return Err("egress_unavailable");
      }
      r := Persist(BeginSwitch(op, target, Saved));
      if r == Okay {
        r := CarryOut(main);
      }
    }

    /** `revalidateProtocolRepair`: only the checks a finished rollback passes unlock the
        record, and always in the mode it names; `storage_failed` is only reported after
        they passed, if the record of the egress or the protocol record was not saved. */
    method RevalidateRepair() returns (r: Reply)
      requires Valid() && sys.session == Quiet && sys.record.state == RepairRequired
      modifies this`sys, this`log, this`clock, this`unsaved, this`troubles
      ensures Valid() && KeepsFinalized(old(sys), sys) && sys.session == Quiet && sys.issued == old(sys).issued
      ensures r == Okay ==> sys.record.state == Ready && unsaved == old(unsaved)
      ensures sys.record == old(sys).record || sys.record == Stored(old(sys).record, SaveReadyRepaired(Saved))
      ensures r != Okay && !unsaved ==> sys.record == old(sys).record
      ensures r in {Okay, Died, Err("protocol_repair_validation_failed"), Err("storage_failed")}
      ensures old(unsaved) ==> unsaved
      ensures Counts(old(troubles), troubles, r)
    {
      r := CheckForRepair();
      if r == Okay {
        r := Unlock();
      }
    }

    /** The checks of a repair, which only look. */
    method CheckForRepair() returns (r: Reply)
      requires Valid() && sys.session == Quiet && sys.record.state == RepairRequired
      modifies this`sys, this`log, this`clock, this`troubles
      ensures Valid() && KeepsFinalized(old(sys), sys) && sys.record == old(sys).record && sys.issued == old(sys).issued
      ensures r in {Okay, Died, Err("protocol_repair_validation_failed")}
      ensures sys.session == if r == Okay then RepairChecked else Quiet
      ensures Counts(old(troubles), troubles, r)
    {
      Do(BeginRepair);
      r := Verify(sys.record.active, "protocol_repair_validation_failed");
      if r == Okay {
        Do(CheckRepair);
      } else if r != Died {
        Do(Crash);
      }
    }

    /** The checks of a repair passed: the record of the egress is saved, then this one. */
    method Unlock() returns (r: Reply)
      requires Valid() && sys.session == RepairChecked
      modifies this`sys, this`log, this`clock, this`unsaved, this`troubles
      ensures Valid() && KeepsFinalized(old(sys), sys) && sys.session == Quiet && sys.issued == old(sys).issued
      ensures r in {Okay, Died, Err("storage_failed")}
      ensures r == Okay ==> sys.record == Stored(old(sys).record, SaveReadyRepaired(Saved)) && unsaved == old(unsaved)
      ensures sys.record == old(sys).record || sys.record == Stored(old(sys).record, SaveReadyRepaired(Saved))
      ensures r != Okay && !unsaved ==> sys.record == old(sys).record
      ensures old(unsaved) ==> unsaved
      ensures Counts(old(troubles), troubles, r)
    {
      r := Look("storage_failed");
      if r == Okay {
        r := Persist(SaveReadyRepaired(Saved));
      } else if r != Died {
        Do(Crash);
      }
    }

    // --------------------------------------------------- RecoverProtocolModes

    static predicate Understood(heard: Option<Verdict>) {
      heard.Some? && heard.value in {SaidAlreadyFinalized, SaidRolledBack, SaidNotApplied}
    }

    /** What recovery makes of the helper's answer: the new mode for a finalized operation,
        the old one for one that was rolled back or not applied. */
    static predicate AsHeard(before: Record, after: Record, heard: Option<Verdict>) {
      && Understood(heard) && after.state == Ready && after.active == after.desired && after.op == before.op
      && after.active == if heard.value == SaidAlreadyFinalized then before.desired else before.active
    }

    /** `recoverProtocolMode` up to the stored intention to roll back. */
    method BeginBack() returns (r: Reply)
      requires Valid() && sys.session == Quiet && InFlight(sys.record)
      modifies this`sys, this`log, this`clock, this`unsaved, this`troubles
      ensures Valid() && KeepsFinalized(old(sys), sys) && sys.issued == old(sys).issued
      ensures sys.record == old(sys).record || sys.record == old(sys).record.(state := RollingBack)
      ensures r == Okay ==> sys.session == Recovering && sys.record.state == RollingBack && unsaved == old(unsaved)
      ensures r != Okay ==> sys.session == Quiet && (r != Died ==> r.Err? && unsaved)
      ensures old(unsaved) ==> unsaved
      ensures Counts(old(troubles), troubles, r)
    {
      if sys.record.state == RollingBack {
        Do(BeginRecover(Saved));
        r := Okay;
      } else {
        r := Persist(BeginRecover(Saved));
      }
    }

    /** The question to the helper, and what its answer means. */
    method AskBack(reachable: bool) returns (r: Reply)
      requires Valid() && sys.session == Recovering
      modifies this`sys, this`log, this`clock, this`troubles, this`heard
      ensures Valid() && KeepsFinalized(old(sys), sys) && sys.issued == old(sys).issued && sys.record == old(sys).record
      ensures r == Okay ==> sys.session == FoundFinalized || sys.session == FoundUndone
      ensures r == Died ==> sys.session == Quiet
      ensures r.Err? ==> sys.session in {Recovering, RecoverAsked}
      ensures Counts(old(troubles), troubles, r)
      ensures r == Okay ==> Understood(heard) && (sys.session == FoundFinalized <==> heard == Some(SaidAlreadyFinalized))
    {
      if !reachable {
        troubles := troubles + 1;
        return Err("not_ready");
      }
      r := Publish(PublishRollback);
      if r != Okay {
        return;
      }
      r := HearBack();
    }

    /** The answer, if it comes in time. */
    method HearBack() returns (r: Reply)
      requires Valid() && sys.session == RecoverAsked
      modifies this`sys, this`log, this`clock, this`troubles, this`heard
      ensures Valid() && KeepsFinalized(old(sys), sys) && sys.issued == old(sys).issued && sys.record == old(sys).record
      ensures r == Okay ==> sys.session == FoundFinalized || sys.session == FoundUndone
      ensures r == Died ==> sys.session == Quiet
      ensures r.Err? ==> sys.session == RecoverAsked
      ensures Counts(old(troubles), troubles, r)
      ensures r == Okay ==> Understood(heard) && (sys.session == FoundFinalized <==> heard == Some(SaidAlreadyFinalized))
    {
      var verdict;
      r, verdict := Await(Rollback, {SaidAlreadyFinalized, SaidRolledBack, SaidNotApplied});
      if r != Okay {
        return;
      }
      if verdict == SaidAlreadyFinalized {
        FingerprintHolds();
        Do(SeeAlreadyFinalized);
      } else if verdict == SaidRolledBack || verdict == SaidNotApplied {
        Do(SeeUndone);
      } else {
        r := Err("rollback_failed");
      }
    }

    /** The check `protocolRequestFingerprint(request) != state.LastRequestHash` of
        recovery never trips. */
    lemma FingerprintHolds()
      requires Valid() && sys.session == RecoverAsked && Heard(sys, Rollback, SaidAlreadyFinalized)
      ensures Can(sys, SeeAlreadyFinalized)
    {
      RunKeepsSound(start, log);
      FingerprintAlwaysMatches(sys);
    }

    /** `convergeRecoveredProtocolMode` for a finalized operation. */
    method ConvergeNew(main: bool) returns (r: Reply)
      requires Valid() && sys.session == FoundFinalized && sys.record.state == RollingBack
      modifies this`sys, this`log, this`clock, this`unsaved, this`troubles
      ensures Valid() && KeepsFinalized(old(sys), sys) && Ends(old(sys), r)
      ensures r == Okay ==> sys.record.state == Ready
      ensures r.Err? && !unsaved ==> sys.record.state == RepairRequired
      ensures old(unsaved) ==> unsaved
      ensures Counts(old(troubles), troubles, r)
      ensures r == Okay ==> sys.record == old(sys).record.(active := old(sys).record.desired, state := Ready)
    {
      FoundIsFinalized();
      r := ConfirmNew();
      if r.Err? {
        r := MarkForRepair(MarkRepair(Saved));
      } else if r == Okay {
        r := StoreReady(SaveReadyNew(Saved), main);
      }
    }

    method ConfirmNew() returns (r: Reply)
      requires Valid() && sys.session == FoundFinalized
      modifies this`sys, this`log, this`clock, this`troubles
      ensures Valid() && KeepsFinalized(old(sys), sys) && sys.issued == old(sys).issued && sys.record == old(sys).record
      ensures r == Okay ==> sys.session == NewChecked
      ensures r == Died ==> sys.session == Quiet
      ensures r.Err? ==> sys.session == FoundFinalized
      ensures Counts(old(troubles), troubles, r)
    {
      r := Verify(sys.record.desired, "protocol_validation_failed");
      if r == Okay {
        Do(CheckNew);
      }
    }

    /** A ready record with an error code from before is saved without it. */
    method ClearNotice() returns (r: Reply)
      requires Valid() && sys.session == Quiet
      modifies this`sys, this`log, this`clock, this`unsaved, this`troubles
      ensures Valid() && KeepsFinalized(old(sys), sys) && sys.session == Quiet && sys.record == old(sys).record
      ensures r in {Okay, Died, Err("storage_failed")}
      ensures unsaved == (old(unsaved) || r.Err?)
      ensures Counts(old(troubles), troubles, r)
    {
      r := Look("storage_failed");
      if r.Err? {
        unsaved := true;
      }
    }

    /** A ready record has no mode left to reach, so recovery never marks one for repair. */
    lemma ReadyIsSettled()
      requires Valid() && sys.record.state == Ready
      ensures sys.record.active == sys.record.desired
    {
      RunKeepsSound(start, log);
    }

    /** One turn of `RecoverProtocolModes`. Unless the process dies or a save fails the
        record ends ready or asking for repair, ready exactly on success; and it is ready
        in the desired mode only if the helper had finalized the operation. */
    method RecoverEgress(turn: Turn) returns (r: Reply)
      requires Valid() && sys.session == Quiet
      modifies this`sys, this`log, this`clock, this`unsaved, this`troubles, this`heard
      ensures Valid() && sys.session == Quiet
      ensures Recovered(old(sys).record, sys, unsaved, r)
      ensures old(unsaved) ==> unsaved
      ensures Counts(old(troubles), troubles, r)
      ensures r == Okay && InFlight(old(sys).record) ==> AsHeard(old(sys).record, sys.record, heard)
    {
      if sys.record.state == Ready {
        ReadyIsSettled();
        r := Okay;
        if turn.notice {
          r := ClearNotice();
        }
        return;
      }
      if sys.record.state == RepairRequired {
        r := RevalidateRepair();
        return;
      }
      r := BeginBack();
      if r.Err? {
        return Err("repair_required");
      }
      if r == Okay {
        r := Converge(turn.main, turn.reachable);
      }
    }

    /** `recoverProtocolMode` from the stored intention on. */
    method Converge(main: bool, reachable: bool) returns (r: Reply)
      requires Valid() && sys.session == Recovering && sys.record.state == RollingBack
      modifies this`sys, this`log, this`clock, this`unsaved, this`troubles, this`heard
      ensures Valid() && KeepsFinalized(old(sys), sys) && Ends(old(sys), r)
      ensures r == Okay ==> sys.record.state == Ready
      ensures r.Err? && !unsaved ==> sys.record.state == RepairRequired
      ensures old(unsaved) ==> unsaved
      ensures Counts(old(troubles), troubles, r)
      ensures r == Okay ==> AsHeard(old(sys).record, sys.record, heard)
    {
      r := AskBack(reachable);
      if r.Err? {
        r := MarkForRepair(MarkRepair(Saved));
      } else if r == Okay {
        if sys.session == FoundFinalized {
          r := ConvergeNew(main);
        } else {
          r := SettleOld(main);
        }
      }
    }
  }

  /** The egresses are different, each between two calls. */
  ghost predicate AllQuiet(egresses: seq<Orchestrator>)
    reads egresses
  {
    && (forall i, j :: 0 <= i < j < |egresses| ==> egresses[i] != egresses[j])
    && (forall i :: 0 <= i < |egresses| ==> egresses[i].Valid() && egresses[i].sys.session == Quiet)
  }

  function Systems(egresses: seq<Orchestrator>): (r: seq<System>)
    reads egresses
    ensures |r| == |egresses|
  {
    seq(|egresses|, i requires 0 <= i < |egresses| reads egresses => egresses[i].sys)
  }

  ghost function TroublesOf(egresses: seq<Orchestrator>): (r: seq<nat>)
    reads egresses
    ensures |r| == |egresses|
  {
    seq(|egresses|, i requires 0 <= i < |egresses| reads egresses => egresses[i].troubles)
  }

  /** The egresses that had their turn, and those that had not. */
  ghost predicate Walked(egresses: seq<Orchestrator>, was: seq<System>, counts: seq<nat>, replies: seq<Reply>)
    reads egresses
    requires |replies| <= |egresses| == |was| == |counts|
  {
    && (forall i :: 0 <= i < |replies| ==> Recovered(was[i].record, egresses[i].sys, egresses[i].unsaved, replies[i])
                                               && Counts(counts[i], egresses[i].troubles, replies[i]))
    && (forall i :: |replies| <= i < |egresses| ==> egresses[i].sys == was[i] && egresses[i].troubles == counts[i])
  }

  /** One turn, among the others, which it does not touch. */
  method RecoverOne(egresses: seq<Orchestrator>, k: nat, turn: Turn, ghost was: seq<System>, ghost counts: seq<nat>, ghost replies: seq<Reply>) returns (r: Reply)
    requires AllQuiet(egresses) && k == |replies| < |egresses| == |was| == |counts| && Walked(egresses, was, counts, replies)
    modifies egresses[k]
    ensures AllQuiet(egresses) && Walked(egresses, was, counts, replies + [r])
  {
    r := egresses[k].RecoverEgress(turn);
    forall i | 0 <= i < |egresses|
      ensures egresses[i].Valid() && egresses[i].sys.session == Quiet
    {
      assert i != k ==> egresses[i] != egresses[k];
    }
  }

  predicate AllPast(was: seq<System>, replies: seq<Reply>) {
    |replies| <= |was| && forall i :: 0 <= i < |replies| ==> GoesPast(was[i].record, replies[i])
  }

  /** Where the walk over the list ended: at its end, or at the first turn it does not go
      past. */
  predicate Ended(was: seq<System>, replies: seq<Reply>) {
    && |replies| <= |was|
    && (|replies| < |was| ==> replies != [] && !GoesPast(was[|replies| - 1].record, replies[|replies| - 1]))
    && (replies != [] ==> AllPast(was, replies[..|replies| - 1]))
  }

  lemma OneMoreReply(was: seq<System>, replies: seq<Reply>, r: Reply)
    requires AllPast(was, replies) && |replies| < |was|
    ensures AllOkay(replies + [r]) <==> AllOkay(replies) && r == Okay
    ensures if GoesPast(was[|replies|].record, r) then AllPast(was, replies + [r])
            else Ended(was, replies + [r]) && Summary(was, replies + [r]) == r
  {
    var more := replies + [r];
    assert more[..|replies|] == replies && more[|replies|] == r;
    assert forall i :: 0 <= i < |replies| ==> more[i] == replies[i];
    if AllOkay(more) {
      forall i | 0 <= i < |replies| ensures replies[i] == Okay {
        assert more[i] == Okay;
      }
    }
  }

  lemma AllPastIsEnded(was: seq<System>, replies: seq<Reply>)
    requires AllPast(was, replies) && |replies| == |was|
    ensures Ended(was, replies) && Summary(was, replies) == if AllOkay(replies) then Okay else Err("repair_required")
  {
  }

  /** `RecoverProtocolModes`: every egress in turn. It goes past repairs that remain and
      stops at any other error; each egress it came to is recovered as if it were alone,
      the others are not touched. */
  method RecoverProtocolModes(egresses: seq<Orchestrator>, turns: seq<Turn>) returns (r: Reply, ghost replies: seq<Reply>)
    requires AllQuiet(egresses) && |turns| == |egresses|
    modifies egresses
    ensures AllQuiet(egresses) && Ended(old(Systems(egresses)), replies)
    ensures Walked(egresses, old(Systems(egresses)), old(TroublesOf(egresses)), replies)
    ensures r == Summary(old(Systems(egresses)), replies)
  {
    var repairRemains := false;
    replies := [];
    ghost var was, counts := Systems(egresses), TroublesOf(egresses);
    for k := 0 to |egresses|
      invariant AllQuiet(egresses) && |replies| == k && |was| == |counts| == |egresses|
      invariant Walked(egresses, was, counts, replies) && AllPast(was, replies)
      invariant repairRemains <==> !AllOkay(replies)
    {
      var repairing := egresses[k].sys.record.state == State.RepairRequired;
      r := RecoverOne(egresses, k, turns[k], was, counts, replies);
      OneMoreReply(was, replies, r);
      replies := replies + [r];
      if r != Okay {
        if !repairing || r == Died || r == Err("storage_failed") {
          return;
        }
        repairRemains := true;
      }
    }
    AllPastIsEnded(was, replies);
    r := if repairRemains then Err("repair_required") else Okay;
  }

  /** Such a walk succeeds only with every record ready; and unless a turn was cut off or
      had a save fail, it succeeds exactly then, and leaves nothing in flight that it came
      to. A walk that nothing disturbs succeeds. */
  lemma WalkedMeans(egresses: seq<Orchestrator>, was: seq<System>, counts: seq<nat>, replies: seq<Reply>)
    requires |was| == |egresses| == |counts| && Ended(was, replies) && Walked(egresses, was, counts, replies)
    ensures (forall i :: 0 <= i < |egresses| ==> egresses[i].troubles == counts[i]) ==> Summary(was, replies) == Okay
    ensures Summary(was, replies) == Okay ==>
              |replies| == |egresses| && forall i :: 0 <= i < |egresses| ==> egresses[i].sys.record.state == Ready
    ensures (forall i :: 0 <= i < |replies| ==> replies[i] != Died && !egresses[i].unsaved) ==>
              && (forall i :: 0 <= i < |replies| ==> !InFlight(egresses[i].sys.record))
              && (Summary(was, replies) == Okay <==> forall i :: 0 <= i < |egresses| ==> egresses[i].sys.record.state == Ready)
  {
    if forall i :: 0 <= i < |egresses| ==> egresses[i].troubles == counts[i] {
      forall i | 0 <= i < |replies| ensures replies[i] == Okay {
        assert Counts(counts[i], egresses[i].troubles, replies[i]);
      }
    }
    if forall i :: 0 <= i < |replies| ==> replies[i] != Died && !egresses[i].unsaved {
      forall i | 0 <= i < |replies|
        ensures !InFlight(egresses[i].sys.record) && (replies[i] == Okay <==> egresses[i].sys.record.state == Ready)
      {
        assert Recovered(was[i].record, egresses[i].sys, egresses[i].unsaved, replies[i]);
      }
      if forall i :: 0 <= i < |egresses| ==> egresses[i].sys.record.state == Ready {
        assert AllOkay(replies);
      }
    }
  }
}
