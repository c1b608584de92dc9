/** When the sagas of MixedSaga succeed, and when they can say that nothing was applied:
    exactly by the calls they make.
    Models internal/orchestrator/mixedpolicy.go: RotateMixedCredentials,
    rollbackMixedCredentialRotation, setMixedPolicy and failMixedPolicyUpdate. */
module SagaOutcome {
  import opened Wrappers
  import opened MixedSaga

  /** The updates of `n` groups from call `c` on are done, and their validations. */
  predicate UpdatesDone(calls: Calls, c: nat, n: nat, validates: bool) {
    n == 0 ||
    (UpdatesDone(calls, c, n - 1, validates) && calls(c + 2 * n - 2).Done? && (validates ==> calls(c + 2 * n - 1).Done?))
  }

  /** `k` is a call between `from` and `to` that was not done. */
  predicate FailedIn(calls: Calls, k: nat, from: nat, to: nat) {
    from <= k < to && !calls(k).Done?
  }

  // ------------------------------------------------------------------- loops

  lemma {:induction false} UpdateOkIsExact(w: World, ids: seq<string>, setting: string, validates: bool, calls: Calls, c: nat)
    ensures var f := UpdateGroups(w, ids, setting, validates, calls, c);
            && (f.ok <==> UpdatesDone(calls, c, |ids|, validates))
            && (f.ok ==> f.clock == c + 2 * |ids|)
            && (!f.ok ==> exists k :: FailedIn(calls, k, c, f.clock))
  {
    if ids != [] {
      var init := ids[..|ids| - 1];
      UpdateOkIsExact(w, init, setting, validates, calls, c);
      var f, all := UpdateGroups(w, init, setting, validates, calls, c), UpdateGroups(w, ids, setting, validates, calls, c);
      if f.ok && !all.ok {
        assert FailedIn(calls, if calls(f.clock).Done? then f.clock + 1 else f.clock, c, all.clock);
      }
    }
  }

  lemma {:induction false} SaveOkIsExact(w: World, ids: seq<string>, job: Job, calls: Calls, c: nat)
    requires Distinct(ids) && Listed(w, ids, job) && forall i :: 0 <= i < |ids| ==> w.records[ids[i]] == job.listed[ids[i]]
    ensures var f := SaveGroups(w, ids, job, calls, c);
            && (f.ok <==> AllDone(calls, c, c + |ids|))
            && (f.ok ==> f.clock == c + |ids|)
            && (!f.ok ==> exists k :: FailedIn(calls, k, c, f.clock))
  {
    if ids != [] {
      var init, last := ids[..|ids| - 1], ids[|ids| - 1];
      SaveOkIsExact(w, init, job, calls, c);
      SaveFrame(w, init, job, calls, c, last);
      assert !In(init, last);
      var f, all := SaveGroups(w, init, job, calls, c), SaveGroups(w, ids, job, calls, c);
      if f.ok && !all.ok {
        assert FailedIn(calls, f.clock, c, all.clock);
      }
    }
  }

  lemma {:induction false} RevertOkIsExact(w: World, ids: seq<string>, setting: string, validates: bool, calls: Calls, c: nat)
    ensures var r := RevertGroups(w, ids, setting, validates, calls, c);
            (r.ok <==> UpdatesDone(calls, c, |ids|, validates)) && r.clock == c + 2 * |ids|
    decreases |ids|
  {
    if ids != [] {
      var init := ids[..|ids| - 1];
      RevertOkIsExact(SetGroup(w, ids[|init|], setting, calls(c)), init, setting, validates, calls, c + 2);
      ShiftUpdates(calls, c, |init|, validates);
    }
  }

  lemma {:induction false} ShiftUpdates(calls: Calls, c: nat, n: nat, validates: bool)
    ensures UpdatesDone(calls, c, n + 1, validates) <==>
            UpdatesDone(calls, c + 2, n, validates) && calls(c).Done? && (validates ==> calls(c + 1).Done?)
  {
    if n > 0 {
      ShiftUpdates(calls, c, n - 1, validates);
    } else {
      assert UpdatesDone(calls, c, 0, validates);
    }
  }

  lemma {:induction false} RestoreClock(w: World, ids: seq<string>, job: Job, calls: Calls, c: nat)
    requires forall i :: 0 <= i < |ids| ==> ids[i] in job.listed
    ensures RevertRecords(w, ids, job, calls, c).clock == c + |ids|
    decreases |ids|
  {
    if ids != [] {
      var id := ids[|ids| - 1];
      RestoreClock(Save(w, id, job.listed[id].fields, job.listed[id].version + 1, calls(c)), ids[..|ids| - 1], job, calls, c + 1);
    }
  }

  // ------------------------------------------------------------- compensation

  predicate Compensates(calls: Calls, c: nat, applied: nat, saved: nat, validates: bool) {
    UpdatesDone(calls, c, applied, validates) && AllDone(calls, c + 2 * applied, c + 2 * applied + saved)
  }

  /** A compensation goes through exactly if each of its calls is done: the versions it
      expects are always those it finds. */
  lemma CompensationIsExact(w: World, job: Job, applied: nat, saved: nat, validates: bool, calls: Calls, c: nat)
    requires Distinct(job.ids) && Listed(w, job.ids, job) && saved <= |job.ids| && applied <= |job.ids|
    requires forall i :: 0 <= i < |job.ids| ==> job.ids[i] in w.panel
    requires forall i :: 0 <= i < saved ==> w.records[job.ids[i]].version == job.listed[job.ids[i]].version + 1
    ensures var r := Compensation(w, job, applied, saved, validates, calls, c);
            (r.ok <==> Compensates(calls, c, applied, saved, validates)) && r.clock == c + 2 * applied + saved
  {
    RevertOkIsExact(w, job.ids[..applied], job.source, validates, calls, c);
    PanelRestored(w, job, applied, validates, calls, c);
    var panel := RevertGroups(w, job.ids[..applied], job.source, validates, calls, c);
    var done := job.ids[..saved];
    assert OneUp(panel.world, done, job);
    RestoreFailsOnlyByCalls(panel.world, done, job, calls, panel.clock);
    RestoreClock(panel.world, done, job, calls, panel.clock);
  }

  /** A failed rotation is reported as not applied exactly if every call of its
      compensation is done. */
  lemma RollbackReportsExactly(w: World, job: Job, applied: nat, saved: nat, main: bool, calls: Calls, c: nat)
    requires Reachable(w, job, applied, saved, main)
    ensures RollbackRotation(w, job, applied, saved, main, calls, c).1 ==
            Error(if (main ==> calls(c).Done?) && Compensates(calls, c + 1, applied, saved, false)
                  then "mixed_credentials_apply_failed" else "repair_required")
  {
    CompensationIsExact(if main then SetMain(w, job.source, calls(c)) else w, job, applied, saved, false, calls, c + 1);
  }

  /** ... and a failed policy change exactly if, besides, the old policy is stored. */
  lemma FailPolicyReportsExactly(w: World, job: Job, applied: nat, saved: nat, main: bool, calls: Calls, c: nat)
    requires applied <= |job.ids| && Reachable(w, job, |job.ids|, saved, true)
    ensures FailPolicy(w, job, applied, saved, main, calls, c).1 ==
            Error(if (main ==> calls(c).Done? && calls(c + 1).Done?) && Compensates(calls, c + 2, applied, saved, true)
                     && calls(c + 2 + 2 * applied + saved).Done?
                  then "mixed_policy_apply_failed" else "repair_required")
  {
    CompensationIsExact(if main then SetMain(w, job.source, calls(c)) else w, job, applied, saved, true, calls, c + 2);
  }

  // ---------------------------------------------------------------- rotation

  /** Every call that stores is done: the save of each record, and the last write. */
  predicate StoresDone(job: Job, calls: Calls, c: nat) {
    AllDone(calls, c, c + |job.ids|) && calls(c + |job.ids|).Done?
  }

  /** Every call of the rotation is done: the update of each group, the main inbound if
      there is one, the validations, the save of each record, the pair. */
  predicate RotationDone(job: Job, calls: Calls, c: nat) {
    UpdatesDone(calls, c, |job.ids|, false) && MainRotationDone(job, calls, c + 2 * |job.ids|)
  }

  predicate MainRotationDone(job: Job, calls: Calls, c: nat) {
    (job.hasMain ==> calls(c).Done?) && calls(c + 1).Done? && StoresDone(job, calls, c + 2)
  }

  lemma StoreRotationSucceeds(w: World, job: Job, calls: Calls, c: nat)
    requires Distinct(job.ids) && Listed(w, job.ids, job) && forall i :: 0 <= i < |job.ids| ==> w.records[job.ids[i]] == job.listed[job.ids[i]]
    ensures StoreRotation(w, job, calls, c).1 == Okay <==> StoresDone(job, calls, c)
  {
    SaveOkIsExact(w, job.ids, job, calls, c);
    SaveCounts(w, job.ids, job, calls, c);
  }

  lemma MainRotationSucceeds(w: World, job: Job, calls: Calls, c: nat)
    requires Distinct(job.ids) && Listed(w, job.ids, job) && forall i :: 0 <= i < |job.ids| ==> w.records[job.ids[i]] == job.listed[job.ids[i]]
    ensures MainRotation(w, job, calls, c).1 == Okay <==> MainRotationDone(job, calls, c)
  {
    var mained := if job.hasMain then SetMain(w, job.target, calls(c)) else w;
    StoreRotationSucceeds(mained, job, calls, c + 2);
  }

  /** The rotation succeeds if and only if every call it makes is done. */
  lemma RotationSucceedsExactly(w: World, job: Job, calls: Calls, c: nat)
    requires Fits(w, job)
    ensures Rotate(w, job, calls, c).1 == Okay <==> RotationDone(job, calls, c)
  {
    UpdateOkIsExact(w, job.ids, job.target, false, calls, c);
    UpdateFrame(w, job.ids, job.target, false, calls, c, "");
    var f := UpdateGroups(w, job.ids, job.target, false, calls, c);
    if f.ok {
      MainRotationSucceeds(f.world, job, calls, f.clock);
    }
  }

  // ------------------------------------------------------------------- policy

  /** Every call of the policy change is done: the first write, update and validation of
      each group, main and its validation if there is one, each save, the last write. */
  predicate PolicyDone(job: Job, calls: Calls, c: nat) {
    calls(c).Done? && UpdatesDone(calls, c + 1, |job.ids|, true) && MainPolicyDone(job, calls, c + 1 + 2 * |job.ids|)
  }

  predicate MainPolicyDone(job: Job, calls: Calls, c: nat) {
    (job.hasMain ==> calls(c).Done? && calls(c + 1).Done?) && StoresDone(job, calls, c + 2)
  }

  lemma StorePolicySucceeds(w: World, job: Job, calls: Calls, c: nat)
    requires Distinct(job.ids) && Listed(w, job.ids, job) && forall i :: 0 <= i < |job.ids| ==> w.records[job.ids[i]] == job.listed[job.ids[i]]
    ensures StorePolicy(w, job, calls, c).1 == Okay <==> StoresDone(job, calls, c)
  {
    SaveOkIsExact(w, job.ids, job, calls, c);
    SaveCounts(w, job.ids, job, calls, c);
  }

  lemma MainPolicySucceeds(w: World, job: Job, calls: Calls, c: nat)
    requires Distinct(job.ids) && Listed(w, job.ids, job) && forall i :: 0 <= i < |job.ids| ==> w.records[job.ids[i]] == job.listed[job.ids[i]]
    ensures MainPolicy(w, job, calls, c).1 == Okay <==> MainPolicyDone(job, calls, c)
  {
    StorePolicySucceeds(if job.hasMain then SetMain(w, job.target, calls(c)) else w, job, calls, c + 2);
  }

  /** A policy change succeeds if and only if every call it makes is done. */
  lemma PolicySucceedsExactly(w: World, job: Job, calls: Calls, c: nat)
    requires Fits(w, job)
    ensures SetPolicy(w, job, calls, c).1 == Okay <==> PolicyDone(job, calls, c)
  {
    if calls(c).Done? {
      var begun := StoreSetting(w, job.target, Applying, calls(c));
      UpdateOkIsExact(begun, job.ids, job.target, true, calls, c + 1);
      var f := UpdateGroups(begun, job.ids, job.target, true, calls, c + 1);
      PolicyAfterLoop(w, job, calls, c);
      if f.ok {
        RecordsStayListed(begun, job, calls, c + 1);
        MainPolicySucceeds(f.world, job, calls, f.clock);
      }
    }
  }

  lemma FailPolicyIsError(w: World, job: Job, applied: nat, calls: Calls, c: nat)
    requires applied <= |job.ids| && (forall i :: 0 <= i < |job.ids| ==> job.ids[i] in job.listed)
    ensures FailPolicy(w, job, applied, 0, false, calls, c).1.Error?
  {
  }

  /** The saga after its first write: a loop that stopped early has failed it. */
  lemma PolicyAfterLoop(w: World, job: Job, calls: Calls, c: nat)
    requires (forall i :: 0 <= i < |job.ids| ==> job.ids[i] in job.listed) && calls(c).Done?
    ensures var f := UpdateGroups(StoreSetting(w, job.target, Applying, calls(c)), job.ids, job.target, true, calls, c + 1);
            if f.ok then SetPolicy(w, job, calls, c) == MainPolicy(f.world, job, calls, f.clock) else SetPolicy(w, job, calls, c).1.Error?
  {
    var begun := StoreSetting(w, job.target, Applying, calls(c));
    var f := UpdateGroups(begun, job.ids, job.target, true, calls, c + 1);
    UpdateCounts(begun, job.ids, job.target, true, calls, c + 1);
    FailPolicyIsError(f.world, job, f.applied, calls, f.clock);
  }

  lemma RecordsStayListed(w: World, job: Job, calls: Calls, c: nat)
    requires Untouched(w, job)
    ensures var now := UpdateGroups(w, job.ids, job.target, true, calls, c).world;
            Listed(now, job.ids, job) && forall i :: 0 <= i < |job.ids| ==> now.records[job.ids[i]] == job.listed[job.ids[i]]
  {
    UpdateFrame(w, job.ids, job.target, true, calls, c, "");
  }

  // ------------------------------------------------------------ one failure

  /** Every call but `k` is done. */
  ghost predicate OnlyFails(calls: Calls, k: nat) {
    forall n :: n != k ==> calls(n).Done?
  }

  lemma {:induction false} LaterUpdatesAreDone(calls: Calls, k: nat, c: nat, n: nat, validates: bool)
    requires OnlyFails(calls, k) && k < c
    ensures UpdatesDone(calls, c, n, validates)
  {
    if n > 0 {
      LaterUpdatesAreDone(calls, k, c, n - 1, validates);
    }
  }

  lemma LaterCallsAreDone(calls: Calls, k: nat, c: nat, applied: nat, saved: nat, validates: bool)
    requires OnlyFails(calls, k) && k < c
    ensures Compensates(calls, c, applied, saved, validates)
  {
    LaterUpdatesAreDone(calls, k, c, applied, validates);
  }

  /** A rollback that begins after the one failure. */
  lemma RollbackGoesThrough(w: World, job: Job, applied: nat, saved: nat, main: bool, calls: Calls, c: nat, k: nat)
    requires Reachable(w, job, applied, saved, main) && OnlyFails(calls, k) && k < c
    ensures RollbackRotation(w, job, applied, saved, main, calls, c).1 == Error("mixed_credentials_apply_failed")
  {
    RollbackReportsExactly(w, job, applied, saved, main, calls, c);
    LaterCallsAreDone(calls, k, c + 1, applied, saved, false);
  }

  lemma FailPolicyGoesThrough(w: World, job: Job, applied: nat, saved: nat, main: bool, calls: Calls, c: nat, k: nat)
    requires applied <= |job.ids| && Reachable(w, job, |job.ids|, saved, true) && OnlyFails(calls, k) && k < c
    ensures FailPolicy(w, job, applied, saved, main, calls, c).1 == Error("mixed_policy_apply_failed")
  {
    FailPolicyReportsExactly(w, job, applied, saved, main, calls, c);
    LaterCallsAreDone(calls, k, c + 2, applied, saved, true);
  }

  lemma SaveFailsBefore(w: World, job: Job, calls: Calls, c: nat, k: nat)
    requires Distinct(job.ids) && Listed(w, job.ids, job) && OnlyFails(calls, k)
    requires forall i :: 0 <= i < |job.ids| ==> w.records[job.ids[i]] == job.listed[job.ids[i]]
    requires !SaveGroups(w, job.ids, job, calls, c).ok
    ensures k < SaveGroups(w, job.ids, job, calls, c).clock
  {
    SaveOkIsExact(w, job.ids, job, calls, c);
  }

  lemma StoreRotationCompensates(w: World, job: Job, calls: Calls, c: nat, k: nat)
    requires Reachable(w, job, |job.ids|, 0, job.hasMain) && OnlyFails(calls, k)
    requires forall i :: 0 <= i < |job.ids| ==> w.records[job.ids[i]] == job.listed[job.ids[i]]
    ensures StoreRotation(w, job, calls, c).1 in {Okay, Error("mixed_credentials_apply_failed")}
  {
    SavesAreReachable(w, job, calls, c);
    SaveCounts(w, job.ids, job, calls, c);
    var s := SaveGroups(w, job.ids, job, calls, c);
    if !s.ok {
      SaveFailsBefore(w, job, calls, c, k);
      RollbackGoesThrough(s.world, job, |job.ids|, s.applied, job.hasMain, calls, s.clock, k);
    } else {
      StorePairCompensates(s.world, job, calls, s.clock, k);
    }
  }

  lemma StorePairCompensates(w: World, job: Job, calls: Calls, c: nat, k: nat)
    requires Reachable(w, job, |job.ids|, |job.ids|, job.hasMain) && OnlyFails(calls, k)
    ensures StorePair(w, job, calls, c).1 in {Okay, Error("mixed_credentials_apply_failed")}
  {
    if !calls(c).Done? {
      var stored := StoreSetting(w, job.target, w.status, calls(c));
      assert Reachable(stored, job, |job.ids|, |job.ids|, job.hasMain);
      RollbackGoesThrough(stored, job, |job.ids|, |job.ids|, job.hasMain, calls, c + 1, k);
    }
  }

  /** If a single call of a rotation fails, in whatever way, the rotation is compensated
      and reported as not applied. */
  lemma OneFailureUndoesRotation(w: World, job: Job, calls: Calls, c: nat, k: nat)
    requires Fits(w, job) && OnlyFails(calls, k) && !RotationDone(job, calls, c)
    ensures Rotate(w, job, calls, c).1 == Error("mixed_credentials_apply_failed")
  {
    RotationSucceedsExactly(w, job, calls, c);
    UpdateOkIsExact(w, job.ids, job.target, false, calls, c);
    ForwardIsReachable(w, job, false, calls, c);
    UpdateCounts(w, job.ids, job.target, false, calls, c);
    var f := UpdateGroups(w, job.ids, job.target, false, calls, c);
    if !f.ok {
      assert k < f.clock;
      RollbackGoesThrough(f.world, job, f.applied + 1, 0, false, calls, f.clock, k);
    } else {
      MainRotationCompensates(f.world, job, calls, f.clock, k);
    }
  }

  lemma MainRotationCompensates(w: World, job: Job, calls: Calls, c: nat, k: nat)
    requires Reachable(w, job, |job.ids|, 0, false) && OnlyFails(calls, k)
    requires forall i :: 0 <= i < |job.ids| ==> w.records[job.ids[i]] == job.listed[job.ids[i]]
    ensures MainRotation(w, job, calls, c).1 in {Okay, Error("mixed_credentials_apply_failed")}
  {
    var mained := if job.hasMain then SetMain(w, job.target, calls(c)) else w;
    assert Reachable(mained, job, |job.ids|, 0, job.hasMain);
    if job.hasMain && !calls(c).Done? {
      RollbackGoesThrough(mained, job, |job.ids|, 0, true, calls, c + 1, k);
    } else if !calls(c + 1).Done? {
      RollbackGoesThrough(mained, job, |job.ids|, 0, job.hasMain, calls, c + 2, k);
    } else {
      StoreRotationCompensates(mained, job, calls, c + 2, k);
    }
  }

  lemma StorePolicyCompensates(w: World, job: Job, calls: Calls, c: nat, k: nat)
    requires Reachable(w, job, |job.ids|, 0, job.hasMain) && OnlyFails(calls, k)
    requires forall i :: 0 <= i < |job.ids| ==> w.records[job.ids[i]] == job.listed[job.ids[i]]
    ensures StorePolicy(w, job, calls, c).1 in {Okay, Error("mixed_policy_apply_failed")}
  {
    SavesAreReachable(w, job, calls, c);
    SaveCounts(w, job.ids, job, calls, c);
    var s := SaveGroups(w, job.ids, job, calls, c);
    if !s.ok {
      SaveFailsBefore(w, job, calls, c, k);
      FailPolicyGoesThrough(s.world, job, |job.ids|, s.applied, job.hasMain, calls, s.clock, k);
    } else if !calls(s.clock).Done? {
      LastWriteCompensates(s.world, job, calls, s.clock, k);
    }
  }

  lemma LastWriteCompensates(w: World, job: Job, calls: Calls, c: nat, k: nat)
    requires Reachable(w, job, |job.ids|, |job.ids|, true) && OnlyFails(calls, k) && !calls(c).Done?
    ensures FailPolicy(StoreSetting(w, job.target, Applied, calls(c)), job, |job.ids|, |job.ids|, job.hasMain, calls, c + 1).1
            == Error("mixed_policy_apply_failed")
  {
    FailPolicyGoesThrough(StoreSetting(w, job.target, Applied, calls(c)), job, |job.ids|, |job.ids|, job.hasMain, calls, c + 1, k);
  }

  lemma MainPolicyCompensates(w: World, job: Job, calls: Calls, c: nat, k: nat)
    requires Reachable(w, job, |job.ids|, 0, false) && OnlyFails(calls, k)
    requires forall i :: 0 <= i < |job.ids| ==> w.records[job.ids[i]] == job.listed[job.ids[i]]
    ensures MainPolicy(w, job, calls, c).1 in {Okay, Error("mixed_policy_apply_failed")}
  {
    var mained := if job.hasMain then SetMain(w, job.target, calls(c)) else w;
    assert Reachable(mained, job, |job.ids|, 0, job.hasMain);
    if job.hasMain && !(calls(c).Done? && calls(c + 1).Done?) {
      FailPolicyGoesThrough(mained, job, |job.ids|, 0, true, calls, c + 2, k);
    } else {
      StorePolicyCompensates(mained, job, calls, c + 2, k);
    }
  }

  /** If a single call of a policy change fails, the change is compensated and reported as
      not applied; if it is the very first one, as a failure of the store. */
  lemma OneFailureUndoesPolicy(w: World, job: Job, calls: Calls, c: nat, k: nat)
    requires Fits(w, job) && OnlyFails(calls, k) && !PolicyDone(job, calls, c)
    ensures SetPolicy(w, job, calls, c).1 == Error(if k == c then "storage_failed" else "mixed_policy_apply_failed")
  {
    PolicySucceedsExactly(w, job, calls, c);
    var begun := StoreSetting(w, job.target, Applying, calls(c));
    if calls(c).Done? {
      UpdateOkIsExact(begun, job.ids, job.target, true, calls, c + 1);
      ForwardIsReachable(begun, job, true, calls, c + 1);
      var f := UpdateGroups(begun, job.ids, job.target, true, calls, c + 1);
      if !f.ok {
        assert k < f.clock;
        FailPolicyGoesThrough(f.world, job, f.applied, 0, false, calls, f.clock, k);
      } else {
        MainPolicyCompensates(f.world, job, calls, f.clock, k);
      }
    }
  }
}
