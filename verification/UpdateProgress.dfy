/** What the binary updater ends in when nothing, or only one step, disturbs it: a fresh
    switch, a restore, and the recovery of whatever was cut off before.
    Models internal/gatewayupdate/recovery.go, internal/gatewayupdate/installer.go and
    cmd/aimili-gateway-update-install/spool.go. */
module UpdateProgress {
  import opened Wrappers
  import opened Fates
  import opened GatewayUpdate

  ghost predicate Smooth(fates: Schedule) {
    forall n :: fates(n).Done?
  }

  /** Step `k` fails, with or without effect, and every other is done. */
  ghost predicate OnlyFails(fates: Schedule, k: nat) {
    (fates(k).Fails? || fates(k).FailsLate?) && forall n :: n != k ==> fates(n).Done?
  }

  // ---------------------------------------------------------------- recovery

  /** The binary that is in place as the end of the journaled run: a state journaled before
      stands; otherwise an update whose new binary is in place has succeeded, and everything
      else was rolled back. */
  predicate EndsAs(w: World, j: Journal, state: State) {
    match j.state
    case Some(s) => state == s
    case None =>
      if j.action == Apply && w.binary == j.target && j.source != j.target then state == Succeeded
      else state == RolledBack
  }

  lemma SmoothService(w: World, j: Journal, fates: Schedule, c: nat)
    requires Inside(w, j) && w.journal == Some(j) && Smooth(fates)
    ensures var r := RecoverService(w, j, fates, c);
            && r.out.Result? && EndsAs(w, j, r.out.state) && r.out.code == j.code && r.out.reason == ""
            && r.world == w.(running := Some(w.binary), proven := Some(w.binary)) && r.clock == c + 3
  {
  }

  lemma SmoothRecover(w: World, fates: Schedule)
    requires Crashproof(w) && w.journal.Some? && w.journal.value.state != Some(RepairRequired) && Smooth(fates)
    ensures var r, j := Recover(w, w.journal.value.run, fates, 0), w.journal.value;
            && r.out.Result? && EndsAs(w, j, r.out.state) && r.out.code == j.code
            && r.world == World(w.binary, Some(j.source), Some(w.binary), Some(w.binary),
                                Some(j.(phase := Terminal, state := Some(r.out.state))), w.published)
  {
    var j := w.journal.value;
    EnsureMeans(w, j, fates, 2);
    var ready := EnsurePrevious(w, j, fates, 2);
    SmoothService(ready.world, j, fates, ready.clock);
  }

  /** Whatever was cut off before, one activation that nothing disturbs settles the run: an
      update whose new binary is in place is acknowledged, everything else is rolled back;
      the service runs and was proven, the result is published, and the journal is cleared,
      unless a different result had been published before. */
  lemma SmoothRecoverySettles(w: World, call: Call, state: State)
    requires Crashproof(w) && w.journal.Some? && w.journal.value.state != Some(RepairRequired) && Smooth(call.fates)
    requires EndsAs(w, w.journal.value, state)
    ensures var j, v := w.journal.value, Invoke(w, call);
            && v.binary == w.binary && v.previous == Some(j.source) && v.running == v.proven == Some(w.binary)
            && (j.run !in w.published ==> v.published == w.published[j.run := state] && v.journal.None?)
            && (j.run in w.published ==> v.published == w.published && (v.journal.None? <==> w.published[j.run] == state))
  {
    SmoothRecover(w, call.fates);
    RecoverIsSound(w, w.journal.value.run, call.fates, 0);
  }

  /** A recovery that finds the service unhealthy, and nothing else in its way, puts the old
      binary back, running and proven, and says so. */
  lemma UnhealthyRecoveryRestores(w: World, fates: Schedule)
    requires Crashproof(w) && w.journal.Some? && w.journal.value.state != Some(RepairRequired) && OnlyFails(fates, 6)
    ensures var r, j := Recover(w, w.journal.value.run, fates, 0), w.journal.value;
            && r.out == Result(RolledBack, "health_check_failed", "")
            && r.world == World(j.source, Some(j.source), Some(j.source), Some(j.source),
                                Some(j.(phase := Terminal, state := Some(RolledBack), code := "health_check_failed")), w.published)
  {
    var j := w.journal.value;
    EnsureMeans(w, j, fates, 2);
  }

  // ------------------------------------------------------------------- switch

  /** The image a request is about; a rollback needs a previous copy. */
  predicate About(w: World, call: Call, image: Image) {
    if call.action == Rollback then w.previous == Some(image) else call.image == image
  }

  predicate Idle(w: World, call: Call) {
    Crashproof(w) && w.journal.None? && call.run !in w.published
  }

  lemma SmoothRelease(w: World, run: string, action: Action, image: Image, fates: Schedule)
    requires w.journal.None? && Smooth(fates)
    ensures SwitchRelease(w, run, action, image, fates, 1) ==
            Ret(World(image, Some(w.binary), Some(image), Some(image),
                      Some(Journal(run, action, w.binary, image, Terminal, Some(if action == Rollback then RolledBack else Succeeded), "")), w.published),
                14, Result(if action == Rollback then RolledBack else Succeeded, "", ""))
  {
  }

  /** A request that nothing disturbs ends with its image in place, running and proven, the
      old one as previous copy, its result published and no journal. */
  lemma SmoothSwitchSucceeds(w: World, call: Call, image: Image)
    requires Idle(w, call) && About(w, call, image) && Smooth(call.fates)
    ensures Invoke(w, call) ==
            World(image, Some(w.binary), Some(image), Some(image), None,
                  w.published[call.run := if call.action == Rollback then RolledBack else Succeeded])
  {
    SmoothRelease(w, call.run, call.action, image, call.fates);
  }

  /** The steps of a switch after which it restores: stop, rename, start, verify. */
  function FailureCode(k: nat): string {
    if k == 5 then "stop_failed" else if k == 7 then "switch_failed" else if k == 9 then "start_failed" else "health_check_failed"
  }

  lemma RestoreGoesWell(w: World, fates: Schedule, c: nat, code: string, old0: Image)
    requires w.previous == Some(old0) && (forall n :: c <= n ==> fates(n).Done?)
    ensures Restore(w, fates, c, code) ==
            Ret(w.(binary := old0, running := Some(old0), proven := Some(old0)), c + 6, Result(RolledBack, code, ""))
  {
  }

  lemma OneFailureInBody(w: World, j: Journal, fates: Schedule, k: nat)
    requires w.journal == Some(j) && w.binary == j.source && j.state.None? && OnlyFails(fates, k) && k in {5, 7, 9, 11}
    ensures var r := SwitchBody(w, j, fates, 3);
            && r.out == Result(RolledBack, FailureCode(k), "") && r.clock == k + 7
            && r.world == World(j.source, Some(j.source), Some(j.source), Some(j.source), r.world.journal, w.published)
            && r.world.journal.Some?
  {
    var backed := w.(previous := Some(w.binary));
    if k == 5 {
      RestoreGoesWell(After(backed, StopService(backed), fates(5)), fates, 6, "stop_failed", j.source);
    } else {
      OneFailureOnceStopped(StopService(backed), j, fates, k);
    }
  }

  lemma OneFailureOnceStopped(w: World, j: Journal, fates: Schedule, k: nat)
    requires w.journal.Some? && w.previous == Some(j.source) && w.running.None? && OnlyFails(fates, k) && k in {7, 9, 11}
    ensures var r := SwitchStopped(w, j, fates, 6);
            && r.out == Result(RolledBack, FailureCode(k), "") && r.clock == k + 7
            && r.world == World(j.source, Some(j.source), Some(j.source), Some(j.source), r.world.journal, w.published)
            && r.world.journal.Some?
  {
    var stopped := Mark(w, j, Stopped, fates(6));
    var replaced := After(stopped, Replace(stopped, j.target), fates(7));
    if k == 7 {
      RestoreGoesWell(replaced, fates, 8, "switch_failed", j.source);
    } else {
      var switched := Mark(replaced, j, Phase.Switched, fates(8));
      var started := After(switched, StartService(switched), fates(9));
      if k == 9 {
        RestoreGoesWell(started, fates, 10, "start_failed", j.source);
      } else {
        RestoreGoesWell(Mark(started, j, Started, fates(10)), fates, 12, "health_check_failed", j.source);
      }
    }
  }

  /** If a single one of these steps fails, the old binary is put back, running and proven,
      and rolled back is published. */
  lemma OneFailureIsRestored(w: World, call: Call, image: Image, k: nat)
    requires Idle(w, call) && About(w, call, image) && OnlyFails(call.fates, k) && k in {5, 7, 9, 11}
    ensures Invoke(w, call) ==
            World(w.binary, Some(w.binary), Some(w.binary), Some(w.binary), None, w.published[call.run := RolledBack])
  {
    var j := Journal(call.run, call.action, w.binary, image, Prepared, None, "");
    OneFailureInBody(w.(journal := Some(j)), j, call.fates, k);
  }

  /** If a checkpoint fails, nothing is published and the journal stays for recovery. */
  lemma TornCheckpointIsLeftToRecovery(w: World, call: Call, image: Image, k: nat)
    requires Idle(w, call) && About(w, call, image) && OnlyFails(call.fates, k) && k in {6, 8, 10, 12}
    ensures var v := Invoke(w, call);
            && v.published == w.published && v.journal.Some? && v.journal.value.run == call.run && v.journal.value.state.None?
            && v.binary == (if k == 6 then w.binary else image) && v.previous == Some(w.binary)
  {
  }

  /** A failure before the journal is reported as failed; one between the journal and the
      stop, or of the last journal write, as a need for repair. */
  lemma OtherFailuresAreReported(w: World, call: Call, image: Image, k: nat)
    requires Idle(w, call) && About(w, call, image) && OnlyFails(call.fates, k) && k in {0, 1, 2, 3, 4, 13}
    ensures var v := Invoke(w, call);
            && v.published == w.published[call.run := if k < 2 then Failed else RepairRequired]
            && v.binary == (if k == 13 then image else w.binary)
            && (k < 2 ==> v == w.(published := v.published))
  {
  }
}
