/** What a published result of the binary updater is worth, over any sequence of
    activations.
    Models runInstallerAt and finishRequest in cmd/aimili-gateway-update-install/spool.go
    over internal/gatewayupdate/recovery.go. */
module UpdateOutcome {
  import opened Wrappers
  import opened Fates
  import opened GatewayUpdate

  // ------------------------------------------- when recovery replaces the binary

  /** The restore that begins at step `c` gets as far as putting the previous copy back. */
  predicate RestoreReplaces(w: World, fates: Schedule, c: nat) {
    !fates(c).Kill? && fates(c + 1).Done? && w.previous.Some? && fates(c + 2).Done? && Took(fates(c + 3))
  }

  /** The service could not be started or is not healthy, and the restore gets that far. */
  predicate RevivalReplaces(w: World, fates: Schedule, c: nat) {
    && !fates(c).Kill?
    && if (fates(c).Done? && w.running.Some?) || fates(c + 1).Done?
       then !fates(c + 2).Kill? && !fates(c + 2).Done? && RestoreReplaces(w, fates, c + 3)
       else !fates(c + 1).Kill? && RestoreReplaces(w, fates, c + 2)
  }

  /** An activation that finds success in the journal and restores the binary. */
  predicate TakesBack(w: World, fates: Schedule) {
    && w.journal.Some? && w.journal.value.state == Some(Succeeded)
    && fates(0).Done? && fates(1).Done? && fates(2).Done?
    && w.previous == Some(w.journal.value.source) && RevivalReplaces(w, fates, 4)
  }

  lemma RevivalMeans(w: World, j: Journal, fates: Schedule, c: nat)
    requires Inside(w, j)
    ensures RecoverService(w, j, fates, c).world.binary == if RevivalReplaces(w, fates, c) then j.source else w.binary
  {
  }

  /** The schedule decides: from the new binary, the activation ends with the old one
      exactly if it takes the success back. */
  lemma TakesBackIsExact(w: World, call: Call)
    requires Crashproof(w) && w.journal.Some? && w.journal.value.state == Some(Succeeded)
    requires w.binary == w.journal.value.target
    ensures Invoke(w, call).binary == if TakesBack(w, call.fates) then w.journal.value.source else w.journal.value.target
  {
    var j, fates := w.journal.value, call.fates;
    if fates(0).Done? && fates(1).Done? {
      EnsureMeans(w, j, fates, 2);
      var ready := EnsurePrevious(w, j, fates, 2);
      if ready.out.Unfinished? {
        RevivalMeans(ready.world, j, fates, 4);
      }
    }
  }

  // ------------------------------------------------------------ one activation

  /** The result published for the run of `j` is true of the files: success means the new
      binary, exactly unless it was taken back, and always the old one as previous copy;
      rolled back, of an update, means the old binary. */
  predicate True(w: World, j: Journal, back: bool) {
    j.run in w.published ==>
      && (w.published[j.run] == Succeeded ==>
            && j.action == Apply && w.previous == Some(j.source)
            && (w.binary == j.target <==> j.source == j.target || !back))
      && (w.published[j.run] == RolledBack && j.action == Apply ==> w.binary == j.source)
  }

  /** What holds of a journal that is there. */
  predicate Accounted(w: World, j: Journal, back: bool) {
    && (back ==> w.binary == j.source)
    && (j.state == Some(Succeeded) && !back ==> w.binary == j.target)
    && (j.run in w.published ==>
          && (w.published[j.run] == Succeeded ==>
                && j.action == Apply && j.state in {Some(Succeeded), Some(RolledBack), Some(RepairRequired)}
                && w.previous == Some(j.source) && (!back ==> w.binary == j.target))
          && (w.published[j.run] == RolledBack && j.action == Apply ==>
                w.binary == j.source && j.state in {Some(RolledBack), Some(RepairRequired)}))
  }

  lemma AccountedIsTrue(w: World, j: Journal, back: bool)
    requires Accounted(w, j, back)
    ensures True(w, j, back)
  {
  }

  /** A result was published just now, for a service that runs and was proven. */
  predicate PublishedProven(before: World, after: World, run: string) {
    run !in before.published && run in after.published && after.published[run] in {Succeeded, RolledBack} ==>
      after.running == after.proven == Some(after.binary)
  }

  /** The service part of a recovery with its journal write. */
  lemma ServiceAccounts(w: World, ready: World, j: Journal, back: bool, fates: Schedule)
    requires Inside(ready, j) && ready.journal == Some(j) && j.state != Some(RepairRequired) && j.state != Some(Failed)
    requires ready == w.(previous := ready.previous) && Accounted(ready, j, back)
    requires j.state == Some(Succeeded) ==> j.action == Apply
    requires j.action == Apply && j.state == Some(RolledBack) ==> ready.binary == j.source
    ensures var r, now := Close(RecoverService(ready, j, fates, 4), j, fates), back || (j.state == Some(Succeeded) && RevivalReplaces(ready, fates, 4));
            && r.world.journal.Some? && SameButProgress(r.world.journal.value, j)
            && Accounted(r.world, r.world.journal.value, now)
            && (r.out.Result? && r.out.state in {Succeeded, RolledBack} ==> r.world.journal.value.state == Some(r.out.state))
  {
    ServiceReturns(ready, j, fates, 4);
    RevivalMeans(ready, j, fates, 4);
    var r := RecoverService(ready, j, fates, 4);
    assert r.world.binary == if RevivalReplaces(ready, fates, 4) then j.source else ready.binary;
  }

  /** Recovery, before anything is published. */
  lemma RecoverAccounts(w: World, j: Journal, back: bool, call: Call)
    requires Crashproof(w) && w.journal == Some(j) && Accounted(w, j, back)
    ensures var r := Recover(w, j.run, call.fates, 0);
            && r.world.journal.Some? && SameButProgress(r.world.journal.value, j)
            && Accounted(r.world, r.world.journal.value, back || TakesBack(w, call.fates))
            && (r.out.Result? && r.out.state in {Succeeded, RolledBack} ==> r.world.journal.value.state == Some(r.out.state))
  {
    var fates := call.fates;
    if j.state != Some(RepairRequired) && fates(0).Done? && fates(1).Done? {
      EnsureMeans(w, j, fates, 2);
      var ready := EnsurePrevious(w, j, fates, 2);
      if ready.out.Unfinished? {
        ServiceAccounts(w, ready.world, j, back, fates);
      }
    }
  }

  lemma RecoveryIsTrue(w: World, j: Journal, back: bool, call: Call)
    requires Crashproof(w) && w.journal == Some(j) && Accounted(w, j, back)
    ensures var v, now := Invoke(w, call), back || TakesBack(w, call.fates);
            && True(v, j, now) && PublishedProven(w, v, j.run)
            && (v.journal.Some? ==> SameButProgress(v.journal.value, j) && Accounted(v, v.journal.value, now))
            && (v.journal.None? ==> j.run in v.published)
  {
    RecoverAccounts(w, j, back, call);
    RecoverIsSound(w, j.run, call.fates, 0);
    var r := Recover(w, j.run, call.fates, 0);
    if r.out.Result? {
      FinishIsTrue(r.world, r.world.journal.value, r.out.state, back || TakesBack(w, call.fates), call.fates, r.clock);
    } else {
      AccountedIsTrue(r.world, r.world.journal.value, back || TakesBack(w, call.fates));
    }
  }

  /** Publishing the state the journal is in, or one that is no end, keeps the accounts. */
  lemma FinishIsTrue(w: World, j: Journal, state: State, back: bool, fates: Schedule, c: nat)
    requires w.journal == Some(j) && Accounted(w, j, back)
    requires state in {Succeeded, RolledBack} ==> j.state == Some(state)
    requires state == Succeeded ==> j.action == Apply && w.previous == Some(j.source) && (!back ==> w.binary == j.target)
    requires state == RolledBack && j.action == Apply ==> w.binary == j.source
    ensures var v := Finish(w, j.run, state, fates, c);
            && v == w.(journal := v.journal, published := v.published) && True(v, j, back)
            && (v.journal == Some(j) ==> Accounted(v, j, back))
            && (v.journal != Some(j) ==> v.journal.None? && j.run in v.published)
            && (j.run in v.published && j.run !in w.published ==> v.published[j.run] == state)
  {
  }

  /** The journal a request without one is given. */
  function Fresh(w: World, call: Call): Journal {
    Journal(call.run, call.action, w.binary,
            if call.action == Rollback && w.previous.Some? then w.previous.value else call.image, Prepared, None, "")
  }

  /** What a switch of `j` has done when it returns, before anything is published. */
  predicate Switched(r: Ret, j: Journal) {
    && (r.world.journal.Some? ==> SameButProgress(r.world.journal.value, j) && Accounted(r.world, r.world.journal.value, false))
    && (r.out.Result? && r.out.state in {Succeeded, RolledBack} ==>
          && r.world.journal.Some? && r.world.journal.value.state == Some(r.out.state)
          && r.world.previous == Some(j.source)
          && r.world.running == r.world.proven == Some(r.world.binary)
          && (r.out.state == Succeeded ==> j.action == Apply && r.world.binary == j.target)
          && (r.out.state == RolledBack && j.action == Apply ==> r.world.binary == j.source))
  }

  lemma SwitchAccounts(w: World, run: string, action: Action, image: Image, fates: Schedule, c: nat)
    requires Crashproof(w) && w.journal.None? && run !in w.published
    ensures var r := SwitchRelease(w, run, action, image, fates, c);
            r.world.published == w.published && Switched(r, Journal(run, action, w.binary, image, Prepared, None, ""))
  {
    SwitchIsSound(w, run, action, image, fates, c);
    if fates(c).Done? {
      var j := Journal(run, action, w.binary, image, Prepared, None, "");
      var begun := After(w, Write(w, j), fates(c + 1));
      if fates(c + 1).Done? {
        BodyReturns(begun, j, fates, c + 2);
      }
    }
  }

  lemma EntryAccounts(w: World, call: Call)
    requires Crashproof(w) && w.journal.None? && call.run !in w.published
    ensures var r := Enter(w, call.run, call.action, call.image, call.fates, 0);
            r.world.published == w.published && Switched(r, Fresh(w, call))
  {
    SwitchAccounts(w, call.run, call.action, Fresh(w, call).target, call.fates, 1);
  }

  lemma EntryIsTrue(w: World, call: Call)
    requires Crashproof(w) && w.journal.None? && call.run !in w.published
    ensures var v, j := Invoke(w, call), Fresh(w, call);
            && True(v, j, false) && PublishedProven(w, v, j.run)
            && (v.journal.Some? ==> SameButProgress(v.journal.value, j) && Accounted(v, v.journal.value, false))
  {
    EntryAccounts(w, call);
  }

  // -------------------------------------------------------------------- runs

  /** Some activation took back the success journaled for this run. */
  predicate TakenBack(w: World, calls: seq<Call>, run: string) {
    calls != [] &&
    (TakenBack(w, calls[..|calls| - 1], run)
     || var v := Calls(w, calls[..|calls| - 1]);
        v.journal.Some? && v.journal.value.run == run && TakesBack(v, calls[|calls| - 1].fates))
  }

  /** The journal in place is accounted for, and the runs before it have their result. */
  ghost predicate Ledger(w: World, calls: seq<Call>) {
    var v := Calls(w, calls);
    && Crashproof(v)
    && (v.journal.Some? ==> Accounted(v, v.journal.value, TakenBack(w, calls, v.journal.value.run)))
    && forall run: string :: TakenBack(w, calls, run) && (v.journal.Some? ==> v.journal.value.run != run) ==> run in v.published
  }

  lemma PublishedStays(w: World, call: Call)
    requires Crashproof(w)
    ensures var v := Invoke(w, call);
            && w.published.Keys <= v.published.Keys
            && (forall run :: run in w.published ==> v.published[run] == w.published[run])
            && (w.journal.Some? && v.journal.Some? ==> v.journal.value.run == w.journal.value.run)
            && (w.journal.Some? && v.journal.None? ==> w.journal.value.run in v.published)
            && (w.journal.None? && v.journal.Some? ==> v.journal.value.run == call.run && call.run !in w.published)
            && (w.journal.None? && call.run in w.published ==> v == w)
  {
    if w.journal.Some? {
      RecoverIsSound(w, w.journal.value.run, call.fates, 0);
    } else if call.run !in w.published {
      EntryAccounts(w, call);
    }
  }

  lemma {:induction false} LedgerHolds(w: World, calls: seq<Call>)
    requires Crashproof(w) && w.journal.None?
    ensures Ledger(w, calls)
  {
    if calls != [] {
      var init, call := calls[..|calls| - 1], calls[|calls| - 1];
      LedgerHolds(w, init);
      var before := Calls(w, init);
      InvokeKeeps(before, call);
      PublishedStays(before, call);
      if before.journal.Some? {
        var j := before.journal.value;
        RecoveryIsTrue(before, j, TakenBack(w, init, j.run), call);
      } else if call.run !in before.published {
        EntryIsTrue(before, call);
      }
    }
  }

  /** The run an activation works on: that of the journal in place or, if there is none,
      that of the request it was given. */
  function Subject(w: World, call: Call): Journal {
    if w.journal.Some? then w.journal.value else Fresh(w, call)
  }

  /** Published success, over all sequences of activations with crashes and failures
      anywhere: whenever an activation is done with a run, success published for it means
      that the old binary is the previous copy, and that the new binary is in place exactly
      unless some activation took the success back after it was journaled. Rolled back
      means the old binary for every update. Either result is published only for a service
      that runs and was proven. */
  lemma PublishedSuccessIsExact(w: World, calls: seq<Call>)
    requires Crashproof(w) && w.journal.None? && calls != []
    ensures var before, call := Calls(w, calls[..|calls| - 1]), calls[|calls| - 1];
            var after, j := Calls(w, calls), Subject(before, call);
            before.journal.Some? || j.run !in before.published ==>
              True(after, j, TakenBack(w, calls, j.run)) && PublishedProven(before, after, j.run)
  {
    var init, call := calls[..|calls| - 1], calls[|calls| - 1];
    LedgerHolds(w, init);
    var before := Calls(w, init);
    var j := Subject(before, call);
    if before.journal.Some? {
      RecoveryIsTrue(before, j, TakenBack(w, init, j.run), call);
    } else if j.run !in before.published {
      EntryIsTrue(before, call);
    }
  }
}
