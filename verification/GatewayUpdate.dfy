/** The updater of the Gateway binary: a journal, the previous copy, stop, rename, start
    and verify, any of which can fail, fail late, or be the last thing the process does;
    and the recovery that looks at digests to find out how far it got.
    Models internal/gatewayupdate/recovery.go, internal/gatewayupdate/installer.go and the
    publication of results in cmd/aimili-gateway-update-install/spool.go. */
module GatewayUpdate {
  import opened Wrappers
  import opened Fates

  /** The content of an executable file. Digests are injective, so they are kept as it. */
  datatype Image = Image(id: nat)

  datatype Action = Apply | Rollback

  datatype State = Succeeded | RolledBack | Failed | RepairRequired

  datatype Phase = Prepared | Stopped | Switched | Started | Verified | Terminal

  /** `updatetxn.Journal`; `source` and `target` are the old and the new digest. */
  datatype Journal = Journal(run: string, action: Action, source: Image, target: Image, phase: Phase, state: Option<State>, code: string)

  /** What survives a crash. `running` is the image the active service was started from;
      `proven` the one that last passed the baseline check without a stop or a
      replacement since. */
  datatype World = World(
    binary: Image,
    previous: Option<Image>,
    running: Option<Image>,
    proven: Option<Image>,
    journal: Option<Journal>,
    published: map<string, State>)

  /** `Result` with the reason of its error; Unfinished is the empty result that leaves
      the journal for the next recovery. */
  datatype Outcome = Result(state: State, code: string, reason: string) | Unfinished | Died

  datatype Ret = Ret(world: World, clock: nat, out: Outcome)

  const REPAIR := Result(RepairRequired, "repair_required", "")

  /** How a step that was not simply done ends a function that can only ask for repair. */
  function Bad(f: Fate): Outcome {
    if f.Kill? then Died else REPAIR
  }

  function After(before: World, after: World, f: Fate): World {
    if Took(f) then after else before
  }

  function StopService(w: World): World {
    w.(running := None, proven := None)
  }

  function StartService(w: World): World {
    if w.running.None? then w.(running := Some(w.binary), proven := None) else w
  }

  function Replace(w: World, image: Image): World {
    w.(binary := image, proven := None)
  }

  function Write(w: World, j: Journal): World {
    w.(journal := Some(j))
  }

  // ---------------------------------------------------- the functions, as values

  /** `rollbackAfterFailure`. */
  function Restore(w: World, fates: Schedule, c: nat, code: string): Ret {
    if fates(c).Kill? then Ret(w, c + 1, Died)
    else if !fates(c + 1).Done? || w.previous.None? then Ret(w, c + 2, Bad(fates(c + 1)))
    else
      var stopped := After(w, StopService(w), fates(c + 2));
      if !fates(c + 2).Done? then Ret(stopped, c + 3, Bad(fates(c + 2)))
      else
        var replaced := After(stopped, Replace(stopped, w.previous.value), fates(c + 3));
        if !fates(c + 3).Done? then Ret(replaced, c + 4, Bad(fates(c + 3)))
        else
          var started := After(replaced, StartService(replaced), fates(c + 4));
          if !fates(c + 4).Done? then Ret(started, c + 5, Bad(fates(c + 4)))
          else if !fates(c + 5).Done? then Ret(started, c + 6, Bad(fates(c + 5)))
          else Ret(started.(proven := started.running), c + 6, Result(RolledBack, code, ""))
  }

  /** `checkpoint`. */
  function Mark(w: World, j: Journal, phase: Phase, f: Fate): World {
    After(w, Write(w, j.(phase := phase)), f)
  }

  /** How a checkpoint that was not done ends `switchRelease`. */
  function Torn(f: Fate): Outcome {
    if f.Kill? then Died else Unfinished
  }

  /** `switchRelease` from the stopped service on. */
  function SwitchStopped(w: World, j: Journal, fates: Schedule, c: nat): Ret {
    var stopped := Mark(w, j, Stopped, fates(c));
    if !fates(c).Done? then Ret(stopped, c + 1, Torn(fates(c)))
    else
      var replaced := After(stopped, Replace(stopped, j.target), fates(c + 1));
      if fates(c + 1).Kill? then Ret(replaced, c + 2, Died)
      else if !fates(c + 1).Done? then Restore(replaced, fates, c + 2, "switch_failed")
      else
        var switched := Mark(replaced, j, Switched, fates(c + 2));
        if !fates(c + 2).Done? then Ret(switched, c + 3, Torn(fates(c + 2)))
        else SwitchReplaced(switched, j, fates, c + 3)
  }

  function SwitchReplaced(w: World, j: Journal, fates: Schedule, c: nat): Ret {
    var started := After(w, StartService(w), fates(c));
    if fates(c).Kill? then Ret(started, c + 1, Died)
    else if !fates(c).Done? then Restore(started, fates, c + 1, "start_failed")
    else
      var marked := Mark(started, j, Started, fates(c + 1));
      if !fates(c + 1).Done? then Ret(marked, c + 2, Torn(fates(c + 1)))
      else if fates(c + 2).Kill? then Ret(marked, c + 3, Died)
      else if !fates(c + 2).Done? || marked.running.None? then Restore(marked, fates, c + 3, "health_check_failed")
      else
        var proven := marked.(proven := marked.running);
        var verified := Mark(proven, j, Verified, fates(c + 3));
        if !fates(c + 3).Done? then Ret(verified, c + 4, Torn(fates(c + 3)))
        else Ret(verified, c + 4, Result(if j.action == Rollback then RolledBack else Succeeded, "", ""))
  }

  /** `switchRelease` between the first journal and the deferred one. */
  function SwitchBody(w: World, j: Journal, fates: Schedule, c: nat): Ret {
    var backed := After(w, w.(previous := Some(w.binary)), fates(c));
    if !fates(c).Done? then Ret(backed, c + 1, Bad(fates(c)))
    else if !fates(c + 1).Done? then Ret(backed, c + 2, Bad(fates(c + 1)))
    else
      var stopped := After(backed, StopService(backed), fates(c + 2));
      if fates(c + 2).Kill? then Ret(stopped, c + 3, Died)
      else if !fates(c + 2).Done? then Restore(stopped, fates, c + 3, "stop_failed")
      else SwitchStopped(stopped, j, fates, c + 3)
  }

  /** The journal write at the end, deferred in `switchRelease` and explicit in
      `persistRecovered`; a process that died or left the empty result writes nothing. */
  function Close(r: Ret, j: Journal, fates: Schedule): Ret {
    if !r.out.Result? then r
    else
      var closed := After(r.world, Write(r.world, j.(phase := Terminal, state := Some(r.out.state), code := r.out.code)), fates(r.clock));
      Ret(closed, r.clock + 1, if fates(r.clock).Done? then r.out else Bad(fates(r.clock)))
  }

  function SwitchRelease(w: World, run: string, action: Action, image: Image, fates: Schedule, c: nat): Ret {
    if !fates(c).Done? then Ret(w, c + 1, if fates(c).Kill? then Died else Result(Failed, "current_binary_invalid", ""))
    else
      var j := Journal(run, action, w.binary, image, Prepared, None, "");
      var begun := After(w, Write(w, j), fates(c + 1));
      if !fates(c + 1).Done? then Ret(begun, c + 2, Bad(fates(c + 1)))
      else Close(SwitchBody(begun, j, fates, c + 2), j, fates)
  }

  const UNKNOWN_BINARY := Result(RepairRequired, "repair_required", "current binary digest is unknown")
  const UNKNOWN_PREVIOUS := Result(RepairRequired, "repair_required", "previous binary digest is unknown")

  /** The previous copy as recovery needs it: it is there, or it is made in the one phase in
      which it may not be there yet. */
  function EnsurePrevious(w: World, j: Journal, fates: Schedule, c: nat): Ret {
    if fates(c).Kill? then Ret(w, c + 1, Died)
    else if fates(c).Done? && w.previous == Some(j.source) then Ret(w, c + 2, Unfinished)
    else if j.phase != Prepared || w.binary != j.source then Ret(w, c + 1, UNKNOWN_PREVIOUS)
    else
      var made := After(w, w.(previous := Some(w.binary)), fates(c + 1));
      Ret(made, c + 2, if fates(c + 1).Done? then Unfinished else Bad(fates(c + 1)))
  }

  /** The state recovery reports when the service runs and is healthy. */
  function RecoveredState(w: World, j: Journal): State {
    match j.state
    case Some(state) => state
    case None => if w.binary == j.source || j.action == Rollback then RolledBack else Succeeded
  }

  function RecoverService(w: World, j: Journal, fates: Schedule, c: nat): Ret {
    var active := fates(c).Done? && w.running.Some?;
    if fates(c).Kill? then Ret(w, c + 1, Died)
    else
      var started := if active then w else After(w, StartService(w), fates(c + 1));
      if !active && fates(c + 1).Kill? then Ret(started, c + 2, Died)
      else if !active && !fates(c + 1).Done? then Restore(started, fates, c + 2, "start_failed")
      else if fates(c + 2).Kill? then Ret(started, c + 3, Died)
      else if !fates(c + 2).Done? || started.running.None? then Restore(started, fates, c + 3, "health_check_failed")
      else Ret(started.(proven := started.running), c + 3, Result(RecoveredState(w, j), j.code, ""))
  }

  /** `Recover`, for a journal that exists. */
  function Recover(w: World, run: string, fates: Schedule, c: nat): Ret
    requires w.journal.Some?
  {
    var j := w.journal.value;
    if !fates(c).Done? then Ret(w, c + 1, Bad(fates(c)))
    else if j.run != run || j.state == Some(RepairRequired) then Ret(w, c + 1, REPAIR)
    else if !fates(c + 1).Done? then Ret(w, c + 2, Bad(fates(c + 1)))
    else if w.binary != j.source && w.binary != j.target then Ret(w, c + 2, UNKNOWN_BINARY)
    else
      var ready := EnsurePrevious(w, j, fates, c + 2);
      if !ready.out.Unfinished? then ready
      else Close(RecoverService(ready.world, j, fates, ready.clock), j, fates)
  }

  /** `Install` or `Rollback`: recovery first; then the checks before the switch, as one
      oracle. */
  function Enter(w: World, run: string, action: Action, image: Image, fates: Schedule, c: nat): Ret {
    if w.journal.Some? then Recover(w, run, fates, c)
    else if !fates(c).Done? then Ret(w, c + 1, if fates(c).Kill? then Died else Result(Failed, "preflight_failed", ""))
    else if action == Rollback then
      match w.previous
      case None => Ret(w, c + 1, Result(Failed, "previous_missing", ""))
      case Some(image) => SwitchRelease(w, run, action, image, fates, c + 1)
    else SwitchRelease(w, run, action, image, fates, c + 1)
  }

  /** `finishRequest`: the terminal result is published unless there is one already; a
      result that differs from the published one stops it, and only then the journal of a
      run that needs no repair is cleared. */
  function Finish(w: World, run: string, state: State, fates: Schedule, c: nat): World {
    var told := After(w, w.(published := if run in w.published then w.published else w.published[run := state]), fates(c));
    if !fates(c).Done? || told.published[run] != state || state == RepairRequired then told
    else if told.journal.Some? && told.journal.value.run != run then told
    else After(told, told.(journal := None), fates(c + 1))
  }

  /** A request, and the steps of the activation that finds it. */
  datatype Call = Call(run: string, action: Action, image: Image, fates: Schedule)

  /** `runInstallerAt`: a journal comes first, and it is its own request that is recovered,
      whether or not that has a result; only without one the request is looked at. */
  function Invoke(w: World, call: Call): World {
    match w.journal
    case Some(j) =>
      var r := Recover(w, j.run, call.fates, 0);
      if r.out.Result? then Finish(r.world, j.run, r.out.state, call.fates, r.clock) else r.world
    case None =>
      if call.run in w.published then Finish(w, call.run, w.published[call.run], call.fates, 0)
      else
        var r := Enter(w, call.run, call.action, call.image, call.fates, 0);
        if r.out.Result? then Finish(r.world, call.run, r.out.state, call.fates, r.clock) else r.world
  }

  // --------------------------------------------------------------- invariant

  predicate KnownState(w: World, j: Journal) {
    && j.state != Some(Failed) && (j.state == Some(Succeeded) ==> j.action == Apply)
    && (w.binary == j.source || w.binary == j.target)
    && (w.previous == Some(j.source) || (j.phase == Prepared && w.binary == j.source))
    && (j.action == Apply && j.state == Some(RolledBack) ==> w.binary == j.source)
  }

  /** The crash invariant: a running service runs the binary that is in place, and as long
      as a journal does not ask for repair the binary is its source or its target, and the
      previous copy is its source unless nothing was changed yet. */
  predicate Crashproof(w: World) {
    && (w.running.Some? ==> w.running == Some(w.binary))
    && (w.proven.Some? ==> w.proven == w.running)
    && (w.journal.Some? && w.journal.value.state != Some(RepairRequired) ==> KnownState(w, w.journal.value))
  }

  /** What a restore does, wherever it is cut off. */
  lemma RestoreMeans(w: World, fates: Schedule, c: nat, code: string)
    requires w.running.Some? ==> w.running == Some(w.binary)
    requires w.proven.Some? ==> w.proven == w.running
    ensures var r := Restore(w, fates, c, code);
            && r.world == w.(binary := r.world.binary, running := r.world.running, proven := r.world.proven)
            && (r.world.running.Some? ==> r.world.running == Some(r.world.binary))
            && (r.world.proven.Some? ==> r.world.proven == r.world.running)
            && (r.world.binary == w.binary || Some(r.world.binary) == w.previous)
            && (r.out == Died || r.out == REPAIR || r.out == Result(RolledBack, code, ""))
            && (r.out == Result(RolledBack, code, "") ==>
                  Some(r.world.binary) == w.previous && r.world.running == r.world.proven == w.previous)
  {
  }

  /** `w` is inside a switch or recovery of `j`: the previous copy is safe. */
  predicate Inside(w: World, j: Journal) {
    && (w.running.Some? ==> w.running == Some(w.binary))
    && (w.proven.Some? ==> w.proven == w.running)
    && w.previous == Some(j.source) && (w.binary == j.source || w.binary == j.target)
    && w.journal.Some? && SameButProgress(w.journal.value, j)
  }

  predicate SameButProgress(a: Journal, j: Journal) {
    a == j.(phase := a.phase, state := a.state, code := a.code)
  }

  /** What the body of a switch or of a recovery guarantees when it returns. */
  predicate Returned(r: Ret, j: Journal) {
    && Inside(r.world, j)
    && (r.out.Result? ==> r.out.state != Failed)
    && (r.out.Result? && r.out.state != RepairRequired ==> r.world.running == r.world.proven == Some(r.world.binary))
  }

  /** ... and of a switch of `j` in particular. */
  predicate SwitchReturned(r: Ret, j: Journal) {
    && Returned(r, j)
    && r.world.journal.value.state == j.state
    && (r.out.Result? && r.out.state == Succeeded ==> j.action == Apply && r.world.binary == j.target)
    && (r.out.Result? && r.out.state == RolledBack ==> r.world.binary == if j.action == Rollback && r.out.code == "" then j.target else j.source)
  }

  lemma RestoreReturns(w: World, j: Journal, fates: Schedule, c: nat, code: string)
    requires Inside(w, j) && code != "" && w.journal.value.state == j.state
    ensures SwitchReturned(Restore(w, fates, c, code), j)
  {
    RestoreMeans(w, fates, c, code);
  }

  lemma ReplacedReturns(w: World, j: Journal, fates: Schedule, c: nat)
    requires Inside(w, j) && w.binary == j.target && w.running.None? && w.journal.value.state == j.state
    ensures SwitchReturned(SwitchReplaced(w, j, fates, c), j)
  {
    var started := After(w, StartService(w), fates(c));
    assert Inside(started, j);
    if fates(c).Fails? || fates(c).FailsLate? {
      RestoreReturns(started, j, fates, c + 1, "start_failed");
    } else if fates(c).Done? {
      var marked := Mark(started, j, Started, fates(c + 1));
      assert Inside(marked, j);
      if fates(c + 1).Done? && !fates(c + 2).Kill? && (!fates(c + 2).Done? || marked.running.None?) {
        RestoreReturns(marked, j, fates, c + 3, "health_check_failed");
      }
    }
  }

  lemma StoppedReturns(w: World, j: Journal, fates: Schedule, c: nat)
    requires Inside(w, j) && w.binary == j.source && w.running.None? && w.journal.value.state == j.state
    ensures SwitchReturned(SwitchStopped(w, j, fates, c), j)
  {
    var stopped := Mark(w, j, Stopped, fates(c));
    assert Inside(stopped, j);
    if fates(c).Done? {
      var replaced := After(stopped, Replace(stopped, j.target), fates(c + 1));
      assert Inside(replaced, j);
      if fates(c + 1).Fails? || fates(c + 1).FailsLate? {
        RestoreReturns(replaced, j, fates, c + 2, "switch_failed");
      } else if fates(c + 1).Done? {
        var switched := Mark(replaced, j, Phase.Switched, fates(c + 2));
        if fates(c + 2).Done? {
          ReplacedReturns(switched, j, fates, c + 3);
        }
      }
    }
  }

  /** A switch of `j` begun on a binary that is its source. The previous copy may be
      anything until the backup is made, and then a failure asks for repair. */
  predicate Backed(r: Ret, j: Journal) {
    || SwitchReturned(r, j)
    || (&& (r.out == Died || r.out == REPAIR)
        && (r.world.running.Some? ==> r.world.running == Some(r.world.binary))
        && (r.world.proven.Some? ==> r.world.proven == r.world.running)
        && r.world.binary == j.source && r.world.journal == Some(j))
  }

  lemma BodyReturns(w: World, j: Journal, fates: Schedule, c: nat)
    requires Crashproof(w) && w.journal == Some(j) && w.binary == j.source && j.phase == Prepared && j.state.None?
    ensures Backed(SwitchBody(w, j, fates, c), j)
  {
    var backed := After(w, w.(previous := Some(w.binary)), fates(c));
    if fates(c).Done? && fates(c + 1).Done? {
      assert Inside(backed, j);
      var stopped := After(backed, StopService(backed), fates(c + 2));
      assert Inside(stopped, j);
      if fates(c + 2).Fails? || fates(c + 2).FailsLate? {
        RestoreReturns(stopped, j, fates, c + 3, "stop_failed");
      } else if fates(c + 2).Done? {
        StoppedReturns(stopped, j, fates, c + 3);
      }
    }
  }

  /** The outcome of a fresh switch is the state of the world: success is the new binary,
      with the old one as previous copy, running and proven; rolled back without an error
      code, of a rollback, the same; rolled back with one, the old binary running and
      proven. A crash anywhere leaves a world recovery understands. */
  lemma SwitchIsSound(w: World, run: string, action: Action, image: Image, fates: Schedule, c: nat)
    requires Crashproof(w) && w.journal.None?
    ensures var r := SwitchRelease(w, run, action, image, fates, c);
            && Crashproof(r.world) && r.world.published == w.published
            && (r.out.Result? && r.out.state == Succeeded ==>
                  action == Apply && r.world.binary == image && r.world.previous == Some(w.binary)
                  && r.world.running == r.world.proven == Some(image))
            && (r.out.Result? && r.out.state == RolledBack ==>
                  && r.world.binary == (if action == Rollback && r.out.code == "" then image else w.binary)
                  && r.world.previous == Some(w.binary)
                  && r.world.running == r.world.proven == Some(r.world.binary))
  {
    if fates(c).Done? {
      var j := Journal(run, action, w.binary, image, Prepared, None, "");
      var begun := After(w, Write(w, j), fates(c + 1));
      if fates(c + 1).Done? {
        BodyReturns(begun, j, fates, c + 2);
        BodyKeepsPublished(begun, j, fates, c + 2);
      }
    }
  }

  lemma BodyKeepsPublished(w: World, j: Journal, fates: Schedule, c: nat)
    ensures SwitchBody(w, j, fates, c).world.published == w.published
  {
  }

  // ---------------------------------------------------------------- recovery

  /** Success was journaled, but the binary has been restored since. */
  predicate Stale(w: World) {
    && w.journal.Some? && w.journal.value.action == Apply
    && w.journal.value.state == Some(Succeeded) && w.binary != w.journal.value.target
  }

  lemma EnsureMeans(w: World, j: Journal, fates: Schedule, c: nat)
    requires Crashproof(w) && w.journal == Some(j) && j.state != Some(RepairRequired)
    ensures var r := EnsurePrevious(w, j, fates, c);
            && Crashproof(r.world) && r.world == w.(previous := r.world.previous)
            && (r.out.Unfinished? ==> Inside(r.world, j))
            && (r.out.Unfinished? || r.out == Died || r.out == REPAIR || (r.out == UNKNOWN_PREVIOUS && !fates(c).Done?))
  {
  }

  /** What the service part of a recovery of `j` may return. */
  predicate ServiceReturned(w: World, j: Journal, r: Ret) {
    && Returned(r, j) && !r.out.Unfinished?
    && r.world.journal == w.journal && r.world.published == w.published
    && (r.out.Result? && r.out.state == Succeeded ==>
          r.world.binary == w.binary && r.out.code == j.code && RecoveredState(w, j) == Succeeded)
    && (r.out.Result? && r.out.state == RolledBack ==>
          r.world.binary == j.source || (r.world.binary == w.binary && RecoveredState(w, j) == RolledBack))
  }

  lemma RestoreReturned(w: World, started: World, j: Journal, fates: Schedule, c: nat, code: string)
    requires Inside(started, j) && started.journal == w.journal && started.published == w.published
    ensures ServiceReturned(w, j, Restore(started, fates, c, code))
  {
    RestoreMeans(started, fates, c, code);
  }

  lemma ServiceReturns(w: World, j: Journal, fates: Schedule, c: nat)
    requires Inside(w, j) && w.journal == Some(j) && j.state != Some(RepairRequired) && j.state != Some(Failed)
    ensures ServiceReturned(w, j, RecoverService(w, j, fates, c))
  {
    var active := fates(c).Done? && w.running.Some?;
    if !fates(c).Kill? {
      var started := if active then w else After(w, StartService(w), fates(c + 1));
      assert Inside(started, j);
      RestoreReturned(w, started, j, fates, c + 2, "start_failed");
      RestoreReturned(w, started, j, fates, c + 3, "health_check_failed");
    }
  }

  /** What holds of a recovery that got as far as the service. */
  predicate RecoveredSoundly(w: World, j: Journal, r: Ret) {
    && Crashproof(r.world) && r.world.published == w.published && r.world.journal.Some?
    && SameButProgress(r.world.journal.value, j)
    && r.out != UNKNOWN_BINARY && r.out != UNKNOWN_PREVIOUS
    && (r.out.Result? && r.out.state != RepairRequired ==>
          r.world.running == r.world.proven == Some(r.world.binary) && r.world.previous == Some(j.source))
    && (r.out.Result? && r.out.state == Succeeded ==> j.action == Apply && (r.world.binary == j.target <==> !Stale(w)))
    && (r.out.Result? && r.out.state == RolledBack && j.action == Apply ==> r.world.binary == j.source)
  }

  lemma ServiceIsSound(w: World, ready: World, j: Journal, fates: Schedule, c: nat)
    requires Crashproof(w) && w.journal == Some(j) && j.state != Some(RepairRequired)
    requires ready == w.(previous := ready.previous) && Inside(ready, j)
    ensures RecoveredSoundly(w, j, Close(RecoverService(ready, j, fates, c), j, fates))
  {
    ServiceReturns(ready, j, fates, c);
    assert RecoverService(ready, j, fates, c).out != UNKNOWN_BINARY && RecoverService(ready, j, fates, c).out != UNKNOWN_PREVIOUS;
  }

  /** Outcome soundness of recovery, and exactly when it fails. Whatever the crash before
      it, recovery never meets an unknown binary, and an unknown previous copy only if the
      copy cannot be read. Success of an apply leaves the service running and proven, and
      it is the new binary that runs unless success was journaled and the binary restored
      since: then, and only then, recovery reports success for the old binary. Rolled back
      of an apply is always the old binary, running and proven. */
  lemma RecoverIsSound(w: World, run: string, fates: Schedule, c: nat)
    requires Crashproof(w) && w.journal.Some?
    ensures var r, j := Recover(w, run, fates, c), w.journal.value;
            && Crashproof(r.world) && r.world.published == w.published && r.world.journal.Some?
            && SameButProgress(r.world.journal.value, j)
            && r.out != UNKNOWN_BINARY && (r.out == UNKNOWN_PREVIOUS ==> !fates(c + 2).Done?)
            && (r.out.Result? && r.out.state != RepairRequired ==>
                  r.world.running == r.world.proven == Some(r.world.binary) && r.world.previous == Some(j.source))
            && (r.out.Result? && r.out.state == Succeeded ==>
                  j.action == Apply && (r.world.binary == j.target <==> !Stale(w)))
            && (r.out.Result? && r.out.state == RolledBack && j.action == Apply ==> r.world.binary == j.source)
  {
    var j := w.journal.value;
    if fates(c).Done? && j.run == run && j.state != Some(RepairRequired) && fates(c + 1).Done? {
      EnsureMeans(w, j, fates, c + 2);
      var ready := EnsurePrevious(w, j, fates, c + 2);
      if ready.out.Unfinished? {
        ServiceIsSound(w, ready.world, j, fates, ready.clock);
      }
    }
  }

  /** Where a stale journal comes from: success had been journaled, and a recovery that
      restored the old binary died or could not write its journal. */
  lemma StaleComesFromALostWrite(w: World, run: string, fates: Schedule, c: nat)
    requires Crashproof(w) && w.journal.Some? && !Stale(w) && Stale(Recover(w, run, fates, c).world)
    ensures w.journal.value.state == Some(Succeeded)
    ensures Recover(w, run, fates, c).out == Died || Recover(w, run, fates, c).out == REPAIR
  {
    var j := w.journal.value;
    RecoverIsSound(w, run, fates, c);
    if fates(c).Done? && j.run == run && j.state != Some(RepairRequired) && fates(c + 1).Done? {
      EnsureMeans(w, j, fates, c + 2);
      var ready := EnsurePrevious(w, j, fates, c + 2);
      if ready.out.Unfinished? {
        ServiceReturns(ready.world, j, fates, ready.clock);
      }
    }
  }

  /** No activation gets past a journal that asks for repair: it stays as it is, and so do
      the binary and its previous copy. */
  lemma RepairAbsorbs(w: World, call: Call)
    requires w.journal.Some? && w.journal.value.state == Some(RepairRequired)
    ensures Invoke(w, call) == w.(published := Invoke(w, call).published)
  {
  }

  // -------------------------------------------------------------------- runs

  function Calls(w: World, calls: seq<Call>): World {
    if calls == [] then w else Invoke(Calls(w, calls[..|calls| - 1]), calls[|calls| - 1])
  }

  lemma FinishKeeps(w: World, run: string, state: State, fates: Schedule, c: nat)
    requires Crashproof(w)
    ensures Crashproof(Finish(w, run, state, fates, c))
  {
  }

  lemma InvokeKeeps(w: World, call: Call)
    requires Crashproof(w)
    ensures Crashproof(Invoke(w, call))
  {
    if w.journal.Some? {
      RecoverIsSound(w, w.journal.value.run, call.fates, 0);
      var r := Recover(w, w.journal.value.run, call.fates, 0);
      if r.out.Result? {
        FinishKeeps(r.world, w.journal.value.run, r.out.state, call.fates, r.clock);
      }
    } else if call.run in w.published {
      FinishKeeps(w, call.run, w.published[call.run], call.fates, 0);
    } else {
      EnterKeeps(w, call.run, call.action, call.image, call.fates);
      var r := Enter(w, call.run, call.action, call.image, call.fates, 0);
      if r.out.Result? {
        FinishKeeps(r.world, call.run, r.out.state, call.fates, r.clock);
      }
    }
  }

  lemma EnterKeeps(w: World, run: string, action: Action, image: Image, fates: Schedule)
    requires Crashproof(w)
    ensures Crashproof(Enter(w, run, action, image, fates, 0).world)
  {
    if w.journal.Some? {
      RecoverIsSound(w, run, fates, 0);
    } else if action == Rollback && w.previous.Some? {
      SwitchIsSound(w, run, action, w.previous.value, fates, 1);
    } else {
      SwitchIsSound(w, run, action, image, fates, 1);
    }
  }

  /** The crash invariant holds after any number of activations, for any requests, each
      cut off or failing wherever it will. */
  lemma {:induction false} AlwaysCrashproof(w: World, calls: seq<Call>)
    requires Crashproof(w)
    ensures Crashproof(Calls(w, calls))
  {
    if calls != [] {
      AlwaysCrashproof(w, calls[..|calls| - 1]);
      InvokeKeeps(Calls(w, calls[..|calls| - 1]), calls[|calls| - 1]);
    }
  }

  /** Two rollbacks that each go through restore the pair of binary and previous copy. */
  lemma TwoRollbacksRestore(w: World, run1: string, run2: string, fates1: Schedule, fates2: Schedule, c1: nat, c2: nat)
    requires Crashproof(w) && w.journal.None? && w.previous.Some?
    requires SwitchRelease(w, run1, Rollback, w.previous.value, fates1, c1).out == Result(RolledBack, "", "")
    ensures var mid := SwitchRelease(w, run1, Rollback, w.previous.value, fates1, c1).world.(journal := None);
            mid.previous.Some?
            && (SwitchRelease(mid, run2, Rollback, mid.previous.value, fates2, c2).out == Result(RolledBack, "", "") ==>
                  var end := SwitchRelease(mid, run2, Rollback, mid.previous.value, fates2, c2).world;
                  end.binary == w.binary && end.previous == w.previous)
  {
    SwitchIsSound(w, run1, Rollback, w.previous.value, fates1, c1);
    var mid := SwitchRelease(w, run1, Rollback, w.previous.value, fates1, c1).world.(journal := None);
    SwitchIsSound(mid, run2, Rollback, mid.previous.value, fates2, c2);
  }

  // ---------------------------------------------------- where soundness fails

  const allDone: Schedule := n => Done
  /** The step after which nothing more happens. */
  function DiesAt(k: nat): Schedule {
    n => if n == k then Kill else Done
  }

  function FailsAt(k: nat): Schedule {
    n => if n == k then Fails else Done
  }

  function FailsThenDies(k: nat, d: nat): Schedule {
    n => if n == k then Fails else if n == d then Kill else Done
  }

  lemma SwitchIsKilledUnpublished(old0: Image, new0: Image, run: string)
    requires old0 != new0
    ensures var w := World(old0, None, Some(old0), None, None, map[]);
            Invoke(w, Call(run, Apply, new0, DiesAt(14)))
            == World(new0, Some(old0), Some(new0), Some(new0), Some(Journal(run, Apply, old0, new0, Terminal, Some(Succeeded), "")), map[])
  {
  }

  lemma RestoreIsKilledUnjournaled(old0: Image, new0: Image, run: string)
    requires old0 != new0
    ensures var j := Journal(run, Apply, old0, new0, Terminal, Some(Succeeded), "");
            Invoke(World(new0, Some(old0), Some(new0), Some(new0), Some(j), map[]), Call(run, Apply, new0, FailsThenDies(6, 13)))
            == World(old0, Some(old0), Some(old0), Some(old0), Some(j), map[])
  {
  }

  lemma StaleJournalIsTrusted(old0: Image, new0: Image, run: string)
    requires old0 != new0
    ensures var j := Journal(run, Apply, old0, new0, Terminal, Some(Succeeded), "");
            Invoke(World(old0, Some(old0), Some(old0), Some(old0), Some(j), map[]), Call(run, Apply, new0, allDone))
            == World(old0, Some(old0), Some(old0), Some(old0), None, map[run := Succeeded])
  {
  }

  /** A run that ends with success published for the old binary: an update goes through
      and is killed before its result is published; the next activation finds the service
      unhealthy, restores the old binary and is killed before it can journal that; the
      third finds everything healthy and trusts the journal. */
  lemma StaleSuccess(old0: Image, new0: Image, run: string) returns (w: World, calls: seq<Call>)
    requires old0 != new0
    ensures Crashproof(w) && w.journal.None? && w.binary == old0 && |calls| == 3
    ensures forall i :: 0 <= i < 3 ==> calls[i].run == run && calls[i].action == Apply && calls[i].image == new0
    ensures Calls(w, calls).binary == old0
    ensures run in Calls(w, calls).published && Calls(w, calls).published[run] == Succeeded
  {
    w := World(old0, None, Some(old0), None, None, map[]);
    var a, b, c := Call(run, Apply, new0, DiesAt(14)), Call(run, Apply, new0, FailsThenDies(6, 13)), Call(run, Apply, new0, allDone);
    calls := [a, b, c];
    SwitchIsKilledUnpublished(old0, new0, run);
    RestoreIsKilledUnjournaled(old0, new0, run);
    StaleJournalIsTrusted(old0, new0, run);
    assert [a][..0] == [] && [a, b][..1] == [a] && calls[..2] == [a, b];
    assert Calls(w, [a]) == Invoke(w, a);
    assert Calls(w, [a, b]) == Invoke(Calls(w, [a]), b);
    assert Calls(w, calls) == Invoke(Calls(w, [a, b]), c);
  }

  lemma SwitchIsKilledUncleared(old0: Image, new0: Image, run: string)
    requires old0 != new0
    ensures var w := World(old0, None, Some(old0), None, None, map[]);
            Invoke(w, Call(run, Apply, new0, DiesAt(15)))
            == World(new0, Some(old0), Some(new0), Some(new0), Some(Journal(run, Apply, old0, new0, Terminal, Some(Succeeded), "")), map[run := Succeeded])
  {
  }

  lemma PublishedIsRestored(old0: Image, new0: Image, run: string)
    requires old0 != new0
    ensures var j := Journal(run, Apply, old0, new0, Terminal, Some(Succeeded), "");
            Invoke(World(new0, Some(old0), Some(new0), Some(new0), Some(j), map[run := Succeeded]), Call(run, Apply, new0, FailsAt(6)))
            == World(old0, Some(old0), Some(old0), Some(old0), Some(j.(state := Some(RolledBack), code := "health_check_failed")), map[run := Succeeded])
  {
  }

  /** The other way to the same end: the update is killed after its success was published
      and before its journal was cleared; the next activation recovers it once more, finds
      the service unhealthy and restores the old binary. Nothing is stale here, and the
      disagreement is never cleared (`DisagreementStays`). */
  lemma RestoredAfterPublication(old0: Image, new0: Image, run: string) returns (w: World, calls: seq<Call>)
    requires old0 != new0
    ensures Crashproof(w) && w.journal.None? && w.binary == old0 && |calls| == 2
    ensures forall i :: 0 <= i < 2 ==> calls[i].run == run && calls[i].action == Apply && calls[i].image == new0
    ensures !Stale(Calls(w, calls[..1])) && Calls(w, calls).binary == old0
    ensures run in Calls(w, calls).published && Calls(w, calls).published[run] == Succeeded
    ensures Disagrees(Calls(w, calls))
  {
    w := World(old0, None, Some(old0), None, None, map[]);
    var a, b := Call(run, Apply, new0, DiesAt(15)), Call(run, Apply, new0, FailsAt(6));
    calls := [a, b];
    SwitchIsKilledUncleared(old0, new0, run);
    PublishedIsRestored(old0, new0, run);
    assert [a][..0] == [] && calls[..1] == [a];
    assert Calls(w, [a]) == Invoke(w, a);
    assert Calls(w, calls) == Invoke(Calls(w, [a]), b);
  }

  /** The journal says rolled back, or asks for repair, and the published result says
      success. */
  predicate Disagrees(w: World) {
    && w.journal.Some? && w.journal.value.state in {Some(RolledBack), Some(RepairRequired)}
    && w.journal.value.run in w.published && w.published[w.journal.value.run] == Succeeded
  }

  lemma DisagreementOutlivesOne(w: World, call: Call)
    requires Crashproof(w) && Disagrees(w)
    ensures var v := Invoke(w, call);
            Disagrees(v) && v.published == w.published && v.journal.value.run == w.journal.value.run
  {
    var j := w.journal.value;
    RecoverIsSound(w, j.run, call.fates, 0);
    if call.fates(0).Done? && j.state == Some(RolledBack) && call.fates(1).Done? {
      EnsureMeans(w, j, call.fates, 2);
      var ready := EnsurePrevious(w, j, call.fates, 2);
      if ready.out.Unfinished? {
        ServiceReturns(ready.world, j, call.fates, ready.clock);
      }
    }
  }

  /** From then on no activation of any request clears the journal or publishes anything:
      no further update starts. */
  lemma {:induction false} DisagreementStays(w: World, calls: seq<Call>)
    requires Crashproof(w) && Disagrees(w)
    ensures var v := Calls(w, calls);
            Disagrees(v) && v.published == w.published && v.journal.value.run == w.journal.value.run
  {
    if calls != [] {
      DisagreementStays(w, calls[..|calls| - 1]);
      AlwaysCrashproof(w, calls[..|calls| - 1]);
      DisagreementOutlivesOne(Calls(w, calls[..|calls| - 1]), calls[|calls| - 1]);
    }
  }

  // ----------------------------------------------------------- the program

  class Updater {
    var world: World
    var clock: nat
    const fates: Schedule

    constructor (world: World, fates: Schedule)
      ensures this.world == world && this.clock == 0 && this.fates == fates
    {
      this.world := world;
      this.clock := 0;
      this.fates := fates;
    }

    /** One step with the effect `after`, as its fate decides. */
    method Take(after: World) returns (fate: Fate)
      modifies this
      ensures fate == fates(old(clock)) && clock == old(clock) + 1
      ensures world == After(old(world), after, fate)
    {
      fate := fates(clock);
      clock := clock + 1;
      if Took(fate) {
        world := after;
      }
    }

    method WriteJournal(j: Journal) returns (fate: Fate)
      modifies this
      ensures fate == fates(old(clock)) && clock == old(clock) + 1
      ensures world == After(old(world), Write(old(world), j), fate)
    {
      fate := Take(Write(world, j));
    }

    method RollbackAfterFailure(code: string) returns (out: Outcome)
      modifies this
      ensures Ret(world, clock, out) == Restore(old(world), fates, old(clock), code)
    {
      var fate := Take(world);
      if fate.Kill? { return Died; }
      fate := Take(world);
      if !fate.Done? || world.previous.None? { return Bad(fate); }
      var saved := world.previous.value;
      fate := Take(StopService(world));
      if !fate.Done? { return Bad(fate); }
      fate := Take(Replace(world, saved));
      if !fate.Done? { return Bad(fate); }
      fate := Take(StartService(world));
      if !fate.Done? { return Bad(fate); }
      fate := Take(world);
      if !fate.Done? { return Bad(fate); }
      world := world.(proven := world.running);
      out := Result(RolledBack, code, "");
    }

    /** The service is stopped: rename, with a checkpoint before and after. */
    method SwitchAfterStop(j: Journal) returns (out: Outcome)
      modifies this
      ensures Ret(world, clock, out) == SwitchStopped(old(world), j, fates, old(clock))
    {
      var fate := WriteJournal(j.(phase := Stopped));
      if !fate.Done? { return Torn(fate); }
      fate := Take(Replace(world, j.target));
      if fate.Kill? { return Died; }
      if !fate.Done? {
        out := RollbackAfterFailure("switch_failed");
        return;
      }
      fate := WriteJournal(j.(phase := Switched));
      if !fate.Done? { return Torn(fate); }
      out := StartAndVerify(j);
    }

    /** The binary is replaced: start and verify, with a checkpoint after each. */
    method StartAndVerify(j: Journal) returns (out: Outcome)
      modifies this
      ensures Ret(world, clock, out) == SwitchReplaced(old(world), j, fates, old(clock))
    {
      var fate := Take(StartService(world));
      if fate.Kill? { return Died; }
      if !fate.Done? {
        out := RollbackAfterFailure("start_failed");
        return;
      }
      fate := WriteJournal(j.(phase := Started));
      if !fate.Done? { return Torn(fate); }
      fate := Take(world);
      if fate.Kill? { return Died; }
      if !fate.Done? || world.running.None? {
        out := RollbackAfterFailure("health_check_failed");
        return;
      }
      world := world.(proven := world.running);
      fate := WriteJournal(j.(phase := Verified));
      if !fate.Done? { return Torn(fate); }
      out := Result(if j.action == Rollback then RolledBack else Succeeded, "", "");
    }

    method SwitchFiles(j: Journal) returns (out: Outcome)
      modifies this
      ensures Ret(world, clock, out) == SwitchBody(old(world), j, fates, old(clock))
    {
      var fate := Take(world.(previous := Some(world.binary)));
      if !fate.Done? { return Bad(fate); }
      fate := Take(world);
      if !fate.Done? { return Bad(fate); }
      fate := Take(StopService(world));
      if fate.Kill? { return Died; }
      if !fate.Done? {
        out := RollbackAfterFailure("stop_failed");
        return;
      }
      out := SwitchAfterStop(j);
    }

    /** The terminal journal write: it can turn any result into one that asks for repair. */
    method PersistRecovered(j: Journal, result: Outcome) returns (out: Outcome)
      modifies this
      ensures Ret(world, clock, out) == Close(Ret(old(world), old(clock), result), j, fates)
    {
      if !result.Result? { return result; }
      var fate := WriteJournal(j.(phase := Terminal, state := Some(result.state), code := result.code));
      out := if fate.Done? then result else Bad(fate);
    }

    /** `switchRelease`: what it returns and leaves behind is the function SwitchRelease. */
    method RunSwitchRelease(run: string, action: Action, image: Image) returns (out: Outcome)
      modifies this
      ensures Ret(world, clock, out) == SwitchRelease(old(world), run, action, image, fates, old(clock))
    {
      var fate := Take(world);
      if fate.Kill? { return Died; }
      if !fate.Done? { return Result(Failed, "current_binary_invalid", ""); }
      var j := Journal(run, action, world.binary, image, Prepared, None, "");
      fate := WriteJournal(j);
      if !fate.Done? { return Bad(fate); }
      var result := SwitchFiles(j);
      out := PersistRecovered(j, result);
    }

    method RestorePrevious(j: Journal) returns (out: Outcome)
      modifies this
      ensures Ret(world, clock, out) == EnsurePrevious(old(world), j, fates, old(clock))
    {
      var fate := Take(world);
      if fate.Kill? { return Died; }
      if fate.Done? && world.previous == Some(j.source) {
        clock := clock + 1;
        return Unfinished;
      }
      if j.phase != Prepared || world.binary != j.source { return UNKNOWN_PREVIOUS; }
      fate := Take(world.(previous := Some(world.binary)));
      out := if fate.Done? then Unfinished else Bad(fate);
    }

    method ReviveService(j: Journal) returns (out: Outcome)
      modifies this
      ensures Ret(world, clock, out) == RecoverService(old(world), j, fates, old(clock))
    {
      var state := RecoveredState(world, j);
      var fate := Take(world);
      if fate.Kill? { return Died; }
      if !(fate.Done? && world.running.Some?) {
        fate := Take(StartService(world));
        if fate.Kill? { return Died; }
        if !fate.Done? {
          out := RollbackAfterFailure("start_failed");
          return;
        }
      } else {
        clock := clock + 1;
      }
      fate := Take(world);
      if fate.Kill? { return Died; }
      if !fate.Done? || world.running.None? {
        out := RollbackAfterFailure("health_check_failed");
        return;
      }
      world := world.(proven := world.running);
      out := Result(state, j.code, "");
    }

    /** `Recover`: what it returns and leaves behind is the function Recover. */
    method RunRecover(run: string) returns (out: Outcome)
      requires world.journal.Some?
      modifies this
      ensures Ret(world, clock, out) == Recover(old(world), run, fates, old(clock))
    {
      var j := world.journal.value;
      var fate := Take(world);
      if !fate.Done? { return Bad(fate); }
      if j.run != run || j.state == Some(RepairRequired) { return REPAIR; }
      fate := Take(world);
      if !fate.Done? { return Bad(fate); }
      if world.binary != j.source && world.binary != j.target { return UNKNOWN_BINARY; }
      out := RestorePrevious(j);
      if !out.Unfinished? { return; }
      var result := ReviveService(j);
      out := PersistRecovered(j, result);
    }

    /** `Install` and `Rollback`. */
    method RunEnter(run: string, action: Action, image: Image) returns (out: Outcome)
      modifies this
      ensures Ret(world, clock, out) == Enter(old(world), run, action, image, fates, old(clock))
    {
      if world.journal.Some? {
        out := RunRecover(run);
        return;
      }
      var fate := Take(world);
      if fate.Kill? { return Died; }
      if !fate.Done? { return Result(Failed, "preflight_failed", ""); }
      if action == Apply {
        out := RunSwitchRelease(run, action, image);
      } else if world.previous.None? {
        out := Result(Failed, "previous_missing", "");
      } else {
        out := RunSwitchRelease(run, action, world.previous.value);
      }
    }

    /** `finishRequest`. */
    method FinishRequest(run: string, state: State)
      modifies this
      ensures world == Finish(old(world), run, state, fates, old(clock))
    {
      var fate := Take(world.(published := if run in world.published then world.published else world.published[run := state]));
      if !fate.Done? || world.published[run] != state || state == RepairRequired { return; }
      if world.journal.Some? && world.journal.value.run != run { return; }
      fate := Take(world.(journal := None));
    }

    /** `runInstallerAt`: one activation has exactly the effect Invoke. */
    method RunInstaller(run: string, action: Action, image: Image)
      requires clock == 0
      modifies this
      ensures world == Invoke(old(world), Call(run, action, image, fates))
    {
      if world.journal.None? && run in world.published {
        FinishRequest(run, world.published[run]);
        return;
      }
      var subject := if world.journal.Some? then world.journal.value.run else run;
      var out := RunEnter(subject, action, image);
      if out.Result? {
        FinishRequest(subject, out.state);
      }
    }
  }
}
