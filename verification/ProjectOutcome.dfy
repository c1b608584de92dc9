/** What the results of the project updater promise about the steps behind them: services
    started, health, databases and identities checked; and what an update that nothing, or
    only one step, disturbs ends in.
    Models deploy/vps/project_update.py: rollback, apply, install and main. */
module ProjectOutcome {
  import opened Wrappers
  import opened Fates
  import opened ProjectUpdate

  predicate AllDone(fates: Schedule, from: nat, to: nat) {
    forall n {:trigger fates(n)} :: from <= n < to ==> fates(n).Done?
  }

  /** A part of the program that takes `n` steps from `c` on, and stops at the first that is
      not done. */
  predicate Runs(r: Ret, fates: Schedule, c: nat, n: nat) {
    if r.out == Fine then AllDone(fates, c, c + n) && r.clock == c + n
    else c < r.clock <= c + n && AllDone(fates, c, r.clock - 1) && !fates(r.clock - 1).Done? && r.out == End(fates(r.clock - 1))
  }

  lemma {:induction false} CopyRuns(w: World, copies: seq<Copy>, fates: Schedule, c: nat)
    ensures Runs(CopyAll(w, copies, fates, c), fates, c, |copies|)
  {
    if copies != [] {
      CopyRuns(w, copies[..|copies| - 1], fates, c);
    }
  }

  lemma {:induction false} RestoreRuns(w: World, entries: seq<Entry>, fates: Schedule, c: nat)
    ensures Runs(RestoreAll(w, entries, fates, c), fates, c, |entries|)
  {
    if entries != [] {
      RestoreRuns(w, entries[..|entries| - 1], fates, c);
    }
  }

  /** The number of steps an undo takes: stopping, every file, starting and the checks. */
  function UndoLength(j: Journal): nat {
    if j.phase == Installing then 3 + |j.files| else 2
  }

  lemma UndoRuns(w: World, j: Journal, fates: Schedule, c: nat)
    ensures Runs(Undo(w, j, fates, c), fates, c, UndoLength(j))
  {
    if j.phase == Installing && fates(c).Done? {
      RestoreRuns(w, j.files, fates, c + 1);
    }
  }

  predicate ConfigThere(files: Files, plan: Plan) {
    plan.config in Installed(files, plan.installs)
  }

  lemma ReplaceRuns(w: World, plan: Plan, fates: Schedule, c: nat)
    requires ConfigThere(w.files, plan)
    ensures Runs(Replace(w, plan, fates, c), fates, c, 2 + |plan.installs|)
  {
    CopyRuns(w, plan.installs, fates, c + 1);
    CopyMeans(w, plan.installs, fates, c + 1, plan.config);
  }

  lemma CommitRuns(w: World, plan: Plan, fates: Schedule, c: nat)
    requires w.result.None?
    ensures var r := Commit(w, plan, fates, c);
            && Runs(r, fates, c, 5)
            && (r.world.result == Some(Succeeded) <==> AllDone(fates, c, c + 3) && Took(fates(c + 3)))
            && r.world.result in {None, Some(Succeeded)}
  {
  }

  /** The number of steps before success is published. */
  function Steps(plan: Plan): nat {
    10 + |plan.installs|
  }

  // ------------------------------------------------------------------ results

  lemma ReplaceNeedsEveryStep(w: World, plan: Plan, fates: Schedule, c: nat)
    requires Replace(w, plan, fates, c).out == Fine
    ensures AllDone(fates, c, c + 2 + |plan.installs|) && Replace(w, plan, fates, c).clock == c + 2 + |plan.installs|
  {
    CopyRuns(w, plan.installs, fates, c + 1);
  }

  lemma ReplaceKeepsResult(w: World, plan: Plan, fates: Schedule, c: nat)
    ensures Replace(w, plan, fates, c).world.result == w.result
  {
    ReplaceMeans(w, plan, fates, c);
  }

  /** The try block publishes success only after every step before it was done: all files
      replaced, services started, health and identities checked, the version recorded. */
  lemma TryNeedsEveryStep(w: World, plan: Plan, fates: Schedule, c: nat)
    requires w.result.None?
    ensures var t := TryApply(w, plan, fates, c);
            && t.ret.world.result in {None, Some(Succeeded)}
            && (t.ret.world.result == Some(Succeeded) ==>
                  AllDone(fates, c, c + 7 + |plan.installs|) && Took(fates(c + 7 + |plan.installs|)))
  {
    if fates(c).Done? && fates(c + 1).Done? {
      SwitchNeedsEveryStep(w.(active := Some(Journal(Installing, EntriesOf(w.files, Targets(plan))))), plan, fates, c + 2);
    }
  }

  lemma SwitchNeedsEveryStep(w: World, plan: Plan, fates: Schedule, c: nat)
    requires w.result.None?
    ensures var replaced := Replace(w, plan, fates, c);
            var r := if replaced.out != Fine then replaced else Commit(replaced.world, plan, fates, replaced.clock);
            && r.world.result in {None, Some(Succeeded)}
            && (r.world.result == Some(Succeeded) ==>
                  AllDone(fates, c, c + 5 + |plan.installs|) && Took(fates(c + 5 + |plan.installs|)))
  {
    var replaced := Replace(w, plan, fates, c);
    ReplaceKeepsResult(w, plan, fates, c);
    if replaced.out == Fine {
      ReplaceNeedsEveryStep(w, plan, fates, c);
      CommitRuns(replaced.world, plan, fates, replaced.clock);
    }
  }

  /** An undo changes nothing but files. */
  lemma UndoKeepsResult(w: World, j: Journal, fates: Schedule, c: nat)
    ensures Undo(w, j, fates, c).world.result == w.result && Undo(w, j, fates, c).world.active == w.active
  {
    if j.phase == Installing && fates(c).Done? {
      RestoreKeepsResult(w, j.files, fates, c + 1);
    }
  }

  lemma {:induction false} RestoreKeepsResult(w: World, entries: seq<Entry>, fates: Schedule, c: nat)
    ensures var v := RestoreAll(w, entries, fates, c).world; v.result == w.result && v.active == w.active
  {
    if entries != [] {
      RestoreKeepsResult(w, entries[..|entries| - 1], fates, c);
    }
  }

  /** The except block publishes rolled back only after every step of the undo was done,
      and never success. */
  lemma HandleNeedsEveryStep(t: Tried, fates: Schedule)
    requires t.ret.out == Raised && t.ret.world.result != Some(RolledBack)
    ensures var v := Handle(t, fates).world;
            && (v.result == Some(RolledBack) ==> AllDone(fates, t.ret.clock, t.ret.clock + UndoLength(t.memory)))
            && (v.result == Some(Succeeded) ==> t.ret.world.result == Some(Succeeded))
  {
    UndoRuns(t.ret.world, t.memory, fates, t.ret.clock);
    UndoKeepsResult(t.ret.world, t.memory, fates, t.ret.clock);
  }

  /** The activation starts an update of files that are not at the new version already. */
  predicate Starts(w: World, plan: Plan) {
    w.active.None? && w.result.None? && !(plan.current in w.files && w.files[plan.current] == plan.version)
  }

  lemma BeginRuns(w: World, fates: Schedule)
    ensures Runs(Begin(w, fates, 0), fates, 0, 3)
    ensures Begin(w, fates, 0).out == Fine ==> Begin(w, fates, 0).world == w.(active := Some(Journal(Stopping, [])))
    ensures Begin(w, fates, 0).world.result == w.result
  {
  }

  /** Success is published only by an update that did every one of its steps: none of them,
      the start of the services and their health check among them, is passed over. */
  lemma SuccessNeedsEveryStep(w: World, plan: Plan, fates: Schedule)
    requires Starts(w, plan) && Main(w, plan, fates).result == Some(Succeeded)
    ensures AllDone(fates, 0, Steps(plan)) && Took(fates(Steps(plan)))
  {
    BeginRuns(w, fates);
    var begun := Begin(w, fates, 0);
    if begun.out == Fine {
      TryNeedsEveryStep(begun.world, plan, fates, 3);
      var t := TryApply(begun.world, plan, fates, 3);
      if t.ret.out == Raised {
        HandleNeedsEveryStep(t, fates);
      }
    }
  }

  /** Rolled back is published by a restart only after every step of the undo was done. */
  lemma RolledBackNeedsEveryStep(w: World, plan: Plan, fates: Schedule)
    requires w.active.Some? && w.result.None? && Main(w, plan, fates).result == Some(RolledBack)
    ensures AllDone(fates, 0, 1 + UndoLength(w.active.value))
  {
    UndoRuns(w, w.active.value, fates, 1);
    UndoKeepsResult(w, w.active.value, fates, 1);
  }

  // ------------------------------------------------------- undisturbed updates

  lemma ReplaceGoesWell(w: World, plan: Plan, fates: Schedule, c: nat)
    requires ConfigThere(w.files, plan) && AllDone(fates, c, c + 2 + |plan.installs|)
    ensures var r := Replace(w, plan, fates, c);
            && r.out == Fine && r.clock == c + 2 + |plan.installs| && r.world == w.(files := r.world.files)
            && r.world.files[plan.current := plan.version] == NewFiles(w.files, plan)
  {
    ReplaceRuns(w, plan, fates, c);
    ReplaceMeans(w, plan, fates, c);
  }

  /** An update that nothing disturbs makes every file new, publishes success and leaves no
      journal. */
  lemma SmoothUpdateSucceeds(w: World, plan: Plan, fates: Schedule)
    requires Starts(w, plan) && ConfigThere(w.files, plan) && AllDone(fates, 0, Steps(plan) + 2)
    ensures Main(w, plan, fates) == World(NewFiles(w.files, plan), None, Some(Succeeded))
  {
    var begun := w.(active := Some(Journal(Stopping, [])));
    assert fates(0).Done? && fates(1).Done? && fates(2).Done? && fates(3).Done? && fates(4).Done?;
    assert Begin(w, fates, 0) == Ret(begun, 3, Fine);
    var marked := begun.(active := Some(Journal(Installing, EntriesOf(w.files, Targets(plan)))));
    ReplaceGoesWell(marked, plan, fates, 5);
    var replaced := Replace(marked, plan, fates, 5);
    CommitGoesWell(replaced.world, plan, fates, replaced.clock);
  }

  lemma CommitGoesWell(w: World, plan: Plan, fates: Schedule, c: nat)
    requires AllDone(fates, c, c + 5)
    ensures Commit(w, plan, fates, c) == Ret(World(w.files[plan.current := plan.version], None, Some(Succeeded)), c + 5, Fine)
  {
    assert fates(c).Done? && fates(c + 1).Done? && fates(c + 2).Done? && fates(c + 3).Done? && fates(c + 4).Done?;
  }

  // ------------------------------------------------------------- one failure

  /** Step `k` fails, with or without effect, and every other is done. */
  ghost predicate OnlyFails(fates: Schedule, k: nat) {
    (fates(k).Fails? || fates(k).FailsLate?) && forall n :: n != k ==> fates(n).Done?
  }

  lemma TryStopsAt(w: World, plan: Plan, fates: Schedule, k: nat)
    requires ConfigThere(w.files, plan) && w.result.None? && OnlyFails(fates, k) && 3 <= k < Steps(plan) + 2
    ensures var t := TryApply(w, plan, fates, 3); t.ret.out == Raised && t.ret.clock == k + 1
  {
    if k > 4 {
      var marked := w.(active := Some(Journal(Installing, EntriesOf(w.files, Targets(plan)))));
      ReplaceRuns(marked, plan, fates, 5);
      ReplaceKeepsResult(marked, plan, fates, 5);
      var replaced := Replace(marked, plan, fates, 5);
      if replaced.out == Fine {
        CommitRuns(replaced.world, plan, fates, replaced.clock);
      }
    }
  }

  /** The undo that follows puts every file back. */
  lemma UndoGoesWell(t: Tried, was: Files, plan: Plan, fates: Schedule, k: nat)
    requires Left(t, was, plan) && OnlyFails(fates, k) && t.ret.clock == k + 1 && t.ret.out == Raised
    ensures Handle(t, fates) == Ret(World(was, None, Some(RolledBack)), k + 3 + UndoLength(t.memory), Fine)
  {
    var w, c := t.ret.world, t.ret.clock;
    UndoRuns(w, t.memory, fates, c);
    UndoKeepsResult(w, t.memory, fates, c);
    if t.memory.phase == Installing {
      RollbackRestoresAll(w, was, plan, fates, c);
    }
  }

  /** If a single step fails once the update has begun to stop services, be it the start of
      the services, their health check or the removal of the journal at the very end, every
      file is put back, rolled back is published, and no journal is left. */
  lemma OneFailureIsRolledBack(w: World, plan: Plan, fates: Schedule, k: nat)
    requires Starts(w, plan) && ConfigThere(w.files, plan) && OnlyFails(fates, k) && 3 <= k < Steps(plan) + 2
    ensures Main(w, plan, fates) == World(w.files, None, Some(RolledBack))
  {
    var begun := w.(active := Some(Journal(Stopping, [])));
    assert Begin(w, fates, 0) == Ret(begun, 3, Fine);
    TryStopsAt(begun, plan, fates, k);
    TryLeaves(begun, w.files, plan, fates, 3);
    UndoGoesWell(TryApply(begun, plan, fates, 3), w.files, plan, fates, k);
  }

  /** If a single step of the undo fails in a restart, repair is asked for and the journal
      stays. */
  lemma FailedUndoAsksForRepair(w: World, plan: Plan, fates: Schedule, k: nat)
    requires w.active.Some? && w.result.None? && OnlyFails(fates, k) && k < 1 + UndoLength(w.active.value)
    ensures var v := Main(w, plan, fates); v.result == Some(RepairRequired) && v.active == w.active
  {
    UndoRuns(w, w.active.value, fates, 1);
    UndoKeepsResult(w, w.active.value, fates, 1);
  }

  /** A failure before that is reported as failed, and as a need for repair if the journal
      had been written; no file was touched. */
  lemma FailedBeginIsReported(w: World, plan: Plan, fates: Schedule, k: nat)
    requires Starts(w, plan) && OnlyFails(fates, k) && k < 3
    ensures var v := Main(w, plan, fates);
            && v.files == w.files
            && v.result == Some(if v.active.Some? then RepairRequired else Failed)
            && (v.active.Some? <==> k == 2 || (k == 1 && fates(1).FailsLate?))
  {
  }

  /** A request for the version that is there already succeeds without touching a file. */
  lemma CurrentVersionSucceeds(w: World, plan: Plan, fates: Schedule)
    requires w.active.None? && w.result.None? && plan.current in w.files && w.files[plan.current] == plan.version
    ensures Main(w, plan, fates).files == w.files
    ensures fates(0).Done? ==> Main(w, plan, fates) == World(w.files, None, Some(Succeeded))
  {
  }
}
