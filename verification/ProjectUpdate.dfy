/** The project updater: an unbounded list of files is backed up, replaced and verified
    under one journal; a failure rolls every file back; and a restart decides from the
    journal and the published result what is left to do.
    Models deploy/vps/project_update.py: rollback, apply, install and main. */
module ProjectUpdate {
  import opened Wrappers
  import opened Fates

  type Files = map<string, string>

  datatype Copy = Copy(target: string, content: string)

  /** What an update does: the files of the package, the configuration without its retired
      keys, and the version file; the databases are only backed up. */
  datatype Plan = Plan(installs: seq<Copy>, config: string, strip: string -> string, databases: seq<string>, current: string, version: string)

  datatype Entry = Entry(target: string, backup: Option<string>)

  datatype Phase = Stopping | Installing

  /** `active.json`; a backup is kept as its content, for it is written once. */
  datatype Journal = Journal(phase: Phase, files: seq<Entry>)

  datatype State = Succeeded | RolledBack | Failed | RepairRequired

  /** What survives a crash, for one request. */
  datatype World = World(files: Files, active: Option<Journal>, result: Option<State>)

  datatype Outcome = Fine | Raised | Died

  datatype Ret = Ret(world: World, clock: nat, out: Outcome)

  function End(f: Fate): Outcome {
    match f
    case Done => Fine
    case Kill => Died
    case _ => Raised
  }

  /** One step with its effect. */
  function Take(before: World, after: World, fates: Schedule, c: nat): Ret {
    Ret(if Took(fates(c)) then after else before, c + 1, End(fates(c)))
  }

  function Put(w: World, target: string, content: string): World {
    w.(files := w.files[target := content])
  }

  function Publish(w: World, state: State): World {
    w.(result := Some(state))
  }

  // -------------------------------------------------------------- the pieces

  function CopyAll(w: World, copies: seq<Copy>, fates: Schedule, c: nat): Ret {
    if copies == [] then Ret(w, c, Fine)
    else
      var r := CopyAll(w, copies[..|copies| - 1], fates, c);
      var last := copies[|copies| - 1];
      if r.out != Fine then r else Take(r.world, Put(r.world, last.target, last.content), fates, r.clock)
  }

  /** One file back to its backup, or away if it was not there. */
  function PutBack(w: World, e: Entry): World {
    match e.backup
    case Some(content) => Put(w, e.target, content)
    case None => w.(files := w.files - {e.target})
  }

  function RestoreAll(w: World, entries: seq<Entry>, fates: Schedule, c: nat): Ret {
    if entries == [] then Ret(w, c, Fine)
    else
      var r := RestoreAll(w, entries[..|entries| - 1], fates, c);
      if r.out != Fine then r else Take(r.world, PutBack(r.world, entries[|entries| - 1]), fates, r.clock)
  }

  /** `rollback`: stop, every file, start, and the checks. */
  function Rollback(w: World, j: Journal, fates: Schedule, c: nat): Ret {
    var stopped := Take(w, w, fates, c);
    if stopped.out != Fine then stopped
    else
      var restored := RestoreAll(stopped.world, j.files, fates, stopped.clock);
      if restored.out != Fine then restored else Revive(restored.world, fates, restored.clock)
  }

  /** Starting the services and waiting for their health. */
  function Revive(w: World, fates: Schedule, c: nat): Ret {
    var started := Take(w, w, fates, c);
    if started.out != Fine then started else Take(started.world, started.world, fates, started.clock)
  }

  function Undo(w: World, j: Journal, fates: Schedule, c: nat): Ret {
    if j.phase == Installing then Rollback(w, j, fates, c) else Revive(w, fates, c)
  }

  function EntriesOf(files: Files, targets: seq<string>): seq<Entry> {
    if targets == [] then []
    else
      var last := targets[|targets| - 1];
      EntriesOf(files, targets[..|targets| - 1]) + [Entry(last, if last in files then Some(files[last]) else None)]
  }

  function InstallTargets(copies: seq<Copy>): seq<string> {
    seq(|copies|, i requires 0 <= i < |copies| => copies[i].target)
  }

  function Targets(plan: Plan): seq<string> {
    InstallTargets(plan.installs) + [plan.config] + plan.databases + [plan.current]
  }

  /** The switch itself, once the journal says so. */
  function Replace(w: World, plan: Plan, fates: Schedule, c: nat): Ret {
    var told := Take(w, w, fates, c);
    if told.out != Fine then told
    else
      var copied := CopyAll(told.world, plan.installs, fates, told.clock);
      if copied.out != Fine then copied
      else if plan.config !in copied.world.files then Ret(copied.world, copied.clock, Raised)
      else Take(copied.world, Put(copied.world, plan.config, plan.strip(copied.world.files[plan.config])), fates, copied.clock)
  }

  /** The end of a good switch: services and checks, the version file, the result, and the
      removal of the journal, all inside the try block. */
  function Commit(w: World, plan: Plan, fates: Schedule, c: nat): Ret {
    var revived := Revive(w, fates, c);
    if revived.out != Fine then revived
    else
      var versioned := Take(revived.world, Put(revived.world, plan.current, plan.version), fates, revived.clock);
      if versioned.out != Fine then versioned
      else
        var published := Take(versioned.world, Publish(versioned.world, Succeeded), fates, versioned.clock);
        if published.out != Fine then published
        else Take(published.world, published.world.(active := None), fates, published.clock)
  }

  datatype Tried = Tried(ret: Ret, memory: Journal)

  /** The try block of `apply`, with the journal as it is in memory when the block is left:
      its phase is changed before it is written. */
  function TryApply(w: World, plan: Plan, fates: Schedule, c: nat): Tried {
    var stopping := Journal(Stopping, []);
    var backed := Take(w, w, fates, c);
    if backed.out != Fine then Tried(backed, stopping)
    else
      var installing := Journal(Installing, EntriesOf(w.files, Targets(plan)));
      var marked := Take(backed.world, backed.world.(active := Some(installing)), fates, backed.clock);
      if marked.out != Fine then Tried(marked, installing)
      else
        var replaced := Replace(marked.world, plan, fates, marked.clock);
        Tried(if replaced.out != Fine then replaced else Commit(replaced.world, plan, fates, replaced.clock), installing)
  }

  /** The except block of `apply`. */
  function Handle(t: Tried, fates: Schedule): Ret {
    if t.ret.out != Raised then t.ret
    else
      var undone := Undo(t.ret.world, t.memory, fates, t.ret.clock);
      match undone.out
      case Died => undone
      case Raised => Take(undone.world, Publish(undone.world, RepairRequired), fates, undone.clock)
      case Fine => Conclude(undone.world, fates, undone.clock)
  }

  /** The result of a rollback, and the removal of the journal. */
  function Conclude(w: World, fates: Schedule, c: nat): Ret {
    var published := Take(w, Publish(w, RolledBack), fates, c);
    if published.out != Fine then published
    else Take(published.world, published.world.(active := None), fates, published.clock)
  }

  function Begin(w: World, fates: Schedule, c: nat): Ret {
    var checked := Take(w, w, fates, c);
    if checked.out != Fine then checked
    else
      var journaled := Take(checked.world, checked.world.(active := Some(Journal(Stopping, []))), fates, checked.clock);
      if journaled.out != Fine then journaled
      else Take(journaled.world, journaled.world, fates, journaled.clock)
  }

  function Apply(w: World, plan: Plan, fates: Schedule, c: nat): Ret {
    var begun := Begin(w, fates, c);
    if begun.out != Fine then begun else Handle(TryApply(begun.world, plan, fates, begun.clock), fates)
  }

  /** `main` and `install` when no journal is left over. */
  function Fresh(w: World, plan: Plan, fates: Schedule): World {
    if w.result.Some? then w
    else
      var r := if plan.current in w.files && w.files[plan.current] == plan.version
               then Take(w, Publish(w, Succeeded), fates, 0)
               else Apply(w, plan, fates, 0);
      if r.out != Raised then r.world
      else Take(r.world, Publish(r.world, if r.world.active.Some? then RepairRequired else Failed), fates, r.clock).world
  }

  /** `main` when a journal is left over. */
  function Restart(w: World, j: Journal, fates: Schedule): World {
    match w.result
    case Some(state) => if state == RepairRequired then w else Take(w, w.(active := None), fates, 0).world
    case None =>
      var told := Take(w, w, fates, 0);
      var undone := if told.out != Fine then told else Undo(told.world, j, fates, told.clock);
      var concluded := if undone.out != Fine then undone else Conclude(undone.world, fates, undone.clock);
      if concluded.out != Raised then concluded.world
      else Take(concluded.world, Publish(concluded.world, RepairRequired), fates, concluded.clock).world
  }

  function Main(w: World, plan: Plan, fates: Schedule): World {
    match w.active
    case Some(j) => Restart(w, j, fates)
    case None => Fresh(w, plan, fates)
  }

  // ------------------------------------------------------------------- meaning

  function Installed(files: Files, copies: seq<Copy>): Files {
    if copies == [] then files
    else
      var last := copies[|copies| - 1];
      Installed(files, copies[..|copies| - 1])[last.target := last.content]
  }

  /** Every target new. */
  function NewFiles(was: Files, plan: Plan): Files {
    var copied := Installed(was, plan.installs);
    (if plan.config in copied then copied[plan.config := plan.strip(copied[plan.config])] else copied)[plan.current := plan.version]
  }

  predicate SameAt(a: Files, b: Files, f: string) {
    (f in a <==> f in b) && (f in a ==> a[f] == b[f])
  }

  lemma SameEverywhere(a: Files, b: Files)
    requires forall f :: SameAt(a, b, f)
    ensures a == b
  {
    assert forall f :: f in a ==> SameAt(a, b, f);
    assert forall f :: f in b ==> SameAt(a, b, f);
  }

  /** Nothing but targets differs. */
  ghost predicate OnlyTargets(was: Files, now: Files, targets: seq<string>) {
    forall f :: f !in targets ==> SameAt(was, now, f)
  }

  predicate JournalTells(w: World, was: Files, plan: Plan) {
    match w.active
    case None => true
    case Some(j) =>
      match j.phase
      case Stopping => w.files == was
      case Installing => j.files == EntriesOf(was, Targets(plan))
  }

  /** The published result is true of every file. */
  predicate ResultTells(w: World, was: Files, plan: Plan) {
    match w.result
    case None => w.active.None? ==> w.files == was
    case Some(Succeeded) => w.files == NewFiles(was, plan) || (w.files == was && plan.current in was && was[plan.current] == plan.version)
    case Some(RolledBack) => w.files == was
    case Some(Failed) => w.files == was
    case Some(RepairRequired) => true
  }

  ghost predicate Inv(w: World, was: Files, plan: Plan) {
    OnlyTargets(was, w.files, Targets(plan)) && JournalTells(w, was, plan) && ResultTells(w, was, plan)
  }

  predicate RightEntries(entries: seq<Entry>, was: Files) {
    forall i :: 0 <= i < |entries| ==> entries[i].backup == if entries[i].target in was then Some(was[entries[i].target]) else None
  }

  lemma {:induction false} EntriesAreRight(was: Files, targets: seq<string>)
    ensures |EntriesOf(was, targets)| == |targets| && RightEntries(EntriesOf(was, targets), was)
    ensures forall i :: 0 <= i < |targets| ==> EntriesOf(was, targets)[i].target == targets[i]
  {
    if targets != [] {
      EntriesAreRight(was, targets[..|targets| - 1]);
    }
  }

  predicate Names(entries: seq<Entry>, f: string) {
    exists i :: 0 <= i < |entries| && entries[i].target == f
  }

  /** A restore of right entries, cut off anywhere, touches only their targets; carried
      through, it has put every one of them back, present or absent. */
  lemma {:induction false} RestoreMeans(w: World, entries: seq<Entry>, was: Files, fates: Schedule, c: nat, f: string)
    requires RightEntries(entries, was)
    ensures var r := RestoreAll(w, entries, fates, c);
            && r.world == w.(files := r.world.files)
            && (!Names(entries, f) ==> SameAt(r.world.files, w.files, f))
            && (r.out == Fine && Names(entries, f) ==> SameAt(r.world.files, was, f))
  {
    if entries != [] {
      var init, last := entries[..|entries| - 1], entries[|entries| - 1];
      RestoreMeans(w, init, was, fates, c, f);
      assert Names(entries, f) <==> Names(init, f) || last.target == f by {
        assert entries == init + [last];
      }
    }
  }

  lemma RestoreAllMeans(w: World, was: Files, plan: Plan, fates: Schedule, c: nat)
    requires OnlyTargets(was, w.files, Targets(plan))
    ensures var r := RestoreAll(w, EntriesOf(was, Targets(plan)), fates, c);
            && r.world == w.(files := r.world.files) && OnlyTargets(was, r.world.files, Targets(plan))
            && (r.out == Fine ==> r.world.files == was)
  {
    var entries := EntriesOf(was, Targets(plan));
    EntriesAreRight(was, Targets(plan));
    forall f ensures Names(entries, f) <==> f in Targets(plan) {
      if f in Targets(plan) {
        var i :| 0 <= i < |Targets(plan)| && Targets(plan)[i] == f;
        assert entries[i].target == f;
      }
    }
    var now := RestoreAll(w, entries, fates, c);
    RestoreMeans(w, entries, was, fates, c, plan.current);
    forall f
      ensures f !in Targets(plan) ==> SameAt(now.world.files, w.files, f)
      ensures now.out == Fine && f in Targets(plan) ==> SameAt(now.world.files, was, f)
    {
      RestoreMeans(w, entries, was, fates, c, f);
    }
    if now.out == Fine {
      forall f ensures SameAt(now.world.files, was, f) {
        assert f !in Targets(plan) ==> SameAt(now.world.files, w.files, f) && SameAt(was, w.files, f);
      }
      SameEverywhere(now.world.files, was);
    }
  }

  /** A rollback of the journal of an update is all or nothing on its files, whatever state
      they were in. */
  lemma RollbackRestoresAll(w: World, was: Files, plan: Plan, fates: Schedule, c: nat)
    requires OnlyTargets(was, w.files, Targets(plan))
    ensures var r := Rollback(w, Journal(Installing, EntriesOf(was, Targets(plan))), fates, c);
            && r.world == w.(files := r.world.files) && OnlyTargets(was, r.world.files, Targets(plan))
            && (r.out == Fine ==> r.world.files == was)
  {
    RestoreAllMeans(w, was, plan, fates, c + 1);
  }

  // ----------------------------------------------------------------- forward

  lemma {:induction false} CopyMeans(w: World, copies: seq<Copy>, fates: Schedule, c: nat, f: string)
    ensures var r := CopyAll(w, copies, fates, c);
            && r.world == w.(files := r.world.files)
            && (f !in InstallTargets(copies) ==> SameAt(r.world.files, w.files, f))
            && (r.out == Fine ==> r.world.files == Installed(w.files, copies))
  {
    if copies != [] {
      var init, last := copies[..|copies| - 1], copies[|copies| - 1];
      CopyMeans(w, init, fates, c, f);
      assert InstallTargets(copies) == InstallTargets(init) + [last.target];
    }
  }

  ghost predicate OnlyTargetsTouched(before: World, after: World, targets: seq<string>) {
    after == before.(files := after.files) && OnlyTargets(before.files, after.files, targets)
  }

  /** A replacement, cut off anywhere, touches only targets; carried through, it has made
      every one of them new but the version file. */
  lemma ReplaceMeans(w: World, plan: Plan, fates: Schedule, c: nat)
    ensures var r := Replace(w, plan, fates, c);
            && OnlyTargetsTouched(w, r.world, Targets(plan))
            && (r.out == Fine ==> r.world.files[plan.current := plan.version] == NewFiles(w.files, plan))
  {
    var copied := CopyAll(w, plan.installs, fates, c + 1);
    CopyMeans(w, plan.installs, fates, c + 1, plan.current);
    forall f
      ensures f !in InstallTargets(plan.installs) ==> SameAt(copied.world.files, w.files, f)
    {
      CopyMeans(w, plan.installs, fates, c + 1, f);
    }
    assert forall f :: f in InstallTargets(plan.installs) ==> f in Targets(plan);
    assert plan.config in Targets(plan) by {
      assert Targets(plan)[|plan.installs|] == plan.config;
    }
  }

  // ------------------------------------------------------------ crash safety

  lemma {:induction false} RestoreOfSame(w: World, entries: seq<Entry>, fates: Schedule, c: nat)
    requires RightEntries(entries, w.files)
    ensures RestoreAll(w, entries, fates, c).world == w
  {
    if entries != [] {
      var init, last := entries[..|entries| - 1], entries[|entries| - 1];
      RestoreOfSame(w, init, fates, c);
      assert PutBack(w, last).files == w.files;
    }
  }

  lemma UndoKeeps(w: World, was: Files, plan: Plan, j: Journal, fates: Schedule, c: nat)
    requires Inv(w, was, plan) && w.result.None?
    requires w.active == Some(j) || (w.active.Some? && w.files == was)
    requires j == Journal(Stopping, []) || j == Journal(Installing, EntriesOf(was, Targets(plan)))
    requires j.phase == Stopping ==> w.files == was
    ensures var r := Undo(w, j, fates, c); Inv(r.world, was, plan) && r.world == w.(files := r.world.files) && (r.out == Fine ==> r.world.files == was)
  {
    EntriesAreRight(was, Targets(plan));
    if j.phase == Installing {
      RollbackRestoresAll(w, was, plan, fates, c);
      if w.files == was {
        RestoreOfSame(w, j.files, fates, c + 1);
      }
    }
  }

  /** How the try block of `apply` can be left. */
  ghost predicate Left(t: Tried, was: Files, plan: Plan) {
    var w := t.ret.world;
    && OnlyTargets(was, w.files, Targets(plan)) && JournalTells(w, was, plan)
    && (w.result.None? || (w.result == Some(Succeeded) && w.files == NewFiles(was, plan)))
    && (w.active.None? ==> w.result == Some(Succeeded))
    && (w.result.Some? ==> t.memory.phase == Installing)
    && (t.memory == Journal(Stopping, []) || t.memory == Journal(Installing, EntriesOf(was, Targets(plan))))
    && (t.memory.phase == Stopping ==> w.files == was)
    && (w.active.Some? ==> w.active == Some(t.memory) || w.files == was)
    && (t.ret.out == Fine ==> w.active.None?)
  }

  lemma CommitMeans(w: World, plan: Plan, fates: Schedule, c: nat)
    requires w.result.None? && w.active.Some?
    ensures var r, all := Commit(w, plan, fates, c), w.files[plan.current := plan.version];
            && r.world.files in {w.files, all}
            && (r.world.result.None? || (r.world.result == Some(Succeeded) && r.world.files == all))
            && (r.world.active == w.active || (r.world.active.None? && r.world.result == Some(Succeeded)))
            && (r.out == Fine ==> r.world.active.None?)
  {
  }

  lemma InstallingLeaves(w: World, was: Files, plan: Plan, fates: Schedule, c: nat)
    requires w == World(was, Some(Journal(Installing, EntriesOf(was, Targets(plan)))), None)
    ensures var replaced := Replace(w, plan, fates, c);
            var r := if replaced.out != Fine then replaced else Commit(replaced.world, plan, fates, replaced.clock);
            Left(Tried(r, w.active.value), was, plan)
  {
    ReplaceMeans(w, plan, fates, c);
    var replaced := Replace(w, plan, fates, c);
    assert plan.current in Targets(plan) by {
      assert Targets(plan)[|Targets(plan)| - 1] == plan.current;
    }
    if replaced.out == Fine {
      CommitMeans(replaced.world, plan, fates, replaced.clock);
    }
  }

  lemma TryLeaves(w: World, was: Files, plan: Plan, fates: Schedule, c: nat)
    requires w == World(was, Some(Journal(Stopping, [])), None)
    ensures Left(TryApply(w, plan, fates, c), was, plan)
  {
    var installing := Journal(Installing, EntriesOf(was, Targets(plan)));
    if fates(c).Done? && fates(c + 1).Done? {
      InstallingLeaves(w.(active := Some(installing)), was, plan, fates, c + 2);
    }
  }

  /** The try block was left by an error after success had been published: the publication
      was reported as failed although it took effect, or the removal of the journal failed. */
  predicate Regrets(t: Tried) {
    t.ret.out == Raised && t.ret.world.result == Some(Succeeded)
  }

  lemma HandleKeeps(t: Tried, was: Files, plan: Plan, fates: Schedule)
    requires Left(t, was, plan) && !Regrets(t)
    ensures Inv(Handle(t, fates).world, was, plan)
    ensures Handle(t, fates).world.active.None? ==> Handle(t, fates).world.result.Some?
  {
    if t.ret.out == Raised {
      UndoKeeps(t.ret.world, was, plan, t.memory, fates, t.ret.clock);
    }
  }

  /** The calls in which an update regrets a published success. */
  predicate CallRegrets(w: World, plan: Plan, fates: Schedule) {
    && w.active.None? && w.result.None?
    && !(plan.current in w.files && w.files[plan.current] == plan.version)
    && Begin(w, fates, 0).out == Fine
    && Regrets(TryApply(Begin(w, fates, 0).world, plan, fates, Begin(w, fates, 0).clock))
  }

  lemma ApplyKeeps(w: World, was: Files, plan: Plan, fates: Schedule)
    requires w.files == was && w.active.None? && w.result.None?
    requires Begin(w, fates, 0).out == Fine ==> !Regrets(TryApply(Begin(w, fates, 0).world, plan, fates, Begin(w, fates, 0).clock))
    ensures var r := Apply(w, plan, fates, 0);
            Inv(r.world, was, plan) && (r.out == Raised && r.world.active.None? ==> r.world.files == was)
  {
    var begun := Begin(w, fates, 0);
    if begun.out == Fine {
      var t := TryApply(begun.world, plan, fates, begun.clock);
      TryLeaves(begun.world, was, plan, fates, begun.clock);
      HandleKeeps(t, was, plan, fates);
      HandledIsOld(t, was, plan, fates);
    }
  }

  lemma HandledIsOld(t: Tried, was: Files, plan: Plan, fates: Schedule)
    requires Left(t, was, plan) && !Regrets(t)
    ensures Handle(t, fates).out == Raised && Handle(t, fates).world.active.None? ==> Handle(t, fates).world.files == was
  {
    if t.ret.out == Raised {
      UndoKeeps(t.ret.world, was, plan, t.memory, fates, t.ret.clock);
    }
  }

  lemma ConcludeKeeps(w: World, was: Files, plan: Plan, fates: Schedule, c: nat)
    requires Inv(w, was, plan) && w.files == was && w.result.None?
    ensures Inv(Conclude(w, fates, c).world, was, plan)
  {
  }

  lemma RestartUndoes(w: World, was: Files, plan: Plan, j: Journal, fates: Schedule, c: nat)
    requires Inv(w, was, plan) && w.active == Some(j) && w.result.None?
    ensures var r := Undo(w, j, fates, c); Inv(r.world, was, plan) && r.world == w.(files := r.world.files) && (r.out == Fine ==> r.world.files == was)
  {
    if j.phase == Stopping {
      assert Undo(w, j, fates, c) == Revive(w, fates, c);
    } else {
      UndoKeeps(w, was, plan, j, fates, c);
    }
  }

  lemma RestartKeeps(w: World, was: Files, plan: Plan, fates: Schedule)
    requires Inv(w, was, plan) && w.active.Some?
    ensures Inv(Restart(w, w.active.value, fates), was, plan)
  {
    var j := w.active.value;
    if w.result.None? && fates(0).Done? {
      RestartUndoes(w, was, plan, j, fates, 1);
      var undone := Undo(w, j, fates, 1);
      if undone.out == Fine {
        ConcludeKeeps(undone.world, was, plan, fates, undone.clock);
      }
    }
  }

  lemma MainKeeps(w: World, was: Files, plan: Plan, fates: Schedule)
    requires Inv(w, was, plan) && !CallRegrets(w, plan, fates)
    ensures Inv(Main(w, plan, fates), was, plan)
  {
    if w.active.Some? {
      RestartKeeps(w, was, plan, fates);
    } else if w.result.None? && !(plan.current in w.files && w.files[plan.current] == plan.version) {
      ApplyKeeps(w, was, plan, fates);
    }
  }

  function Restarts(w: World, plan: Plan, schedules: seq<Schedule>): World {
    if schedules == [] then w
    else Main(Restarts(w, plan, schedules[..|schedules| - 1]), plan, schedules[|schedules| - 1])
  }

  ghost predicate NoneRegrets(w: World, plan: Plan, schedules: seq<Schedule>) {
    schedules == [] ||
    (NoneRegrets(w, plan, schedules[..|schedules| - 1])
     && !CallRegrets(Restarts(w, plan, schedules[..|schedules| - 1]), plan, schedules[|schedules| - 1]))
  }

  lemma {:induction false} RestartsKeep(w: World, was: Files, plan: Plan, schedules: seq<Schedule>)
    requires Inv(w, was, plan) && NoneRegrets(w, plan, schedules)
    ensures Inv(Restarts(w, plan, schedules), was, plan)
  {
    if schedules != [] {
      RestartsKeep(w, was, plan, schedules[..|schedules| - 1]);
      MainKeeps(Restarts(w, plan, schedules[..|schedules| - 1]), was, plan, schedules[|schedules| - 1]);
    }
  }

  /** All or nothing, over any number of files and of restarts, each cut off or failing
      anywhere, inside the copy loop and inside a rollback: what is published is true of
      every file. Success means that every target is new (or the version file said so
      already), rolled back and failed mean that every file is byte-equal to what it was,
      absent if it was absent; anything else asks for repair. */
  lemma AllOrNothing(files: Files, plan: Plan, schedules: seq<Schedule>)
    requires NoneRegrets(World(files, None, None), plan, schedules)
    ensures var w := Restarts(World(files, None, None), plan, schedules);
            match w.result
            case Some(Succeeded) =>
              w.files == NewFiles(files, plan) || (w.files == files && plan.current in files && files[plan.current] == plan.version)
            case Some(RepairRequired) => true
            case Some(_) => w.files == files
            case None => w.active.None? ==> w.files == files
  {
    RestartsKeep(World(files, None, None), files, plan, schedules);
  }

  lemma {:induction false} RestoreGoesThrough(w: World, entries: seq<Entry>, fates: Schedule, c: nat)
    requires forall n :: c <= n < c + |entries| ==> fates(n).Done?
    ensures RestoreAll(w, entries, fates, c).out == Fine && RestoreAll(w, entries, fates, c).clock == c + |entries|
  {
    if entries != [] {
      RestoreGoesThrough(w, entries[..|entries| - 1], fates, c);
    }
  }

  /** Whatever was cut off before, one restart that nothing disturbs settles the request:
      the journal is gone and a result is there, or the request asks for repair. */
  lemma SmoothRestartSettles(w: World, was: Files, plan: Plan, fates: Schedule)
    requires Inv(w, was, plan) && w.active.Some? && (forall n :: fates(n).Done?)
    ensures var now := Main(w, plan, fates);
            now.result.Some? && (now.active.None? || now.result == Some(RepairRequired))
            && (w.result.None? ==> now.result == Some(RolledBack) && now.files == was)
  {
    RestartKeeps(w, was, plan, fates);
    RestoreGoesThrough(w, w.active.value.files, fates, 2);
  }

  // --------------------------------------------- the commit point is exact

  function DiesAt(k: nat): Schedule {
    n => if n == k then Kill else Done
  }

  /** The published result is the commit point exactly as long as no error occurs after it:
      once one has, a rollback that is killed leaves success published over the old
      files. */
  lemma CommitPointIsExact(t: Tried, was: Files, plan: Plan)
    requires Left(t, was, plan) && t.ret.out == Raised
    requires was != NewFiles(was, plan) && !(plan.current in was && was[plan.current] == plan.version)
    ensures !Regrets(t) <==> forall fates :: ResultTells(Handle(t, fates).world, was, plan)
  {
    if !Regrets(t) {
      forall fates ensures ResultTells(Handle(t, fates).world, was, plan) {
        HandleKeeps(t, was, plan, fates);
      }
    } else {
      var c := t.ret.clock;
      var entries := EntriesOf(was, Targets(plan));
      var fates := DiesAt(c + 1 + |entries|);
      RestoreGoesThrough(t.ret.world, entries, fates, c + 1);
      RestoredThenKilled(t, was, plan, fates);
      assert !ResultTells(Handle(t, fates).world, was, plan);
    }
  }

  lemma RestoredThenKilled(t: Tried, was: Files, plan: Plan, fates: Schedule)
    requires Left(t, was, plan) && Regrets(t)
    requires fates(t.ret.clock).Done?
    requires RestoreAll(t.ret.world, t.memory.files, fates, t.ret.clock + 1).out == Fine
    requires fates(RestoreAll(t.ret.world, t.memory.files, fates, t.ret.clock + 1).clock).Kill?
    ensures Handle(t, fates).world.files == was && Handle(t, fates).world.result == Some(Succeeded)
  {
    RestoreAllMeans(t.ret.world, was, plan, fates, t.ret.clock + 1);
  }

  /** An update of one file. */
  function OneFile(target: string, config: string, current: string, after: string): Plan {
    Plan([Copy(target, after)], config, (s: string) => s, [], current, "v2")
  }

  function Installation(target: string, config: string, current: string, before: string): World {
    World(map[target := before, config := "{}", current := "v1"], None, None)
  }

  /** Its try block, if only the removal of the journal fails. */
  lemma TryRegrets(target: string, config: string, current: string, before: string, after: string, fates: Schedule)
    requires target != config && target != current && config != current
    requires (forall n :: 0 <= n < 12 ==> fates(n).Done?) && fates(12).Fails?
    ensures var (w, plan) := (Installation(target, config, current, before), OneFile(target, config, current, after));
            && Begin(w, fates, 0) == Ret(w.(active := Some(Journal(Stopping, []))), 3, Fine)
            && var t := TryApply(Begin(w, fates, 0).world, plan, fates, 3);
               Regrets(t) && t.ret.clock == 13 && t.ret.world.active == Some(t.memory)
               && t.memory == Journal(Installing, EntriesOf(w.files, Targets(plan)))
  {
    var w, plan := Installation(target, config, current, before), OneFile(target, config, current, after);
    var begun := Begin(w, fates, 0);
    assert begun == Ret(w.(active := Some(Journal(Stopping, []))), 3, Fine);
    var installing := Journal(Installing, EntriesOf(w.files, Targets(plan)));
    var marked := begun.world.(active := Some(installing));
    assert plan.installs[..0] == [];
    assert CopyAll(marked, plan.installs, fates, 6) == Ret(Put(marked, target, after), 7, Fine);
    var replaced := Replace(marked, plan, fates, 5);
    assert replaced.out == Fine && replaced.clock == 8;
    assert Commit(replaced.world, plan, fates, 8).out == Raised;
  }

  /** Such an error after a published success does occur: an update of one file in which
      only the removal of the journal fails. */
  lemma RegretOccurs(target: string, config: string, current: string, before: string, after: string)
    requires target != config && target != current && config != current
    ensures CallRegrets(Installation(target, config, current, before), OneFile(target, config, current, after), n => if n == 12 then Fails else Done)
  {
    TryRegrets(target, config, current, before, after, n => if n == 12 then Fails else Done);
  }

  const allDone: Schedule := n => Done

  /** ... and the rollback that follows is killed once the files are back. */
  const regretThenDie: Schedule := n => if n == 12 then Fails else if n == 17 then Kill else Done

  /** All or nothing fails without its hypothesis: two activations, of which the first is
      cut off in its rollback and the second is not disturbed at all, end with the journal
      gone and success published over files that are all old. */
  lemma SuccessOverOldFiles(target: string, config: string, current: string, before: string, after: string)
    requires target != config && target != current && config != current
    ensures var (w, plan) := (Installation(target, config, current, before), OneFile(target, config, current, after));
            && Main(w, plan, regretThenDie).result == Some(Succeeded) && Main(w, plan, regretThenDie).files == w.files
            && Restarts(w, plan, [regretThenDie, allDone]) == World(w.files, None, Some(Succeeded))
            && w.files != NewFiles(w.files, plan) && w.files[current] != plan.version
  {
    var w, plan := Installation(target, config, current, before), OneFile(target, config, current, after);
    var fates := regretThenDie;
    TryRegrets(target, config, current, before, after, fates);
    var t := TryApply(Begin(w, fates, 0).world, plan, fates, 3);
    TryLeaves(Begin(w, fates, 0).world, w.files, plan, fates, 3);
    EntriesAreRight(w.files, Targets(plan));
    assert |t.memory.files| == 3;
    RestoreGoesThrough(t.ret.world, t.memory.files, fates, 14);
    RestoredThenKilled(t, w.files, plan, fates);
    RestoreAllMeans(t.ret.world, w.files, plan, fates, 14);
    var mid := Main(w, plan, fates);
    assert mid == Handle(t, fates).world == World(w.files, Some(t.memory), Some(Succeeded));
    assert [regretThenDie, allDone][..1] == [regretThenDie] && [regretThenDie][..0] == [];
    assert Restarts(w, plan, []) == w;
    assert Restarts(w, plan, [regretThenDie]) == mid;
    assert Restarts(w, plan, [regretThenDie, allDone]) == Main(mid, plan, allDone);
  }

  // ------------------------------------------------------------ the program

  class ProjectUpdater {
    var world: World
    var clock: nat
    const fates: Schedule

    constructor (world: World, fates: Schedule)
      ensures this.world == world && clock == 0 && this.fates == fates
    {
      this.world := world;
      this.clock := 0;
      this.fates := fates;
    }

    method Step(after: World) returns (out: Outcome)
      modifies this
      ensures Ret(world, clock, out) == Take(old(world), after, fates, old(clock))
    {
      var fate := fates(clock);
      clock := clock + 1;
      if Took(fate) {
        world := after;
      }
      out := End(fate);
    }

    /** The loop that installs the files. */
    method InstallFiles(copies: seq<Copy>) returns (out: Outcome)
      modifies this
      ensures Ret(world, clock, out) == CopyAll(old(world), copies, fates, old(clock))
    {
      out := Fine;
      for i := 0 to |copies|
        invariant out == Fine && Ret(world, clock, out) == CopyAll(old(world), copies[..i], fates, old(clock))
      {
        assert copies[..i + 1][..i] == copies[..i];
        out := Step(Put(world, copies[i].target, copies[i].content));
        if out != Fine {
          CopyStops(old(world), copies, i + 1, fates, old(clock));
          return;
        }
      }
      assert copies[..|copies|] == copies;
    }

    /** The loop that puts the files back. */
    method RestoreFiles(entries: seq<Entry>) returns (out: Outcome)
      modifies this
      ensures Ret(world, clock, out) == RestoreAll(old(world), entries, fates, old(clock))
    {
      out := Fine;
      for i := 0 to |entries|
        invariant out == Fine && Ret(world, clock, out) == RestoreAll(old(world), entries[..i], fates, old(clock))
      {
        assert entries[..i + 1][..i] == entries[..i];
        out := Step(PutBack(world, entries[i]));
        if out != Fine {
          RestoreStops(old(world), entries, i + 1, fates, old(clock));
          return;
        }
      }
      assert entries[..|entries|] == entries;
    }

    /** Starts the services and waits for their health. */
    method StartAndCheck() returns (out: Outcome)
      modifies this
      ensures Ret(world, clock, out) == Revive(old(world), fates, old(clock))
    {
      out := Step(world);
      if out == Fine {
        out := Step(world);
      }
    }

    method RunRollback(j: Journal) returns (out: Outcome)
      modifies this
      ensures Ret(world, clock, out) == Rollback(old(world), j, fates, old(clock))
    {
      out := Step(world);
      if out != Fine { return; }
      out := RestoreFiles(j.files);
      if out != Fine { return; }
      out := StartAndCheck();
    }

    method RunUndo(j: Journal) returns (out: Outcome)
      modifies this
      ensures Ret(world, clock, out) == Undo(old(world), j, fates, old(clock))
    {
      if j.phase == Installing {
        out := RunRollback(j);
      } else {
        out := StartAndCheck();
      }
    }

    method RunConclude() returns (out: Outcome)
      modifies this
      ensures Ret(world, clock, out) == Conclude(old(world), fates, old(clock))
    {
      out := Step(Publish(world, RolledBack));
      if out != Fine { return; }
      out := Step(world.(active := None));
    }

    /** The backup loop: one entry for every target, in order. */
    static method Backup(files: Files, targets: seq<string>) returns (entries: seq<Entry>)
      ensures entries == EntriesOf(files, targets)
    {
      entries := [];
      for i := 0 to |targets|
        invariant entries == EntriesOf(files, targets[..i])
      {
        assert targets[..i + 1][..i] == targets[..i];
        entries := entries + [Entry(targets[i], if targets[i] in files then Some(files[targets[i]]) else None)];
      }
      assert targets[..|targets|] == targets;
    }

    method SwitchFiles(plan: Plan) returns (out: Outcome)
      modifies this
      ensures Ret(world, clock, out) == Replace(old(world), plan, fates, old(clock))
    {
      out := Step(world);
      if out != Fine { return; }
      out := InstallFiles(plan.installs);
      if out != Fine { return; }
      if plan.config !in world.files { return Raised; }
      out := Step(Put(world, plan.config, plan.strip(world.files[plan.config])));
    }

    method CommitFiles(plan: Plan) returns (out: Outcome)
      modifies this
      ensures Ret(world, clock, out) == Commit(old(world), plan, fates, old(clock))
    {
      out := StartAndCheck();
      if out != Fine { return; }
      out := Step(Put(world, plan.current, plan.version));
      if out != Fine { return; }
      out := Step(Publish(world, Succeeded));
      if out != Fine { return; }
      out := Step(world.(active := None));
    }

    method Try(plan: Plan) returns (out: Outcome, memory: Journal)
      modifies this
      ensures Tried(Ret(world, clock, out), memory) == TryApply(old(world), plan, fates, old(clock))
    {
      memory := Journal(Stopping, []);
      out := Step(world);
      if out != Fine { return; }
      var entries := Backup(world.files, Targets(plan));
      memory := Journal(Installing, entries);
      out := Step(world.(active := Some(memory)));
      if out != Fine { return; }
      out := SwitchFiles(plan);
      if out != Fine { return; }
      out := CommitFiles(plan);
    }

    /** `apply`: what it leaves behind is the function Apply. */
    method RunApply(plan: Plan) returns (out: Outcome)
      modifies this
      ensures Ret(world, clock, out) == Apply(old(world), plan, fates, old(clock))
    {
      out := Step(world);
      if out != Fine { return; }
      out := Step(world.(active := Some(Journal(Stopping, []))));
      if out != Fine { return; }
      out := Step(world);
      if out != Fine { return; }
      var memory;
      out, memory := Try(plan);
      if out != Raised { return; }
      out := RunUndo(memory);
      match out {
        case Died =>
        case Raised => out := Step(Publish(world, RepairRequired));
        case Fine => out := RunConclude();
      }
    }

    method RunFresh(plan: Plan)
      requires clock == 0
      modifies this
      ensures world == Fresh(old(world), plan, fates)
    {
      if world.result.Some? { return; }
      var out;
      if plan.current in world.files && world.files[plan.current] == plan.version {
        out := Step(Publish(world, Succeeded));
      } else {
        out := RunApply(plan);
      }
      if out == Raised {
        out := Step(Publish(world, if world.active.Some? then RepairRequired else Failed));
      }
    }

    method RunRestart(j: Journal)
      requires clock == 0
      modifies this
      ensures world == Restart(old(world), j, fates)
    {
      var out;
      match world.result {
        case Some(state) =>
          if state != RepairRequired {
            out := Step(world.(active := None));
          }
        case None =>
          out := Step(world);
          if out == Fine {
            out := RunUndo(j);
          }
          if out == Fine {
            out := RunConclude();
          }
          if out == Raised {
            out := Step(Publish(world, RepairRequired));
          }
      }
    }

    /** `main`: what one activation leaves behind is the function Main. */
    method RunMain(plan: Plan)
      requires clock == 0
      modifies this
      ensures world == Main(old(world), plan, fates)
    {
      if world.active.Some? {
        RunRestart(world.active.value);
      } else {
        RunFresh(plan);
      }
    }
  }

  lemma {:induction false} CopyStops(w: World, copies: seq<Copy>, n: nat, fates: Schedule, c: nat)
    requires n <= |copies| && CopyAll(w, copies[..n], fates, c).out != Fine
    ensures CopyAll(w, copies, fates, c) == CopyAll(w, copies[..n], fates, c)
    decreases |copies|
  {
    if n < |copies| {
      assert copies[..|copies| - 1][..n] == copies[..n];
      CopyStops(w, copies[..|copies| - 1], n, fates, c);
    } else {
      assert copies[..n] == copies;
    }
  }

  lemma {:induction false} RestoreStops(w: World, entries: seq<Entry>, n: nat, fates: Schedule, c: nat)
    requires n <= |entries| && RestoreAll(w, entries[..n], fates, c).out != Fine
    ensures RestoreAll(w, entries, fates, c) == RestoreAll(w, entries[..n], fates, c)
    decreases |entries|
  {
    if n < |entries| {
      assert entries[..|entries| - 1][..n] == entries[..n];
      RestoreStops(w, entries[..|entries| - 1], n, fates, c);
    } else {
      assert entries[..n] == entries;
    }
  }
}
