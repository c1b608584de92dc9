/** The durable steps of the protocol transaction helper, the write-ahead discipline
    they follow, and what every run of such steps keeps.
    Models scripts/aimili_xui_protocol_transaction.py: the snapshot file with its phases,
    the live Xray inbounds and the panel database. */
module HelperSteps {
  import opened Wrappers
  import opened Json
  import opened PanelTemplate
  import opened PanelDatabase

  datatype Phase = Saved | RemovePending | AddPending | DatabasePending | Committed | Applied | RepairRequired

  /** The content of `snapshot.json`. */
  datatype OpFile = Open(phase: Phase, snap: Snapshot) | Finalized | RolledBack

  /** Everything that survives a crash. `dirs` are the operation directories,
      `leftovers` those of them that hold a `rollback-inbound.json`. */
  datatype Disk = Disk(
    db: Database,
    runtime: map<string, Json>,
    profiles: map<string, Profile>,
    ops: map<string, OpFile>,
    dirs: set<string>,
    leftovers: set<string>)

  datatype Step =
    | SaveProfile(egress: string, profile: Profile)
    | MakeDir(op: string)
    | SaveSnapshot(op: string, snap: Snapshot)
    | Advance(op: string, phase: Phase)
    | RemoveInbound(op: string)
    | AddInbound(op: string)
    | WriteDatabase(op: string)
    | TouchLease(op: string)
    | FinalizeOp(op: string)
    | LeaveRollbackFile(op: string)
    | DropRollbackFile(op: string)
    | UndoRemoveInbound(op: string)
    | UndoAddInbound(op: string)
    | UndoDatabase(op: string)
    | Tombstone(op: string)
    | RemoveDir(op: string)
    | MarkRepair(op: string)

  predicate IsOpen(d: Disk, op: string) {
    op in d.ops && d.ops[op].Open?
  }

  predicate Follows(a: Phase, b: Phase) {
    match a
    case Saved => b == RemovePending
    case RemovePending => b == AddPending
    case AddPending => b == DatabasePending
    case DatabasePending => b == Committed
    case Committed => b == Applied
    case Applied => false
    case RepairRequired => false
  }

  /** The template of the snapshot is one of the requested mode for the recorded row. */
  predicate TemplateFits(s: Snapshot) {
    && s.template.id == s.row.id && s.template.tag == s.row.tag && s.template.port == s.row.port
    && s.template.sniffing == s.row.sniffing
    && ModeForRow(Overwrite(s.row, s.template)) == Some(s.request.newMode)
    && RuntimeInbound(s.template) == RuntimeOfRow(Overwrite(s.row, s.template))
  }

  predicate FreshSnapshot(d: Disk, op: string, s: Snapshot) {
    && SnapshotOf(d.db, s)
    && s.request.operation == op
    && s.request.inbound == s.row.id && s.request.tag == s.row.tag && s.request.port == s.row.port
    && s.request.oldMode != s.request.newMode
    && ModeForRow(s.row) == Some(s.request.oldMode)
    && TemplateFits(s)
  }

  /** What must already hold when a phase is recorded: the phase after the inbound was
      added promises the new inbound, `applied` promises what `_verify_applied` checks. */
  predicate Earned(d: Disk, s: Snapshot, phase: Phase) {
    match phase
    case DatabasePending => s.template.tag in d.runtime && d.runtime[s.template.tag] == RuntimeInbound(s.template)
    case Applied => s.template.tag in d.runtime && Wrote(d.db, s)
    case _ => true
  }

  /** The state a rollback has to reach before it may forget the operation. */
  predicate Undone(d: Disk, f: OpFile)
    requires f.Open?
  {
    && Matches(d.db, f.snap)
    && f.snap.row.tag in d.runtime
    && (f.phase != Saved ==> d.runtime[f.snap.row.tag] == f.snap.oldRuntime)
  }

  predicate RowsUndoable(db: Database, s: Snapshot) {
    s.row.id in db.inbounds && (Matches(db, s) || RowIsCurrent(db, s.row))
  }

  /** An undo can go through: nothing but the operation itself has touched what it is about,
      its row is in place, and no file of an earlier undo is in the way. */
  predicate Undoable(d: Disk, op: string) {
    && IsOpen(d, op)
    && var f := d.ops[op];
       && Boundary(d.db, f.snap).Success? && RowsUndoable(d.db, f.snap)
       && (if f.phase == Saved then f.snap.row.tag in d.runtime else op !in d.leftovers)
  }

  /** The discipline: an effect on the live inbounds or the database is allowed only when
      the phase that announces it is already on disk; an undo only for an open operation
      and inside its boundary; and an operation is forgotten only once it is undone. */
  predicate Allowed(d: Disk, step: Step) {
    match step
    case SaveProfile(_, _) => true
    case MakeDir(op) => op !in d.dirs
    case SaveSnapshot(op, snap) => op in d.dirs && op !in d.ops && FreshSnapshot(d, op, snap)
    case Advance(op, phase) =>
      IsOpen(d, op) && Follows(d.ops[op].phase, phase) && Earned(d, d.ops[op].snap, phase)
    case RemoveInbound(op) => IsOpen(d, op) && d.ops[op].phase == RemovePending
    case AddInbound(op) => IsOpen(d, op) && d.ops[op].phase == AddPending
    case WriteDatabase(op) =>
      IsOpen(d, op) && d.ops[op].phase == DatabasePending
      && Persist(d.db, d.ops[op].snap.row, d.ops[op].snap.clients, d.ops[op].snap.template).Success?
    case TouchLease(op) => IsOpen(d, op) && d.ops[op].phase == Applied
    case FinalizeOp(op) => IsOpen(d, op) && d.ops[op].phase == Applied
    case LeaveRollbackFile(op) =>
      IsOpen(d, op) && d.ops[op].phase != Saved && op !in d.leftovers && Boundary(d.db, d.ops[op].snap).Success?
    case DropRollbackFile(op) => IsOpen(d, op)
    case UndoRemoveInbound(op) =>
      IsOpen(d, op) && d.ops[op].phase != Saved && op in d.leftovers && Boundary(d.db, d.ops[op].snap).Success?
    case UndoAddInbound(op) =>
      IsOpen(d, op) && d.ops[op].phase != Saved && op in d.leftovers && Boundary(d.db, d.ops[op].snap).Success?
    case UndoDatabase(op) =>
      IsOpen(d, op) && Boundary(d.db, d.ops[op].snap).Success? && Restore(d.db, d.ops[op].snap).Success?
    case Tombstone(op) => IsOpen(d, op) && Undone(d, d.ops[op])
    case RemoveDir(op) => IsOpen(d, op) && Undone(d, d.ops[op])
    case MarkRepair(op) => IsOpen(d, op)
  }

  function Effect(d: Disk, step: Step): Disk
    requires Allowed(d, step)
  {
    match step
    case SaveProfile(egress, profile) => d.(profiles := d.profiles[egress := profile])
    case MakeDir(op) => d.(dirs := d.dirs + {op})
    case SaveSnapshot(op, snap) => d.(ops := d.ops[op := Open(Saved, snap)])
    case Advance(op, phase) => d.(ops := d.ops[op := d.ops[op].(phase := phase)])
    case RemoveInbound(op) => d.(runtime := d.runtime - {d.ops[op].snap.template.tag})
    case AddInbound(op) => d.(runtime := d.runtime[d.ops[op].snap.template.tag := RuntimeInbound(d.ops[op].snap.template)])
    case WriteDatabase(op) =>
      d.(db := Persist(d.db, d.ops[op].snap.row, d.ops[op].snap.clients, d.ops[op].snap.template).value)
    case TouchLease(op) => d
    case FinalizeOp(op) => d.(ops := d.ops[op := Finalized])
    case LeaveRollbackFile(op) => d.(leftovers := d.leftovers + {op})
    case DropRollbackFile(op) => d.(leftovers := d.leftovers - {op})
    case UndoRemoveInbound(op) => d.(runtime := d.runtime - {d.ops[op].snap.row.tag})
    case UndoAddInbound(op) => d.(runtime := d.runtime[d.ops[op].snap.row.tag := d.ops[op].snap.oldRuntime])
    case UndoDatabase(op) => d.(db := Restore(d.db, d.ops[op].snap).value)
    case Tombstone(op) => d.(ops := d.ops[op := RolledBack])
    case RemoveDir(op) => d.(ops := d.ops - {op}, dirs := d.dirs - {op}, leftovers := d.leftovers - {op})
    case MarkRepair(op) => d.(ops := d.ops[op := d.ops[op].(phase := RepairRequired)])
  }

  /** A run is a sequence of steps, each allowed where it is taken. */
  predicate ValidRun(d: Disk, steps: seq<Step>)
    decreases |steps|, 0
  {
    steps == [] ||
    (ValidRun(d, steps[..|steps| - 1]) && Allowed(After(d, steps[..|steps| - 1]), steps[|steps| - 1]))
  }

  function After(d: Disk, steps: seq<Step>): Disk
    requires ValidRun(d, steps)
    decreases |steps|, 1
  {
    if steps == [] then d else Effect(After(d, steps[..|steps| - 1]), steps[|steps| - 1])
  }

  lemma ExtendRun(d: Disk, steps: seq<Step>, step: Step)
    requires ValidRun(d, steps) && Allowed(After(d, steps), step)
    ensures ValidRun(d, steps + [step])
    ensures After(d, steps + [step]) == Effect(After(d, steps), step)
  {
    assert (steps + [step])[..|steps|] == steps;
  }

  // ------------------------------------------------------ what a call may do

  /** What a call of the helper is about. */
  datatype Leave = ForApply(request: Request) | ForFinalize(op: string) | ForRollback(op: string) | ForForget(op: string) | ForRecovery | Nothing

  /** An operation begins, ends or is forgotten only in the call that is about it. */
  predicate Permits(l: Leave, step: Step) {
    match step
    case SaveSnapshot(op, snap) => l == ForApply(snap.request) && op == snap.request.operation
    case FinalizeOp(op) => l == ForFinalize(op)
    case Tombstone(op) => l == ForRollback(op)
    case RemoveDir(op) => l == ForForget(op) || l == ForRecovery || (l.ForApply? && l.request.operation == op)
    case _ => true
  }

  /** The steps taken since `was` are all permitted. */
  predicate Only(was: seq<Step>, now: seq<Step>, l: Leave)
    decreases |now|
  {
    now == was || (|was| < |now| && Permits(l, now[|now| - 1]) && Only(was, now[..|now| - 1], l))
  }

  lemma {:induction false} OnlyIsLonger(was: seq<Step>, now: seq<Step>, l: Leave)
    requires Only(was, now, l)
    ensures |was| <= |now| && now[..|was|] == was
    decreases |now|
  {
    if now != was {
      OnlyIsLonger(was, now[..|now| - 1], l);
      assert now[..|now| - 1][..|was|] == now[..|was|];
    }
  }

  // -------------------------------------------------- what was last committed

  /** The history a run carries along: the database and the live inbounds as the last
      finalized operation left them (or as they were at the start), and the operations
      an undo has begun to touch. */
  datatype History = History(db: Database, runtime: map<string, Json>, touched: set<string>)

  function Track(h: History, d: Disk, step: Step): History {
    match step
    case FinalizeOp(op) => History(d.db, d.runtime, h.touched)
    case LeaveRollbackFile(op) => h.(touched := h.touched + {op})
    case UndoRemoveInbound(op) => h.(touched := h.touched + {op})
    case UndoAddInbound(op) => h.(touched := h.touched + {op})
    case UndoDatabase(op) => h.(touched := h.touched + {op})
    case RemoveDir(op) => h.(touched := h.touched - {op})
    case _ => h
  }

  function Committed0(d: Disk): History {
    History(d.db, d.runtime, {})
  }

  function HistoryOf(d: Disk, steps: seq<Step>): History
    requires ValidRun(d, steps)
  {
    if steps == [] then Committed0(d)
    else
      var init := steps[..|steps| - 1];
      Track(HistoryOf(d, init), After(d, init), steps[|steps| - 1])
  }

  predicate NoneOpen(d: Disk) {
    forall op :: op in d.ops ==> !d.ops[op].Open?
  }

  /** The conditions under which an operation may begin: no other operation is open, the
      database keys are sound, and the live inbound is the one generated from the row
      that is recorded as the old one. The first is the caller's to guarantee. */
  predicate CleanBegin(d: Disk, step: Step) {
    step.SaveSnapshot? ==>
      && NoneOpen(d)
      && step.snap.row.tag in d.runtime && d.runtime[step.snap.row.tag] == step.snap.oldRuntime
  }

  predicate CleanRun(d: Disk, steps: seq<Step>)
    requires ValidRun(d, steps)
  {
    steps == [] ||
    (CleanRun(d, steps[..|steps| - 1]) && CleanBegin(After(d, steps[..|steps| - 1]), steps[|steps| - 1]))
  }

  predicate RuntimeBetween(h: History, d: Disk, s: Snapshot) {
    && s.row.tag in h.runtime && h.runtime[s.row.tag] == s.oldRuntime
    && d.runtime - {s.row.tag} == h.runtime - {s.row.tag}
  }

  /** What holds of the one open operation. */
  predicate OpenInv(h: History, d: Disk, op: string, f: OpFile)
    requires f.Open?
  {
    && SnapshotOf(h.db, f.snap) && TemplateFits(f.snap)
    && Between(h.db, d.db, f.snap)
    && RuntimeBetween(h, d, f.snap)
    && (f.phase == Saved ==> d.runtime == h.runtime)
    && (f.phase == Saved || f.phase == RemovePending || f.phase == AddPending ==> d.db == h.db)
    && (op !in h.touched && (f.phase == DatabasePending || f.phase == Committed || f.phase == Applied) ==>
          f.snap.row.tag in d.runtime && d.runtime[f.snap.row.tag] == RuntimeInbound(f.snap.template))
    && (op !in h.touched && f.phase == Applied ==> Wrote(d.db, f.snap))
  }

  ghost predicate Inv(h: History, d: Disk) {
    && WellKeyed(h.db)
    && d.ops.Keys <= d.dirs
    && h.touched <= d.ops.Keys
    && (NoneOpen(d) ==> d.db == h.db && d.runtime == h.runtime)
    && (forall a, b :: IsOpen(d, a) && IsOpen(d, b) ==> a == b)
    && (forall op :: IsOpen(d, op) ==> OpenInv(h, d, op, d.ops[op]))
  }

  predicate Start(d: Disk) {
    WellKeyed(d.db) && NoneOpen(d) && d.ops.Keys <= d.dirs
  }

  lemma BetweenIsWellKeyed(before: Database, mid: Database, s: Snapshot)
    requires WellKeyed(before) && Between(before, mid, s)
    ensures WellKeyed(mid)
  {
  }

  lemma NoneOpenWithout(d: Disk, op: string, next: Disk)
    requires IsOpen(d, op) && (forall a :: IsOpen(d, a) ==> a == op)
    requires forall a :: a in next.ops && a != op ==> a in d.ops && next.ops[a] == d.ops[a]
    requires op in next.ops ==> !next.ops[op].Open?
    ensures NoneOpen(next)
  {
    forall a | a in next.ops ensures !next.ops[a].Open? {
      assert IsOpen(d, a) ==> a == op;
    }
  }

  lemma OnlyTagDiffers(h: History, d: Disk, s: Snapshot)
    requires RuntimeBetween(h, d, s) && s.row.tag in d.runtime
    ensures d.runtime == h.runtime[s.row.tag := d.runtime[s.row.tag]]
  {
    forall k | k != s.row.tag
      ensures k in d.runtime <==> k in h.runtime
      ensures k in h.runtime ==> d.runtime[k] == h.runtime[k]
    {
      assert k in d.runtime <==> k in d.runtime - {s.row.tag};
      assert k in h.runtime <==> k in h.runtime - {s.row.tag};
      if k in h.runtime {
        assert (d.runtime - {s.row.tag})[k] == (h.runtime - {s.row.tag})[k];
      }
    }
  }

  lemma BeginKeepsInv(h: History, d: Disk, op: string, snap: Snapshot)
    requires Inv(h, d) && Allowed(d, SaveSnapshot(op, snap)) && CleanBegin(d, SaveSnapshot(op, snap))
    ensures Inv(h, Effect(d, SaveSnapshot(op, snap)))
  {
    var next := Effect(d, SaveSnapshot(op, snap));
    assert BetweenInbounds(h.db, d.db, snap) by {
      assert d.db.inbounds == d.db.inbounds[snap.row.id := d.db.inbounds[snap.row.id]];
    }
    assert OpenInv(h, next, op, next.ops[op]);
    assert forall a :: a in d.ops ==> !d.ops[a].Open?;
    assert IsOpen(next, op);
  }

  /** A step that leaves the one open operation open only has to keep what holds of it. */
  lemma StillOpenKeepsInv(h: History, d: Disk, h': History, next: Disk, op: string)
    requires Inv(h, d) && IsOpen(d, op) && IsOpen(next, op)
    requires next.ops == d.ops[op := next.ops[op]] && next.dirs == d.dirs
    requires h'.db == h.db && h'.runtime == h.runtime && h'.touched <= h.touched + {op}
    requires OpenInv(h', next, op, next.ops[op])
    ensures Inv(h', next)
  {
    forall a | IsOpen(next, a) ensures a == op {
      assert a != op ==> IsOpen(d, a);
    }
    assert next.ops[op].Open?;
  }

  lemma RuntimeChangeKeepsOpen(h: History, d: Disk, h': History, op: string, runtime: map<string, Json>)
    requires Inv(h, d) && IsOpen(d, op) && d.ops[op].phase != Saved
    requires h' == h || h' == h.(touched := h.touched + {op})
    requires runtime - {d.ops[op].snap.row.tag} == d.runtime - {d.ops[op].snap.row.tag}
    requires op in h'.touched || d.ops[op].phase == RemovePending || d.ops[op].phase == AddPending
    ensures Inv(h', d.(runtime := runtime))
  {
    assert OpenInv(h, d, op, d.ops[op]);
    assert OpenInv(h', d.(runtime := runtime), op, d.ops[op]);
    StillOpenKeepsInv(h, d, h', d.(runtime := runtime), op);
  }

  lemma RuntimeStepKeepsOpen(h: History, d: Disk, step: Step, op: string)
    requires Inv(h, d) && Allowed(d, step) && IsOpen(d, op)
    requires step == RemoveInbound(op) || step == AddInbound(op) || step == UndoRemoveInbound(op) || step == UndoAddInbound(op)
    ensures Inv(Track(h, d, step), Effect(d, step))
  {
    var tag := d.ops[op].snap.row.tag;
    assert OpenInv(h, d, op, d.ops[op]);
    var runtime := Effect(d, step).runtime;
    assert runtime - {tag} == d.runtime - {tag};
    RuntimeChangeKeepsOpen(h, d, Track(h, d, step), op, runtime);
  }

  lemma WriteKeepsOpen(h: History, d: Disk, op: string)
    requires Inv(h, d) && Allowed(d, WriteDatabase(op))
    ensures Inv(h, Effect(d, WriteDatabase(op)))
  {
    var f, next := d.ops[op], Effect(d, WriteDatabase(op));
    assert OpenInv(h, d, op, f);
    PersistStaysBetween(h.db, d.db, f.snap);
    StillOpenKeepsInv(h, d, h, next, op);
  }

  lemma SelfIsBetween(db: Database, s: Snapshot)
    requires s.row.id in db.inbounds
    ensures Between(db, db, s)
  {
    assert db.inbounds == db.inbounds[s.row.id := db.inbounds[s.row.id]];
  }

  lemma UndoDatabaseKeepsOpen(h: History, d: Disk, op: string)
    requires Inv(h, d) && Allowed(d, UndoDatabase(op))
    ensures Inv(h.(touched := h.touched + {op}), Effect(d, UndoDatabase(op)))
    ensures Effect(d, UndoDatabase(op)).db == h.db
  {
    var f, next := d.ops[op], Effect(d, UndoDatabase(op));
    assert OpenInv(h, d, op, f);
    UndoIsExact(h.db, d.db, f.snap);
    SelfIsBetween(h.db, f.snap);
    assert next == d.(db := h.db);
    StillOpenKeepsInv(h, d, h.(touched := h.touched + {op}), next, op);
  }

  lemma JournalKeepsInv(h: History, d: Disk, step: Step, op: string)
    requires Inv(h, d) && Allowed(d, step) && IsOpen(d, op)
    requires (step.Advance? && step.op == op) || step == MarkRepair(op) || step == TouchLease(op)
             || step == LeaveRollbackFile(op) || step == DropRollbackFile(op)
    ensures Inv(Track(h, d, step), Effect(d, step))
  {
    var f := d.ops[op];
    assert OpenInv(h, d, op, f);
    var h', next := Track(h, d, step), Effect(d, step);
    assert next.db == d.db && next.runtime == d.runtime;
    assert next.ops == d.ops[op := next.ops[op]];
    PhaseKeepsOpenInv(h, d, step, op);
    StillOpenKeepsInv(h, d, h', next, op);
  }

  /** The step keeps what holds of the open operation, phase and marker apart. */
  lemma PhaseKeepsOpenInv(h: History, d: Disk, step: Step, op: string)
    requires IsOpen(d, op) && OpenInv(h, d, op, d.ops[op]) && Allowed(d, step)
    requires (step.Advance? && step.op == op) || step == MarkRepair(op) || step == TouchLease(op)
             || step == LeaveRollbackFile(op) || step == DropRollbackFile(op)
    ensures IsOpen(Effect(d, step), op) && OpenInv(Track(h, d, step), Effect(d, step), op, Effect(d, step).ops[op])
  {
  }

  lemma FinalizeKeepsInv(h: History, d: Disk, op: string)
    requires Inv(h, d) && Allowed(d, FinalizeOp(op))
    ensures Inv(Track(h, d, FinalizeOp(op)), Effect(d, FinalizeOp(op)))
    ensures NoneOpen(Effect(d, FinalizeOp(op)))
  {
    var f := d.ops[op];
    assert OpenInv(h, d, op, f);
    NoneOpenWithout(d, op, Effect(d, FinalizeOp(op)));
    BetweenIsWellKeyed(h.db, d.db, f.snap);
  }

  /** An operation that may be forgotten has been undone. */
  lemma UndoneIsCommitted(h: History, d: Disk, op: string)
    requires Inv(h, d) && IsOpen(d, op) && Undone(d, d.ops[op])
    ensures d.db == h.db && d.runtime == h.runtime
  {
    var f := d.ops[op];
    assert OpenInv(h, d, op, f);
    MatchingMeansBefore(h.db, d.db, f.snap);
    if f.phase != Saved {
      OnlyTagDiffers(h, d, f.snap);
    }
  }

  lemma EndKeepsInv(h: History, d: Disk, step: Step, op: string)
    requires Inv(h, d) && Allowed(d, step) && IsOpen(d, op)
    requires step == Tombstone(op) || step == RemoveDir(op)
    ensures Inv(Track(h, d, step), Effect(d, step))
    ensures NoneOpen(Effect(d, step))
  {
    UndoneIsCommitted(h, d, op);
    NoneOpenWithout(d, op, Effect(d, step));
  }

  lemma AsideKeepsInv(h: History, d: Disk, step: Step)
    requires Inv(h, d) && Allowed(d, step) && (step.SaveProfile? || step.MakeDir?)
    ensures Inv(Track(h, d, step), Effect(d, step))
  {
    var next := Effect(d, step);
    assert forall a :: IsOpen(next, a) <==> IsOpen(d, a);
    forall a | IsOpen(next, a) ensures OpenInv(h, next, a, next.ops[a]) { assert OpenInv(h, d, a, d.ops[a]); }
  }

  lemma StepKeepsInv(h: History, d: Disk, step: Step)
    requires Inv(h, d) && Allowed(d, step) && CleanBegin(d, step)
    ensures Inv(Track(h, d, step), Effect(d, step))
  {
    match step {
      case SaveProfile(_, _) => AsideKeepsInv(h, d, step);
      case MakeDir(op) => AsideKeepsInv(h, d, step);
      case SaveSnapshot(op, snap) => BeginKeepsInv(h, d, op, snap);
      case RemoveInbound(op) => RuntimeStepKeepsOpen(h, d, step, op);
      case AddInbound(op) => RuntimeStepKeepsOpen(h, d, step, op);
      case WriteDatabase(op) => WriteKeepsOpen(h, d, op);
      case UndoRemoveInbound(op) => RuntimeStepKeepsOpen(h, d, step, op);
      case UndoAddInbound(op) => RuntimeStepKeepsOpen(h, d, step, op);
      case UndoDatabase(op) => UndoDatabaseKeepsOpen(h, d, op);
      case FinalizeOp(op) => FinalizeKeepsInv(h, d, op);
      case Tombstone(op) => EndKeepsInv(h, d, step, op);
      case RemoveDir(op) => EndKeepsInv(h, d, step, op);
      case Advance(op, _) => JournalKeepsInv(h, d, step, op);
      case TouchLease(op) => JournalKeepsInv(h, d, step, op);
      case LeaveRollbackFile(op) => JournalKeepsInv(h, d, step, op);
      case DropRollbackFile(op) => JournalKeepsInv(h, d, step, op);
      case MarkRepair(op) => JournalKeepsInv(h, d, step, op);
    }
  }

  /** The write-ahead theorem. Over every run of allowed steps, cut off anywhere, the
      invariant holds; in particular, whenever no operation is open the whole database
      and all live inbounds are those the last finalized operation left. */
  lemma {:induction false} WriteAhead(d: Disk, steps: seq<Step>)
    requires Start(d) && ValidRun(d, steps) && CleanRun(d, steps)
    ensures Inv(HistoryOf(d, steps), After(d, steps))
  {
    if steps != [] {
      var init, last := steps[..|steps| - 1], steps[|steps| - 1];
      WriteAhead(d, init);
      StepKeepsInv(HistoryOf(d, init), After(d, init), last);
    }
  }

  /** The form callers use: an idle disk is the committed one. */
  lemma IdleIsCommitted(d: Disk, steps: seq<Step>)
    requires Start(d) && ValidRun(d, steps) && CleanRun(d, steps)
    requires NoneOpen(After(d, steps))
    ensures After(d, steps).db == HistoryOf(d, steps).db && After(d, steps).runtime == HistoryOf(d, steps).runtime
  {
    WriteAhead(d, steps);
  }

  predicate Finalizes(steps: seq<Step>) {
    exists i :: 0 <= i < |steps| && steps[i].FinalizeOp?
  }

  lemma {:induction false} HistoryWithoutFinalize(d: Disk, steps: seq<Step>)
    requires ValidRun(d, steps) && !Finalizes(steps)
    ensures HistoryOf(d, steps).db == d.db && HistoryOf(d, steps).runtime == d.runtime
  {
    if steps != [] {
      var init, last := steps[..|steps| - 1], steps[|steps| - 1];
      forall i | 0 <= i < |init| ensures !init[i].FinalizeOp? {
        assert init[i] == steps[i];
      }
      HistoryWithoutFinalize(d, init);
    }
  }

  /** Operations that are all undone or forgotten leave no trace: database and live
      inbounds are exactly what they were before the first of them. */
  lemma UndoneLeavesNoTrace(d: Disk, steps: seq<Step>)
    requires Start(d) && ValidRun(d, steps) && CleanRun(d, steps)
    requires NoneOpen(After(d, steps)) && !Finalizes(steps)
    ensures After(d, steps).db == d.db && After(d, steps).runtime == d.runtime
  {
    IdleIsCommitted(d, steps);
    HistoryWithoutFinalize(d, steps);
  }

  /** Finalizing an operation no undo has touched commits exactly its template: one write
      of the database, one inbound replaced, and that inbound is again the one the panel
      generates from the row. */
  lemma FinalizeCommitsTemplate(d: Disk, steps: seq<Step>, op: string)
    requires Start(d) && ValidRun(d, steps) && CleanRun(d, steps)
    requires Allowed(After(d, steps), FinalizeOp(op)) && op !in HistoryOf(d, steps).touched
    ensures var h, now := HistoryOf(d, steps), After(d, steps);
            var s := now.ops[op].snap;
            var next := Effect(now, FinalizeOp(op));
            && Persist(h.db, s.row, s.clients, s.template) == Success(next.db)
            && next.runtime == h.runtime[s.row.tag := RuntimeInbound(s.template)]
            && s.row.id in next.db.inbounds
            && ModeForRow(next.db.inbounds[s.row.id]) == Some(s.request.newMode)
            && next.runtime[s.row.tag] == RuntimeOfRow(next.db.inbounds[s.row.id])
  {
    WriteAhead(d, steps);
    var h, now := HistoryOf(d, steps), After(d, steps);
    var s := now.ops[op].snap;
    assert OpenInv(h, now, op, now.ops[op]);
    WroteMeansPersisted(h.db, now.db, s);
    PersistSucceeds(h.db, s);
    OnlyTagDiffers(h, now, s);
    assert now.runtime == h.runtime[s.row.tag := RuntimeInbound(s.template)];
  }

  // ------------------------------------------------------- the live inbound

  /** The inbound Xray runs is the one the panel generates from the row. */
  predicate Live(h: History, inbound: int) {
    && inbound in h.db.inbounds && h.db.inbounds[inbound].tag in h.runtime
    && h.runtime[h.db.inbounds[inbound].tag] == RuntimeOfRow(h.db.inbounds[inbound])
  }

  /** A begin on an idle helper that records as the old inbound the one generated from the
      row, and a finalize of an operation no undo has touched. */
  predicate Tidy(h: History, d: Disk, step: Step, inbound: int) {
    && (step.SaveSnapshot? ==> NoneOpen(d) && step.snap.row.id == inbound && step.snap.oldRuntime == RuntimeOfRow(step.snap.row))
    && (step.FinalizeOp? ==> step.op !in h.touched)
  }

  predicate TidyRun(d: Disk, steps: seq<Step>, inbound: int)
    requires ValidRun(d, steps)
  {
    steps == [] ||
    var init := steps[..|steps| - 1];
    TidyRun(d, init, inbound) && Tidy(HistoryOf(d, init), After(d, init), steps[|steps| - 1], inbound)
  }

  ghost predicate OpenOn(d: Disk, inbound: int) {
    forall op :: IsOpen(d, op) ==> d.ops[op].snap.row.id == inbound
  }

  lemma StaysOpenOn(d: Disk, step: Step, inbound: int)
    requires Allowed(d, step) && OpenOn(d, inbound) && (step.SaveSnapshot? ==> step.snap.row.id == inbound)
    ensures OpenOn(Effect(d, step), inbound)
  {
    var next := Effect(d, step);
    forall op | IsOpen(next, op) ensures next.ops[op].snap.row.id == inbound {
      assert step == SaveSnapshot(op, next.ops[op].snap) || (IsOpen(d, op) && d.ops[op].snap == next.ops[op].snap);
    }
  }

  /** Runs that start with the live inbound in place keep it so, whatever is switched and
      undone in between; every begin of such a run is a clean one. */
  lemma {:induction false} LiveInboundIsGenerated(d: Disk, steps: seq<Step>, inbound: int)
    requires Start(d) && Live(Committed0(d), inbound) && ValidRun(d, steps) && TidyRun(d, steps, inbound)
    ensures CleanRun(d, steps) && Live(HistoryOf(d, steps), inbound) && OpenOn(After(d, steps), inbound)
  {
    if steps != [] {
      var init, last := steps[..|steps| - 1], steps[|steps| - 1];
      LiveInboundIsGenerated(d, init, inbound);
      WriteAhead(d, init);
      StaysOpenOn(After(d, init), last, inbound);
      if last.FinalizeOp? {
        FinalizeCommitsTemplate(d, init, last.op);
      }
    }
  }

  /** In a clean run an operation can be undone exactly if its clients' flows were recorded
      and no earlier undo has left its file behind. */
  lemma CleanIsUndoable(d: Disk, steps: seq<Step>, op: string)
    requires Start(d) && ValidRun(d, steps) && CleanRun(d, steps) && IsOpen(After(d, steps), op)
    ensures var f := After(d, steps).ops[op];
            Undoable(After(d, steps), op) <==> FlowsRecorded(f.snap) && (f.phase == Saved || op !in After(d, steps).leftovers)
  {
    WriteAhead(d, steps);
    var h, now := HistoryOf(d, steps), After(d, steps);
    assert OpenInv(h, now, op, now.ops[op]);
    MatchingMeansBefore(h.db, now.db, now.ops[op].snap);
    UndoIsExact(h.db, now.db, now.ops[op].snap);
    BoundaryDecidesRestore(now.db, now.ops[op].snap);
  }

  // ------------------------------------------------------------- tombstones

  /** Finalized and rolled back exclude each other and are final for an operation id:
      no later step of any run turns one into anything else. */
  lemma {:induction false} TombstonesAreFinal(d: Disk, steps: seq<Step>, op: string)
    requires ValidRun(d, steps) && op in d.ops && !d.ops[op].Open? && d.ops.Keys <= d.dirs
    ensures op in After(d, steps).ops && After(d, steps).ops[op] == d.ops[op]
    ensures After(d, steps).ops.Keys <= After(d, steps).dirs
  {
    if steps != [] {
      TombstonesAreFinal(d, steps[..|steps| - 1], op);
      StepKeepsTombstone(After(d, steps[..|steps| - 1]), steps[|steps| - 1], op);
    }
  }

  lemma StepKeepsTombstone(d: Disk, step: Step, op: string)
    requires Allowed(d, step) && op in d.ops && !d.ops[op].Open? && d.ops.Keys <= d.dirs
    ensures op in Effect(d, step).ops && Effect(d, step).ops[op] == d.ops[op]
    ensures Effect(d, step).ops.Keys <= Effect(d, step).dirs
  {
  }

  /** An operation that began but never got past its snapshot phase has had no effect,
      whatever else the run did. */
  lemma SnapshotPhaseIsHarmless(d: Disk, steps: seq<Step>, op: string)
    requires Start(d) && ValidRun(d, steps) && CleanRun(d, steps)
    requires IsOpen(After(d, steps), op) && After(d, steps).ops[op].phase == Saved
    ensures After(d, steps).db == HistoryOf(d, steps).db && After(d, steps).runtime == HistoryOf(d, steps).runtime
  {
    WriteAhead(d, steps);
    assert OpenInv(HistoryOf(d, steps), After(d, steps), op, After(d, steps).ops[op]);
  }
}
