/** The helper as the Gateway sees it: one managed inbound whose row is in some mode, and
    the operations on it. The lemma StepIsMove shows that every durable step the helper
    may take is a move of this small machine or changes nothing the Gateway can see. */
module HelperView {
  import opened Wrappers
  import opened PanelTemplate
  import opened PanelDatabase
  import HS = HelperSteps

  /** An operation as far as the mode of the inbound is concerned. */
  datatype OpView =
    | Working(source: Mode, target: Mode)
    | Applied(source: Mode, target: Mode)
    | Stuck(source: Mode, target: Mode)
    | Finalized
    | RolledBack

  /** `row` is the mode of the inbound row, None if it matches no mode; `committed` the
      mode the last finalized operation left. */
  datatype Helper = Helper(row: Option<Mode>, committed: Option<Mode>, ops: map<string, OpView>)

  datatype HelperMove =
    | Begin(op: string, source: Mode, target: Mode)
    | Write(op: string)
    | MarkApplied(op: string)
    | Restore(op: string)
    | MarkStuck(op: string)
    | Commit(op: string)
    | Bury(op: string)
    | Forget(op: string)

  predicate OpenOp(h: Helper, op: string) {
    op in h.ops && !h.ops[op].Finalized? && !h.ops[op].RolledBack?
  }

  predicate NoOpenOp(h: Helper) {
    forall op :: op in h.ops ==> !OpenOp(h, op)
  }

  predicate Able(h: Helper, m: HelperMove) {
    match m
    case Begin(op, source, target) => op !in h.ops && source != target && h.row == Some(source)
    case Write(op) => op in h.ops && h.ops[op].Working?
    case MarkApplied(op) => op in h.ops && h.ops[op].Working? && h.row == Some(h.ops[op].target)
    case Restore(op) => OpenOp(h, op)
    case MarkStuck(op) => OpenOp(h, op)
    case Commit(op) => op in h.ops && h.ops[op].Applied?
    case Bury(op) => OpenOp(h, op) && h.row == Some(h.ops[op].source)
    case Forget(op) => OpenOp(h, op) && h.row == Some(h.ops[op].source)
  }

  function Next(h: Helper, m: HelperMove): Helper
    requires Able(h, m)
  {
    match m
    case Begin(op, source, target) => h.(ops := h.ops[op := Working(source, target)])
    case Write(op) => h.(row := Some(h.ops[op].target))
    case MarkApplied(op) => h.(ops := h.ops[op := Applied(h.ops[op].source, h.ops[op].target)])
    case Restore(op) => h.(row := Some(h.ops[op].source))
    case MarkStuck(op) => h.(ops := h.ops[op := Stuck(h.ops[op].source, h.ops[op].target)])
    case Commit(op) => h.(ops := h.ops[op := Finalized], committed := h.row)
    case Bury(op) => h.(ops := h.ops[op := RolledBack])
    case Forget(op) => h.(ops := h.ops - {op})
  }

  // -------------------------------------------------------------- projection

  function ViewOp(f: HS.OpFile): OpView {
    match f
    case Finalized => Finalized
    case RolledBack => RolledBack
    case Open(phase, snap) =>
      var source, target := snap.request.oldMode, snap.request.newMode;
      if phase.Applied? then Applied(source, target)
      else if phase.RepairRequired? then Stuck(source, target)
      else Working(source, target)
  }

  function ViewOps(ops: map<string, HS.OpFile>): map<string, OpView> {
    map op | op in ops :: ViewOp(ops[op])
  }

  function ModeIn(db: Database, inbound: int): Option<Mode> {
    if inbound in db.inbounds then ModeForRow(db.inbounds[inbound]) else None
  }

  function View(h: HS.History, d: HS.Disk, inbound: int): Helper {
    Helper(ModeIn(d.db, inbound), ModeIn(h.db, inbound), ViewOps(d.ops))
  }

  /** Every open operation is on `inbound`, and begun with the modes its request names. */
  ghost predicate OnInbound(d: HS.Disk, inbound: int) {
    forall op :: HS.IsOpen(d, op) ==>
      && d.ops[op].snap.row.id == inbound
      && d.ops[op].snap.request.oldMode != d.ops[op].snap.request.newMode
      && ModeForRow(d.ops[op].snap.row) == Some(d.ops[op].snap.request.oldMode)
  }

  predicate StepOnInbound(step: HS.Step, inbound: int) {
    step.SaveSnapshot? ==> step.snap.row.id == inbound
  }

  /** Rows with the same columns the helper writes are in the same mode. */
  lemma SameColumnsSameMode(a: InboundRow, b: InboundRow)
    requires ColumnsMatch(a, b)
    ensures ModeForRow(a) == ModeForRow(b)
  {
  }

  lemma WrittenIsTarget(db: Database, snap: Snapshot)
    requires HS.TemplateFits(snap) && Wrote(db, snap)
    ensures ModeIn(db, snap.row.id) == Some(snap.request.newMode)
  {
    SameColumnsSameMode(db.inbounds[snap.row.id], Overwrite(snap.row, snap.template));
  }

  lemma BegunIsSource(d: HS.Disk, op: string, snap: Snapshot)
    requires HS.FreshSnapshot(d, op, snap)
    ensures ModeIn(d.db, snap.row.id) == Some(snap.request.oldMode)
  {
  }

  lemma OpenFits(h: HS.History, d: HS.Disk, op: string)
    requires HS.Inv(h, d) && HS.IsOpen(d, op)
    ensures HS.TemplateFits(d.ops[op].snap)
  {
    assert HS.OpenInv(h, d, op, d.ops[op]);
  }

  lemma WritingWrites(h: HS.History, d: HS.Disk, op: string)
    requires HS.Inv(h, d) && HS.Allowed(d, HS.WriteDatabase(op))
    ensures Wrote(HS.Effect(d, HS.WriteDatabase(op)).db, d.ops[op].snap)
  {
    assert HS.OpenInv(h, d, op, d.ops[op]);
    PersistStaysBetween(h.db, d.db, d.ops[op].snap);
  }

  lemma UndoneIsSource(d: HS.Disk, op: string, inbound: int)
    requires HS.IsOpen(d, op) && Matches(d.db, d.ops[op].snap) && OnInbound(d, inbound)
    ensures ModeIn(d.db, inbound) == Some(d.ops[op].snap.request.oldMode)
  {
    SameColumnsSameMode(d.db.inbounds[inbound], d.ops[op].snap.row);
  }

  /** The move a step is seen as; None for a step the Gateway cannot see. */
  function Seen(d: HS.Disk, step: HS.Step): Option<HelperMove> {
    match step
    case SaveSnapshot(op, snap) => Some(Begin(op, snap.request.oldMode, snap.request.newMode))
    case Advance(op, phase) => if phase.Applied? then Some(MarkApplied(op)) else None
    case WriteDatabase(op) => Some(Write(op))
    case UndoDatabase(op) => Some(Restore(op))
    case MarkRepair(op) => Some(MarkStuck(op))
    case FinalizeOp(op) => Some(Commit(op))
    case Tombstone(op) => Some(Bury(op))
    case RemoveDir(op) => Some(Forget(op))
    case _ => None
  }

  /** A step is the move it is seen as. */
  ghost predicate Refines(h: HS.History, d: HS.Disk, step: HS.Step, inbound: int)
    requires HS.Allowed(d, step)
  {
    var before, after := View(h, d, inbound), View(HS.Track(h, d, step), HS.Effect(d, step), inbound);
    match Seen(d, step)
    case None => after == before
    case Some(m) => Able(before, m) && after == Next(before, m)
  }

  lemma StepStaysOnInbound(d: HS.Disk, step: HS.Step, inbound: int)
    requires HS.Allowed(d, step) && OnInbound(d, inbound) && StepOnInbound(step, inbound)
    ensures OnInbound(HS.Effect(d, step), inbound)
  {
    var next := HS.Effect(d, step);
    forall op | HS.IsOpen(next, op)
      ensures next.ops[op].snap.row.id == inbound
      ensures next.ops[op].snap.request.oldMode != next.ops[op].snap.request.newMode
      ensures ModeForRow(next.ops[op].snap.row) == Some(next.ops[op].snap.request.oldMode)
    {
      assert step == HS.SaveSnapshot(op, next.ops[op].snap) || (HS.IsOpen(d, op) && d.ops[op].snap == next.ops[op].snap);
    }
  }

  lemma ViewOpsUpdate(ops: map<string, HS.OpFile>, op: string, f: HS.OpFile)
    ensures ViewOps(ops[op := f]) == ViewOps(ops)[op := ViewOp(f)]
  {
  }

  lemma BeginIsMove(h: HS.History, d: HS.Disk, op: string, snap: Snapshot, inbound: int)
    requires HS.Allowed(d, HS.SaveSnapshot(op, snap)) && snap.row.id == inbound
    ensures Refines(h, d, HS.SaveSnapshot(op, snap), inbound)
  {
    BegunIsSource(d, op, snap);
    ViewOpsUpdate(d.ops, op, HS.Open(HS.Phase.Saved, snap));
    assert snap.request.oldMode != snap.request.newMode;
  }

  /** Recording the phase `applied` is only allowed once the row reads as the new mode. */
  lemma AppliedIsTarget(h: HS.History, d: HS.Disk, op: string, inbound: int)
    requires HS.Inv(h, d) && HS.Allowed(d, HS.Advance(op, HS.Phase.Applied)) && OnInbound(d, inbound)
    ensures ModeIn(d.db, inbound) == Some(d.ops[op].snap.request.newMode)
  {
    OpenFits(h, d, op);
    WrittenIsTarget(d.db, d.ops[op].snap);
  }

  lemma AdvanceIsMove(h: HS.History, d: HS.Disk, op: string, phase: HS.Phase, inbound: int)
    requires HS.IsOpen(d, op) && HS.Follows(d.ops[op].phase, phase) && HS.Allowed(d, HS.Advance(op, phase))
    requires phase.Applied? ==> ModeIn(d.db, inbound) == Some(d.ops[op].snap.request.newMode)
    ensures Refines(h, d, HS.Advance(op, phase), inbound)
  {
    var ops := d.ops[op := d.ops[op].(phase := phase)];
    assert ViewOps(ops) == ViewOps(d.ops)[op := ViewOp(ops[op])];
    assert !phase.Applied? ==> ViewOps(ops) == ViewOps(d.ops);
  }

  lemma SettleIsMove(h: HS.History, d: HS.Disk, step: HS.Step, inbound: int)
    requires HS.Allowed(d, step) && (step.MarkRepair? || step.FinalizeOp?)
    ensures Refines(h, d, step, inbound)
  {
    var next := HS.Effect(d, step);
    assert ViewOps(next.ops) == ViewOps(d.ops)[step.op := ViewOp(next.ops[step.op])];
  }

  lemma WriteIsMove(h: HS.History, d: HS.Disk, op: string, inbound: int)
    requires HS.Inv(h, d) && HS.Allowed(d, HS.WriteDatabase(op)) && OnInbound(d, inbound)
    ensures Refines(h, d, HS.WriteDatabase(op), inbound)
  {
    OpenFits(h, d, op);
    WritingWrites(h, d, op);
    WrittenIsTarget(HS.Effect(d, HS.WriteDatabase(op)).db, d.ops[op].snap);
  }

  lemma UndoIsMove(h: HS.History, d: HS.Disk, op: string, inbound: int)
    requires HS.Allowed(d, HS.UndoDatabase(op)) && OnInbound(d, inbound)
    ensures Refines(h, d, HS.UndoDatabase(op), inbound)
  {
    var next := HS.Effect(d, HS.UndoDatabase(op));
    RestoredMatches(d.db, d.ops[op].snap);
    UndoneIsSource(next, op, inbound);
  }

  lemma EndIsMove(h: HS.History, d: HS.Disk, step: HS.Step, inbound: int)
    requires HS.Allowed(d, step) && OnInbound(d, inbound)
    requires step.Tombstone? || step.RemoveDir?
    ensures Refines(h, d, step, inbound)
  {
    var next := HS.Effect(d, step);
    UndoneIsSource(d, step.op, inbound);
    if step.Tombstone? {
      assert ViewOps(next.ops) == ViewOps(d.ops)[step.op := RolledBack];
    } else {
      assert ViewOps(next.ops) == ViewOps(d.ops) - {step.op};
    }
  }

  /** Every durable step of the helper is the move it is seen as: enabled there, and with
      exactly the effect the small machine gives it; a step that is not seen changes
      nothing in the view. */
  lemma StepIsMove(h: HS.History, d: HS.Disk, step: HS.Step, inbound: int)
    requires HS.Inv(h, d) && HS.Allowed(d, step)
    requires OnInbound(d, inbound) && StepOnInbound(step, inbound)
    ensures OnInbound(HS.Effect(d, step), inbound)
    ensures Refines(h, d, step, inbound)
  {
    StepStaysOnInbound(d, step, inbound);
    match step {
      case SaveSnapshot(op, snap) => BeginIsMove(h, d, op, snap, inbound);
      case Advance(op, phase) =>
        if phase.Applied? {
          AppliedIsTarget(h, d, op, inbound);
        }
        AdvanceIsMove(h, d, op, phase, inbound);
      case MarkRepair(op) => SettleIsMove(h, d, step, inbound);
      case FinalizeOp(op) => SettleIsMove(h, d, step, inbound);
      case WriteDatabase(op) => WriteIsMove(h, d, op, inbound);
      case UndoDatabase(op) => UndoIsMove(h, d, op, inbound);
      case Tombstone(op) => EndIsMove(h, d, step, inbound);
      case RemoveDir(op) => EndIsMove(h, d, step, inbound);
      case _ =>
    }
  }

  // -------------------------------------------------------------------- runs

  predicate MoveRun(h: Helper, moves: seq<HelperMove>)
    decreases |moves|, 0
  {
    moves == [] || (MoveRun(h, moves[..|moves| - 1]) && Able(MoveEnd(h, moves[..|moves| - 1]), moves[|moves| - 1]))
  }

  function MoveEnd(h: Helper, moves: seq<HelperMove>): Helper
    requires MoveRun(h, moves)
    decreases |moves|, 1
  {
    if moves == [] then h else Next(MoveEnd(h, moves[..|moves| - 1]), moves[|moves| - 1])
  }

  predicate AllOnInbound(steps: seq<HS.Step>, inbound: int) {
    forall i :: 0 <= i < |steps| ==> StepOnInbound(steps[i], inbound)
  }

  /** Every run of the helper, cut off anywhere, is a run of the small machine that ends
      in the view of the disk; so what holds of all runs of the small machine holds of
      the helper. */
  lemma {:induction false} RunIsMoveRun(d: HS.Disk, steps: seq<HS.Step>, inbound: int) returns (moves: seq<HelperMove>)
    requires HS.Start(d) && HS.ValidRun(d, steps) && HS.CleanRun(d, steps)
    requires AllOnInbound(steps, inbound)
    ensures OnInbound(HS.After(d, steps), inbound)
    ensures MoveRun(View(HS.Committed0(d), d, inbound), moves)
    ensures MoveEnd(View(HS.Committed0(d), d, inbound), moves) == View(HS.HistoryOf(d, steps), HS.After(d, steps), inbound)
  {
    if steps == [] {
      moves := [];
    } else {
      var init, last := steps[..|steps| - 1], steps[|steps| - 1];
      assert AllOnInbound(init, inbound);
      moves := RunIsMoveRun(d, init, inbound);
      HS.WriteAhead(d, init);
      StepIsMove(HS.HistoryOf(d, init), HS.After(d, init), last, inbound);
      match Seen(HS.After(d, init), last) {
        case None =>
        case Some(m) =>
          assert (moves + [m])[..|moves|] == moves;
          moves := moves + [m];
      }
    }
  }
}
