/** The protocol transaction helper itself: a root process that may be killed between any
    two durable steps and whose steps may fail with or without effect.
    Models scripts/aimili_xui_protocol_transaction.py, class ProtocolTransactionManager. */
module ProtocolHelper {
  import opened Wrappers
  import opened Fates
  import opened Json
  import opened PanelTemplate
  import opened PanelDatabase
  import opened HelperSteps

  /** How a call ends: with a result, with a coded error, or with the process. */
  datatype Reply = Answer(status: string, code: string) | Raised(code: string) | Died

  datatype Source = Source(row: InboundRow, clients: seq<AttachedClient>, profile: Profile)

  /** `load_target`. `owned` stands for the checks of remark, outbound and routing. */
  function LoadTarget(d: Disk, request: Request, owned: bool, path: string): Result<Source>
    requires WellKeyed(d.db)
  {
    if request.inbound !in d.db.inbounds then Failure("managed_resource_missing")
    else
      var row := d.db.inbounds[request.inbound];
      if row.tag != request.tag || row.port != request.port || row.enable != 1 || !owned then Failure("ownership_conflict")
      else
        var clients := Attached(d.db, request.inbound);
        if clients == [] then Failure("managed_resource_missing")
        else if ModeForRow(row).None? then Failure("managed_resource_drift")
        else if ModeForRow(row).value != request.oldMode then Failure("expected_state_mismatch")
        else
          var stored := if request.egress in d.profiles then Some(d.profiles[request.egress]) else None;
          match LoadProfile(stored, row, request.oldMode, path)
          case Failure(e) => Failure(e)
          case Success(profile) => Success(Source(row, clients, profile))
  }

  /** `build_template` for the new mode, then `_new_snapshot`. */
  function Plan(config: Config, source: Source, request: Request, tokens: int -> string): Result<Snapshot> {
    match BuildTemplate(config, source.row, source.clients, source.profile, request.newMode, tokens)
    case Failure(e) => Failure(e)
    case Success(t) =>
      match BuildTemplate(config, source.row, source.clients, source.profile, request.oldMode, tokens)
      case Failure(e) => Failure(e)
      case Success(current) => Success(Snapshot(request, source.row, source.clients, RuntimeInbound(current), t))
  }

  lemma PlannedUpdates(config: Config, row: InboundRow, clients: seq<AttachedClient>, profile: Profile, mode: Mode, tokens: int -> string)
    requires BuildTemplate(config, row, clients, profile, mode, tokens).Success?
    ensures var t := BuildTemplate(config, row, clients, profile, mode, tokens).value;
            forall id :: id in t.authUpdates ==> exists i :: 0 <= i < |clients| && clients[i].client.id == id && Text(clients[i].client.auth) == ""
  {
    var t := BuildTemplate(config, row, clients, profile, mode, tokens).value;
    if mode.Hysteria2? {
      var listed := Enabled(clients);
      UpdatesAreForMissing(listed, tokens);
      var at := EnabledIndex(clients);
      forall id | id in t.authUpdates
        ensures exists i :: 0 <= i < |clients| && clients[i].client.id == id && Text(clients[i].client.auth) == ""
      {
        var j :| 0 <= j < |listed| && listed[j].client.id == id && Text(listed[j].client.auth) == "";
        assert clients[at[j]] == listed[j];
      }
    }
  }

  /** A snapshot planned for the attached clients of a row only gives credentials to
      clients that have none. */
  lemma PlannedIsSnapshotOf(config: Config, db: Database, s: Snapshot, profile: Profile, mode: Mode, tokens: int -> string)
    requires WellKeyed(db) && s.row.id in db.inbounds && s.row == db.inbounds[s.row.id]
    requires IsAttached(db, s.row.id, s.clients)
    requires BuildTemplate(config, s.row, s.clients, profile, mode, tokens) == Success(s.template)
    ensures SnapshotOf(db, s)
  {
    PlannedUpdates(config, s.row, s.clients, profile, mode, tokens);
    forall id | id in s.template.authUpdates ensures id in IdSet(s.clients) && id in db.clients && Text(db.clients[id].auth) == "" {
      var i :| 0 <= i < |s.clients| && s.clients[i].client.id == id && Text(s.clients[i].client.auth) == "";
      assert IsJoined(db, s.row.id, s.clients[i]);
      assert s.clients[i] in s.clients;
    }
  }

  lemma BuiltTemplateFits(config: Config, s: Snapshot, profile: Profile, tokens: int -> string)
    requires BuildTemplate(config, s.row, s.clients, profile, s.request.newMode, tokens) == Success(s.template)
    ensures TemplateFits(s)
  {
    BuiltRowReadsBack(config, s.row, s.clients, profile, s.request.newMode, tokens);
  }

  /** What is planned for a target is a snapshot the discipline accepts. */
  lemma PlanIsFresh(config: Config, d: Disk, request: Request, owned: bool, path: string, tokens: int -> string)
    requires WellKeyed(d.db) && request.oldMode != request.newMode
    requires LoadTarget(d, request, owned, path).Success?
    requires Plan(config, LoadTarget(d, request, owned, path).value, request, tokens).Success?
    ensures FreshSnapshot(d, request.operation, Plan(config, LoadTarget(d, request, owned, path).value, request, tokens).value)
  {
    var source := LoadTarget(d, request, owned, path).value;
    var s := Plan(config, source, request, tokens).value;
    assert s.row == d.db.inbounds[request.inbound] && s.clients == Attached(d.db, request.inbound);
    assert ModeForRow(s.row) == Some(request.oldMode);
    PlannedIsSnapshotOf(config, d.db, s, source.profile, request.newMode, tokens);
    BuiltTemplateFits(config, s, source.profile, tokens);
  }

  class ProtocolTransactionManager {
    var disk: Disk
    var clock: nat
    const config: Config
    const fates: Schedule
    ghost const start: Disk
    ghost var log: seq<Step>
    ghost var leave: Leave
    ghost var base: seq<Step>
    /** Some step from `since` on was not done. */
    ghost var troubled: bool
    ghost var since: nat

    constructor (config: Config, disk: Disk, fates: Schedule)
      requires WellKeyed(disk.db)
      ensures Valid() && this.disk == disk && log == [] && start == disk && !troubled
      ensures this.fates == fates && this.config == config
    {
      this.disk := disk;
      this.clock := 0;
      this.config := config;
      this.fates := fates;
      this.start := disk;
      this.log := [];
      this.leave := Nothing;
      this.base := [];
      this.troubled := false;
      this.since := 0;
    }

    /** The disk is where the recorded run of allowed steps leads, and the call at work has
        only taken steps it is about. */
    ghost predicate Valid()
      reads this
    {
      ValidRun(start, log) && After(start, log) == disk && WellKeyed(disk.db) && Only(base, log, leave)
      && since <= clock && (troubled <==> Troubles(since, clock) > 0)
    }

    /** How many steps between the two were not done. */
    function Troubles(from: nat, to: nat): nat {
      if from < to then Troubles(from, to - 1) + (if fates(to - 1).Done? then 0 else 1) else 0
    }

    lemma {:induction false} TroublesAdd(a: nat, b: nat, c: nat)
      requires a <= b <= c
      ensures Troubles(a, c) == Troubles(a, b) + Troubles(b, c)
    {
      if b < c {
        TroublesAdd(a, b, c - 1);
      }
    }

    lemma {:induction false} SmoothMeansNoTroubles(from: nat, to: nat)
      ensures Troubles(from, to) == 0 <==> forall n :: from <= n < to ==> fates(n).Done?
    {
      if from < to {
        SmoothMeansNoTroubles(from, to - 1);
      }
    }

    /** From here on trouble is counted anew ... */
    ghost method Calm()
      requires Valid()
      modifies this`troubled, this`since
      ensures Valid() && !troubled && since == clock
    {
      troubled := false;
      since := clock;
    }

    /** ... and from here on as before. */
    ghost method Resume(before: nat, wasTroubled: bool)
      requires Valid() && before <= since && (wasTroubled <==> Troubles(before, since) > 0)
      modifies this`troubled, this`since
      ensures Valid() && since == before && troubled == (wasTroubled || old(troubled))
    {
      TroublesAdd(before, since, clock);
      troubled := wasTroubled || troubled;
      since := before;
    }

    /** A call begins. */
    ghost method Enter(l: Leave)
      requires Valid()
      modifies this`leave, this`base, this`troubled, this`since
      ensures Valid() && leave == l && base == log && !troubled && since == clock
    {
      leave := l;
      base := log;
      Calm();
    }

    /** No operation of the run began while another one was open. */
    ghost predicate Clean()
      requires ValidRun(start, log)
      reads this
    {
      Start(start) && CleanRun(start, log)
    }

    ghost function Hist(): History
      requires ValidRun(start, log)
      reads this
    {
      HistoryOf(start, log)
    }

    /** Asks for the fate of a step that leaves no durable trace. */
    method Poll() returns (fate: Fate)
      requires Valid()
      modifies this`clock, this`troubled
      ensures Valid() && troubled == (old(troubled) || !fate.Done?)
    {
      fate := fates(clock);
      clock := clock + 1;
      troubled := troubled || !fate.Done?;
    }

    /** Takes one durable step, as its fate decides. */
    method Take(step: Step) returns (fate: Fate)
      requires Valid() && Allowed(disk, step) && Permits(leave, step)
      modifies this`clock, this`disk, this`log, this`troubled
      ensures Valid() && troubled == (old(troubled) || !fate.Done?)
      ensures Took(fate) ==> disk == Effect(old(disk), step) && log == old(log) + [step] && Hist() == Track(old(Hist()), old(disk), step)
      ensures !Took(fate) ==> disk == old(disk) && log == old(log)
      ensures old(Clean()) && CleanBegin(old(disk), step) ==> Clean()
    {
      fate := Poll();
      if Took(fate) {
        Put(step);
      }
    }

    /** A step that takes effect. */
    method Put(step: Step)
      requires Valid() && Allowed(disk, step) && Permits(leave, step)
      modifies this`disk, this`log
      ensures Valid() && disk == Effect(old(disk), step) && log == old(log) + [step] && Hist() == Track(old(Hist()), old(disk), step)
      ensures old(Clean()) && CleanBegin(old(disk), step) ==> Clean()
    {
      ExtendRun(start, log, step);
      assert (log + [step])[..|log|] == log;
      assert Only(base, log + [step], leave) by { OnlyIsLonger(base, log, leave); }
      if step.WriteDatabase? {
        TransactionsKeepKeys(disk.db, disk.ops[step.op].snap);
      }
      if step.UndoDatabase? {
        TransactionsKeepKeys(disk.db, disk.ops[step.op].snap);
      }
      disk := Effect(disk, step);
      log := log + [step];
    }

    /** Takes a step and turns anything but success into the error it is reported as. */
    method Do(step: Step, code: string) returns (trouble: Option<Reply>)
      requires Valid() && Allowed(disk, step) && Permits(leave, step) && !step.SaveSnapshot?
      modifies this`clock, this`disk, this`log, this`troubled
      ensures Valid()
      ensures trouble.None? ==> disk == Effect(old(disk), step)
      ensures trouble.Some? ==> trouble.value == Died || trouble.value == Raised(code)
      ensures trouble.Some? ==> disk == old(disk) || disk == Effect(old(disk), step)
      ensures !step.FinalizeOp? ==> Hist().db == old(Hist().db) && Hist().runtime == old(Hist().runtime)
      ensures old(Clean()) ==> Clean()
      ensures troubled == (old(troubled) || trouble.Some?)
    {
      var fate := Take(step);
      match fate {
        case Done => trouble := None;
        case Kill => trouble := Some(Died);
        case Fails => trouble := Some(Raised(code));
        case FailsLate => trouble := Some(Raised(code));
      }
    }

    /** Asks Xray for its inbounds, or writes a temporary file nobody reads again. */
    method Consult(code: string) returns (trouble: Option<Reply>)
      requires Valid()
      modifies this`clock, this`troubled
      ensures Valid()
      ensures trouble.Some? ==> trouble.value == Died || trouble.value == Raised(code)
      ensures troubled == (old(troubled) || trouble.Some?)
    {
      var fate := Poll();
      match fate {
        case Done => trouble := None;
        case Kill => trouble := Some(Died);
        case Fails => trouble := Some(Raised(code));
        case FailsLate => trouble := Some(Raised(code));
      }
    }

    /** The disk after `op` was worked on: nothing else was touched. */
    static predicate OnlyOp(before: Disk, after: Disk, op: string) {
      && (forall o :: o in before.ops && o != op ==> o in after.ops && after.ops[o] == before.ops[o])
      && (forall o :: o in after.ops && o != op ==> o in before.ops)
    }

    /** The undo and forward steps keep the snapshot an open operation was begun with. */
    static predicate SameSnapshot(before: Disk, after: Disk, op: string)
      requires op in before.ops && before.ops[op].Open?
    {
      IsOpen(after, op) && after.ops[op].snap == before.ops[op].snap
    }

    // ------------------------------------------------------------- rollback

    /** Puts the recorded inbound back into Xray, inside the try of `_rollback_snapshot`. */
    method RestoreRuntime(op: string) returns (trouble: Option<Reply>)
      requires Valid() && IsOpen(disk, op) && disk.ops[op].phase != Saved && op in disk.leftovers
      requires Boundary(disk.db, disk.ops[op].snap).Success?
      modifies this`clock, this`disk, this`log, this`troubled
      ensures Valid() && (old(Clean()) ==> Clean())
      ensures Hist().db == old(Hist().db) && Hist().runtime == old(Hist().runtime)
      ensures disk == old(disk).(runtime := disk.runtime)
      ensures trouble.None? ==> disk.ops[op].snap.row.tag in disk.runtime && disk.runtime[disk.ops[op].snap.row.tag] == disk.ops[op].snap.oldRuntime
      ensures trouble.Some? ==> !trouble.value.Answer? && trouble.value !in {Raised("operation_finalized"), Raised("operation_not_applied")}
      ensures troubled == (old(troubled) || trouble.Some?)
    {
      trouble := Consult("xray_list_inbounds_failed");
      if trouble.Some? {
        return;
      }
      if disk.ops[op].snap.row.tag in disk.runtime {
        trouble := Do(UndoRemoveInbound(op), "xray_remove_inbound_failed");
        if trouble.Some? {
          return;
        }
      }
      trouble := Do(UndoAddInbound(op), "xray_add_inbound_failed");
    }

    /** The same with its temporary file, which a kill leaves behind. */
    method ReplaceRuntime(op: string) returns (trouble: Option<Reply>)
      requires Valid() && IsOpen(disk, op) && disk.ops[op].phase != Saved
      requires Boundary(disk.db, disk.ops[op].snap).Success?
      modifies this`clock, this`disk, this`log, this`troubled
      ensures Valid() && (old(Clean()) ==> Clean())
      ensures Hist().db == old(Hist().db) && Hist().runtime == old(Hist().runtime)
      ensures disk == old(disk).(runtime := disk.runtime, leftovers := disk.leftovers)
      ensures op in old(disk).leftovers ==> trouble == Some(Raised("unsafe_path")) && disk == old(disk)
      ensures trouble.None? ==> disk.ops[op].snap.row.tag in disk.runtime && disk.runtime[disk.ops[op].snap.row.tag] == disk.ops[op].snap.oldRuntime
      ensures trouble.Some? ==> !trouble.value.Answer? && trouble.value !in {Raised("operation_finalized"), Raised("operation_not_applied")}
      ensures (old(troubled) ==> troubled) && (trouble.Some? ==> troubled || op in old(disk).leftovers)
      ensures trouble == Some(Died) ==> troubled
    {
      if op in disk.leftovers {
        return Some(Raised("unsafe_path"));
      }
      trouble := Do(LeaveRollbackFile(op), "temporary_write_failed");
      if trouble.Some? {
        return;
      }
      var inner := RestoreRuntime(op);
      if inner == Some(Died) {
        return Some(Died);
      }
      trouble := Do(DropRollbackFile(op), "transaction_failed");
      if trouble.None? {
        trouble := inner;
      }
    }

    method RestoreRows(op: string) returns (trouble: Option<Reply>)
      requires Valid() && IsOpen(disk, op)
      requires Boundary(disk.db, disk.ops[op].snap).Success?
      modifies this`clock, this`disk, this`log, this`troubled
      ensures Valid() && (old(Clean()) ==> Clean())
      ensures Hist().db == old(Hist().db) && Hist().runtime == old(Hist().runtime)
      ensures disk == old(disk).(db := disk.db)
      ensures trouble.None? ==> Matches(disk.db, disk.ops[op].snap)
      ensures trouble.Some? ==> !trouble.value.Answer? && trouble.value !in {Raised("operation_finalized"), Raised("operation_not_applied")}
      ensures old(troubled) ==> troubled
      ensures trouble.None? ==> RowsUndoable(old(disk).db, disk.ops[op].snap)
      ensures trouble.Some? ==> troubled || !RowsUndoable(old(disk).db, disk.ops[op].snap)
      ensures trouble == Some(Died) ==> troubled
    {
      var s := disk.ops[op].snap;
      if s.row.id !in disk.db.inbounds {
        return Some(Raised("managed_resource_missing"));
      }
      var same := RunMatches(disk.db, s);
      trouble := None;
      if !same {
        var restored := RunRestore(disk.db, s);
        if restored.Failure? {
          BoundaryDecidesRestore(disk.db, s);
          return Some(Raised(restored.error));
        }
        RestoredMatches(disk.db, s);
        trouble := Do(UndoDatabase(op), "database_restore_failed");
      }
    }

    /** Inside its boundary: the inbound and the rows are put back, and looked at again. */
    method UndoEffects(op: string) returns (trouble: Option<Reply>)
      requires Valid() && IsOpen(disk, op) && Boundary(disk.db, disk.ops[op].snap).Success?
      modifies this`clock, this`disk, this`log, this`troubled
      ensures Valid() && (old(Clean()) ==> Clean())
      ensures Hist().db == old(Hist().db) && Hist().runtime == old(Hist().runtime)
      ensures disk.ops == old(disk).ops && disk.dirs == old(disk).dirs
      ensures trouble.None? ==> Undone(disk, disk.ops[op])
      ensures trouble.Some? ==> !trouble.value.Answer? && trouble.value !in {Raised("operation_finalized"), Raised("operation_not_applied")}
      ensures old(troubled) ==> troubled
      ensures trouble.None? ==> Undoable(old(disk), op)
      ensures trouble.Some? ==> troubled || !Undoable(old(disk), op)
      ensures trouble == Some(Died) ==> troubled
    {
      var f := disk.ops[op];
      trouble := None;
      if f.phase != Saved {
        trouble := ReplaceRuntime(op);
        if trouble.Some? {
          return;
        }
      }
      trouble := RestoreRows(op);
      if trouble.Some? {
        return;
      }
      trouble := Consult("xray_list_inbounds_failed");
      if trouble.None? && (f.snap.row.tag !in disk.runtime || !ColumnsMatch(disk.db.inbounds[f.snap.row.id], f.snap.row)) {
        return Some(Raised("rollback_verification_failed"));
      }
    }

    /** `_rollback_snapshot`. On success the operation is undone, and forgotten if asked;
        a changed client list, flow or planned credential stops it before it touches
        anything. */
    method RollbackSnapshot(op: string, removeOnSuccess: bool) returns (r: Reply)
      requires Valid() && (removeOnSuccess ==> Permits(leave, RemoveDir(op)))
      modifies this`clock, this`disk, this`log, this`troubled
      ensures Valid() && (old(Clean()) ==> Clean())
      ensures Hist().db == old(Hist().db) && Hist().runtime == old(Hist().runtime)
      ensures OnlyOp(old(disk), disk, op)
      ensures !IsOpen(old(disk), op) ==> r.Raised? && disk == old(disk)
      ensures IsOpen(old(disk), op) && Boundary(old(disk).db, old(disk).ops[op].snap).Failure? ==>
                r == Raised(Boundary(old(disk).db, old(disk).ops[op].snap).error) && disk == old(disk)
      ensures r.Answer? && !removeOnSuccess ==> disk.ops == old(disk).ops && Undone(disk, disk.ops[op])
      ensures r.Answer? && removeOnSuccess ==> op !in disk.ops && op !in disk.dirs
      ensures r.Answer? ==> Undoable(old(disk), op) && Undone(disk, old(disk).ops[op])
      ensures !r.Answer? ==> troubled || !Undoable(old(disk), op)
      ensures (old(troubled) || r.Died?) ==> troubled
      ensures r.Raised? ==> disk.ops == old(disk).ops
      ensures r !in {Raised("operation_finalized"), Raised("operation_not_applied")}
      ensures r.Died? ==> disk.ops == old(disk).ops || op !in disk.ops
    {
      if op !in disk.ops {
        return Raised("unsafe_path");
      }
      if !disk.ops[op].Open? {
        return Raised("snapshot_invalid");
      }
      var boundary := RunBoundary(disk.db, disk.ops[op].snap);
      if boundary.Failure? {
        return Raised(boundary.error);
      }
      r := UndoInside(op, removeOnSuccess);
    }

    /** The same inside its boundary. */
    method UndoInside(op: string, removeOnSuccess: bool) returns (r: Reply)
      requires Valid() && (removeOnSuccess ==> Permits(leave, RemoveDir(op)))
      requires IsOpen(disk, op) && Boundary(disk.db, disk.ops[op].snap).Success?
      modifies this`clock, this`disk, this`log, this`troubled
      ensures Valid() && (old(Clean()) ==> Clean())
      ensures Hist().db == old(Hist().db) && Hist().runtime == old(Hist().runtime)
      ensures OnlyOp(old(disk), disk, op)
      ensures r.Answer? && !removeOnSuccess ==> disk.ops == old(disk).ops
      ensures r.Answer? && removeOnSuccess ==> op !in disk.ops && op !in disk.dirs
      ensures r.Answer? ==> Undoable(old(disk), op) && Undone(disk, old(disk).ops[op])
      ensures !r.Answer? ==> troubled || !Undoable(old(disk), op)
      ensures (old(troubled) || r.Died?) ==> troubled
      ensures r.Raised? ==> disk.ops == old(disk).ops
      ensures r !in {Raised("operation_finalized"), Raised("operation_not_applied")}
      ensures r.Died? ==> disk.ops == old(disk).ops || op !in disk.ops
    {
      var trouble := UndoEffects(op);
      if trouble.Some? {
        return trouble.value;
      }
      r := Answer("rolled_back", "");
      if removeOnSuccess {
        r := RemoveDirectory(op);
      }
    }

    /** `_remove_operation_dir`, of an operation that is undone. */
    method RemoveDirectory(op: string) returns (r: Reply)
      requires Valid() && IsOpen(disk, op) && Undone(disk, disk.ops[op]) && Permits(leave, RemoveDir(op))
      modifies this`clock, this`disk, this`log, this`troubled
      ensures Valid() && (old(Clean()) ==> Clean())
      ensures Hist().db == old(Hist().db) && Hist().runtime == old(Hist().runtime)
      ensures disk == old(disk) || disk == Effect(old(disk), RemoveDir(op))
      ensures r.Answer? ==> r == Answer("rolled_back", "") && disk == Effect(old(disk), RemoveDir(op))
      ensures r.Raised? ==> r == Raised("snapshot_cleanup_failed") && disk == old(disk)
      ensures (old(troubled) || !r.Answer?) ==> troubled
    {
      var fate := Take(RemoveDir(op));
      match fate {
        case Kill => r := Died;
        case Fails => r := Raised("snapshot_cleanup_failed");
        case Done => r := Answer("rolled_back", "");
        case FailsLate => r := Answer("rolled_back", "");
      }
    }

    // ---------------------------------------------------------------- apply

    method CaptureProfile(request: Request, profile: Profile) returns (trouble: Option<Reply>)
      requires Valid()
      modifies this`clock, this`disk, this`log, this`troubled
      ensures Valid() && (old(Clean()) ==> Clean())
      ensures Hist().db == old(Hist().db) && Hist().runtime == old(Hist().runtime)
      ensures disk == old(disk).(profiles := disk.profiles)
      ensures IsVless(request.oldMode) || disk == old(disk)
      ensures trouble.Some? ==> trouble.value == Died || trouble.value == Raised("snapshot_write_failed")
      ensures troubled == (old(troubled) || trouble.Some?)
    {
      if IsVless(request.oldMode) {
        trouble := Do(SaveProfile(request.egress, profile), "snapshot_write_failed");
      } else {
        trouble := None;
      }
    }

    /** The new configuration is written to temporary files and tested offline. */
    method Rehearse() returns (trouble: Option<Reply>)
      requires Valid()
      modifies this`clock, this`troubled
      ensures Valid() && (trouble.Some? ==> !trouble.value.Answer?)
      ensures troubled == (old(troubled) || trouble.Some?)
    {
      trouble := Consult("temporary_write_failed");
      if trouble.Some? { return; }
      trouble := Consult("xray_offline_test_failed");
      if trouble.Some? { return; }
      trouble := Consult("temporary_write_failed");
    }

    /** The try block of `apply`: the tests, then the old inbound goes. */
    method RemoveOld(op: string) returns (trouble: Option<Reply>)
      requires Valid() && IsOpen(disk, op) && disk.ops[op].phase == Saved
      modifies this`clock, this`disk, this`log, this`troubled
      ensures Valid() && (old(Clean()) ==> Clean())
      ensures Hist().db == old(Hist().db) && Hist().runtime == old(Hist().runtime)
      ensures disk.db == old(disk).db && OnlyOp(old(disk), disk, op) && SameSnapshot(old(disk), disk, op)
      ensures trouble.None? ==> disk.ops[op].phase == AddPending
      ensures trouble.Some? ==> !trouble.value.Answer?
      ensures troubled == (old(troubled) || trouble.Some?)
      ensures disk.leftovers == old(disk).leftovers
    {
      trouble := Rehearse();
      if trouble.Some? { return; }
      trouble := TakeOut(op);
    }

    method TakeOut(op: string) returns (trouble: Option<Reply>)
      requires Valid() && IsOpen(disk, op) && disk.ops[op].phase == Saved
      modifies this`clock, this`disk, this`log, this`troubled
      ensures Valid() && (old(Clean()) ==> Clean())
      ensures Hist().db == old(Hist().db) && Hist().runtime == old(Hist().runtime)
      ensures disk.db == old(disk).db && OnlyOp(old(disk), disk, op) && SameSnapshot(old(disk), disk, op)
      ensures trouble.None? ==> disk.ops[op].phase == AddPending
      ensures trouble.Some? ==> !trouble.value.Answer?
      ensures troubled == (old(troubled) || trouble.Some?)
      ensures disk.leftovers == old(disk).leftovers
    {
      trouble := Do(Advance(op, RemovePending), "snapshot_write_failed");
      if trouble.Some? { return; }
      trouble := TakeOutAnnounced(op);
    }

    method TakeOutAnnounced(op: string) returns (trouble: Option<Reply>)
      requires Valid() && IsOpen(disk, op) && disk.ops[op].phase == RemovePending
      modifies this`clock, this`disk, this`log, this`troubled
      ensures Valid() && (old(Clean()) ==> Clean())
      ensures Hist().db == old(Hist().db) && Hist().runtime == old(Hist().runtime)
      ensures disk.db == old(disk).db && OnlyOp(old(disk), disk, op) && SameSnapshot(old(disk), disk, op)
      ensures trouble.None? ==> disk.ops[op].phase == AddPending
      ensures trouble.Some? ==> !trouble.value.Answer?
      ensures troubled == (old(troubled) || trouble.Some?)
      ensures disk.leftovers == old(disk).leftovers
    {
      trouble := Do(RemoveInbound(op), "xray_remove_inbound_failed");
      if trouble.Some? { return; }
      trouble := Do(Advance(op, AddPending), "snapshot_write_failed");
    }

    /** The new inbound comes. */
    method AddNew(op: string) returns (trouble: Option<Reply>)
      requires Valid() && IsOpen(disk, op) && disk.ops[op].phase == AddPending
      modifies this`clock, this`disk, this`log, this`troubled
      ensures Valid() && (old(Clean()) ==> Clean())
      ensures Hist().db == old(Hist().db) && Hist().runtime == old(Hist().runtime)
      ensures disk.db == old(disk).db && OnlyOp(old(disk), disk, op) && SameSnapshot(old(disk), disk, op)
      ensures trouble.None? ==> disk.ops[op].phase == DatabasePending
      ensures trouble.Some? ==> !trouble.value.Answer?
      ensures troubled == (old(troubled) || trouble.Some?)
      ensures trouble.None? ==> disk.ops[op].snap.template.tag in disk.runtime
      ensures disk.leftovers == old(disk).leftovers
    {
      trouble := Do(AddInbound(op), "xray_add_inbound_failed");
      if trouble.Some? { return; }
      trouble := Do(Advance(op, DatabasePending), "snapshot_write_failed");
    }

    /** The new inbound is there, and the transaction on the database would succeed. */
    static predicate Writable(d: Disk, op: string)
      requires IsOpen(d, op)
    {
      var s := d.ops[op].snap;
      s.template.tag in d.runtime && Persist(d.db, s.row, s.clients, s.template).Success?
    }

    /** The transaction on the database, and the phase after it. */
    method WriteRows(op: string) returns (trouble: Option<Reply>)
      requires Valid() && IsOpen(disk, op) && disk.ops[op].phase == DatabasePending
      modifies this`clock, this`disk, this`log, this`troubled
      ensures Valid() && (old(Clean()) ==> Clean())
      ensures Hist().db == old(Hist().db) && Hist().runtime == old(Hist().runtime)
      ensures OnlyOp(old(disk), disk, op) && SameSnapshot(old(disk), disk, op)
      ensures trouble.None? ==> disk.ops[op].phase == Committed && Wrote(disk.db, disk.ops[op].snap)
      ensures trouble.Some? ==> !trouble.value.Answer?
      ensures (old(troubled) ==> troubled) && disk.runtime == old(disk).runtime
      ensures trouble.Some? ==> troubled || (Persist(old(disk).db, old(disk).ops[op].snap.row, old(disk).ops[op].snap.clients, old(disk).ops[op].snap.template).Failure?)
      ensures trouble == Some(Died) ==> troubled
      ensures disk.leftovers == old(disk).leftovers
    {
      var s := disk.ops[op].snap;
      var written := RunPersist(disk.db, s.row, s.clients, s.template);
      if written.Failure? {
        return Some(Raised(written.error));
      }
      trouble := StoreRows(op);
    }

    method StoreRows(op: string) returns (trouble: Option<Reply>)
      requires Valid() && Allowed(disk, WriteDatabase(op))
      modifies this`clock, this`disk, this`log, this`troubled
      ensures Valid() && (old(Clean()) ==> Clean())
      ensures Hist().db == old(Hist().db) && Hist().runtime == old(Hist().runtime)
      ensures OnlyOp(old(disk), disk, op) && SameSnapshot(old(disk), disk, op) && disk.runtime == old(disk).runtime
      ensures trouble.None? ==> disk.ops[op].phase == Committed && Wrote(disk.db, disk.ops[op].snap)
      ensures trouble.Some? ==> !trouble.value.Answer?
      ensures troubled == (old(troubled) || trouble.Some?)
      ensures disk.leftovers == old(disk).leftovers
    {
      PersistedIsWrote(disk.db, disk.ops[op].snap);
      trouble := Do(WriteDatabase(op), "database_write_failed");
      if trouble.Some? { return; }
      trouble := NoteCommitted(op);
    }

    method NoteCommitted(op: string) returns (trouble: Option<Reply>)
      requires Valid() && IsOpen(disk, op) && disk.ops[op].phase == DatabasePending
      modifies this`clock, this`disk, this`log, this`troubled
      ensures Valid() && (old(Clean()) ==> Clean())
      ensures Hist().db == old(Hist().db) && Hist().runtime == old(Hist().runtime)
      ensures disk == old(disk).(ops := disk.ops) && OnlyOp(old(disk), disk, op) && SameSnapshot(old(disk), disk, op)
      ensures trouble.None? ==> disk.ops[op].phase == Committed
      ensures trouble.Some? ==> !trouble.value.Answer?
      ensures troubled == (old(troubled) || trouble.Some?)
    {
      trouble := Do(Advance(op, Committed), "snapshot_write_failed");
    }

    /** The rest of the try block. */
    method CommitRows(op: string) returns (trouble: Option<Reply>)
      requires Valid() && IsOpen(disk, op) && disk.ops[op].phase == DatabasePending
      modifies this`clock, this`disk, this`log, this`troubled
      ensures Valid() && (old(Clean()) ==> Clean())
      ensures Hist().db == old(Hist().db) && Hist().runtime == old(Hist().runtime)
      ensures OnlyOp(old(disk), disk, op) && SameSnapshot(old(disk), disk, op)
      ensures trouble.None? ==> disk.ops[op].phase == Applied && Wrote(disk.db, disk.ops[op].snap)
      ensures trouble.Some? ==> !trouble.value.Answer?
      ensures old(troubled) ==> troubled
      ensures trouble.Some? ==> troubled || !Writable(old(disk), op)
      ensures trouble == Some(Died) ==> troubled
      ensures disk.leftovers == old(disk).leftovers
    {
      trouble := WriteRows(op);
      if trouble.Some? { return; }
      var s := disk.ops[op].snap;
      trouble := Consult("xray_list_inbounds_failed");
      if trouble.Some? { return; }
      if s.template.tag !in disk.runtime {
        return Some(Raised("runtime_verification_failed"));
      }
      var ok := RunVerify(disk.db, s);
      if !ok {
        return Some(Raised("database_verification_failed"));
      }
      trouble := Do(Advance(op, Applied), "snapshot_write_failed");
    }

    /** The target is there, in the old mode, and a template can be built for it. */
    predicate Planned(d: Disk, request: Request, owned: bool, path: string, tokens: int -> string) {
      && WellKeyed(d.db) && LoadTarget(d, request, owned, path).Success?
      && Plan(config, LoadTarget(d, request, owned, path).value, request, tokens).Success?
    }

    /** Nobody has made the request before, and the flow overrides of all clients of its
        inbound are set. */
    static predicate FreshAndKnown(d: Disk, request: Request) {
      && request.operation !in d.ops && request.operation !in d.leftovers && WellKeyed(d.db)
      && var clients := Attached(d.db, request.inbound);
         clients != [] && forall i :: 0 <= i < |clients| ==> clients[i].flow.Some?
    }

    static lemma KnownIsRecorded(before: Disk, d: Disk, request: Request)
      requires FreshAndKnown(before, request) && d.db == before.db && JustBegun(d, request)
      ensures FlowsRecorded(d.ops[request.operation].snap) && SnapshotOf(d.db, d.ops[request.operation].snap)
    {
      AttachedUnique(d.db, request.inbound, d.ops[request.operation].snap.clients, Attached(d.db, request.inbound));
    }

    /** A well formed request for it that nobody has made before. */
    predicate Startable(d: Disk, request: Request, owned: bool, path: string, tokens: int -> string) {
      && Planned(d, request, owned, path, tokens) && request.oldMode != request.newMode
      && request.operation !in d.ops && request.operation !in d.dirs
    }

    /** The conditions of a clean begin, read off the disk before the call. */
    static ghost predicate Idle(config: Config, d: Disk, request: Request, owned: bool, path: string, tokens: int -> string) {
      && NoneOpen(d)
      && (WellKeyed(d.db) && LoadTarget(d, request, owned, path).Success?
          && Plan(config, LoadTarget(d, request, owned, path).value, request, tokens).Success? ==>
            var s := Plan(config, LoadTarget(d, request, owned, path).value, request, tokens).value;
            s.row.tag in d.runtime && d.runtime[s.row.tag] == s.oldRuntime)
    }

    /** Capturing the profile and making the directory change nothing a target depends on. */
    static lemma IdleStays(config: Config, d: Disk, later: Disk, request: Request, owned: bool, path: string, tokens: int -> string)
      requires later == d.(profiles := later.profiles, dirs := later.dirs)
      requires IsVless(request.oldMode) || later.profiles == d.profiles
      requires Idle(config, d, request, owned, path, tokens)
      ensures Idle(config, later, request, owned, path, tokens)
    {
      if WellKeyed(d.db) {
        assert LoadTarget(later, request, owned, path) == LoadTarget(d, request, owned, path);
      }
    }

    lemma PlannedStays(d: Disk, later: Disk, request: Request, owned: bool, path: string, tokens: int -> string)
      requires later == d.(profiles := later.profiles, dirs := later.dirs)
      requires IsVless(request.oldMode) || later.profiles == d.profiles
      ensures Planned(d, request, owned, path, tokens) ==> Planned(later, request, owned, path, tokens)
    {
      if WellKeyed(d.db) {
        assert LoadTarget(later, request, owned, path) == LoadTarget(d, request, owned, path);
      }
    }

    /** `load_target` again, now inside the operation directory, with what is planned from
        it: a snapshot the discipline accepts, and a clean begin on an idle helper. */
    method Prepare(request: Request, owned: bool, path: string, tokens: int -> string) returns (profile: Result<Profile>, plan: Result<Snapshot>)
      requires Valid() && request.oldMode != request.newMode
      ensures plan.Success? ==>
                && profile.Success?
                && FreshSnapshot(disk, request.operation, plan.value) && plan.value.request == request
                && (Idle(config, disk, request, owned, path, tokens) ==> CleanBegin(disk, SaveSnapshot(request.operation, plan.value)))
      ensures LoadTarget(disk, request, owned, path).Success? ==>
                profile.Success? && plan == Plan(config, LoadTarget(disk, request, owned, path).value, request, tokens)
    {
      var target := LoadTarget(disk, request, owned, path);
      if target.Failure? {
        return Failure(target.error), Failure(target.error);
      }
      plan := Plan(config, target.value, request, tokens);
      if plan.Success? {
        PlanIsFresh(config, disk, request, owned, path, tokens);
      }
      profile := Success(target.value.profile);
    }

    /** Capturing the profile does not matter to the step that saves the snapshot. */
    static lemma StillFresh(d: Disk, later: Disk, op: string, snap: Snapshot)
      requires later == d.(profiles := later.profiles) && FreshSnapshot(d, op, snap)
      ensures FreshSnapshot(later, op, snap)
      ensures CleanBegin(d, SaveSnapshot(op, snap)) ==> CleanBegin(later, SaveSnapshot(op, snap))
    {
    }

    /** Plans and saves the first snapshot. */
    method SaveFirstSnapshot(request: Request, owned: bool, path: string, tokens: int -> string) returns (r: Reply)
      requires Valid() && request.oldMode != request.newMode && leave == ForApply(request)
      requires request.operation in disk.dirs && request.operation !in disk.ops
      modifies this`clock, this`disk, this`log, this`troubled
      ensures Valid()
      ensures old(Clean()) && Idle(config, old(disk), request, owned, path, tokens) ==> Clean()
      ensures Hist().db == old(Hist().db) && Hist().runtime == old(Hist().runtime)
      ensures disk.db == old(disk).db && disk.runtime == old(disk).runtime
      ensures OnlyOp(old(disk), disk, request.operation)
      ensures request.operation in disk.ops ==> JustBegun(disk, request)
      ensures r.Answer? ==> r == Answer("begun", "") && request.operation in disk.ops
      ensures (old(troubled) || r.Died?) ==> troubled
      ensures Planned(old(disk), request, owned, path, tokens) && !troubled ==> r == Answer("begun", "")
      ensures disk.leftovers == old(disk).leftovers
      ensures r.Raised? && request.operation in disk.ops ==> r == Raised("snapshot_write_failed")
    {
      var profile, plan := Prepare(request, owned, path, tokens);
      if profile.Failure? {
        return Raised(profile.error);
      }
      r := CaptureAndWrite(request, profile.value, plan);
    }

    /** The profile once more, then the snapshot, if there is one to write. */
    method CaptureAndWrite(request: Request, profile: Profile, plan: Result<Snapshot>) returns (r: Reply)
      requires Valid() && leave == ForApply(request) && request.operation in disk.dirs && request.operation !in disk.ops
      requires plan.Success? ==> FreshSnapshot(disk, request.operation, plan.value) && plan.value.request == request
      modifies this`clock, this`disk, this`log, this`troubled
      ensures Valid()
      ensures old(Clean()) && (plan.Success? ==> CleanBegin(old(disk), SaveSnapshot(request.operation, plan.value))) ==> Clean()
      ensures Hist().db == old(Hist().db) && Hist().runtime == old(Hist().runtime)
      ensures disk.db == old(disk).db && disk.runtime == old(disk).runtime
      ensures OnlyOp(old(disk), disk, request.operation)
      ensures request.operation in disk.ops ==> JustBegun(disk, request)
      ensures r.Answer? ==> r == Answer("begun", "") && request.operation in disk.ops
      ensures (old(troubled) || r.Died?) ==> troubled
      ensures plan.Success? && !troubled ==> r == Answer("begun", "")
      ensures disk.leftovers == old(disk).leftovers
      ensures r.Raised? && request.operation in disk.ops ==> r == Raised("snapshot_write_failed")
    {
      var trouble := CaptureProfile(request, profile);
      if trouble.Some? {
        return trouble.value;
      }
      if plan.Failure? {
        return Raised(plan.error);
      }
      StillFresh(old(disk), disk, request.operation, plan.value);
      SaveIsAllowed(disk, request, plan.value);
      r := WriteSnapshot(request, plan.value);
    }

    static lemma SaveIsAllowed(d: Disk, request: Request, snap: Snapshot)
      requires request.operation in d.dirs && request.operation !in d.ops && FreshSnapshot(d, request.operation, snap)
      ensures Allowed(d, SaveSnapshot(request.operation, snap))
    {
    }

    /** The first write of `snapshot.json`. */
    method WriteSnapshot(request: Request, snap: Snapshot) returns (r: Reply)
      requires Valid() && Allowed(disk, SaveSnapshot(request.operation, snap)) && snap.request == request && leave == ForApply(request)
      modifies this`clock, this`disk, this`log, this`troubled
      ensures Valid()
      ensures old(Clean()) && CleanBegin(old(disk), SaveSnapshot(request.operation, snap)) ==> Clean()
      ensures Hist().db == old(Hist().db) && Hist().runtime == old(Hist().runtime)
      ensures disk == old(disk) || (disk == Effect(old(disk), SaveSnapshot(request.operation, snap)) && JustBegun(disk, request))
      ensures r.Answer? ==> r == Answer("begun", "") && request.operation in disk.ops
      ensures troubled == (old(troubled) || !r.Answer?)
      ensures r.Raised? && request.operation in disk.ops ==> r == Raised("snapshot_write_failed")
    {
      var fate := Take(SaveSnapshot(request.operation, snap));
      match fate {
        case Kill => r := Died;
        case Fails => r := Raised("snapshot_write_failed");
        case FailsLate => r := Raised("snapshot_write_failed");
        case Done => r := Answer("begun", "");
      }
    }

    static ghost predicate JustBegun(d: Disk, request: Request) {
      && IsOpen(d, request.operation)
      && d.ops[request.operation].phase == Saved
      && FreshSnapshot(d, request.operation, d.ops[request.operation].snap)
      && d.ops[request.operation].snap.request == request
    }

    /** `apply` up to the saved snapshot: the request is validated against the row, which
        must still be in the old mode, before a finished operation is even looked at. */
    method Begin(request: Request, shapeOk: bool, owned: bool, path: string, tokens: int -> string) returns (r: Reply)
      requires Valid() && (request.operation !in disk.ops ==> leave == ForApply(request))
      modifies this`clock, this`disk, this`log, this`troubled
      ensures Valid()
      ensures old(Clean()) && Idle(config, old(disk), request, owned, path, tokens) ==> Clean()
      ensures Hist().db == old(Hist().db) && Hist().runtime == old(Hist().runtime)
      ensures disk.db == old(disk).db && disk.runtime == old(disk).runtime
      ensures OnlyOp(old(disk), disk, request.operation)
      ensures request.operation in old(disk).ops ==> disk.ops == old(disk).ops
      ensures request.operation !in old(disk).ops && request.operation in disk.ops ==> JustBegun(disk, request)
      ensures r == Answer("applied", "") ==>
                request.operation in old(disk).ops && IsOpen(disk, request.operation)
                && disk.ops[request.operation].phase == Applied && disk.ops[request.operation].snap.request == request
      ensures r.Answer? ==> r == Answer("applied", "") || (r == Answer("begun", "") && request.operation !in old(disk).ops && request.operation in disk.ops)
      ensures request.oldMode == request.newMode ==> r.Raised? && disk == old(disk)
      ensures request.inbound in old(disk).db.inbounds && ModeForRow(old(disk).db.inbounds[request.inbound]) != Some(request.oldMode) ==>
                r.Raised? && disk == old(disk)
      ensures (old(troubled) || r.Died?) ==> troubled
      ensures shapeOk && Startable(old(disk), request, owned, path, tokens) && !troubled ==> r == Answer("begun", "")
      ensures disk.leftovers == old(disk).leftovers
      ensures r.Raised? && request.operation !in old(disk).ops && request.operation in disk.ops ==> r == Raised("snapshot_write_failed")
    {
      if !shapeOk || request.oldMode == request.newMode {
        return Raised("invalid_request");
      }
      var target := LoadTarget(disk, request, owned, path);
      if target.Failure? {
        return Raised(target.error);
      }
      r := BeginLoaded(request, target.value.profile, owned, path, tokens);
    }

    /** `apply` once the target was loaded. */
    method BeginLoaded(request: Request, profile: Profile, owned: bool, path: string, tokens: int -> string) returns (r: Reply)
      requires Valid() && request.oldMode != request.newMode && (request.operation !in disk.ops ==> leave == ForApply(request))
      modifies this`clock, this`disk, this`log, this`troubled
      ensures Valid()
      ensures old(Clean()) && Idle(config, old(disk), request, owned, path, tokens) ==> Clean()
      ensures Hist().db == old(Hist().db) && Hist().runtime == old(Hist().runtime)
      ensures disk.db == old(disk).db && disk.runtime == old(disk).runtime
      ensures OnlyOp(old(disk), disk, request.operation)
      ensures request.operation in old(disk).ops ==> disk.ops == old(disk).ops
      ensures request.operation !in old(disk).ops && request.operation in disk.ops ==> JustBegun(disk, request)
      ensures r == Answer("applied", "") ==>
                request.operation in old(disk).ops && IsOpen(disk, request.operation)
                && disk.ops[request.operation].phase == Applied && disk.ops[request.operation].snap.request == request
      ensures r.Answer? ==> r == Answer("applied", "") || (r == Answer("begun", "") && request.operation !in old(disk).ops && request.operation in disk.ops)
      ensures (old(troubled) || r.Died?) ==> troubled
      ensures Startable(old(disk), request, owned, path, tokens) && !troubled ==> r == Answer("begun", "")
      ensures disk.leftovers == old(disk).leftovers
      ensures r.Raised? && request.operation !in old(disk).ops && request.operation in disk.ops ==> r == Raised("snapshot_write_failed")
    {
      ghost var before := disk;
      var trouble := CaptureProfile(request, profile);
      if trouble.Some? {
        return trouble.value;
      }
      var op := request.operation;
      if op in disk.ops {
        if disk.ops[op].Open? && disk.ops[op].snap.request == request && disk.ops[op].phase == Applied {
          return Answer("applied", "");
        }
        return Raised("operation_conflict");
      }
      if Idle(config, before, request, owned, path, tokens) {
        IdleStays(config, before, disk, request, owned, path, tokens);
      }
      PlannedStays(before, disk, request, owned, path, tokens);
      r := StartFresh(request, owned, path, tokens);
    }

    /** A fresh operation: its directory, then the first snapshot. */
    method StartFresh(request: Request, owned: bool, path: string, tokens: int -> string) returns (r: Reply)
      requires Valid() && request.oldMode != request.newMode && leave == ForApply(request) && request.operation !in disk.ops
      modifies this`clock, this`disk, this`log, this`troubled
      ensures Valid()
      ensures old(Clean()) && Idle(config, old(disk), request, owned, path, tokens) ==> Clean()
      ensures Hist().db == old(Hist().db) && Hist().runtime == old(Hist().runtime)
      ensures disk.db == old(disk).db && disk.runtime == old(disk).runtime
      ensures OnlyOp(old(disk), disk, request.operation)
      ensures request.operation in disk.ops ==> JustBegun(disk, request)
      ensures r.Answer? ==> r == Answer("begun", "") && request.operation in disk.ops
      ensures (old(troubled) || r.Died?) ==> troubled
      ensures Planned(old(disk), request, owned, path, tokens) && request.operation !in old(disk).dirs && !troubled ==> r == Answer("begun", "")
      ensures disk.leftovers == old(disk).leftovers
      ensures r.Raised? && request.operation in disk.ops ==> r == Raised("snapshot_write_failed")
    {
      ghost var before := disk;
      if request.operation in disk.dirs {
        return Raised("snapshot_write_failed");
      }
      var trouble := Do(MakeDir(request.operation), "snapshot_write_failed");
      if trouble.Some? {
        return trouble.value;
      }
      if Idle(config, before, request, owned, path, tokens) {
        IdleStays(config, before, disk, request, owned, path, tokens);
      }
      PlannedStays(before, disk, request, owned, path, tokens);
      r := SaveFirstSnapshot(request, owned, path, tokens);
    }

    /** Compensates a failed try block: the original error survives a successful undo. */
    method Compensate(op: string, cause: Reply) returns (r: Reply)
      requires Valid() && cause.Raised? && Permits(leave, RemoveDir(op))
      modifies this`clock, this`disk, this`log, this`troubled, this`since
      ensures Valid() && (old(Clean()) ==> Clean()) && since == old(since) && old(clock) <= clock
      ensures Hist().db == old(Hist().db) && Hist().runtime == old(Hist().runtime)
      ensures OnlyOp(old(disk), disk, op)
      ensures !r.Answer?
      ensures r.Raised? ==> r == Raised("rollback_failed") || (r == cause && op !in disk.ops)
      ensures (old(troubled) || r.Died?) ==> troubled
      ensures r.Raised? && op in disk.ops ==> !Undoable(old(disk), op) || Troubles(old(clock), clock) > 0
    {
      ghost var before, worse := since, troubled;
      Calm();
      var back := RollbackSnapshot(op, true);
      match back {
        case Died => r := Died;
        case Answer(_, _) => r := cause;
        case Raised(_) =>
          r := Confess(op);
      }
      Resume(before, worse);
    }

    /** The undo failed: the operation is marked for repair, if that works. */
    method Confess(op: string) returns (r: Reply)
      requires Valid()
      modifies this`clock, this`disk, this`log, this`troubled
      ensures Valid() && (old(Clean()) ==> Clean())
      ensures Hist().db == old(Hist().db) && Hist().runtime == old(Hist().runtime)
      ensures OnlyOp(old(disk), disk, op)
      ensures r == Raised("rollback_failed") || r == Died
      ensures (old(troubled) || r.Died?) ==> troubled
    {
      r := Raised("rollback_failed");
      if op in disk.ops && disk.ops[op].Open? {
        var fate := Take(MarkRepair(op));
        if fate.Kill? {
          r := Died;
        }
      }
    }

    /** The try block of `apply`. */
    method CarryOut(op: string) returns (trouble: Option<Reply>)
      requires Valid() && IsOpen(disk, op) && disk.ops[op].phase == Saved
      modifies this`clock, this`disk, this`log, this`troubled
      ensures Valid() && (old(Clean()) ==> Clean())
      ensures Hist().db == old(Hist().db) && Hist().runtime == old(Hist().runtime)
      ensures OnlyOp(old(disk), disk, op) && SameSnapshot(old(disk), disk, op)
      ensures trouble.None? ==> disk.ops[op].phase == Applied && Wrote(disk.db, disk.ops[op].snap)
      ensures trouble.Some? ==> !trouble.value.Answer?
      ensures old(troubled) ==> troubled
      ensures trouble.Some? ==> troubled || (!SnapshotOf(old(disk).db, old(disk).ops[op].snap))
      ensures trouble == Some(Died) ==> troubled
      ensures disk.leftovers == old(disk).leftovers
    {
      if SnapshotOf(disk.db, disk.ops[op].snap) {
        PersistSucceeds(disk.db, disk.ops[op].snap);
      }
      trouble := RemoveOld(op);
      if trouble.Some? { return; }
      trouble := AddNew(op);
      if trouble.Some? { return; }
      trouble := CommitRows(op);
    }

    /** The try block with its except block. */
    method CarryOutOrCompensate(op: string) returns (r: Reply)
      requires Valid() && IsOpen(disk, op) && disk.ops[op].phase == Saved && Permits(leave, RemoveDir(op))
      modifies this`clock, this`disk, this`log, this`troubled, this`since
      ensures Valid() && (old(Clean()) ==> Clean()) && since == old(since)
      ensures Hist().db == old(Hist().db) && Hist().runtime == old(Hist().runtime)
      ensures OnlyOp(old(disk), disk, op)
      ensures r.Answer? ==>
                && r == Answer("applied", "") && IsOpen(disk, op) && disk.ops[op].phase == Applied
                && disk.ops[op].snap == old(disk).ops[op].snap && Wrote(disk.db, disk.ops[op].snap)
      ensures r.Raised? ==> r == Raised("rollback_failed") || op !in disk.ops
      ensures (old(troubled) || r.Died?) ==> troubled
      ensures SnapshotOf(old(disk).db, old(disk).ops[op].snap) && !troubled ==> r.Answer?
      ensures old(Clean()) && FlowsRecorded(old(disk).ops[op].snap) && op !in old(disk).leftovers && r.Raised? && op in disk.ops ==>
                !SnapshotOf(old(disk).db, old(disk).ops[op].snap) || Troubles(since, clock) >= 2
    {
      var trouble := CarryOut(op);
      if trouble.None? {
        r := Answer("applied", "");
      } else if trouble.value.Died? {
        r := Died;
      } else {
        r := Except(op, trouble.value);
      }
    }

    /** The except block: what stays open after it took a second failure. */
    method Except(op: string, cause: Reply) returns (r: Reply)
      requires Valid() && IsOpen(disk, op) && cause.Raised? && Permits(leave, RemoveDir(op))
      modifies this`clock, this`disk, this`log, this`troubled, this`since
      ensures Valid() && (old(Clean()) ==> Clean()) && since == old(since)
      ensures Hist().db == old(Hist().db) && Hist().runtime == old(Hist().runtime)
      ensures OnlyOp(old(disk), disk, op)
      ensures !r.Answer? && (r.Raised? ==> r == Raised("rollback_failed") || op !in disk.ops)
      ensures (old(troubled) || r.Died?) ==> troubled
      ensures old(Clean()) && FlowsRecorded(old(disk).ops[op].snap) && op !in old(disk).leftovers && r.Raised? && op in disk.ops && old(troubled) ==>
                Troubles(since, clock) >= 2
    {
      ghost var cut := clock;
      UndoableHere(op);
      r := Compensate(op, cause);
      TroublesAdd(since, cut, clock);
    }

    /** In a clean run nothing is in the way of an undo but unset flows and a leftover. */
    lemma UndoableHere(op: string)
      requires Valid() && IsOpen(disk, op)
      ensures Clean() && FlowsRecorded(disk.ops[op].snap) && op !in disk.leftovers ==> Undoable(disk, op)
    {
      if Clean() {
        CleanIsUndoable(start, log, op);
      }
    }

    /** A fresh operation, begun on an idle helper, stays open although apply reports that it
        could not be rolled back. */
    predicate StaysOpen(idle: bool, before: Disk, request: Request, r: Reply)
      reads this
    {
      idle && FreshAndKnown(before, request) && r == Raised("rollback_failed") && request.operation in disk.ops
    }

    /** `apply`. Whatever fails and however the process is interrupted, it follows the
        write-ahead discipline. It answers `applied` only with every planned value in the
        database; and if it was begun on an idle helper and reports any error but
        rollback_failed, database and live inbounds are exactly as before. Undisturbed, a
        request that can be started is applied; and it takes two failures, one of them in
        the undo, to leave a fresh operation open. */
    method Apply(request: Request, shapeOk: bool, owned: bool, path: string, tokens: int -> string) returns (r: Reply)
      requires Valid()
      modifies this`clock, this`disk, this`log, this`troubled, this`since, this`leave, this`base
      ensures since == old(clock) && base == old(log) && leave == (if request.operation in old(disk).ops then Nothing else ForApply(request))
      ensures Valid()
      ensures old(Clean()) && Idle(config, old(disk), request, owned, path, tokens) ==> Clean()
      ensures OnlyOp(old(disk), disk, request.operation)
      ensures request.operation in old(disk).ops ==> disk.ops == old(disk).ops && disk.db == old(disk).db && disk.runtime == old(disk).runtime
      ensures r.Answer? ==>
                && r == Answer("applied", "")
                && IsOpen(disk, request.operation) && disk.ops[request.operation].phase == Applied
                && disk.ops[request.operation].snap.request == request
                && (request.operation !in old(disk).ops ==> Wrote(disk.db, disk.ops[request.operation].snap))
      ensures old(Clean()) && Idle(config, old(disk), request, owned, path, tokens) && r.Raised? && r != Raised("rollback_failed") ==>
                disk.db == old(disk).db && disk.runtime == old(disk).runtime
      ensures request.inbound in old(disk).db.inbounds && ModeForRow(old(disk).db.inbounds[request.inbound]) == Some(request.newMode) ==>
                r.Raised? && disk == old(disk)
      ensures r.Died? ==> troubled
      ensures shapeOk && Startable(old(disk), request, owned, path, tokens) && !troubled ==> r == Answer("applied", "")
      ensures StaysOpen(old(Clean()) && Idle(config, old(disk), request, owned, path, tokens), old(disk), request, r) ==> Troubles(old(clock), clock) >= 2
    {
      Enter(if request.operation in disk.ops then Nothing else ForApply(request));
      ghost var before := disk;
      ghost var idle := Clean() && Idle(config, disk, request, owned, path, tokens);
      if idle {
        IdleIsCommitted(start, log);
      }
      r := ApplySteps(request, shapeOk, owned, path, tokens);
      if idle && r.Raised? && r != Raised("rollback_failed") && request.operation !in disk.ops {
        GoneLeavesNone(before, disk, request.operation);
        IdleIsCommitted(start, log);
      }
    }

    /** The steps of `apply`. */
    method ApplySteps(request: Request, shapeOk: bool, owned: bool, path: string, tokens: int -> string) returns (r: Reply)
      requires Valid() && (request.operation !in disk.ops ==> leave == ForApply(request))
      modifies this`clock, this`disk, this`log, this`troubled, this`since
      ensures Valid() && since == old(since)
      ensures old(Clean()) && Idle(config, old(disk), request, owned, path, tokens) ==> Clean()
      ensures Hist().db == old(Hist().db) && Hist().runtime == old(Hist().runtime)
      ensures OnlyOp(old(disk), disk, request.operation)
      ensures request.operation in old(disk).ops ==> disk.ops == old(disk).ops && disk.db == old(disk).db && disk.runtime == old(disk).runtime
      ensures r.Answer? ==>
                && r == Answer("applied", "")
                && IsOpen(disk, request.operation) && disk.ops[request.operation].phase == Applied
                && disk.ops[request.operation].snap.request == request
                && (request.operation !in old(disk).ops ==> Wrote(disk.db, disk.ops[request.operation].snap))
      ensures r.Raised? && r != Raised("rollback_failed") ==>
                (disk.db == old(disk).db && disk.runtime == old(disk).runtime) || request.operation !in disk.ops
      ensures request.inbound in old(disk).db.inbounds && ModeForRow(old(disk).db.inbounds[request.inbound]) == Some(request.newMode) ==>
                r.Raised? && disk == old(disk)
      ensures (old(troubled) || r.Died?) ==> troubled
      ensures shapeOk && Startable(old(disk), request, owned, path, tokens) && !troubled ==> r == Answer("applied", "")
      ensures StaysOpen(old(Clean()) && Idle(config, old(disk), request, owned, path, tokens), old(disk), request, r) ==> Troubles(since, clock) >= 2
    {
      ghost var before := disk;
      r := Begin(request, shapeOk, owned, path, tokens);
      if r == Answer("begun", "") {
        if FreshAndKnown(before, request) {
          KnownIsRecorded(before, disk, request);
        }
        r := CarryOutOrCompensate(request.operation);
      }
    }

    static lemma GoneLeavesNone(before: Disk, after: Disk, op: string)
      requires NoneOpen(before) && OnlyOp(before, after, op) && op !in after.ops
      ensures NoneOpen(after)
    {
      forall o | o in after.ops ensures !after.ops[o].Open? {
        assert o != op;
      }
    }

    // ------------------------------------------------- finalize, renew, rollback

    /** `finalize`: succeeds only on an applied or already finalized operation. */
    method Finalize(op: string) returns (r: Reply)
      requires Valid()
      modifies this`clock, this`disk, this`log, this`troubled, this`since, this`leave, this`base
      ensures since == old(clock) && base == old(log) && leave == ForFinalize(op)
      ensures Valid() && (old(Clean()) ==> Clean())
      ensures OnlyOp(old(disk), disk, op)
      ensures disk.db == old(disk).db && disk.runtime == old(disk).runtime
      ensures r.Answer? ==> r == Answer("finalized", "") && op in disk.ops && disk.ops[op] == Finalized
      ensures op in old(disk).ops && !(IsOpen(old(disk), op) && old(disk).ops[op].phase == Applied) ==> disk == old(disk)
      ensures op !in old(disk).ops ==> r.Raised? && disk == old(disk)
      ensures disk.ops == old(disk).ops || (op in disk.ops && disk.ops[op] == Finalized)
      ensures (IsOpen(old(disk), op) && old(disk).ops[op].phase == Applied) || (op in old(disk).ops && old(disk).ops[op] == Finalized) ==>
                r in {Answer("finalized", ""), Raised("snapshot_write_failed"), Died}
      ensures r.Died? ==> troubled
      ensures IsOpen(old(disk), op) && old(disk).ops[op].phase == Applied && !troubled ==> r == Answer("finalized", "")
    {
      Enter(ForFinalize(op));
      if op !in disk.ops {
        return Raised("unsafe_path");
      }
      if disk.ops[op].Finalized? {
        return Answer("finalized", "");
      }
      if !disk.ops[op].Open? || disk.ops[op].phase != Applied {
        return Raised("operation_not_applied");
      }
      var trouble := Do(FinalizeOp(op), "snapshot_write_failed");
      if trouble.Some? {
        return trouble.value;
      }
      r := Answer("finalized", "");
    }

    /** `renew` rewrites the lease of an applied operation and nothing else. */
    method Renew(op: string) returns (r: Reply)
      requires Valid()
      modifies this`clock, this`disk, this`log, this`troubled, this`since, this`leave, this`base
      ensures since == old(clock) && base == old(log) && leave == Nothing
      ensures Valid() && (old(Clean()) ==> Clean())
      ensures disk == old(disk)
      ensures r.Answer? ==> r == Answer("renewed", "") && IsOpen(disk, op) && disk.ops[op].phase == Applied
      ensures r.Died? ==> troubled
      ensures IsOpen(old(disk), op) && old(disk).ops[op].phase == Applied && !troubled ==> r == Answer("renewed", "")
    {
      Enter(Nothing);
      if op !in disk.ops {
        return Raised("unsafe_path");
      }
      if !disk.ops[op].Open? || disk.ops[op].phase != Applied {
        return Raised("operation_not_applied");
      }
      var trouble := Do(TouchLease(op), "snapshot_write_failed");
      if trouble.Some? {
        return trouble.value;
      }
      r := Answer("renewed", "");
    }

    /** `rollback`. */
    method Rollback(op: string) returns (r: Reply)
      requires Valid()
      modifies this`clock, this`disk, this`log, this`troubled, this`since, this`leave, this`base
      ensures since == old(clock) && base == old(log) && leave == ForRollback(op)
      ensures Valid() && (old(Clean()) ==> Clean())
      ensures OnlyOp(old(disk), disk, op)
      ensures r == Answer("rolled_back", "") ==> op in disk.ops && disk.ops[op] == RolledBack
      ensures r == Answer("rolled_back", "") && IsOpen(old(disk), op) ==> Matches(disk.db, old(disk).ops[op].snap)
      ensures r == Answer("failed", "operation_finalized") <==> op in old(disk).ops && old(disk).ops[op] == Finalized
      ensures r == Raised("operation_not_applied") <==> op !in old(disk).ops
      ensures r.Answer? ==> r == Answer("rolled_back", "") || r == Answer("failed", "operation_finalized")
      ensures r != Raised("operation_finalized")
      ensures !IsOpen(old(disk), op) ==> disk == old(disk)
      ensures old(Clean()) && r == Answer("rolled_back", "") && IsOpen(old(disk), op) ==>
                disk.db == old(Hist().db) && disk.runtime == old(Hist().runtime)
      ensures r.Died? ==> troubled
      ensures (Undoable(old(disk), op) && !troubled) || (op in old(disk).ops && old(disk).ops[op] == RolledBack) ==> r == Answer("rolled_back", "")
    {
      Enter(ForRollback(op));
      if op !in disk.ops {
        return Raised("operation_not_applied");
      }
      match disk.ops[op] {
        case RolledBack => return Answer("rolled_back", "");
        case Finalized => return Answer("failed", "operation_finalized");
        case Open(_, _) =>
      }
      r := Bury(op);
    }

    /** The open case of `rollback`: undo, then the tombstone. */
    method Bury(op: string) returns (r: Reply)
      requires Valid() && IsOpen(disk, op) && Permits(leave, Tombstone(op))
      modifies this`clock, this`disk, this`log, this`troubled
      ensures Valid() && (old(Clean()) ==> Clean())
      ensures OnlyOp(old(disk), disk, op)
      ensures r.Answer? ==> r == Answer("rolled_back", "") && op in disk.ops && disk.ops[op] == RolledBack && Matches(disk.db, old(disk).ops[op].snap)
      ensures r !in {Raised("operation_finalized"), Raised("operation_not_applied")}
      ensures old(Clean()) && r.Answer? ==> disk.db == old(Hist().db) && disk.runtime == old(Hist().runtime)
      ensures (old(troubled) || r.Died?) ==> troubled
      ensures Undoable(old(disk), op) && !troubled ==> r == Answer("rolled_back", "")
    {
      ghost var before, clean := disk, Clean();
      if clean {
        WriteAhead(start, log);
      }
      r := UndoAndBury(op);
      if clean && r.Answer? {
        LastOneGone(old(Hist()), before, disk, op);
        IdleIsCommitted(start, log);
      }
    }

    method UndoAndBury(op: string) returns (r: Reply)
      requires Valid() && IsOpen(disk, op) && Permits(leave, Tombstone(op))
      modifies this`clock, this`disk, this`log, this`troubled
      ensures Valid() && (old(Clean()) ==> Clean())
      ensures Hist().db == old(Hist().db) && Hist().runtime == old(Hist().runtime)
      ensures OnlyOp(old(disk), disk, op)
      ensures r.Answer? ==> r == Answer("rolled_back", "") && op in disk.ops && disk.ops[op] == RolledBack && Matches(disk.db, old(disk).ops[op].snap)
      ensures r !in {Raised("operation_finalized"), Raised("operation_not_applied")}
      ensures (old(troubled) || r.Died?) ==> troubled
      ensures Undoable(old(disk), op) && !troubled ==> r == Answer("rolled_back", "")
    {
      r := RollbackSnapshot(op, false);
      if !r.Answer? {
        return;
      }
      var trouble := Do(Tombstone(op), "snapshot_write_failed");
      r := if trouble.Some? then trouble.value else Answer("rolled_back", "");
    }

    /** The only open operation is open no more. */
    static lemma LastOneGone(h: History, before: Disk, after: Disk, op: string)
      requires Inv(h, before) && IsOpen(before, op) && OnlyOp(before, after, op) && !IsOpen(after, op)
      ensures NoneOpen(after)
    {
      forall o | o in after.ops ensures !after.ops[o].Open? {
        assert o != op ==> !IsOpen(before, o);
      }
    }

    // ---------------------------------------------------------------- recovery

    /** One turn of `recover_pending`. */
    method RecoverOne(op: string) returns (trouble: Option<Reply>)
      requires Valid() && Permits(leave, RemoveDir(op)) && IsOpen(disk, op) && disk.ops[op].phase != RepairRequired
      modifies this`clock, this`disk, this`log, this`troubled
      ensures Valid() && (old(Clean()) ==> Clean())
      ensures Hist().db == old(Hist().db) && Hist().runtime == old(Hist().runtime)
      ensures OnlyOp(old(disk), disk, op)
      ensures trouble.None? ==> op !in disk.ops || (IsOpen(disk, op) && disk.ops[op].phase == RepairRequired)
      ensures trouble.Some? ==> !trouble.value.Answer?
      ensures (old(troubled) || trouble.Some?) ==> troubled
      ensures op !in disk.ops ==> Undoable(old(disk), op) || troubled
      ensures Undoable(old(disk), op) && !troubled ==> op !in disk.ops && Undone(disk, old(disk).ops[op])
    {
      var r := RollbackSnapshot(op, true);
      trouble := None;
      match r {
        case Died => trouble := Some(Died);
        case Answer(_, _) =>
        case Raised(_) =>
          trouble := Do(MarkRepair(op), "snapshot_write_failed");
      }
    }

    /** One operation directory: skipped if it is settled or young. */
    method RecoverTurn(op: string, todo: set<string>, young: set<string>, ghost was: Disk) returns (trouble: Option<Reply>)
      requires Valid() && leave == ForRecovery && op in todo
      requires Progress(was, disk, todo, young) && SoleDone(was, disk, todo, young, troubled)
      modifies this`clock, this`disk, this`log, this`troubled
      ensures Valid() && (old(Clean()) ==> Clean())
      ensures Hist().db == old(Hist().db) && Hist().runtime == old(Hist().runtime)
      ensures (old(troubled) || trouble.Some?) ==> troubled
      ensures trouble.Some? ==> !trouble.value.Answer?
      ensures trouble.None? ==> Progress(was, disk, todo - {op}, young) && SoleDone(was, disk, todo - {op}, young, troubled)
      ensures forall o :: o in was.ops && (o in young || !was.ops[o].Open?) ==> o in disk.ops && disk.ops[o] == was.ops[o]
    {
      trouble := None;
      ghost var before, worse := disk, troubled;
      if disk.ops[op].Open? && disk.ops[op].phase != RepairRequired && op !in young {
        trouble := RecoverOne(op);
        OneTurn(was, before, disk, todo, young, op);
        if trouble.None? {
          SoleTurn(was, before, disk, todo, young, op, worse, troubled);
        }
      }
    }

    /** `recover_pending`: every operation directory in turn, skipping those that are
        settled and those whose lease is `young`. Afterwards nothing but young operations
        and operations marked for repair is open; and a clean helper on which nothing at
        all is open then is exactly where the last finalized operation left it. */
    method RecoverPending(young: set<string>) returns (trouble: Option<Reply>)
      requires Valid()
      modifies this`clock, this`disk, this`log, this`troubled, this`since, this`leave, this`base
      ensures since == old(clock) && base == old(log) && leave == ForRecovery
      ensures Valid() && (old(Clean()) ==> Clean())
      ensures Hist().db == old(Hist().db) && Hist().runtime == old(Hist().runtime)
      ensures trouble.Some? ==> !trouble.value.Answer?
      ensures forall op :: op in young && op in old(disk).ops ==> op in disk.ops && disk.ops[op] == old(disk).ops[op]
      ensures forall op :: op in old(disk).ops && !old(disk).ops[op].Open? ==> op in disk.ops && disk.ops[op] == old(disk).ops[op]
      ensures trouble.None? ==> forall op :: op in disk.ops && disk.ops[op].Open? ==> disk.ops[op].phase == RepairRequired || op in young
      ensures old(Clean()) && NoneOpen(disk) ==> disk.db == old(Hist().db) && disk.runtime == old(Hist().runtime)
      ensures trouble.Some? ==> troubled
      ensures forall op :: Sole(old(disk), op, young) && !troubled ==>
                (op !in disk.ops <==> Undoable(old(disk), op)) && (op !in disk.ops ==> Undone(disk, old(disk).ops[op]))
    {
      Enter(ForRecovery);
      trouble := None;
      var todo := disk.ops.Keys;
      ghost var was := disk;
      while |todo| > 0
        invariant Valid() && (old(Clean()) ==> Clean())
        invariant Hist().db == old(Hist().db) && Hist().runtime == old(Hist().runtime)
        invariant base == old(log) && leave == ForRecovery
        invariant since == old(clock)
        invariant SoleDone(was, disk, todo, young, troubled)
        invariant Progress(was, disk, todo, young)
        invariant trouble.None?
        decreases |todo|
      {
        var op :| op in todo;
        trouble := RecoverTurn(op, todo, young, was);
        if trouble.Some? {
          break;
        }
        todo := todo - {op};
      }
      if old(Clean()) && NoneOpen(disk) {
        IdleIsCommitted(start, log);
      }
    }

    /** The only operation recovery has to look at; in a clean run there is never another. */
    static ghost predicate Sole(d: Disk, op: string, young: set<string>) {
      && IsOpen(d, op) && d.ops[op].phase != RepairRequired && op !in young
      && forall o :: IsOpen(d, o) && o != op ==> d.ops[o].phase == RepairRequired || o in young
    }

    /** What has become of it once all but `todo` were looked at. */
    static ghost predicate SoleDone(was: Disk, now: Disk, todo: set<string>, young: set<string>, troubled: bool) {
      forall op :: Sole(was, op, young) ==>
        && (op in todo ==> now == was)
        && (op !in todo && !troubled ==> (op !in now.ops <==> Undoable(was, op)) && (op !in now.ops ==> Undone(now, was.ops[op])))
    }

    static lemma SoleTurn(was: Disk, before: Disk, now: Disk, todo: set<string>, young: set<string>, op: string, worse: bool, troubled: bool)
      requires SoleDone(was, before, todo, young, worse) && (worse ==> troubled)
      requires op in todo && op !in young && IsOpen(was, op) && was.ops[op].phase != RepairRequired
      requires op !in now.ops ==> Undoable(before, op) || troubled
      requires Undoable(before, op) && !troubled ==> op !in now.ops && IsOpen(before, op) && Undone(now, before.ops[op])
      ensures SoleDone(was, now, todo - {op}, young, troubled)
    {
      forall o | Sole(was, o, young)
        ensures o in todo - {op} ==> now == was
        ensures o !in todo - {op} && !troubled ==> (o !in now.ops <==> Undoable(was, o)) && (o !in now.ops ==> Undone(now, was.ops[o]))
      {
        assert o == op && before == was;
      }
    }

    /** What the recovery loop has done once all but `todo` were looked at. */
    static predicate Progress(was: Disk, now: Disk, todo: set<string>, young: set<string>) {
      && now.ops.Keys <= was.ops.Keys
      && (forall op :: op in was.ops && (op in todo || op in young || !was.ops[op].Open?) ==> op in now.ops && now.ops[op] == was.ops[op])
      && todo <= was.ops.Keys
      && (forall op :: op in now.ops && now.ops[op].Open? && op !in todo ==> now.ops[op].phase == RepairRequired || op in young)
    }

    static lemma OneTurn(was: Disk, before: Disk, now: Disk, todo: set<string>, young: set<string>, op: string)
      requires Progress(was, before, todo, young) && op in todo && op !in young && was.ops[op].Open?
      requires OnlyOp(before, now, op)
      ensures op !in now.ops || (now.ops[op].Open? && now.ops[op].phase == RepairRequired) ==> Progress(was, now, todo - {op}, young)
      ensures forall o :: o in was.ops && (o in young || !was.ops[o].Open?) ==> o in now.ops && now.ops[o] == was.ops[o]
    {
      assert forall o :: o in now.ops ==> o in before.ops || o == op;
    }
  }
}
