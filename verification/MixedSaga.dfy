/** Two sagas over all managed groups, the main inbound and the store: the rotation of the
    SOCKS credentials and the change of the source policy. Each call can be refused, or
    fail although it took effect; there is no journal, so what was done is compensated in
    reverse order.
    Models internal/orchestrator/mixedpolicy.go: RotateMixedCredentials,
    rollbackMixedCredentialRotation, setMixedPolicy, failMixedPolicyUpdate; and the
    version compare-and-set of internal/store/proxygroups.go, UpdateProxyGroup. */
module MixedSaga {
  import opened Wrappers

  /** How a call ends: done, refused without effect, or reported as failed after it took
      effect. */
  datatype Call = Done | Refused | Late

  type Calls = nat -> Call

  predicate Took(c: Call) {
    !c.Refused?
  }

  /** The columns a saga writes. */
  datatype Fields = Fields(resourceName: string, fingerprint: string, mixedInbound: int)

  datatype Record = Record(fields: Fields, version: int)

  datatype PolicyStatus = Applied | Applying | Failed | RepairRequired

  /** `panel` and `main` are the settings in force; `stored` the setting in the store, the
      pair of credentials or the policy. */
  datatype World = World(panel: map<string, string>, main: string, records: map<string, Record>, stored: string, status: PolicyStatus)

  /** What a saga starts from: the managed groups in order of id as they were listed, the
      old and the new setting, and what the panel will answer for a group. */
  datatype Job = Job(ids: seq<string>, listed: map<string, Record>, source: string, target: string, hasMain: bool, answer: string -> Fields)

  datatype Outcome = Okay | Error(code: string)

  datatype Ret = Ret(world: World, clock: nat, ok: bool)

  predicate Distinct(ids: seq<string>) {
    forall i, j :: 0 <= i < j < |ids| ==> ids[i] != ids[j]
  }

  /** The job fits the world: the groups are all managed, listed as they are stored, and
      the old setting is in force. */
  predicate Fits(w: World, job: Job) {
    Untouched(w, job) && w.stored == job.source
  }

  // ------------------------------------------------------------------- calls

  /** `UpdateManagedMixedPolicy`. */
  function SetGroup(w: World, id: string, setting: string, c: Call): World {
    if Took(c) then w.(panel := w.panel[id := setting]) else w
  }

  /** `UpdateLegacyMainMixedPolicy`. */
  function SetMain(w: World, setting: string, c: Call): World {
    if Took(c) then w.(main := setting) else w
  }

  /** `save`: a compare-and-set on the version. */
  function SaveOk(w: World, id: string, expected: int, c: Call): bool {
    id in w.records && w.records[id].version == expected && c.Done?
  }

  function Save(w: World, id: string, fields: Fields, expected: int, c: Call): World {
    if id in w.records && w.records[id].version == expected && Took(c)
    then w.(records := w.records[id := Record(fields, expected + 1)]) else w
  }

  /** `ReplaceMixedCredentials`, `ReplaceMixedSourcePolicy`. */
  function StoreSetting(w: World, setting: string, status: PolicyStatus, c: Call): World {
    if Took(c) then w.(stored := setting, status := status) else w
  }

  // ------------------------------------------------------------------- loops

  /** The forward loop: the groups one after the other, with a validation after each if the
      saga has one. `applied` counts the updates that were seen to succeed; `late` says
      that the one the loop stopped at took effect all the same. */
  datatype Forward = Forward(world: World, clock: nat, applied: nat, ok: bool, late: bool)

  function UpdateGroups(w: World, ids: seq<string>, setting: string, validates: bool, calls: Calls, c: nat): Forward {
    if ids == [] then Forward(w, c, 0, true, false)
    else
      var f := UpdateGroups(w, ids[..|ids| - 1], setting, validates, calls, c);
      if !f.ok then f
      else
        var g := UpdateGroup(f.world, ids[|ids| - 1], setting, validates, calls, f.clock);
        g.(applied := f.applied + g.applied)
  }

  /** One turn of the loop. */
  function UpdateGroup(w: World, id: string, setting: string, validates: bool, calls: Calls, c: nat): Forward {
    var now := SetGroup(w, id, setting, calls(c));
    if !calls(c).Done? then Forward(now, c + 1, 0, false, calls(c).Late?)
    else Forward(now, c + 2, 1, !validates || calls(c + 1).Done?, false)
  }

  /** The compensation, last group first; it goes on after a failure. */
  function RevertGroups(w: World, ids: seq<string>, setting: string, validates: bool, calls: Calls, c: nat): Ret
    decreases |ids|
  {
    if ids == [] then Ret(w, c, true)
    else
      var last := |ids| - 1;
      var now := SetGroup(w, ids[last], setting, calls(c));
      var r := RevertGroups(now, ids[..last], setting, validates, calls, c + 2);
      Ret(r.world, r.clock, r.ok && calls(c).Done? && (!validates || calls(c + 1).Done?))
  }

  /** Saving the records of the updated groups, each against the listed version. */
  function SaveGroups(w: World, ids: seq<string>, job: Job, calls: Calls, c: nat): Forward
    requires forall i :: 0 <= i < |ids| ==> ids[i] in job.listed
  {
    if ids == [] then Forward(w, c, 0, true, false)
    else
      var f := SaveGroups(w, ids[..|ids| - 1], job, calls, c);
      if !f.ok then f
      else
        var id := ids[|ids| - 1];
        var expected := job.listed[id].version;
        var now := Save(f.world, id, job.answer(id), expected, calls(f.clock));
        if SaveOk(f.world, id, expected, calls(f.clock)) then Forward(now, f.clock + 1, f.applied + 1, true, false)
        else Forward(now, f.clock + 1, f.applied, false, now != f.world)
  }

  /** Restoring the saved records, last first, against the version the save has left. */
  function RevertRecords(w: World, ids: seq<string>, job: Job, calls: Calls, c: nat): Ret
    requires forall i :: 0 <= i < |ids| ==> ids[i] in job.listed
    decreases |ids|
  {
    if ids == [] then Ret(w, c, true)
    else
      var id := ids[|ids| - 1];
      var expected := job.listed[id].version + 1;
      var now := Save(w, id, job.listed[id].fields, expected, calls(c));
      var r := RevertRecords(now, ids[..|ids| - 1], job, calls, c + 1);
      Ret(r.world, r.clock, r.ok && SaveOk(w, id, expected, calls(c)))
  }

  /** What both sagas do about the first groups and the first records. */
  function Compensation(w: World, job: Job, applied: nat, saved: nat, validates: bool, calls: Calls, c: nat): Ret
    requires saved <= |job.ids| && applied <= |job.ids| && (forall i :: 0 <= i < |job.ids| ==> job.ids[i] in job.listed)
  {
    var panel := RevertGroups(w, job.ids[..applied], job.source, validates, calls, c);
    var records := RevertRecords(panel.world, job.ids[..saved], job, calls, panel.clock);
    Ret(records.world, records.clock, panel.ok && records.ok)
  }

  // ---------------------------------------------------------------- rotation

  /** `rollbackMixedCredentialRotation`. */
  function RollbackRotation(w: World, job: Job, applied: nat, saved: nat, main: bool, calls: Calls, c: nat): (World, Outcome)
    requires saved <= |job.ids| && applied <= |job.ids| && (forall i :: 0 <= i < |job.ids| ==> job.ids[i] in job.listed)
  {
    var mained := if main then SetMain(w, job.source, calls(c)) else w;
    var back := Compensation(mained, job, applied, saved, false, calls, c + 1);
    (back.world, Error(if (main && !calls(c).Done?) || !back.ok then "repair_required" else "mixed_credentials_apply_failed"))
  }

  /** `RotateMixedCredentials` from the saves on. */
  function StoreRotation(w: World, job: Job, calls: Calls, c: nat): (World, Outcome)
    requires forall i :: 0 <= i < |job.ids| ==> job.ids[i] in job.listed
  {
    var s := SaveGroups(w, job.ids, job, calls, c);
    SaveCounts(w, job.ids, job, calls, c);
    if !s.ok then RollbackRotation(s.world, job, |job.ids|, s.applied, job.hasMain, calls, s.clock)
    else StorePair(s.world, job, calls, s.clock)
  }

  /** ... and from the pair on. */
  function StorePair(w: World, job: Job, calls: Calls, c: nat): (World, Outcome)
    requires forall i :: 0 <= i < |job.ids| ==> job.ids[i] in job.listed
  {
    var stored := StoreSetting(w, job.target, w.status, calls(c));
    if calls(c).Done? then (stored, Okay)
    else RollbackRotation(stored, job, |job.ids|, |job.ids|, job.hasMain, calls, c + 1)
  }

  /** ... and from the main inbound on; the validations of all groups are one call. */
  function MainRotation(w: World, job: Job, calls: Calls, c: nat): (World, Outcome)
    requires forall i :: 0 <= i < |job.ids| ==> job.ids[i] in job.listed
  {
    var mained := if job.hasMain then SetMain(w, job.target, calls(c)) else w;
    if job.hasMain && !calls(c).Done? then RollbackRotation(mained, job, |job.ids|, 0, true, calls, c + 1)
    else CheckRotation(mained, job, calls, c + 1)
  }

  /** ... and from the validations on. */
  function CheckRotation(w: World, job: Job, calls: Calls, c: nat): (World, Outcome)
    requires forall i :: 0 <= i < |job.ids| ==> job.ids[i] in job.listed
  {
    if !calls(c).Done? then RollbackRotation(w, job, |job.ids|, 0, job.hasMain, calls, c + 1)
    else StoreRotation(w, job, calls, c + 1)
  }

  /** `RotateMixedCredentials`, from the forward loop on. */
  function Rotate(w: World, job: Job, calls: Calls, c: nat): (World, Outcome)
    requires forall i :: 0 <= i < |job.ids| ==> job.ids[i] in job.listed
  {
    var f := UpdateGroups(w, job.ids, job.target, false, calls, c);
    UpdateCounts(w, job.ids, job.target, false, calls, c);
    if !f.ok then RollbackRotation(f.world, job, f.applied + 1, 0, false, calls, f.clock)
    else MainRotation(f.world, job, calls, f.clock)
  }

  lemma {:induction false} UpdateCounts(w: World, ids: seq<string>, setting: string, validates: bool, calls: Calls, c: nat)
    ensures var f := UpdateGroups(w, ids, setting, validates, calls, c);
            f.applied <= |ids| && (f.ok ==> f.applied == |ids|) && (!f.ok && !validates ==> f.applied < |ids|)
  {
    if ids != [] {
      UpdateCounts(w, ids[..|ids| - 1], setting, validates, calls, c);
    }
  }

  lemma {:induction false} SaveCounts(w: World, ids: seq<string>, job: Job, calls: Calls, c: nat)
    requires forall i :: 0 <= i < |ids| ==> ids[i] in job.listed
    ensures var f := SaveGroups(w, ids, job, calls, c);
            f.applied <= |ids| && (f.ok ==> f.applied == |ids|) && (!f.ok ==> f.applied < |ids|) && (f.late ==> !f.ok)
  {
    if ids != [] {
      SaveCounts(w, ids[..|ids| - 1], job, calls, c);
    }
  }

  // ----------------------------------------------------------- what loops mean

  predicate In(ids: seq<string>, id: string) {
    exists i :: 0 <= i < |ids| && ids[i] == id
  }

  lemma InSnoc(ids: seq<string>, id: string)
    requires ids != []
    ensures In(ids, id) <==> In(ids[..|ids| - 1], id) || ids[|ids| - 1] == id
  {
    assert ids == ids[..|ids| - 1] + [ids[|ids| - 1]];
  }

  /** The forward loop touches only the settings of the listed groups. */
  lemma {:induction false} UpdateFrame(w: World, ids: seq<string>, setting: string, validates: bool, calls: Calls, c: nat, id: string)
    requires forall i :: 0 <= i < |ids| ==> ids[i] in w.panel
    ensures var f := UpdateGroups(w, ids, setting, validates, calls, c);
            && f.world == w.(panel := f.world.panel) && f.world.panel.Keys == w.panel.Keys
            && f.applied <= |ids| && (f.ok ==> f.applied == |ids|) && (f.late ==> f.applied < |ids|) && (f.applied < |ids| ==> !f.ok)
            && (id in w.panel && !In(ids, id) ==> f.world.panel[id] == w.panel[id])
  {
    if ids != [] {
      UpdateFrame(w, ids[..|ids| - 1], setting, validates, calls, c, id);
      InSnoc(ids, id);
    }
  }

  /** The groups before the end of the forward loop are new, those after it untouched; the
      one it stopped at is new exactly if its call took effect. */
  lemma {:induction false} UpdateMeans(w: World, ids: seq<string>, setting: string, validates: bool, calls: Calls, c: nat, i: nat)
    requires Distinct(ids) && i < |ids| && (forall k :: 0 <= k < |ids| ==> ids[k] in w.panel)
    ensures var f := UpdateGroups(w, ids, setting, validates, calls, c);
            && ids[i] in f.world.panel
            && f.world.panel[ids[i]] == if i < f.applied || (i == f.applied && f.late) then setting else w.panel[ids[i]]
  {
    var init, last := ids[..|ids| - 1], ids[|ids| - 1];
    UpdateFrame(w, init, setting, validates, calls, c, ids[i]);
    UpdateFrame(w, init, setting, validates, calls, c, last);
    if i < |init| {
      UpdateMeans(w, init, setting, validates, calls, c, i);
      assert ids[i] != last;
    } else {
      assert !In(init, last);
    }
  }

  /** A compensation whose every call was done has put every listed group back. */
  lemma {:induction false} RevertMeans(w: World, ids: seq<string>, setting: string, validates: bool, calls: Calls, c: nat)
    requires Distinct(ids) && (forall i :: 0 <= i < |ids| ==> ids[i] in w.panel)
    ensures var r := RevertGroups(w, ids, setting, validates, calls, c);
            && r.world == w.(panel := r.world.panel) && r.world.panel.Keys == w.panel.Keys
            && (r.ok ==> forall i :: 0 <= i < |ids| ==> r.world.panel[ids[i]] == setting)
            && (forall id :: id in w.panel && !In(ids, id) ==> r.world.panel[id] == w.panel[id])
    decreases |ids|
  {
    if ids != [] {
      var init, last := ids[..|ids| - 1], ids[|ids| - 1];
      var now := SetGroup(w, last, setting, calls(c));
      RevertMeans(now, init, setting, validates, calls, c + 2);
      forall id ensures In(ids, id) <==> In(init, id) || last == id {
        InSnoc(ids, id);
      }
      assert !In(init, last);
    }
  }

  predicate Listed(w: World, ids: seq<string>, job: Job) {
    forall i :: 0 <= i < |ids| ==> ids[i] in w.records && ids[i] in job.listed
  }

  /** Saving touches only the records of the listed groups. */
  lemma {:induction false} SaveFrame(w: World, ids: seq<string>, job: Job, calls: Calls, c: nat, id: string)
    requires Listed(w, ids, job)
    ensures var f := SaveGroups(w, ids, job, calls, c);
            && f.world == w.(records := f.world.records) && f.world.records.Keys == w.records.Keys
            && (id in w.records && !In(ids, id) ==> f.world.records[id] == w.records[id])
  {
    if ids != [] {
      var init, last := ids[..|ids| - 1], ids[|ids| - 1];
      SaveFrame(w, init, job, calls, c, id);
      InSnoc(ids, id);
    }
  }

  /** The saved records carry the new fields one version up, the rest are untouched; the
      one the loop stopped at was written exactly if its save took effect. */
  lemma {:induction false} SaveMeans(w: World, ids: seq<string>, job: Job, calls: Calls, c: nat, i: nat)
    requires Distinct(ids) && Listed(w, ids, job) && i < |ids|
    requires forall k :: 0 <= k < |ids| ==> w.records[ids[k]] == job.listed[ids[k]]
    ensures var f := SaveGroups(w, ids, job, calls, c);
            && ids[i] in f.world.records
            && f.world.records[ids[i]] ==
                 if i < f.applied || (i == f.applied && f.late) then Record(job.answer(ids[i]), job.listed[ids[i]].version + 1)
                 else w.records[ids[i]]
  {
    var init, last := ids[..|ids| - 1], ids[|ids| - 1];
    var f := SaveGroups(w, init, job, calls, c);
    SaveFrame(w, init, job, calls, c, ids[i]);
    SaveFrame(w, init, job, calls, c, last);
    SaveCounts(w, init, job, calls, c);
    if i < |init| {
      SaveMeans(w, init, job, calls, c, i);
      assert ids[i] != last;
    } else {
      assert !In(init, last);
    }
  }

  predicate AllDone(calls: Calls, from: nat, to: nat) {
    forall n {:trigger calls(n)} :: from <= n < to ==> calls(n).Done?
  }

  predicate OneUp(w: World, ids: seq<string>, job: Job)
    requires Listed(w, ids, job)
  {
    forall i :: 0 <= i < |ids| ==> w.records[ids[i]].version == job.listed[ids[i]].version + 1
  }

  lemma {:induction false} RestoreFrame(w: World, ids: seq<string>, job: Job, calls: Calls, c: nat, id: string)
    requires Listed(w, ids, job)
    ensures var r := RevertRecords(w, ids, job, calls, c);
            && r.world == w.(records := r.world.records) && r.world.records.Keys == w.records.Keys
            && (id in w.records && !In(ids, id) ==> r.world.records[id] == w.records[id])
    decreases |ids|
  {
    if ids != [] {
      var init, last := ids[..|ids| - 1], ids[|ids| - 1];
      RestoreFrame(Save(w, last, job.listed[last].fields, job.listed[last].version + 1, calls(c)), init, job, calls, c + 1, id);
      InSnoc(ids, id);
    }
  }

  /** One turn of the restore leaves the versions of the others alone. */
  lemma StillOneUp(w: World, ids: seq<string>, job: Job, call: Call)
    requires Distinct(ids) && Listed(w, ids, job) && OneUp(w, ids, job) && ids != []
    ensures var init, last := ids[..|ids| - 1], ids[|ids| - 1];
            var now := Save(w, last, job.listed[last].fields, job.listed[last].version + 1, call);
            Listed(now, init, job) && OneUp(now, init, job)
            && (Took(call) ==> now.records[last] == Record(job.listed[last].fields, job.listed[last].version + 2))
  {
  }

  /** The version arithmetic of the restore is right: on records as the saves have left
      them, every restore finds the version it expects, so it fails only if a call fails. */
  lemma {:induction false} RestoreFailsOnlyByCalls(w: World, ids: seq<string>, job: Job, calls: Calls, c: nat)
    requires Distinct(ids) && Listed(w, ids, job) && OneUp(w, ids, job)
    ensures RevertRecords(w, ids, job, calls, c).ok <==> AllDone(calls, c, c + |ids|)
    decreases |ids|
  {
    if ids != [] {
      var init, last := ids[..|ids| - 1], ids[|ids| - 1];
      StillOneUp(w, ids, job, calls(c));
      RestoreFailsOnlyByCalls(Save(w, last, job.listed[last].fields, job.listed[last].version + 1, calls(c)), init, job, calls, c + 1);
    }
  }

  /** ... and when none fails, every record has its listed fields again, two versions up. */
  lemma {:induction false} RestoreMeans(w: World, ids: seq<string>, job: Job, calls: Calls, c: nat, i: nat)
    requires Distinct(ids) && Listed(w, ids, job) && OneUp(w, ids, job) && i < |ids|
    requires RevertRecords(w, ids, job, calls, c).ok
    ensures var r := RevertRecords(w, ids, job, calls, c);
            ids[i] in r.world.records && r.world.records[ids[i]] == Record(job.listed[ids[i]].fields, job.listed[ids[i]].version + 2)
    decreases |ids|
  {
    var init, last := ids[..|ids| - 1], ids[|ids| - 1];
    var now := Save(w, last, job.listed[last].fields, job.listed[last].version + 1, calls(c));
    StillOneUp(w, ids, job, calls(c));
    RestoreFrame(now, init, job, calls, c + 1, last);
    if i < |init| {
      RestoreMeans(now, init, job, calls, c + 1, i);
    } else {
      assert !In(init, last);
    }
  }

  // ------------------------------------------------------------- atomicity

  /** Everything is in the new setting. */
  predicate AllNew(w: World, job: Job) {
    && (forall i :: 0 <= i < |job.ids| ==> job.ids[i] in w.panel && w.panel[job.ids[i]] == job.target)
    && (job.hasMain ==> w.main == job.target) && w.stored == job.target
    && (forall i :: 0 <= i < |job.ids| ==> job.ids[i] in w.records && w.records[job.ids[i]].fields == job.answer(job.ids[i]))
  }

  /** Every inbound is in the old setting. */
  predicate InboundsOld(w: World, job: Job) {
    && (forall i :: 0 <= i < |job.ids| ==> job.ids[i] in w.panel && w.panel[job.ids[i]] == job.source)
    && w.main == job.source
  }

  /** Every record has its old fields. */
  predicate RecordsOld(w: World, job: Job) {
    forall i :: 0 <= i < |job.ids| ==> job.ids[i] in w.records && job.ids[i] in job.listed && w.records[job.ids[i]].fields == job.listed[job.ids[i]].fields
  }

  lemma OnlyPrefix(ids: seq<string>, n: nat)
    requires Distinct(ids) && n <= |ids|
    ensures forall i :: n <= i < |ids| ==> !In(ids[..n], ids[i])
  {
  }

  /** A compensation of the first `applied` groups, and of no other. */
  lemma PanelRestored(w: World, job: Job, applied: nat, validates: bool, calls: Calls, c: nat)
    requires Distinct(job.ids) && applied <= |job.ids| && (forall i :: 0 <= i < |job.ids| ==> job.ids[i] in w.panel)
    ensures var r := RevertGroups(w, job.ids[..applied], job.source, validates, calls, c);
            && r.world == w.(panel := r.world.panel) && r.world.panel.Keys == w.panel.Keys
            && (r.ok ==> forall i :: 0 <= i < |job.ids| ==>
                  r.world.panel[job.ids[i]] == if i < applied then job.source else w.panel[job.ids[i]])
  {
    var done := job.ids[..applied];
    RevertMeans(w, done, job.source, validates, calls, c);
    OnlyPrefix(job.ids, applied);
    var r := RevertGroups(w, done, job.source, validates, calls, c);
    if r.ok {
      forall i | 0 <= i < |job.ids|
        ensures r.world.panel[job.ids[i]] == if i < applied then job.source else w.panel[job.ids[i]]
      {
        if i < applied {
          assert done[i] == job.ids[i];
        }
      }
    }
  }

  /** A restore of the first `saved` records, and nothing else. */
  lemma RecordsRestored(w: World, job: Job, saved: nat, calls: Calls, c: nat)
    requires Distinct(job.ids) && Listed(w, job.ids, job) && saved <= |job.ids|
    requires forall i :: 0 <= i < saved ==> w.records[job.ids[i]].version == job.listed[job.ids[i]].version + 1
    ensures var r := RevertRecords(w, job.ids[..saved], job, calls, c);
            && r.world == w.(records := r.world.records) && r.world.records.Keys == w.records.Keys
            && (r.ok ==> forall i :: 0 <= i < |job.ids| ==>
                  r.world.records[job.ids[i]] ==
                  if i < saved then Record(job.listed[job.ids[i]].fields, job.listed[job.ids[i]].version + 2) else w.records[job.ids[i]])
  {
    var done := job.ids[..saved];
    assert OneUp(w, done, job);
    OnlyPrefix(job.ids, saved);
    var r := RevertRecords(w, done, job, calls, c);
    RestoreFrame(w, done, job, calls, c, "");
    if r.ok {
      forall i | 0 <= i < |job.ids|
        ensures r.world.records[job.ids[i]] ==
                if i < saved then Record(job.listed[job.ids[i]].fields, job.listed[job.ids[i]].version + 2) else w.records[job.ids[i]]
      {
        RestoreFrame(w, done, job, calls, c, job.ids[i]);
        if i < saved {
          assert done[i] == job.ids[i];
          RestoreMeans(w, done, job, calls, c, i);
        }
      }
    }
  }

  /** What a compensation needs to find: everything old but the first `applied` groups,
      and the first `saved` records one version up. */
  predicate Reachable(w: World, job: Job, applied: nat, saved: nat, main: bool) {
    && Distinct(job.ids) && Listed(w, job.ids, job) && saved <= |job.ids| && applied <= |job.ids|
    && (forall i :: 0 <= i < |job.ids| ==> job.ids[i] in w.panel)
    && (forall i :: applied <= i < |job.ids| ==> w.panel[job.ids[i]] == job.source)
    && (!main ==> w.main == job.source)
    && (forall i :: 0 <= i < saved ==> w.records[job.ids[i]].version == job.listed[job.ids[i]].version + 1)
  }

  /** A record after the compensation. */
  predicate RestoredAt(before: World, now: World, job: Job, saved: nat, i: nat)
    requires Listed(before, job.ids, job) && i < |job.ids|
  {
    job.ids[i] in now.records
    && now.records[job.ids[i]] == if i < saved then Record(job.listed[job.ids[i]].fields, job.listed[job.ids[i]].version + 2) else before.records[job.ids[i]]
  }

  /** A compensation that goes through: the first groups are old, the first records restored,
      and nothing else is touched. */
  lemma Compensated(w: World, job: Job, applied: nat, saved: nat, validates: bool, calls: Calls, c: nat)
    requires Distinct(job.ids) && Listed(w, job.ids, job) && saved <= |job.ids| && applied <= |job.ids|
    requires forall i :: 0 <= i < |job.ids| ==> job.ids[i] in w.panel
    requires forall i :: 0 <= i < saved ==> w.records[job.ids[i]].version == job.listed[job.ids[i]].version + 1
    ensures var r := Compensation(w, job, applied, saved, validates, calls, c);
            && r.world == w.(panel := r.world.panel, records := r.world.records)
            && r.world.panel.Keys == w.panel.Keys && r.world.records.Keys == w.records.Keys
            && (r.ok ==> forall i :: 0 <= i < |job.ids| ==>
                  r.world.panel[job.ids[i]] == if i < applied then job.source else w.panel[job.ids[i]])
            && (r.ok ==> forall i :: 0 <= i < |job.ids| ==> RestoredAt(w, r.world, job, saved, i))
  {
    PanelRestored(w, job, applied, validates, calls, c);
    var panel := RevertGroups(w, job.ids[..applied], job.source, validates, calls, c);
    RecordsRestored(panel.world, job, saved, calls, panel.clock);
  }

  lemma RollbackRestores(w: World, job: Job, applied: nat, saved: nat, main: bool, calls: Calls, c: nat)
    requires Reachable(w, job, applied, saved, main)
    ensures var (now, out) := RollbackRotation(w, job, applied, saved, main, calls, c);
            && (out == Error("repair_required") || out == Error("mixed_credentials_apply_failed"))
            && now.stored == w.stored
            && (out == Error("mixed_credentials_apply_failed") ==>
                  InboundsOld(now, job) && forall i :: 0 <= i < |job.ids| ==> RestoredAt(w, now, job, saved, i))
  {
    var mained := if main then SetMain(w, job.source, calls(c)) else w;
    Compensated(mained, job, applied, saved, false, calls, c + 1);
    SameRestored(w, mained, Compensation(mained, job, applied, saved, false, calls, c + 1).world, job, saved);
  }

  lemma SameRestored(a: World, b: World, now: World, job: Job, saved: nat)
    requires a.records == b.records && Listed(a, job.ids, job)
    ensures forall i :: 0 <= i < |job.ids| ==> RestoredAt(a, now, job, saved, i) == RestoredAt(b, now, job, saved, i)
  {
  }

  /** The save the loop stopped at took effect, with fields that differ from the listed. */
  predicate LateRecord(w: World, job: Job, calls: Calls, c: nat)
    requires forall i :: 0 <= i < |job.ids| ==> job.ids[i] in job.listed
  {
    var s := SaveGroups(w, job.ids, job, calls, c);
    SaveCounts(w, job.ids, job, calls, c);
    s.late && job.answer(job.ids[s.applied]) != job.listed[job.ids[s.applied]].fields
  }

  /** In the storing part of the rotation a call was reported as failed although it took
      effect: a save of a record, or the replacement of the stored pair. */
  predicate LateSave(w: World, job: Job, calls: Calls, c: nat)
    requires forall i :: 0 <= i < |job.ids| ==> job.ids[i] in job.listed
  {
    var s := SaveGroups(w, job.ids, job, calls, c);
    if s.ok then calls(s.clock).Late? else LateRecord(w, job, calls, c)
  }

  predicate LateMain(w: World, job: Job, calls: Calls, c: nat)
    requires forall i :: 0 <= i < |job.ids| ==> job.ids[i] in job.listed
  {
    (job.hasMain ==> calls(c).Done?) && calls(c + 1).Done?
    && LateSave(if job.hasMain then SetMain(w, job.target, calls(c)) else w, job, calls, c + 2)
  }

  /** The rotation got as far as such a call. */
  predicate LateStore(w: World, job: Job, calls: Calls, c: nat)
    requires forall i :: 0 <= i < |job.ids| ==> job.ids[i] in job.listed
  {
    var f := UpdateGroups(w, job.ids, job.target, false, calls, c);
    f.ok && LateMain(f.world, job, calls, f.clock)
  }

  /** The groups and the main inbound are old, and the records as listed. */
  predicate Untouched(w: World, job: Job) {
    && Distinct(job.ids) && w.main == job.source
    && (forall i :: 0 <= i < |job.ids| ==>
          var id := job.ids[i];
          id in w.panel && w.panel[id] == job.source && id in w.records && id in job.listed && w.records[id] == job.listed[id])
  }

  /** What the forward part of either saga has done when the loop over the groups is over. */
  lemma ForwardIsReachable(w: World, job: Job, validates: bool, calls: Calls, c: nat)
    requires Untouched(w, job)
    ensures var f := UpdateGroups(w, job.ids, job.target, validates, calls, c);
            && f.world == w.(panel := f.world.panel) && f.world.panel.Keys == w.panel.Keys && f.applied <= |job.ids|
            && (f.ok ==> f.applied == |job.ids| && forall i :: 0 <= i < |job.ids| ==> f.world.panel[job.ids[i]] == job.target)
            && (f.late ==> !f.ok && f.applied < |job.ids| && f.world.panel[job.ids[f.applied]] == job.target)
            && Reachable(f.world, job, if f.late then f.applied + 1 else f.applied, 0, false)
  {
    var f := UpdateGroups(w, job.ids, job.target, validates, calls, c);
    UpdateFrame(w, job.ids, job.target, validates, calls, c, "");
    forall i | 0 <= i < |job.ids|
      ensures job.ids[i] in f.world.panel
      ensures f.world.panel[job.ids[i]] == if i < f.applied || (i == f.applied && f.late) then job.target else job.source
    {
      UpdateMeans(w, job.ids, job.target, validates, calls, c, i);
    }
  }

  /** ... and when the loop over the records is over. */
  lemma SavesAreReachable(w: World, job: Job, calls: Calls, c: nat)
    requires Distinct(job.ids) && Listed(w, job.ids, job)
    requires forall i :: 0 <= i < |job.ids| ==> job.ids[i] in w.panel && w.records[job.ids[i]] == job.listed[job.ids[i]]
    ensures var s := SaveGroups(w, job.ids, job, calls, c);
            && s.world == w.(records := s.world.records) && s.applied <= |job.ids| && (s.ok <==> s.applied == |job.ids|)
            && Reachable(s.world, job, |job.ids|, s.applied, true)
            && (forall i :: 0 <= i < |job.ids| ==>
                  s.world.records[job.ids[i]] ==
                  if i < s.applied || (i == s.applied && s.late) then Record(job.answer(job.ids[i]), job.listed[job.ids[i]].version + 1)
                  else job.listed[job.ids[i]])
  {
    SaveFrame(w, job.ids, job, calls, c, "");
    SaveCounts(w, job.ids, job, calls, c);
    forall i | 0 <= i < |job.ids|
      ensures var s := SaveGroups(w, job.ids, job, calls, c);
              s.world.records[job.ids[i]] ==
              if i < s.applied || (i == s.applied && s.late) then Record(job.answer(job.ids[i]), job.listed[job.ids[i]].version + 1)
              else job.listed[job.ids[i]]
    {
      SaveMeans(w, job.ids, job, calls, c, i);
    }
  }

  /** The stage of the rotation in which nothing has been stored yet. */
  lemma EarlyFailure(w: World, job: Job, applied: nat, main: bool, calls: Calls, c: nat)
    requires Reachable(w, job, applied, 0, main) && w.stored == job.source
    requires forall i :: 0 <= i < |job.ids| ==> w.records[job.ids[i]] == job.listed[job.ids[i]]
    ensures var (now, out) := RollbackRotation(w, job, applied, 0, main, calls, c);
            && (out == Error("repair_required") || out == Error("mixed_credentials_apply_failed"))
            && (out == Error("mixed_credentials_apply_failed") ==> InboundsOld(now, job) && RecordsOld(now, job) && now.stored == job.source)
  {
    RollbackRestores(w, job, applied, 0, main, calls, c);
    var (now, out) := RollbackRotation(w, job, applied, 0, main, calls, c);
    if out == Error("mixed_credentials_apply_failed") {
      forall i | 0 <= i < |job.ids|
        ensures job.ids[i] in now.records && now.records[job.ids[i]].fields == job.listed[job.ids[i]].fields
      {
        assert RestoredAt(w, now, job, 0, i);
      }
    }
  }

  /** The stage in which records or the pair are being stored. */
  lemma StoreFailure(w: World, job: Job, saved: nat, late: bool, calls: Calls, c: nat)
    requires Reachable(w, job, |job.ids|, saved, true) && (job.hasMain || w.main == job.source)
    requires forall i :: 0 <= i < |job.ids| ==>
               w.records[job.ids[i]] ==
               if i < saved || (i == saved && late) then Record(job.answer(job.ids[i]), job.listed[job.ids[i]].version + 1) else job.listed[job.ids[i]]
    requires late ==> saved < |job.ids|
    ensures var (now, out) := RollbackRotation(w, job, |job.ids|, saved, job.hasMain, calls, c);
            && (out == Error("repair_required") || out == Error("mixed_credentials_apply_failed"))
            && now.stored == w.stored
            && (out == Error("mixed_credentials_apply_failed") ==>
                  && InboundsOld(now, job)
                  && (RecordsOld(now, job) <==> !(late && job.answer(job.ids[saved]) != job.listed[job.ids[saved]].fields)))
  {
    RollbackRestores(w, job, |job.ids|, saved, job.hasMain, calls, c);
    var (now, out) := RollbackRotation(w, job, |job.ids|, saved, job.hasMain, calls, c);
    if out == Error("mixed_credentials_apply_failed") {
      forall i | 0 <= i < |job.ids|
        ensures job.ids[i] in now.records
        ensures now.records[job.ids[i]].fields == if i == saved && late then job.answer(job.ids[i]) else job.listed[job.ids[i]].fields
      {
        assert RestoredAt(w, now, job, saved, i);
      }
    }
  }

  /** How the rotation may end: `late` says whether a store call failed late. */
  predicate RotationEnds(end: (World, Outcome), job: Job, late: bool) {
    || (end.1 == Okay && AllNew(end.0, job))
    || end.1 == Error("repair_required")
    || (end.1 == Error("mixed_credentials_apply_failed") && InboundsOld(end.0, job)
        && (RecordsOld(end.0, job) && end.0.stored == job.source <==> !late))
  }

  lemma StoreRotationEnds(w: World, job: Job, calls: Calls, c: nat)
    requires Reachable(w, job, |job.ids|, 0, job.hasMain) && w.stored == job.source && job.source != job.target
    requires job.hasMain ==> w.main == job.target
    requires forall i :: 0 <= i < |job.ids| ==> w.panel[job.ids[i]] == job.target && w.records[job.ids[i]] == job.listed[job.ids[i]]
    ensures RotationEnds(StoreRotation(w, job, calls, c), job, LateSave(w, job, calls, c))
  {
    SavesAreReachable(w, job, calls, c);
    SaveCounts(w, job.ids, job, calls, c);
    var s := SaveGroups(w, job.ids, job, calls, c);
    if !s.ok {
      StoreFailure(s.world, job, s.applied, s.late, calls, s.clock);
    } else {
      StorePairEnds(s.world, job, calls, s.clock);
    }
  }

  lemma StorePairEnds(w: World, job: Job, calls: Calls, c: nat)
    requires Reachable(w, job, |job.ids|, |job.ids|, true) && w.stored == job.source && job.source != job.target
    requires if job.hasMain then w.main == job.target else w.main == job.source
    requires forall i :: 0 <= i < |job.ids| ==>
               w.panel[job.ids[i]] == job.target && w.records[job.ids[i]] == Record(job.answer(job.ids[i]), job.listed[job.ids[i]].version + 1)
    ensures RotationEnds(StorePair(w, job, calls, c), job, calls(c).Late?)
  {
    var stored := StoreSetting(w, job.target, w.status, calls(c));
    if !calls(c).Done? {
      StoreFailure(stored, job, |job.ids|, false, calls, c + 1);
    }
  }

  lemma MainRotationEnds(w: World, job: Job, calls: Calls, c: nat)
    requires Reachable(w, job, |job.ids|, 0, false) && w.stored == job.source && job.source != job.target
    requires forall i :: 0 <= i < |job.ids| ==> w.panel[job.ids[i]] == job.target && w.records[job.ids[i]] == job.listed[job.ids[i]]
    ensures RotationEnds(MainRotation(w, job, calls, c), job, LateMain(w, job, calls, c))
  {
    var mained := if job.hasMain then SetMain(w, job.target, calls(c)) else w;
    assert Reachable(mained, job, |job.ids|, 0, job.hasMain);
    if job.hasMain && !calls(c).Done? {
      EarlyFailure(mained, job, |job.ids|, true, calls, c + 1);
    } else if !calls(c + 1).Done? {
      EarlyFailure(mained, job, |job.ids|, job.hasMain, calls, c + 2);
    } else {
      StoreRotationEnds(mained, job, calls, c + 2);
    }
  }

  /** The rotation is atomic. It succeeds only with every managed group, the main inbound
      and the stored pair new. When it reports that the change was not applied, every
      inbound is old; the records and the stored pair are old as well exactly if no store
      call failed late, with something new to store. Anything else asks for repair. */
  lemma RotationIsAtomic(w: World, job: Job, calls: Calls, c: nat)
    requires Fits(w, job) && job.source != job.target
    ensures var (now, out) := Rotate(w, job, calls, c);
            && (out == Okay || out == Error("mixed_credentials_apply_failed") || out == Error("repair_required"))
            && (out == Okay ==> AllNew(now, job))
            && (out == Error("mixed_credentials_apply_failed") ==>
                  InboundsOld(now, job) && (RecordsOld(now, job) && now.stored == job.source <==> !LateStore(w, job, calls, c)))
  {
    var f := UpdateGroups(w, job.ids, job.target, false, calls, c);
    UpdateCounts(w, job.ids, job.target, false, calls, c);
    ForwardIsReachable(w, job, false, calls, c);
    if f.ok {
      MainRotationEnds(f.world, job, calls, f.clock);
    } else {
      assert Reachable(f.world, job, f.applied + 1, 0, false);
      EarlyFailure(f.world, job, f.applied + 1, false, calls, f.clock);
    }
  }

  // ------------------------------------------------------------ source policy

  /** `failMixedPolicyUpdate`: what was restored is validated too, and the policy row gets
      the old policy back, or is marked as one that needs repair. */
  function FailPolicy(w: World, job: Job, applied: nat, saved: nat, main: bool, calls: Calls, c: nat): (World, Outcome)
    requires saved <= |job.ids| && applied <= |job.ids| && (forall i :: 0 <= i < |job.ids| ==> job.ids[i] in job.listed)
  {
    var mained := if main then SetMain(w, job.source, calls(c)) else w;
    var back := Compensation(mained, job, applied, saved, true, calls, c + 2);
    if (main && !(calls(c).Done? && calls(c + 1).Done?)) || !back.ok then
      (StoreSetting(back.world, job.target, RepairRequired, calls(back.clock)), Error("repair_required"))
    else
      (StoreSetting(back.world, job.source, Failed, calls(back.clock)),
       Error(if calls(back.clock).Done? then "mixed_policy_apply_failed" else "repair_required"))
  }

  /** `setMixedPolicy` from the saves on. */
  function StorePolicy(w: World, job: Job, calls: Calls, c: nat): (World, Outcome)
    requires forall i :: 0 <= i < |job.ids| ==> job.ids[i] in job.listed
  {
    var s := SaveGroups(w, job.ids, job, calls, c);
    SaveCounts(w, job.ids, job, calls, c);
    if !s.ok then FailPolicy(s.world, job, |job.ids|, s.applied, job.hasMain, calls, s.clock)
    else
      var stored := StoreSetting(s.world, job.target, Applied, calls(s.clock));
      if calls(s.clock).Done? then (stored, Okay)
      else FailPolicy(stored, job, |job.ids|, |job.ids|, job.hasMain, calls, s.clock + 1)
  }

  /** ... and from the main inbound on. */
  function MainPolicy(w: World, job: Job, calls: Calls, c: nat): (World, Outcome)
    requires forall i :: 0 <= i < |job.ids| ==> job.ids[i] in job.listed
  {
    var mained := if job.hasMain then SetMain(w, job.target, calls(c)) else w;
    if job.hasMain && !(calls(c).Done? && calls(c + 1).Done?) then FailPolicy(mained, job, |job.ids|, 0, true, calls, c + 2)
    else StorePolicy(mained, job, calls, c + 2)
  }

  /** `setMixedPolicy`, from the first write of the policy row on. */
  function SetPolicy(w: World, job: Job, calls: Calls, c: nat): (World, Outcome)
    requires forall i :: 0 <= i < |job.ids| ==> job.ids[i] in job.listed
  {
    var begun := StoreSetting(w, job.target, Applying, calls(c));
    if !calls(c).Done? then (begun, Error("storage_failed"))
    else
      var f := UpdateGroups(begun, job.ids, job.target, true, calls, c + 1);
      UpdateCounts(begun, job.ids, job.target, true, calls, c + 1);
      if !f.ok then FailPolicy(f.world, job, f.applied, 0, false, calls, f.clock)
      else MainPolicy(f.world, job, calls, f.clock)
  }

  /** The update the forward loop stopped at took effect although it was reported as
      failed. This saga, unlike the rotation, does not compensate that one. */
  predicate LateUpdate(w: World, job: Job, calls: Calls, c: nat) {
    calls(c).Done? && UpdateGroups(StoreSetting(w, job.target, Applying, calls(c)), job.ids, job.target, true, calls, c + 1).late
  }

  /** How a compensation of the policy may end; `stuck` is the number of a group that was
      left new, if there is one. */
  predicate PolicyFailed(end: (World, Outcome), job: Job, stuck: Option<nat>) {
    && (end.1 == Error("repair_required") || end.1 == Error("mixed_policy_apply_failed"))
    && (end.1 == Error("mixed_policy_apply_failed") ==>
          && end.0.stored == job.source && end.0.status == Failed && end.0.main == job.source
          && (forall i :: 0 <= i < |job.ids| ==> job.ids[i] in end.0.panel && end.0.panel[job.ids[i]] == if stuck == Some(i) then job.target else job.source))
  }

  lemma FailPolicyInbounds(w: World, job: Job, applied: nat, saved: nat, main: bool, late: bool, calls: Calls, c: nat)
    requires Reachable(w, job, if late then applied + 1 else applied, saved, main)
    requires late ==> w.panel[job.ids[applied]] == job.target
    ensures PolicyFailed(FailPolicy(w, job, applied, saved, main, calls, c), job, if late then Some(applied) else None)
  {
    Compensated(if main then SetMain(w, job.source, calls(c)) else w, job, applied, saved, true, calls, c + 2);
  }

  lemma FailPolicyRecords(w: World, job: Job, applied: nat, saved: nat, main: bool, calls: Calls, c: nat)
    requires applied <= |job.ids| && Reachable(w, job, |job.ids|, saved, true)
    ensures var end := FailPolicy(w, job, applied, saved, main, calls, c);
            end.1 == Error("mixed_policy_apply_failed") ==> forall i :: 0 <= i < |job.ids| ==> RestoredAt(w, end.0, job, saved, i)
  {
    var mained := if main then SetMain(w, job.source, calls(c)) else w;
    Compensated(mained, job, applied, saved, true, calls, c + 2);
    var back := Compensation(mained, job, applied, saved, true, calls, c + 2);
    SameRestored(w, mained, back.world, job, saved);
    if back.ok {
      var now := FailPolicy(w, job, applied, saved, main, calls, c).0;
      forall i | 0 <= i < |job.ids| ensures RestoredAt(w, now, job, saved, i) {
        assert RestoredAt(w, back.world, job, saved, i) && now.records == back.world.records;
      }
    }
  }

  lemma FailPolicyMeans(w: World, job: Job, applied: nat, saved: nat, main: bool, late: bool, calls: Calls, c: nat)
    requires Reachable(w, job, if late then applied + 1 else applied, saved, main)
    requires late ==> w.panel[job.ids[applied]] == job.target
    ensures var end := FailPolicy(w, job, applied, saved, main, calls, c);
            && PolicyFailed(end, job, if late then Some(applied) else None)
            && (end.1 == Error("mixed_policy_apply_failed") ==> forall i :: 0 <= i < |job.ids| ==> RestoredAt(w, end.0, job, saved, i))
  {
    FailPolicyInbounds(w, job, applied, saved, main, late, calls, c);
    FailPolicyRecords(w, job, applied, saved, main, calls, c);
  }

  /** How the later parts of the saga may end: `late` says whether a record was saved by a
      call that was reported as failed. */
  predicate PolicyEnds(end: (World, Outcome), job: Job, late: bool) {
    || (end.1 == Okay && AllNew(end.0, job) && end.0.status == Applied)
    || (PolicyFailed(end, job, None) && (end.1 == Error("mixed_policy_apply_failed") ==> (RecordsOld(end.0, job) <==> !late)))
  }

  /** The compensation of saves that stopped early. */
  lemma SaveFailureEnds(w: World, job: Job, saved: nat, late: bool, calls: Calls, c: nat)
    requires Reachable(w, job, |job.ids|, saved, job.hasMain) && (late ==> saved < |job.ids|)
    requires forall i :: 0 <= i < |job.ids| ==>
               w.records[job.ids[i]] ==
               if i < saved || (i == saved && late) then Record(job.answer(job.ids[i]), job.listed[job.ids[i]].version + 1) else job.listed[job.ids[i]]
    ensures PolicyEnds(FailPolicy(w, job, |job.ids|, saved, job.hasMain, calls, c), job,
                       late && job.answer(job.ids[saved]) != job.listed[job.ids[saved]].fields)
  {
    FailPolicyMeans(w, job, |job.ids|, saved, job.hasMain, false, calls, c);
    var (now, out) := FailPolicy(w, job, |job.ids|, saved, job.hasMain, calls, c);
    if out == Error("mixed_policy_apply_failed") {
      forall i | 0 <= i < |job.ids|
        ensures job.ids[i] in now.records
        ensures now.records[job.ids[i]].fields == if i == saved && late then job.answer(job.ids[i]) else job.listed[job.ids[i]].fields
      {
        assert RestoredAt(w, now, job, saved, i);
      }
    }
  }

  lemma StorePolicyEnds(w: World, job: Job, calls: Calls, c: nat)
    requires Reachable(w, job, |job.ids|, 0, job.hasMain) && (job.hasMain ==> w.main == job.target)
    requires forall i :: 0 <= i < |job.ids| ==> w.panel[job.ids[i]] == job.target && w.records[job.ids[i]] == job.listed[job.ids[i]]
    ensures PolicyEnds(StorePolicy(w, job, calls, c), job, LateRecord(w, job, calls, c))
  {
    SavesAreReachable(w, job, calls, c);
    SaveCounts(w, job.ids, job, calls, c);
    var s := SaveGroups(w, job.ids, job, calls, c);
    assert Reachable(s.world, job, |job.ids|, s.applied, job.hasMain);
    if !s.ok {
      SaveFailureEnds(s.world, job, s.applied, s.late, calls, s.clock);
    } else {
      LastSaveEnds(s.world, job, calls, s.clock);
    }
  }

  lemma LastSaveEnds(w: World, job: Job, calls: Calls, c: nat)
    requires Reachable(w, job, |job.ids|, |job.ids|, job.hasMain) && (job.hasMain ==> w.main == job.target)
    requires forall i :: 0 <= i < |job.ids| ==>
               w.panel[job.ids[i]] == job.target && w.records[job.ids[i]] == Record(job.answer(job.ids[i]), job.listed[job.ids[i]].version + 1)
    ensures var stored := StoreSetting(w, job.target, Applied, calls(c));
            if calls(c).Done? then AllNew(stored, job) && stored.status == Applied
            else PolicyEnds(FailPolicy(stored, job, |job.ids|, |job.ids|, job.hasMain, calls, c + 1), job, false)
  {
    var stored := StoreSetting(w, job.target, Applied, calls(c));
    if !calls(c).Done? {
      assert Reachable(stored, job, |job.ids|, |job.ids|, job.hasMain);
      SaveFailureEnds(stored, job, |job.ids|, false, calls, c + 1);
    }
  }

  /** The saga got as far as such a save. */
  predicate LateMainRecord(w: World, job: Job, calls: Calls, c: nat)
    requires forall i :: 0 <= i < |job.ids| ==> job.ids[i] in job.listed
  {
    (job.hasMain ==> calls(c).Done? && calls(c + 1).Done?)
    && LateRecord(if job.hasMain then SetMain(w, job.target, calls(c)) else w, job, calls, c + 2)
  }

  predicate LatePolicyRecord(w: World, job: Job, calls: Calls, c: nat)
    requires forall i :: 0 <= i < |job.ids| ==> job.ids[i] in job.listed
  {
    var f := UpdateGroups(StoreSetting(w, job.target, Applying, calls(c)), job.ids, job.target, true, calls, c + 1);
    calls(c).Done? && f.ok && LateMainRecord(f.world, job, calls, f.clock)
  }

  lemma MainPolicyEnds(w: World, job: Job, calls: Calls, c: nat)
    requires Reachable(w, job, |job.ids|, 0, false)
    requires forall i :: 0 <= i < |job.ids| ==> w.panel[job.ids[i]] == job.target && w.records[job.ids[i]] == job.listed[job.ids[i]]
    ensures PolicyEnds(MainPolicy(w, job, calls, c), job, LateMainRecord(w, job, calls, c))
  {
    var mained := if job.hasMain then SetMain(w, job.target, calls(c)) else w;
    assert Reachable(mained, job, |job.ids|, 0, job.hasMain);
    if job.hasMain && !(calls(c).Done? && calls(c + 1).Done?) {
      SaveFailureEnds(mained, job, 0, false, calls, c + 2);
    } else {
      StorePolicyEnds(mained, job, calls, c + 2);
    }
  }

  /** The forward loop failed: no record was touched yet. */
  lemma GroupFailureEnds(w: World, job: Job, applied: nat, late: bool, calls: Calls, c: nat)
    requires Reachable(w, job, if late then applied + 1 else applied, 0, false) && job.source != job.target
    requires late ==> w.panel[job.ids[applied]] == job.target
    requires forall i :: 0 <= i < |job.ids| ==> w.records[job.ids[i]] == job.listed[job.ids[i]]
    ensures var (now, out) := FailPolicy(w, job, applied, 0, false, calls, c);
            && PolicyFailed((now, out), job, if late then Some(applied) else None)
            && (out == Error("mixed_policy_apply_failed") ==> (InboundsOld(now, job) <==> !late) && RecordsOld(now, job))
  {
    FailPolicyMeans(w, job, applied, 0, false, late, calls, c);
    var (now, out) := FailPolicy(w, job, applied, 0, false, calls, c);
    StuckOrNot((now, out), job, if late then Some(applied) else None);
    if out == Error("mixed_policy_apply_failed") {
      forall i | 0 <= i < |job.ids|
        ensures job.ids[i] in now.records && now.records[job.ids[i]] == job.listed[job.ids[i]]
      {
        assert RestoredAt(w, now, job, 0, i);
      }
    }
  }

  /** A policy change succeeds only with every inbound and the policy row new. When it
      reports that the policy was not applied, the row and the main inbound are old; all
      groups are old exactly if no group update that was reported as failed had taken
      effect, and all records exactly if no save that was reported as failed had. If the very
      first write is reported as failed nothing else was touched, and the row is old exactly
      if the write had no effect. Anything else asks for repair. */
  lemma PolicyIsAtomicUnlessLate(w: World, job: Job, calls: Calls, c: nat)
    requires Fits(w, job) && job.source != job.target
    ensures var (now, out) := SetPolicy(w, job, calls, c);
            && (out == Okay || out == Error("mixed_policy_apply_failed") || out == Error("repair_required") || out == Error("storage_failed"))
            && (out == Okay ==> AllNew(now, job) && now.status == Applied)
            && (out == Error("storage_failed") ==>
                  && InboundsOld(now, job) && RecordsOld(now, job)
                  && (now.stored == job.source <==> !calls(c).Late?)
                  && (calls(c).Late? ==> now.stored == job.target && now.status == Applying))
            && (out == Error("mixed_policy_apply_failed") ==>
                  && now.stored == job.source && now.status == Failed && now.main == job.source
                  && (InboundsOld(now, job) <==> !LateUpdate(w, job, calls, c))
                  && (RecordsOld(now, job) <==> !LatePolicyRecord(w, job, calls, c)))
  {
    var begun := StoreSetting(w, job.target, Applying, calls(c));
    if calls(c).Done? {
      var f := UpdateGroups(begun, job.ids, job.target, true, calls, c + 1);
      ForwardIsReachable(begun, job, true, calls, c + 1);
      if f.ok {
        MainPolicyEnds(f.world, job, calls, f.clock);
      } else {
        GroupFailureEnds(f.world, job, f.applied, f.late, calls, f.clock);
      }
    }
  }

  lemma StuckOrNot(end: (World, Outcome), job: Job, stuck: Option<nat>)
    requires PolicyFailed(end, job, stuck) && job.source != job.target && (stuck.Some? ==> stuck.value < |job.ids|)
    ensures end.1 == Error("mixed_policy_apply_failed") ==> (InboundsOld(end.0, job) <==> stuck.None?)
  {
    if stuck.Some? && end.1 == Error("mixed_policy_apply_failed") {
      assert end.0.panel[job.ids[stuck.value]] == job.target;
    }
  }

  // ---------------------------------------------------- where atomicity fails

  /** Everything is done, but call `k` is reported as failed after it took effect. */
  function LateAt(k: nat): Calls {
    n => if n == k then Late else Done
  }

  /** One group and no main inbound. */
  function OneGroup(id: string, source: string, target: string, before: Fields, after: Fields): Job {
    Job([id], map[id := Record(before, 1)], source, target, false, _ => after)
  }

  function Begun(id: string, source: string, before: Fields): World {
    World(map[id := source], source, map[id := Record(before, 1)], source, Applied)
  }

  /** A policy change that is reported as not applied and leaves the group new: its update
      was reported as failed after it took effect. */
  lemma LateUpdateOccurs(id: string, source: string, target: string, before: Fields, after: Fields)
    requires source != target
    ensures var (w, job) := (Begun(id, source, before), OneGroup(id, source, target, before, after));
            var (now, out) := SetPolicy(w, job, LateAt(1), 0);
            Fits(w, job) && out == Error("mixed_policy_apply_failed") && now.panel == map[id := target]
  {
    var w, job := Begun(id, source, before), OneGroup(id, source, target, before, after);
    var begun := StoreSetting(w, target, Applying, LateAt(1)(0));
    assert job.ids[..0] == [];
    assert UpdateGroups(begun, job.ids[..0], target, true, LateAt(1), 1) == Forward(begun, 1, 0, true, false);
    assert UpdateGroups(begun, job.ids, target, true, LateAt(1), 1) == Forward(begun.(panel := map[id := target]), 2, 0, false, true);
  }

  /** ... and one that leaves the record of the group new: it was the save. */
  lemma LateRecordOccurs(id: string, source: string, target: string, before: Fields, after: Fields)
    requires source != target && before != after
    ensures var (w, job) := (Begun(id, source, before), OneGroup(id, source, target, before, after));
            var (now, out) := SetPolicy(w, job, LateAt(5), 0);
            && Fits(w, job) && out == Error("mixed_policy_apply_failed") && InboundsOld(now, job)
            && now.records == map[id := Record(after, 2)]
  {
    var w, job := Begun(id, source, before), OneGroup(id, source, target, before, after);
    var begun := StoreSetting(w, target, Applying, LateAt(5)(0));
    assert job.ids[..0] == [] && job.ids[..1] == job.ids;
    assert UpdateGroups(begun, job.ids[..0], target, true, LateAt(5), 1) == Forward(begun, 1, 0, true, false);
    var updated := begun.(panel := map[id := target]);
    assert UpdateGroups(begun, job.ids, target, true, LateAt(5), 1) == Forward(updated, 3, 1, true, false);
    OneSaveIsLate(updated, id, source, target, before, after, 5);
    var saved := updated.(records := map[id := Record(after, 2)]);
    OneGroupReverts(saved, job, true, LateAt(5), 8);
  }

  /** A rotation that is reported as not applied and leaves the record of the group new. */
  lemma LateRotationRecordOccurs(id: string, source: string, target: string, before: Fields, after: Fields)
    requires source != target && before != after
    ensures var (w, job) := (Begun(id, source, before), OneGroup(id, source, target, before, after));
            var (now, out) := Rotate(w, job, LateAt(4), 0);
            && Fits(w, job) && out == Error("mixed_credentials_apply_failed") && InboundsOld(now, job)
            && now.records == map[id := Record(after, 2)]
  {
    var w, job := Begun(id, source, before), OneGroup(id, source, target, before, after);
    assert job.ids[..0] == [] && job.ids[..1] == job.ids;
    assert UpdateGroups(w, job.ids[..0], target, false, LateAt(4), 0) == Forward(w, 0, 0, true, false);
    var updated := w.(panel := map[id := target]);
    assert UpdateGroups(w, job.ids, target, false, LateAt(4), 0) == Forward(updated, 2, 1, true, false);
    OneSaveIsLate(updated, id, source, target, before, after, 4);
    OneGroupReverts(updated.(records := map[id := Record(after, 2)]), job, false, LateAt(4), 6);
  }

  /** ... and one that leaves the stored pair new, with the old one in force. */
  lemma LatePairOccurs(id: string, source: string, target: string, before: Fields, after: Fields)
    requires source != target
    ensures var (w, job) := (Begun(id, source, before), OneGroup(id, source, target, before, after));
            var (now, out) := Rotate(w, job, LateAt(5), 0);
            Fits(w, job) && out == Error("mixed_credentials_apply_failed") && InboundsOld(now, job) && now.stored == target
  {
    var w, job := Begun(id, source, before), OneGroup(id, source, target, before, after);
    assert job.ids[..0] == [] && job.ids[..1] == job.ids;
    assert UpdateGroups(w, job.ids[..0], target, false, LateAt(5), 0) == Forward(w, 0, 0, true, false);
    var updated := w.(panel := map[id := target]);
    assert UpdateGroups(w, job.ids, target, false, LateAt(5), 0) == Forward(updated, 2, 1, true, false);
    assert SaveGroups(updated, job.ids[..0], job, LateAt(5), 4) == Forward(updated, 4, 0, true, false);
    var saved := updated.(records := map[id := Record(after, 2)]);
    assert SaveGroups(updated, job.ids, job, LateAt(5), 4) == Forward(saved, 5, 1, true, false);
    var stored := saved.(stored := target);
    OneGroupReverts(stored, job, false, LateAt(5), 7);
    var panel := stored.(panel := map[id := source]);
    RecordsRestored(panel, job, 1, LateAt(5), 9);
    RestoreFailsOnlyByCalls(panel, job.ids, job, LateAt(5), 9);
  }

  lemma OneSaveIsLate(w: World, id: string, source: string, target: string, before: Fields, after: Fields, c: nat)
    requires w.records == map[id := Record(before, 1)] && before != after
    ensures var job := OneGroup(id, source, target, before, after);
            SaveGroups(w, job.ids, job, LateAt(c), c) == Forward(w.(records := map[id := Record(after, 2)]), c + 1, 0, false, true)
  {
    var job := OneGroup(id, source, target, before, after);
    assert job.ids[..0] == [];
    assert SaveGroups(w, job.ids[..0], job, LateAt(c), c) == Forward(w, c, 0, true, false);
    assert (w.records)[id := Record(after, 2)] == map[id := Record(after, 2)];
  }

  lemma OneGroupReverts(w: World, job: Job, validates: bool, calls: Calls, c: nat)
    requires |job.ids| == 1 && w.panel.Keys == {job.ids[0]} && calls(c).Done? && calls(c + 1).Done?
    ensures RevertGroups(w, job.ids, job.source, validates, calls, c) == Ret(w.(panel := map[job.ids[0] := job.source]), c + 2, true)
  {
    assert w.panel[job.ids[0] := job.source] == map[job.ids[0] := job.source];
    assert job.ids[..0] == [];
  }

  // ------------------------------------------------------------ the program

  lemma {:induction false} UpdateStops(w: World, ids: seq<string>, n: nat, setting: string, validates: bool, calls: Calls, c: nat)
    requires n <= |ids| && !UpdateGroups(w, ids[..n], setting, validates, calls, c).ok
    ensures UpdateGroups(w, ids, setting, validates, calls, c) == UpdateGroups(w, ids[..n], setting, validates, calls, c)
    decreases |ids|
  {
    if n < |ids| {
      assert ids[..|ids| - 1][..n] == ids[..n];
      UpdateStops(w, ids[..|ids| - 1], n, setting, validates, calls, c);
    } else {
      assert ids[..n] == ids;
    }
  }

  lemma {:induction false} SaveStops(w: World, ids: seq<string>, n: nat, job: Job, calls: Calls, c: nat)
    requires forall i :: 0 <= i < |ids| ==> ids[i] in job.listed
    requires n <= |ids| && !SaveGroups(w, ids[..n], job, calls, c).ok
    ensures SaveGroups(w, ids, job, calls, c) == SaveGroups(w, ids[..n], job, calls, c)
    decreases |ids|
  {
    if n < |ids| {
      assert ids[..|ids| - 1][..n] == ids[..n];
      SaveStops(w, ids[..|ids| - 1], n, job, calls, c);
    } else {
      assert ids[..n] == ids;
    }
  }

  class Orchestrator {
    var world: World
    var clock: nat
    const calls: Calls

    constructor (world: World, calls: Calls)
      ensures this.world == world && clock == 0 && this.calls == calls
    {
      this.world := world;
      this.clock := 0;
      this.calls := calls;
    }

    /** One group: the update, and the validation if there is one. */
    method ApplyToGroup(id: string, setting: string, validates: bool) returns (counts: nat, ok: bool, late: bool)
      modifies this
      ensures Forward(world, clock, counts, ok, late) == UpdateGroup(old(world), id, setting, validates, calls, old(clock))
    {
      var call := calls(clock);
      world := SetGroup(world, id, setting, call);
      clock := clock + 1;
      if !call.Done? {
        return 0, false, call.Late?;
      }
      ok := !validates || calls(clock).Done?;
      clock := clock + 1;
      counts, late := 1, false;
    }

    /** The forward loop, with the number of updates it may have to take back. */
    method ApplyToGroups(ids: seq<string>, setting: string, validates: bool) returns (applied: nat, ok: bool, late: bool)
      modifies this
      ensures Forward(world, clock, applied, ok, late) == UpdateGroups(old(world), ids, setting, validates, calls, old(clock))
    {
      applied, ok, late := 0, true, false;
      for i := 0 to |ids|
        invariant ok && Forward(world, clock, applied, ok, late) == UpdateGroups(old(world), ids[..i], setting, validates, calls, old(clock))
      {
        assert ids[..i + 1][..i] == ids[..i];
        var counts;
        counts, ok, late := ApplyToGroup(ids[i], setting, validates);
        applied := applied + counts;
        if !ok {
          UpdateStops(old(world), ids, i + 1, setting, validates, calls, old(clock));
          return;
        }
      }
      assert ids[..|ids|] == ids;
    }

    /** The compensation loop, from the last group back to the first. */
    method RevertAllGroups(ids: seq<string>, setting: string, validates: bool) returns (ok: bool)
      modifies this
      ensures Ret(world, clock, ok) == RevertGroups(old(world), ids, setting, validates, calls, old(clock))
    {
      ok := true;
      var index := |ids|;
      assert ids[..|ids|] == ids;
      while index > 0
        invariant 0 <= index <= |ids|
        invariant var r := RevertGroups(world, ids[..index], setting, validates, calls, clock);
                  Ret(r.world, r.clock, ok && r.ok) == RevertGroups(old(world), ids, setting, validates, calls, old(clock))
      {
        index := index - 1;
        assert ids[..index + 1][..index] == ids[..index];
        var call := calls(clock);
        world := SetGroup(world, ids[index], setting, call);
        if !(call.Done? && (!validates || calls(clock + 1).Done?)) {
          ok := false;
        }
        clock := clock + 2;
      }
    }

    /** The loop that saves the records. */
    method SaveRecords(ids: seq<string>, job: Job) returns (saved: nat, ok: bool, late: bool)
      requires forall i :: 0 <= i < |ids| ==> ids[i] in job.listed
      modifies this
      ensures Forward(world, clock, saved, ok, late) == SaveGroups(old(world), ids, job, calls, old(clock))
    {
      saved, ok, late := 0, true, false;
      for i := 0 to |ids|
        invariant ok && Forward(world, clock, saved, ok, late) == SaveGroups(old(world), ids[..i], job, calls, old(clock))
      {
        assert ids[..i + 1][..i] == ids[..i];
        var call, before := calls(clock), world;
        var expected := job.listed[ids[i]].version;
        ok := SaveOk(world, ids[i], expected, call);
        world := Save(world, ids[i], job.answer(ids[i]), expected, call);
        clock := clock + 1;
        if !ok {
          late := world != before;
          SaveStops(old(world), ids, i + 1, job, calls, old(clock));
          return;
        }
        saved := saved + 1;
      }
      assert ids[..|ids|] == ids;
    }

    /** The loop that restores the saved records, last first. */
    method RestoreRecords(ids: seq<string>, job: Job) returns (ok: bool)
      requires forall i :: 0 <= i < |ids| ==> ids[i] in job.listed
      modifies this
      ensures Ret(world, clock, ok) == RevertRecords(old(world), ids, job, calls, old(clock))
    {
      ok := true;
      var index := |ids|;
      assert ids[..|ids|] == ids;
      while index > 0
        invariant 0 <= index <= |ids|
        invariant var r := RevertRecords(world, ids[..index], job, calls, clock);
                  Ret(r.world, r.clock, ok && r.ok) == RevertRecords(old(world), ids, job, calls, old(clock))
      {
        index := index - 1;
        assert ids[..index + 1][..index] == ids[..index];
        var expected := job.listed[ids[index]].version + 1;
        if !SaveOk(world, ids[index], expected, calls(clock)) {
          ok := false;
        }
        world := Save(world, ids[index], job.listed[ids[index]].fields, expected, calls(clock));
        clock := clock + 1;
      }
    }

    /** The two compensation loops. */
    method Compensate(job: Job, applied: nat, saved: nat, validates: bool) returns (ok: bool)
      requires saved <= |job.ids| && applied <= |job.ids| && (forall i :: 0 <= i < |job.ids| ==> job.ids[i] in job.listed)
      modifies this
      ensures Ret(world, clock, ok) == Compensation(old(world), job, applied, saved, validates, calls, old(clock))
    {
      var panelOk := RevertAllGroups(job.ids[..applied], job.source, validates);
      var recordsOk := RestoreRecords(job.ids[..saved], job);
      ok := panelOk && recordsOk;
    }

    method RollbackMixedCredentialRotation(job: Job, applied: nat, saved: nat, main: bool) returns (out: Outcome)
      requires saved <= |job.ids| && applied <= |job.ids| && (forall i :: 0 <= i < |job.ids| ==> job.ids[i] in job.listed)
      modifies this
      ensures (world, out) == RollbackRotation(old(world), job, applied, saved, main, calls, old(clock))
    {
      var failed := false;
      if main {
        failed := !calls(clock).Done?;
        world := SetMain(world, job.source, calls(clock));
      }
      clock := clock + 1;
      var ok := Compensate(job, applied, saved, false);
      out := Error(if failed || !ok then "repair_required" else "mixed_credentials_apply_failed");
    }

    method StoreNewCredentials(job: Job) returns (out: Outcome)
      requires forall i :: 0 <= i < |job.ids| ==> job.ids[i] in job.listed
      modifies this
      ensures (world, out) == StoreRotation(old(world), job, calls, old(clock))
    {
      SaveCounts(world, job.ids, job, calls, clock);
      var saved, ok, late := SaveRecords(job.ids, job);
      if !ok {
        out := RollbackMixedCredentialRotation(job, |job.ids|, saved, job.hasMain);
        return;
      }
      out := StoreNewPair(job);
    }

    method StoreNewPair(job: Job) returns (out: Outcome)
      requires forall i :: 0 <= i < |job.ids| ==> job.ids[i] in job.listed
      modifies this
      ensures (world, out) == StorePair(old(world), job, calls, old(clock))
    {
      var call := calls(clock);
      world := StoreSetting(world, job.target, world.status, call);
      if call.Done? { return Okay; }
      clock := clock + 1;
      out := RollbackMixedCredentialRotation(job, |job.ids|, |job.ids|, job.hasMain);
    }

    method SetMainCredentials(job: Job) returns (out: Outcome)
      requires forall i :: 0 <= i < |job.ids| ==> job.ids[i] in job.listed
      modifies this
      ensures (world, out) == MainRotation(old(world), job, calls, old(clock))
    {
      if job.hasMain {
        var call := calls(clock);
        world := SetMain(world, job.target, call);
        if !call.Done? {
          clock := clock + 1;
          out := RollbackMixedCredentialRotation(job, |job.ids|, 0, true);
          return;
        }
      }
      clock := clock + 1;
      out := ValidateCredentials(job);
    }

    method ValidateCredentials(job: Job) returns (out: Outcome)
      requires forall i :: 0 <= i < |job.ids| ==> job.ids[i] in job.listed
      modifies this
      ensures (world, out) == CheckRotation(old(world), job, calls, old(clock))
    {
      clock := clock + 1;
      if !calls(clock - 1).Done? {
        out := RollbackMixedCredentialRotation(job, |job.ids|, 0, job.hasMain);
        return;
      }
      out := StoreNewCredentials(job);
    }

    /** `RotateMixedCredentials`: what it leaves behind is the function Rotate. */
    method RotateMixedCredentials(job: Job) returns (out: Outcome)
      requires forall i :: 0 <= i < |job.ids| ==> job.ids[i] in job.listed
      modifies this
      ensures (world, out) == Rotate(old(world), job, calls, old(clock))
    {
      UpdateCounts(world, job.ids, job.target, false, calls, clock);
      var applied, ok, late := ApplyToGroups(job.ids, job.target, false);
      if !ok {
        out := RollbackMixedCredentialRotation(job, applied + 1, 0, false);
        return;
      }
      out := SetMainCredentials(job);
    }

    method FailMixedPolicyUpdate(job: Job, applied: nat, saved: nat, main: bool) returns (out: Outcome)
      requires saved <= |job.ids| && applied <= |job.ids| && (forall i :: 0 <= i < |job.ids| ==> job.ids[i] in job.listed)
      modifies this
      ensures (world, out) == FailPolicy(old(world), job, applied, saved, main, calls, old(clock))
    {
      var failed := false;
      if main {
        failed := !(calls(clock).Done? && calls(clock + 1).Done?);
        world := SetMain(world, job.source, calls(clock));
      }
      clock := clock + 2;
      var ok := Compensate(job, applied, saved, true);
      if failed || !ok {
        world := StoreSetting(world, job.target, RepairRequired, calls(clock));
        return Error("repair_required");
      }
      world := StoreSetting(world, job.source, Failed, calls(clock));
      out := Error(if calls(clock).Done? then "mixed_policy_apply_failed" else "repair_required");
    }

    method StoreNewPolicy(job: Job) returns (out: Outcome)
      requires forall i :: 0 <= i < |job.ids| ==> job.ids[i] in job.listed
      modifies this
      ensures (world, out) == StorePolicy(old(world), job, calls, old(clock))
    {
      SaveCounts(world, job.ids, job, calls, clock);
      var saved, ok, late := SaveRecords(job.ids, job);
      if !ok {
        out := FailMixedPolicyUpdate(job, |job.ids|, saved, job.hasMain);
        return;
      }
      var call := calls(clock);
      world := StoreSetting(world, job.target, Applied, call);
      if call.Done? { return Okay; }
      clock := clock + 1;
      out := FailMixedPolicyUpdate(job, |job.ids|, |job.ids|, job.hasMain);
    }

    method SetMainPolicy(job: Job) returns (out: Outcome)
      requires forall i :: 0 <= i < |job.ids| ==> job.ids[i] in job.listed
      modifies this
      ensures (world, out) == MainPolicy(old(world), job, calls, old(clock))
    {
      if job.hasMain {
        var call := calls(clock);
        world := SetMain(world, job.target, call);
        if !(call.Done? && calls(clock + 1).Done?) {
          clock := clock + 2;
          out := FailMixedPolicyUpdate(job, |job.ids|, 0, true);
          return;
        }
      }
      clock := clock + 2;
      out := StoreNewPolicy(job);
    }

    /** `setMixedPolicy`: what it leaves behind is the function SetPolicy. */
    method SetMixedPolicy(job: Job) returns (out: Outcome)
      requires forall i :: 0 <= i < |job.ids| ==> job.ids[i] in job.listed
      modifies this
      ensures (world, out) == SetPolicy(old(world), job, calls, old(clock))
    {
      var call := calls(clock);
      world := StoreSetting(world, job.target, Applying, call);
      clock := clock + 1;
      if !call.Done? { return Error("storage_failed"); }
      UpdateCounts(world, job.ids, job.target, true, calls, clock);
      var applied, ok, late := ApplyToGroups(job.ids, job.target, true);
      if !ok {
        out := FailMixedPolicyUpdate(job, applied, 0, false);
        return;
      }
      out := SetMainPolicy(job);
    }
  }
}
