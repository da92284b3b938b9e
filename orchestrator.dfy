/** The orchestrator's bookkeeping around a delta-apply container: the command line, the deltafile
    handed to the container, the rows marked before it runs, the rows updated from its feedback
    afterwards, and the job's final status. Docker, the file system and the clock are outside the
    model: what the container returns and what its feedback file holds are parameters. */
module Orchestrator {
  import opened Wrappers
  import opened Text
  import opened CoreModels

  // The fixed strings this part of the code writes into command lines, feedback and errors.
  const DeltaApplyPrefix := "python3 entrypoint.py delta_apply "
  const OrchestratorOrigin := "orchestrator"
  const ContainerOrigin := "container"
  const MissingStepsError := "KeyError: 'steps'"
  const FeedbackUnreadable := "feedback.json could not be read"
  const UndecodableLogs := "UnicodeDecodeError: the container logs are not valid utf-8"

  // ---------------------------------------------------------------- status mapping and command

  /** `after_docker`'s reading of a feedback entry's `status`. */
  function FeedbackStatus(status: string): (r: DeltaStatus)
    ensures r == Applied || r == Conflict || r == NotApplied || r == Error
    ensures r == Applied <==> status == "status_applied"
    ensures r == Conflict <==> status == "status_conflict"
    ensures r == NotApplied <==> status == "status_apply_failed"
  {
    if status == "status_applied" then Applied
    else if status == "status_conflict" then Conflict
    else if status == "status_apply_failed" then NotApplied
    else Error
  }

  /** `"%s" % value`: a missing value is rendered as `None`. */
  function Render(s: Option<string>): string
  {
    if s.Some? then s.value else "None"
  }

  /** `DeltaApplyJobRun.get_command`: the entrypoint call with the project id and project file,
      and `--overwrite-conflicts` when the job asks for it. */
  function DeltaApplyCommand(projectId: ProjectId, projectFilename: Option<string>, overwriteConflicts: bool): (r: string)
    ensures StartsWith(r, DeltaApplyPrefix + projectId + " " + Render(projectFilename))
  {
    var base := "python3 entrypoint.py " + "delta_apply " + projectId + " " + Render(projectFilename);
    var r := base + (if overwriteConflicts then " --overwrite-conflicts" else "");
    assert r[..|base|] == base;
    r
  }

  /** The flag only appends its switch: the rest of the command is the same either way. */
  lemma OverwriteFlagAppendsSwitch(projectId: ProjectId, projectFilename: Option<string>)
    ensures DeltaApplyCommand(projectId, projectFilename, true)
      == DeltaApplyCommand(projectId, projectFilename, false) + " --overwrite-conflicts"
    ensures DeltaApplyCommand(projectId, projectFilename, false)
      == DeltaApplyPrefix + projectId + " " + Render(projectFilename)
  {
  }

  // ---------------------------------------------------------------- _prepare_deltas

  /** The JSON written to `deltafile.json` (its random `id` is left out). */
  datatype Deltafile = Deltafile(deltas: seq<DeltaContent>, files: seq<string>, project: ProjectId,
                                 version: string, clientPks: map<string, string>)

  /** The deltas' contents, in order. */
  function Contents(deltas: seq<Delta>): (r: seq<DeltaContent>)
    ensures |r| == |deltas|
    ensures forall i :: 0 <= i < |deltas| ==> r[i] == deltas[i].content
  {
    if deltas == [] then [] else Contents(deltas[..|deltas| - 1]) + [deltas[|deltas| - 1].content]
  }

  /** The `clientId`s of the deltas whose content has one, in order. */
  function ClientIds(deltas: seq<Delta>): (r: seq<string>)
    ensures forall c :: c in r <==> exists d :: d in deltas && d.content.clientId == Some(c)
  {
    if deltas == [] then []
    else
      var d := deltas[|deltas| - 1];
      var rest := ClientIds(deltas[..|deltas| - 1]);
      assert forall e :: e in deltas <==> e in deltas[..|deltas| - 1] || e == d;
      rest + (if d.content.clientId.Some? then [d.content.clientId.value] else [])
  }

  /** A row of `Delta.objects.filter(content__clientId__in=ids, last_modified_pk__isnull=False)`. */
  predicate GivesClientPk(d: Delta, ids: seq<string>)
  {
    d.content.clientId.Some? && d.content.clientId.value in ids && d.lastModifiedPk.Some?
  }

  /** `f"{clientId}__{localPk}"`. */
  function ClientPkKey(d: Delta): string
  {
    Render(d.content.clientId) + "__" + Render(d.content.localPk)
  }

  /** `client_pks_map` after reading the rows in table order: a later row overwrites an earlier
      one with the same key. */
  function ClientPks(table: seq<Delta>, ids: seq<string>): map<string, string>
  {
    if table == [] then map[]
    else
      var d := table[|table| - 1];
      var m := ClientPks(table[..|table| - 1], ids);
      if GivesClientPk(d, ids) then m[ClientPkKey(d) := d.lastModifiedPk.value] else m
  }

  /** Some qualifying row of `table` produces `key`. */
  ghost predicate ProducesKey(table: seq<Delta>, ids: seq<string>, key: string)
  {
    exists i :: 0 <= i < |table| && GivesClientPk(table[i], ids) && ClientPkKey(table[i]) == key
  }

  /** A key is in the map exactly when some qualifying row produces it. */
  lemma {:induction false} ClientPksKeys(table: seq<Delta>, ids: seq<string>, key: string)
    ensures key in ClientPks(table, ids) <==> ProducesKey(table, ids, key)
  {
    if table != [] {
      var n := |table| - 1;
      ClientPksKeys(table[..n], ids, key);
      ProducesKeyLast(table, ids, key);
    }
  }

  /** A row produces `key` either among all rows but the last, or as the last one. */
  lemma ProducesKeyLast(table: seq<Delta>, ids: seq<string>, key: string)
    requires table != []
    ensures ProducesKey(table, ids, key) <==>
      ProducesKey(table[..|table| - 1], ids, key) || (GivesClientPk(table[|table| - 1], ids) && ClientPkKey(table[|table| - 1]) == key)
  {
    var n := |table| - 1;
    var front := table[..n];
    if ProducesKey(table, ids, key) {
      var i :| 0 <= i < |table| && GivesClientPk(table[i], ids) && ClientPkKey(table[i]) == key;
      if i < n {
        assert front[i] == table[i];
        assert ProducesKey(front, ids, key);
      }
    }
    if ProducesKey(front, ids, key) {
      var i :| 0 <= i < n && GivesClientPk(front[i], ids) && ClientPkKey(front[i]) == key;
      assert table[i] == front[i];
    }
  }

  /** The value under a key is the `last_modified_pk` of the last qualifying row with that key. */
  lemma {:induction false} ClientPksLastWins(table: seq<Delta>, ids: seq<string>, i: nat)
    requires i < |table| && GivesClientPk(table[i], ids)
    requires forall j :: i < j < |table| && GivesClientPk(table[j], ids) ==> ClientPkKey(table[j]) != ClientPkKey(table[i])
    ensures ClientPkKey(table[i]) in ClientPks(table, ids)
    ensures ClientPks(table, ids)[ClientPkKey(table[i])] == table[i].lastModifiedPk.value
  {
    var n := |table| - 1;
    if i < n {
      assert table[..n][i] == table[i];
      forall j | i < j < n && GivesClientPk(table[..n][j], ids)
        ensures ClientPkKey(table[..n][j]) != ClientPkKey(table[..n][i])
      {
        assert table[..n][j] == table[j];
      }
      ClientPksLastWins(table[..n], ids, i);
    }
  }

  /** What `_prepare_deltas` returns for the deltas to apply, reading the delta table. */
  function DeltafileFor(deltas: seq<Delta>, table: seq<Delta>, projectId: ProjectId): Deltafile
  {
    Deltafile(Contents(deltas), [], projectId, "1.0", ClientPks(table, ClientIds(deltas)))
  }

  /** `DeltaApplyJobRun._prepare_deltas`: two loops collect the contents and client ids, a third
      fills the client primary-key map. */
  method PrepareDeltas(deltas: seq<Delta>, table: seq<Delta>, projectId: ProjectId) returns (d: Deltafile)
    ensures d.deltas == Contents(deltas)
    ensures d.clientPks == ClientPks(table, ClientIds(deltas))
    ensures d.files == [] && d.version == "1.0" && d.project == projectId
  {
    var contents: seq<DeltaContent> := [];
    var clientIds: seq<string> := [];
    var i := 0;
    while i < |deltas|
      invariant 0 <= i <= |deltas|
      invariant contents == Contents(deltas[..i])
      invariant clientIds == ClientIds(deltas[..i])
    {
      assert deltas[..i + 1][..i] == deltas[..i];
      contents := contents + [deltas[i].content];
      if deltas[i].content.clientId.Some? {
        clientIds := clientIds + [deltas[i].content.clientId.value];
      }
      i := i + 1;
    }
    assert deltas[..i] == deltas;
    var clientPks: map<string, string> := map[];
    var k := 0;
    while k < |table|
      invariant 0 <= k <= |table|
      invariant clientPks == ClientPks(table[..k], clientIds)
    {
      assert table[..k + 1][..k] == table[..k];
      var row := table[k];
      if GivesClientPk(row, clientIds) {
        clientPks := clientPks[ClientPkKey(row) := row.lastModifiedPk.value];
      }
      k := k + 1;
    }
    assert table[..k] == table;
    d := Deltafile(contents, [], projectId, "1.0", clientPks);
  }

  // ---------------------------------------------------------------- before_docker

  /** A row of the `ApplyJobDelta` through table. */
  datatype ApplyJobDelta = ApplyJobDelta(applyJob: nat, delta: nat, status: DeltaStatus,
                                         feedback: Option<DeltaFeedback>, modifiedPk: Option<string>)

  /** `Delta.objects.filter(last_status=PENDING)`, in table order. */
  function PendingDeltas(table: seq<Delta>): (r: seq<Delta>)
    ensures forall d :: d in r <==> d in table && d.lastStatus == Pending
  {
    if table == [] then []
    else (if table[0].lastStatus == Pending then [table[0]] else []) + PendingDeltas(table[1..])
  }

  function Ids(deltas: seq<Delta>): (r: seq<nat>)
    ensures |r| == |deltas|
    ensures forall i :: 0 <= i < |deltas| ==> r[i] == deltas[i].id
  {
    if deltas == [] then [] else [deltas[0].id] + Ids(deltas[1..])
  }

  predicate HasRow(rows: seq<ApplyJobDelta>, job: nat, delta: nat)
  {
    exists r :: r in rows && r.applyJob == job && r.delta == delta
  }

  /** `job.deltas_to_apply.add(*deltas)`: a through row, with the default status, for each delta
      not yet attached to the job. */
  function Attach(rows: seq<ApplyJobDelta>, job: nat, ids: seq<nat>): (r: seq<ApplyJobDelta>)
    ensures |rows| <= |r| && r[..|rows|] == rows
    ensures forall id :: id in ids ==> HasRow(r, job, id)
    ensures forall k :: |rows| <= k < |r| ==>
      (r[k].applyJob == job && r[k].delta in ids && r[k].status == Pending && r[k].feedback.None? && r[k].modifiedPk.None?)
    ensures forall k :: |rows| <= k < |r| ==> !HasRow(rows, job, r[k].delta)
    ensures forall k, m :: |rows| <= k < m < |r| ==> r[k].delta != r[m].delta
  {
    if ids == [] then rows
    else
      var prev := Attach(rows, job, ids[..|ids| - 1]);
      var id := ids[|ids| - 1];
      assert forall x :: x in ids <==> x in ids[..|ids| - 1] || x == id;
      if HasRow(prev, job, id) then prev
      else
        var r := prev + [ApplyJobDelta(job, id, Pending, None, None)];
        assert r[..|prev|] == prev;
        assert !HasRow(rows, job, id) by {
          assert forall x :: x in rows ==> x in prev by { assert prev[..|rows|] == rows; }
        }
        assert forall k :: |rows| <= k < |prev| ==> prev[k] in prev && prev[k].delta != id;
        assert forall x :: x in prev ==> x in r;
        assert r[|prev|] in r;
        r
  }

  /** `ApplyJobDelta.objects.filter(apply_job_id=job, delta_id__in=ids).update(status=status)`. */
  function SetJobDeltaStatus(rows: seq<ApplyJobDelta>, job: nat, ids: seq<nat>, status: DeltaStatus): (r: seq<ApplyJobDelta>)
    ensures |r| == |rows|
    ensures forall k :: 0 <= k < |rows| ==>
      r[k] == if rows[k].applyJob == job && rows[k].delta in ids then rows[k].(status := status) else rows[k]
  {
    if rows == [] then []
    else
      [if rows[0].applyJob == job && rows[0].delta in ids then rows[0].(status := status) else rows[0]]
      + SetJobDeltaStatus(rows[1..], job, ids, status)
  }

  /** `deltas.update(last_status=STARTED)` on the pending deltas. */
  function MarkStarted(table: seq<Delta>): (r: seq<Delta>)
    ensures |r| == |table|
    ensures forall k :: 0 <= k < |table| ==>
      r[k] == if table[k].lastStatus == Pending then table[k].(lastStatus := Started) else table[k]
  {
    if table == [] then []
    else [if table[0].lastStatus == Pending then table[0].(lastStatus := Started) else table[0]] + MarkStarted(table[1..])
  }

  /** The through rows after `before_docker`. */
  function JobDeltasBeforeDocker(rows: seq<ApplyJobDelta>, job: nat, table: seq<Delta>): seq<ApplyJobDelta>
  {
    var ids := Ids(PendingDeltas(table));
    SetJobDeltaStatus(Attach(rows, job, ids), job, ids, Started)
  }

  /** After `before_docker`, every delta that was pending is attached to the job by a STARTED
      row, no delta is pending any more, and the rows of other jobs are as they were. */
  lemma BeforeDockerMarksPending(rows: seq<ApplyJobDelta>, job: nat, table: seq<Delta>)
    ensures forall d :: d in table && d.lastStatus == Pending ==>
      exists r :: r in JobDeltasBeforeDocker(rows, job, table) && r.applyJob == job && r.delta == d.id && r.status == Started
    ensures forall d :: d in MarkStarted(table) ==> d.lastStatus != Pending
    ensures forall k :: 0 <= k < |rows| && rows[k].applyJob != job ==> JobDeltasBeforeDocker(rows, job, table)[k] == rows[k]
  {
    forall d | d in table && d.lastStatus == Pending
      ensures exists x :: x in JobDeltasBeforeDocker(rows, job, table) && x.applyJob == job && x.delta == d.id && x.status == Started
    {
      PendingGetsStartedRow(rows, job, table, d);
    }
    BeforeDockerKeepsOtherJobs(rows, job, table);
  }

  /** One pending delta gets a STARTED row of the job. */
  lemma PendingGetsStartedRow(rows: seq<ApplyJobDelta>, job: nat, table: seq<Delta>, d: Delta)
    requires d in table && d.lastStatus == Pending
    ensures exists x :: x in JobDeltasBeforeDocker(rows, job, table) && x.applyJob == job && x.delta == d.id && x.status == Started
  {
    var p := PendingDeltas(table);
    var ids := Ids(p);
    var a := Attach(rows, job, ids);
    var r := JobDeltasBeforeDocker(rows, job, table);
    var i :| 0 <= i < |p| && p[i] == d;
    assert ids[i] == d.id;
    assert HasRow(a, job, d.id);
    var x :| x in a && x.applyJob == job && x.delta == d.id;
    var k :| 0 <= k < |a| && a[k] == x;
    assert r[k] == x.(status := Started);
    assert r[k] in r;
  }

  /** The rows of other jobs keep their place and content. */
  lemma BeforeDockerKeepsOtherJobs(rows: seq<ApplyJobDelta>, job: nat, table: seq<Delta>)
    ensures forall k :: 0 <= k < |rows| && rows[k].applyJob != job ==> JobDeltasBeforeDocker(rows, job, table)[k] == rows[k]
  {
    var a := Attach(rows, job, Ids(PendingDeltas(table)));
    forall k | 0 <= k < |rows| && rows[k].applyJob != job
      ensures JobDeltasBeforeDocker(rows, job, table)[k] == rows[k]
    {
      assert a[k] == a[..|rows|][k];
    }
  }

  // ---------------------------------------------------------------- after_docker

  /** A delta row after one feedback entry naming it. */
  function WithFeedback(d: Delta, fb: DeltaFeedback): Delta
  {
    d.(lastStatus := FeedbackStatus(fb.status), lastFeedback := Some(fb), lastModifiedPk := fb.modifiedPk)
  }

  /** A through row after one feedback entry naming its delta. */
  function RowWithFeedback(r: ApplyJobDelta, fb: DeltaFeedback): ApplyJobDelta
  {
    r.(status := FeedbackStatus(fb.status), feedback := Some(fb), modifiedPk := fb.modifiedPk)
  }

  /** `Delta.objects.filter(pk=delta_id).update(...)` for one entry. */
  function UpdateDeltas(table: seq<Delta>, fb: DeltaFeedback): (r: seq<Delta>)
    ensures |r| == |table|
    ensures forall k :: 0 <= k < |table| ==> r[k] == if table[k].id == fb.deltaId then WithFeedback(table[k], fb) else table[k]
  {
    if table == [] then []
    else [if table[0].id == fb.deltaId then WithFeedback(table[0], fb) else table[0]] + UpdateDeltas(table[1..], fb)
  }

  /** `ApplyJobDelta.objects.filter(apply_job_id=job, delta_id=delta_id).update(...)` for one entry. */
  function UpdateJobDeltas(rows: seq<ApplyJobDelta>, job: nat, fb: DeltaFeedback): (r: seq<ApplyJobDelta>)
    ensures |r| == |rows|
    ensures forall k :: 0 <= k < |rows| ==>
      r[k] == if rows[k].applyJob == job && rows[k].delta == fb.deltaId then RowWithFeedback(rows[k], fb) else rows[k]
  {
    if rows == [] then []
    else
      [if rows[0].applyJob == job && rows[0].delta == fb.deltaId then RowWithFeedback(rows[0], fb) else rows[0]]
      + UpdateJobDeltas(rows[1..], job, fb)
  }

  /** The delta table after the feedback entries, applied in order. */
  function DeltasAfterFeedback(table: seq<Delta>, fbs: seq<DeltaFeedback>): (r: seq<Delta>)
    ensures |r| == |table|
  {
    if fbs == [] then table else UpdateDeltas(DeltasAfterFeedback(table, fbs[..|fbs| - 1]), fbs[|fbs| - 1])
  }

  function JobDeltasAfterFeedback(rows: seq<ApplyJobDelta>, job: nat, fbs: seq<DeltaFeedback>): (r: seq<ApplyJobDelta>)
    ensures |r| == |rows|
  {
    if fbs == [] then rows else UpdateJobDeltas(JobDeltasAfterFeedback(rows, job, fbs[..|fbs| - 1]), job, fbs[|fbs| - 1])
  }

  /** The last feedback entry naming `id`. */
  function LastFeedbackFor(fbs: seq<DeltaFeedback>, id: nat): (r: Option<DeltaFeedback>)
    ensures r.None? <==> forall fb :: fb in fbs ==> fb.deltaId != id
    ensures r.Some? ==> r.value in fbs && r.value.deltaId == id
  {
    if fbs == [] then None
    else if fbs[|fbs| - 1].deltaId == id then Some(fbs[|fbs| - 1])
    else
      assert forall fb :: fb in fbs <==> fb in fbs[..|fbs| - 1] || fb == fbs[|fbs| - 1];
      LastFeedbackFor(fbs[..|fbs| - 1], id)
  }

  /** A delta row is untouched unless some entry names it, and then it holds what the last such
      entry says. */
  lemma {:induction false} DeltaRowAfterFeedback(table: seq<Delta>, fbs: seq<DeltaFeedback>, k: nat)
    requires k < |table|
    ensures |DeltasAfterFeedback(table, fbs)| == |table|
    ensures DeltasAfterFeedback(table, fbs)[k] ==
      match LastFeedbackFor(fbs, table[k].id)
      case None => table[k]
      case Some(fb) => WithFeedback(table[k], fb)
  {
    if fbs != [] {
      DeltaRowAfterFeedback(table, fbs[..|fbs| - 1], k);
    }
  }

  lemma {:induction false} JobDeltaRowAfterFeedback(rows: seq<ApplyJobDelta>, job: nat, fbs: seq<DeltaFeedback>, k: nat)
    requires k < |rows|
    ensures |JobDeltasAfterFeedback(rows, job, fbs)| == |rows|
    ensures JobDeltasAfterFeedback(rows, job, fbs)[k] ==
      if rows[k].applyJob != job then rows[k]
      else match LastFeedbackFor(fbs, rows[k].delta)
        case None => rows[k]
        case Some(fb) => RowWithFeedback(rows[k], fb)
  {
    if fbs != [] {
      JobDeltaRowAfterFeedback(rows, job, fbs[..|fbs| - 1], k);
    }
  }

  /** A delta named in the feedback and its row for this job end with the same status, feedback
      and modified primary key. */
  lemma FeedbackRowsAgree(table: seq<Delta>, rows: seq<ApplyJobDelta>, job: nat, fbs: seq<DeltaFeedback>, i: nat, k: nat)
    requires i < |table| && k < |rows|
    requires rows[k].applyJob == job && rows[k].delta == table[i].id
    requires exists fb :: fb in fbs && fb.deltaId == table[i].id
    ensures DeltasAfterFeedback(table, fbs)[i].lastStatus == JobDeltasAfterFeedback(rows, job, fbs)[k].status
    ensures DeltasAfterFeedback(table, fbs)[i].lastFeedback == JobDeltasAfterFeedback(rows, job, fbs)[k].feedback
    ensures DeltasAfterFeedback(table, fbs)[i].lastModifiedPk == JobDeltasAfterFeedback(rows, job, fbs)[k].modifiedPk
  {
    DeltaRowAfterFeedback(table, fbs, i);
    JobDeltaRowAfterFeedback(rows, job, fbs, k);
  }

  // ---------------------------------------------------------------- run

  /** The job's `feedback` dict, as far as the orchestrator reads and writes it. `deltaFeedback`
      is `feedback["steps"][1]["outputs"]["delta_feedback"]`, missing when any key is. */
  datatype JobFeedback = JobFeedback(error: Option<string>, errorOrigin: Option<string>,
                                     containerExitCode: Option<int>, deltaFeedback: Option<seq<DeltaFeedback>>)

  /** What `_run_docker` returns: the container's exit code and its logs, as
      `output.decode("utf-8")` gives them; none when the logs are not valid UTF-8 and the
      decode raises. */
  datatype ContainerRun = ContainerRun(exitCode: int, output: Option<string>)

  /** The feedback after the container ran: the file's content, with `error_origin` set to
      `container` when it reports a (non-empty) error, or an orchestrator error when the file could
      not be read; the exit code is always added. */
  function FeedbackAfterRun(file: Option<JobFeedback>, exitCode: int): (r: JobFeedback)
    ensures r.containerExitCode == Some(exitCode)
    ensures file.None? ==> r.error.Some? && r.errorOrigin == Some(OrchestratorOrigin) && r.deltaFeedback.None?
    ensures file.Some? ==> r.error == file.value.error && r.deltaFeedback == file.value.deltaFeedback
    ensures file.Some? && file.value.error.Some? && file.value.error.value != "" ==> r.errorOrigin == Some(ContainerOrigin)
    ensures file.Some? && (file.value.error.None? || file.value.error.value == "") ==> r.errorOrigin == file.value.errorOrigin
  {
    match file
    case None => JobFeedback(Some(FeedbackUnreadable), Some(OrchestratorOrigin), Some(exitCode), None)
    case Some(fb) =>
      var fb' := if fb.error.Some? && fb.error.value != "" then fb.(errorOrigin := Some(ContainerOrigin)) else fb;
      fb'.(containerExitCode := Some(exitCode))
  }

  /** `run`'s verdict once the container has exited: FAILED on a non-zero exit code or any
      reported error (even an empty one), FINISHED otherwise. */
  function RunVerdict(exitCode: int, feedback: JobFeedback): (s: JobStatus)
    ensures s == JobFailed || s == JobFinished
    ensures s == JobFinished <==> exitCode == 0 && feedback.error.None?
  {
    if exitCode != 0 || feedback.error.Some? then JobFailed else JobFinished
  }

  /** The job status `DeltaApplyJobRun.run` leaves behind: FAILED when the container could not be
      run, when its logs do not decode, when the verdict is FAILED, or when `after_docker` cannot
      find the delta feedback. */
  function FinalStatus(container: Result<ContainerRun>, file: Option<JobFeedback>): (s: JobStatus)
    ensures s == JobFailed || s == JobFinished
    ensures s == JobFinished ==> container.Success? && container.value.exitCode == 0
    ensures s == JobFinished ==> container.value.output.Some?
    ensures s == JobFinished ==> file.Some? && file.value.error.None? && file.value.deltaFeedback.Some?
    ensures (container.Success? && container.value.exitCode == 0 && container.value.output.Some?
             && file.Some? && file.value.error.None? && file.value.deltaFeedback.Some?) ==> s == JobFinished
  {
    if container.Failure? || container.value.output.None? then JobFailed
    else
      var fb := FeedbackAfterRun(file, container.value.exitCode);
      if RunVerdict(container.value.exitCode, fb) == JobFailed then JobFailed
      else if fb.deltaFeedback.None? then JobFailed
      else JobFinished
  }

  /** A `DeltaApplyJobRun` with the rows it touches: the delta table and the through table. */
  class DeltaApplyJobRun {
    const jobId: nat
    const projectId: ProjectId
    const projectFilename: Option<string>
    const overwriteConflicts: bool
    var status: JobStatus
    var feedback: Option<JobFeedback>
    var output: Option<string>
    var deltas: seq<Delta>
    var jobDeltas: seq<ApplyJobDelta>
    /** What was written to `deltafile.json`. */
    var deltafile: Option<Deltafile>
    /** The command handed to the container. */
    var command: Option<string>

    constructor(jobId: nat, projectId: ProjectId, projectFilename: Option<string>, overwriteConflicts: bool,
                deltas: seq<Delta>, jobDeltas: seq<ApplyJobDelta>)
      ensures this.jobId == jobId && this.projectId == projectId
      ensures this.projectFilename == projectFilename && this.overwriteConflicts == overwriteConflicts
      ensures status == JobPending && feedback.None? && output.None?
      ensures this.deltas == deltas && this.jobDeltas == jobDeltas
      ensures deltafile.None? && command.None?
    {
      this.jobId := jobId;
      this.projectId := projectId;
      this.projectFilename := projectFilename;
      this.overwriteConflicts := overwriteConflicts;
      status := JobPending;
      feedback := None;
      output := None;
      this.deltas := deltas;
      this.jobDeltas := jobDeltas;
      deltafile := None;
      command := None;
    }

    /** `before_docker`: attach the pending deltas, mark their rows and themselves STARTED, and
        write the deltafile built from them. */
    method BeforeDocker()
      modifies this
      ensures deltas == MarkStarted(old(deltas))
      ensures jobDeltas == JobDeltasBeforeDocker(old(jobDeltas), jobId, old(deltas))
      ensures deltafile == Some(DeltafileFor(PendingDeltas(old(deltas)), old(deltas), projectId))
      ensures status == old(status) && feedback == old(feedback) && output == old(output) && command == old(command)
    {
      var table := deltas;
      var pending := PendingDeltas(table);
      var ids := Ids(pending);
      var attached := Attach(jobDeltas, jobId, ids);
      var contents := PrepareDeltas(pending, table, projectId);
      jobDeltas := SetJobDeltaStatus(attached, jobId, ids, Started);
      deltas := MarkStarted(table);
      deltafile := Some(contents);
    }

    /** `after_docker`'s loop: each feedback entry updates its delta and this job's row for it. */
    method AfterDocker(fbs: seq<DeltaFeedback>)
      modifies this
      ensures deltas == DeltasAfterFeedback(old(deltas), fbs)
      ensures jobDeltas == JobDeltasAfterFeedback(old(jobDeltas), jobId, fbs)
      ensures status == old(status) && feedback == old(feedback) && output == old(output)
      ensures deltafile == old(deltafile) && command == old(command)
    {
      var i := 0;
      while i < |fbs|
        invariant 0 <= i <= |fbs|
        invariant deltas == DeltasAfterFeedback(old(deltas), fbs[..i])
        invariant jobDeltas == JobDeltasAfterFeedback(old(jobDeltas), jobId, fbs[..i])
        invariant status == old(status) && feedback == old(feedback) && output == old(output)
        invariant deltafile == old(deltafile) && command == old(command)
      {
        assert fbs[..i + 1][..i] == fbs[..i];
        deltas := UpdateDeltas(deltas, fbs[i]);
        jobDeltas := UpdateJobDeltas(jobDeltas, jobId, fbs[i]);
        i := i + 1;
      }
      assert fbs[..i] == fbs;
    }

    /** `JobRun.run` for a delta-apply job. `container` is what running the command gave (a
        failure when the Docker call raised) and `file` what `feedback.json` held (none when it
        could not be read). */
    method Run(container: Result<ContainerRun>, file: Option<JobFeedback>)
      modifies this
      ensures status == FinalStatus(container, file)
      ensures command == Some(DeltaApplyCommand(projectId, projectFilename, overwriteConflicts))
      ensures deltafile == Some(DeltafileFor(PendingDeltas(old(deltas)), old(deltas), projectId))
      ensures container.Failure? ==> feedback == Some(JobFeedback(Some(container.error), Some(OrchestratorOrigin), None, None))
      ensures container.Success? && container.value.output.Some? ==> output == container.value.output
      ensures container.Success? ==> feedback.Some? && feedback.value.containerExitCode == Some(container.value.exitCode)
      ensures container.Failure? || container.value.output.None? ==> output == old(output)
      ensures container.Success? && container.value.output.None? ==>
        feedback == Some(FeedbackAfterRun(file, container.value.exitCode).(error := Some(UndecodableLogs), errorOrigin := Some(OrchestratorOrigin)))
      ensures container.Success? && status == JobFinished ==>
        feedback == Some(FeedbackAfterRun(file, container.value.exitCode))
      ensures container.Success? && container.value.output.Some?
              && RunVerdict(container.value.exitCode, FeedbackAfterRun(file, container.value.exitCode)) == JobFailed ==>
        feedback == Some(FeedbackAfterRun(file, container.value.exitCode))
      ensures container.Success? && container.value.output.Some?
              && RunVerdict(container.value.exitCode, FeedbackAfterRun(file, container.value.exitCode)) == JobFinished
              && FeedbackAfterRun(file, container.value.exitCode).deltaFeedback.None? ==>
        feedback == Some(FeedbackAfterRun(file, container.value.exitCode).(error := Some(MissingStepsError), errorOrigin := Some(OrchestratorOrigin)))
      ensures status == JobFinished ==>
        var fbs := FeedbackAfterRun(file, container.value.exitCode).deltaFeedback.value;
        deltas == DeltasAfterFeedback(MarkStarted(old(deltas)), fbs)
        && jobDeltas == JobDeltasAfterFeedback(JobDeltasBeforeDocker(old(jobDeltas), jobId, old(deltas)), jobId, fbs)
      ensures status == JobFailed ==> deltas == MarkStarted(old(deltas))
      ensures status == JobFailed ==> jobDeltas == JobDeltasBeforeDocker(old(jobDeltas), jobId, old(deltas))
    {
      BeforeDocker();
      command := Some(DeltaApplyCommand(projectId, projectFilename, overwriteConflicts));
      if container.Failure? {
        status, feedback := JobFailed, Some(JobFeedback(Some(container.error), Some(OrchestratorOrigin), None, None));
        return;
      }
      var fb := FeedbackAfterRun(file, container.value.exitCode);
      if container.value.output.None? {
        status, feedback := JobFailed, Some(fb.(error := Some(UndecodableLogs), errorOrigin := Some(OrchestratorOrigin)));
        return;
      }
      if container.value.exitCode != 0 || fb.error.Some? {
        status, feedback, output := JobFailed, Some(fb), container.value.output;
        return;
      }
      if fb.deltaFeedback.None? {
        var failed := fb.(error := Some(MissingStepsError), errorOrigin := Some(OrchestratorOrigin));
        status, feedback, output := JobFailed, Some(failed), container.value.output;
        return;
      }
      AfterDocker(fb.deltaFeedback.value);
      status, feedback, output := JobFinished, Some(fb), container.value.output;
    }
  }
}
