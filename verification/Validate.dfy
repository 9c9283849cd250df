/** Job-run execution checks, independent of how backups are named. */
module Validate {
  import opened Basics
  import opened Json
  import opened Text
  import opened Models

  const ACTION_TYPE := "backup action job"
  const SAVE_TYPE := "save job"
  const WORKFLOW_TYPE := "workflow job"
  const TERMINAL := {"success", "failed", "canceled"}

  datatype Reason =
    | ActionNotTerminal
    | AwaitingBackups
    | BackupExecutionTimeConflict
    | BackupIdentityMissing
    | BackupRevisionConflict
    | BackupTimeUnconfirmed
    | CoverageUnverified
    | FutureObservationTime
    | InvalidBackupEvidence
    | InvalidJobTimeOrStatus
    | JobHierarchyConflict
    | JobIdReuseOrExecutionConflict
    | MissingActionJob
    | MissingObservationTime
    | MissingRawReference
    | NoBackupInCoveredWindow
    | NotASaveJob
    | PartialCollectionReason
    | QueryWindowGap
    | SaveParentMismatch
    | SaveRootConflict
    | SaveTimeConflict
    | SourceMismatch
    | SuffixRuleUnreviewed
    | TargetTypeMismatch
    | TerminalStateConflict
    | UnattributedInputErrors
    | WorkflowJobMissing
    | WorkflowRootUnconfirmed
    | WorkflowTimeConflict
    | WorkflowTypeMismatch

  /** One snapshot of a job run. */
  datatype Job = Job(
    source: Source, identity: string, kind: string, parent: Option<string>, root: Option<string>,
    status: string, start: Option<int>, end: Option<int>, observedAt: Option<int>, reference: Reference)
  {
    function JobKey(): Key {
      Key(source, identity)
    }

    predicate Terminal() {
      status in TERMINAL
    }
  }

  function ReadJob(hit: Value, clock: Clock): Result<Job, string> {
    match Unwrap(hit)
    case Err(e) => Err(e)
    case Ok((document, reference)) =>
      match SourceOf(document, false)
      case Err(e) => Err(e)
      case Ok(source) =>
        var payload := document.Get("payload");
        if !payload.Object? || document.Get("document_type") != Str("job-run") then Err("not_a_job_run")
        else
          var identity := PositiveId(payload.Get("job_id"));
          var kind, status := payload.Get("type"), payload.Get("status_normalized");
          if identity.None? then Err("invalid_job_id")
          else if !kind.Str? || !status.Str? then Err("invalid_job_type_or_status")
          else
            Ok(Job(source, identity.value, Lower(Strip(kind.text)), PositiveId(payload.Get("parent_job_id")),
                   PositiveId(payload.Get("root_parent_job_id")), Lower(Strip(status.text)),
                   Timestamp(clock, payload.Get("start_time")), Timestamp(clock, payload.Get("end_time")),
                   Timestamp(clock, document.Get("observed_at")), reference))
  }

  /** A job as it is read: its own id and those it names are canonical. */
  predicate Canonical(j: Job) {
    && IsPositiveId(j.identity)
    && (j.parent.Some? ==> IsPositiveId(j.parent.value))
    && (j.root.Some? ==> IsPositiveId(j.root.value))
  }

  lemma ReadJobsAreCanonical(hit: Value, clock: Clock)
    ensures ReadJob(hit, clock).Ok? ==> Canonical(ReadJob(hit, clock).value)
  {}

  // ---- Choosing one snapshot ----------------------------------------------------------------

  predicate EarlierTime(a: Option<int>, b: Option<int>) {
    b.Some? && (a.None? || a.value < b.value)
  }

  /** `b` ranks strictly above `a`: observed later, or at the same time with a greater status. */
  predicate Outranks(b: Job, a: Job) {
    EarlierTime(a.observedAt, b.observedAt) || (a.observedAt == b.observedAt && Below(a.status, b.status))
  }

  function Terminals(jobs: seq<Job>): (r: seq<Job>)
    ensures forall j :: j in r <==> j in jobs && j.Terminal()
  {
    if jobs == [] then []
    else
      var before, last := Terminals(jobs[..|jobs| - 1]), jobs[|jobs| - 1];
      assert jobs == jobs[..|jobs| - 1] + [last];
      if last.Terminal() then before + [last] else before
  }

  /** The first of the highest-ranked snapshots. */
  function Latest(pool: seq<Job>): (r: Job)
    requires pool != []
    ensures r in pool
  {
    if |pool| == 1 then pool[0]
    else
      var best, last := Latest(pool[..|pool| - 1]), pool[|pool| - 1];
      if Outranks(last, best) then last else best
  }

  /** A terminal snapshot wins over any other, whenever it was observed. */
  function Pool(jobs: seq<Job>): (r: seq<Job>)
    ensures jobs != [] ==> r != []
    ensures forall j | j in r :: j in jobs
  {
    if Terminals(jobs) != [] then Terminals(jobs) else jobs
  }

  function Selected(jobs: seq<Job>): (r: Option<Job>)
    ensures r.None? <==> jobs == []
    ensures r.Some? ==> r.value in jobs
  {
    if jobs == [] then None else Some(Latest(Pool(jobs)))
  }

  predicate OneExecution(jobs: seq<Job>) {
    forall a, b | a in jobs && b in jobs :: a.start == b.start && a.kind == b.kind
  }

  predicate OneHierarchy(jobs: seq<Job>) {
    forall a, b | a in jobs && b in jobs :: a.parent == b.parent && a.root == b.root
  }

  predicate OneTermination(jobs: seq<Job>) {
    forall a, b | a in jobs && b in jobs && a.Terminal() && b.Terminal() :: a.status == b.status && a.end == b.end
  }

  /** The snapshot's times are ordered and its status is a known one. */
  predicate Consistent(j: Job) {
    && j.start.Some? && j.observedAt.Some?
    && (j.Terminal() || j.status in {"running", "unknown"})
    && (j.end.Some? ==> j.start.value <= j.end.value <= j.observedAt.value)
    && (j.Terminal() ==> j.end.Some?)
    && j.start.value <= j.observedAt.value
  }

  function SelectionReasons(jobs: seq<Job>): set<Reason> {
    if jobs == [] then {MissingActionJob}
    else
      StoryConflicts(jobs)
      + (if Consistent(Selected(jobs).value) then {} else {InvalidJobTimeOrStatus})
  }

  method LatestSnapshot(pool: seq<Job>) returns (best: Job)
    requires pool != []
    ensures best == Latest(pool)
  {
    best := pool[0];
    for i := 1 to |pool|
      invariant best == Latest(pool[..i])
    {
      assert pool[..i + 1][..i] == pool[..i];
      if Outranks(pool[i], best) {
        best := pool[i];
      }
    }
    assert pool[..|pool|] == pool;
  }

  method CheckSnapshot(job: Job) returns (faulty: bool)
    ensures faulty <==> !Consistent(job)
  {
    faulty := false;
    if job.start.None? || job.observedAt.None? || job.status !in TERMINAL + {"running", "unknown"} {
      faulty := true;
    }
    if job.end.Some? && (job.start.None? || job.end.value < job.start.value) {
      faulty := true;
    }
    if job.status in TERMINAL && job.end.None? {
      faulty := true;
    }
    if job.observedAt.Some? && ((job.end.Some? && job.observedAt.value < job.end.value)
                                || (job.start.Some? && job.observedAt.value < job.start.value)) {
      faulty := true;
    }
  }

  /** What the snapshots contradict each other in. */
  function StoryConflicts(jobs: seq<Job>): set<Reason> {
    (if OneExecution(jobs) then {} else {JobIdReuseOrExecutionConflict})
    + (if OneHierarchy(jobs) then {} else {JobHierarchyConflict})
    + (if OneTermination(jobs) then {} else {TerminalStateConflict})
  }

  method StoryReasons(jobs: seq<Job>) returns (reasons: set<Reason>)
    ensures reasons == StoryConflicts(jobs)
  {
    reasons := {};
    if !OneExecution(jobs) {
      reasons := reasons + {JobIdReuseOrExecutionConflict};
    }
    if !OneHierarchy(jobs) {
      reasons := reasons + {JobHierarchyConflict};
    }
    if !OneTermination(jobs) {
      reasons := reasons + {TerminalStateConflict};
    }
  }

  method SelectJob(jobs: seq<Job>) returns (job: Option<Job>, reasons: set<Reason>)
    ensures job == Selected(jobs) && reasons == SelectionReasons(jobs)
  {
    if jobs == [] {
      return None, {MissingActionJob};
    }
    reasons := StoryReasons(jobs);
    var best := LatestSnapshot(Pool(jobs));
    var faulty := CheckSnapshot(best);
    if faulty {
      reasons := reasons + {InvalidJobTimeOrStatus};
    }
    job := Some(best);
  }

  // ---- The hierarchy around an action -------------------------------------------------------

  predicate Before(a: Option<int>, b: Option<int>) {
    a.Some? && b.Some? && a.value < b.value
  }

  function SaveFaults(save: Job, action: Job): set<Reason> {
    (if save.kind != SAVE_TYPE then {NotASaveJob} else {})
    + (if save.source != action.source then {SourceMismatch} else {})
    + (if save.parent != Some(action.identity) then {SaveParentMismatch} else {})
    + (if action.kind != ACTION_TYPE then {TargetTypeMismatch} else {})
    + (if save.root.Some? && action.root.Some? && save.root != action.root then {SaveRootConflict} else {})
    + (if Before(save.start, action.start) || Before(action.end, save.end) then {SaveTimeConflict} else {})
  }

  method ValidateSave(save: Job, action: Job) returns (reasons: set<Reason>)
    ensures reasons == SaveFaults(save, action)
  {
    reasons := {};
    if save.kind != SAVE_TYPE {
      reasons := reasons + {NotASaveJob};
    }
    if save.source != action.source {
      reasons := reasons + {SourceMismatch};
    }
    if save.parent != Some(action.identity) {
      reasons := reasons + {SaveParentMismatch};
    }
    if action.kind != ACTION_TYPE {
      reasons := reasons + {TargetTypeMismatch};
    }
    if save.root.Some? && action.root.Some? && save.root != action.root {
      reasons := reasons + {SaveRootConflict};
    }
    if Before(save.start, action.start) {
      reasons := reasons + {SaveTimeConflict};
    }
    if Before(action.end, save.end) {
      reasons := reasons + {SaveTimeConflict};
    }
  }

  function JobsOf(jobs: map<Key, seq<Job>>, key: Key): seq<Job> {
    if key in jobs then jobs[key] else []
  }

  /** The snapshot is a Save that names the action as its parent. */
  predicate SaveOf(j: Job, key: Key) {
    j.kind == SAVE_TYPE && j.source == key.source && j.parent == Some(key.id)
  }

  predicate Related(copies: seq<Job>, key: Key) {
    exists j | j in copies :: SaveOf(j, key)
  }

  function SaveReasons(copies: seq<Job>, key: Key, action: Job): set<Reason> {
    if Related(copies, key) then SelectionReasons(copies) + SaveFaults(Selected(copies).value, action) else {}
  }

  function WorkflowReasons(workflows: seq<Job>, action: Job): set<Reason>
    requires workflows != []
  {
    var workflow := Selected(workflows).value;
    SelectionReasons(workflows)
    + (if workflow.kind != WORKFLOW_TYPE then {WorkflowTypeMismatch} else {})
    + (if Before(action.start, workflow.start) || Before(workflow.end, action.end) then {WorkflowTimeConflict} else {})
  }

  function WorkflowsOf(jobs: map<Key, seq<Job>>, action: Job): seq<Job> {
    if action.root.Some? then JobsOf(jobs, Key(action.source, action.root.value)) else []
  }

  datatype Check = Check(action: Option<Job>, blocked: set<Reason>, pending: set<Reason>)

  /** Reasons found on any job that names the action as its parent. */
  function AllSaveReasons(jobs: map<Key, seq<Job>>, over: set<Key>, key: Key, action: Job): set<Reason>
    requires over <= jobs.Keys
  {
    set k, r | k in over && r in SaveReasons(jobs[k], key, action) :: r
  }

  function ActionReasons(copies: seq<Job>, action: Job): set<Reason> {
    SelectionReasons(copies) + (if action.kind != ACTION_TYPE then {TargetTypeMismatch} else {})
  }

  function RootReasons(jobs: map<Key, seq<Job>>, action: Job): set<Reason> {
    if WorkflowsOf(jobs, action) != [] then WorkflowReasons(WorkflowsOf(jobs, action), action) else {}
  }

  function BlockedBy(key: Key, jobs: map<Key, seq<Job>>, action: Job): set<Reason> {
    ActionReasons(JobsOf(jobs, key), action) + RootReasons(jobs, action) + AllSaveReasons(jobs, jobs.Keys, key, action)
  }

  function PendingFrom(jobs: map<Key, seq<Job>>, action: Job): set<Reason> {
    (if !action.Terminal() then {ActionNotTerminal} else {})
    + (if action.root.None? then {WorkflowRootUnconfirmed} else {})
    + (if action.root.Some? && WorkflowsOf(jobs, action) == [] then {WorkflowJobMissing} else {})
  }

  function CheckOf(key: Key, jobs: map<Key, seq<Job>>): Check {
    match Selected(JobsOf(jobs, key))
    case None => Check(None, {}, {MissingActionJob})
    case Some(action) => Check(Some(action), BlockedBy(key, jobs, action), PendingFrom(jobs, action))
  }

  lemma SaveReasonsExtend(jobs: map<Key, seq<Job>>, done: set<Key>, k: Key, key: Key, action: Job)
    requires done <= jobs.Keys && k in jobs
    ensures AllSaveReasons(jobs, done + {k}, key, action)
            == AllSaveReasons(jobs, done, key, action) + SaveReasons(jobs[k], key, action)
  {}

  method CheckWorkflow(workflows: seq<Job>, action: Job) returns (blocked: set<Reason>)
    requires workflows != []
    ensures blocked == WorkflowReasons(workflows, action)
  {
    var workflow, conflicts := SelectJob(workflows);
    blocked := conflicts;
    if workflow.value.kind != WORKFLOW_TYPE {
      blocked := blocked + {WorkflowTypeMismatch};
    }
    if Before(action.start, workflow.value.start) {
      blocked := blocked + {WorkflowTimeConflict};
    }
    if Before(workflow.value.end, action.end) {
      blocked := blocked + {WorkflowTimeConflict};
    }
  }

  method CheckSaves(key: Key, jobs: map<Key, seq<Job>>, action: Job) returns (blocked: set<Reason>)
    ensures blocked == AllSaveReasons(jobs, jobs.Keys, key, action)
  {
    blocked := {};
    var todo := jobs.Keys;
    while todo != {}
      invariant todo <= jobs.Keys
      invariant blocked == AllSaveReasons(jobs, jobs.Keys - todo, key, action)
      decreases todo
    {
      var k :| k in todo;
      assert jobs.Keys - (todo - {k}) == (jobs.Keys - todo) + {k};
      SaveReasonsExtend(jobs, jobs.Keys - todo, k, key, action);
      todo := todo - {k};
      if Related(jobs[k], key) {
        var save, conflicts := SelectJob(jobs[k]);
        var faults := ValidateSave(save.value, action);
        blocked := blocked + conflicts + faults;
      }
    }
    assert jobs.Keys - {} == jobs.Keys;
  }

  method CheckAction(copies: seq<Job>) returns (chosen: Option<Job>, blocked: set<Reason>)
    ensures chosen == Selected(copies)
    ensures chosen.None? ==> blocked == {MissingActionJob}
    ensures chosen.Some? ==> blocked == ActionReasons(copies, chosen.value)
  {
    chosen, blocked := SelectJob(copies);
    if chosen.Some? && chosen.value.kind != ACTION_TYPE {
      blocked := blocked + {TargetTypeMismatch};
    }
  }

  method CheckRoot(jobs: map<Key, seq<Job>>, action: Job) returns (blocked: set<Reason>, pending: set<Reason>)
    ensures blocked == RootReasons(jobs, action) && pending == PendingFrom(jobs, action)
  {
    blocked, pending := {}, {};
    if action.status !in TERMINAL {
      pending := pending + {ActionNotTerminal};
    }
    if action.root.None? {
      pending := pending + {WorkflowRootUnconfirmed};
    } else {
      var workflows := JobsOf(jobs, Key(action.source, action.root.value));
      if workflows == [] {
        pending := pending + {WorkflowJobMissing};
      } else {
        blocked := CheckWorkflow(workflows, action);
      }
    }
  }

  method ExecutionCheck(key: Key, jobs: map<Key, seq<Job>>) returns (check: Check)
    ensures check == CheckOf(key, jobs)
  {
    var chosen, blocked := CheckAction(JobsOf(jobs, key));
    if chosen.None? {
      return Check(None, {}, blocked);
    }
    var conflicts, pending := CheckRoot(jobs, chosen.value);
    var faults := CheckSaves(key, jobs, chosen.value);
    check := Check(chosen, blocked + conflicts + faults, pending);
  }

  // ---- Properties of the choice -------------------------------------------------------------

  lemma OutranksIsStrict(a: Job, b: Job, c: Job)
    requires Outranks(a, b)
    ensures !Outranks(b, a)
    ensures Outranks(b, c) ==> Outranks(a, c)
    ensures Outranks(a, c) || Outranks(c, b)
  {
    BelowIrreflexive(a.status);
    BelowTotal(a.status, c.status);
    if Below(a.status, b.status) && Below(b.status, a.status) {
      BelowTransitive(a.status, b.status, a.status);
    }
    if Below(b.status, a.status) && Below(a.status, b.status) {
      BelowTransitive(a.status, b.status, a.status);
    }
    if Below(c.status, b.status) && Below(b.status, a.status) {
      BelowTransitive(c.status, b.status, a.status);
    }
    if Below(b.status, a.status) && Below(a.status, c.status) {
      BelowTransitive(b.status, a.status, c.status);
    }
  }

  lemma {:induction false} LatestIsUnbeaten(pool: seq<Job>)
    requires pool != []
    ensures forall j | j in pool :: !Outranks(j, Latest(pool))
  {
    if |pool| == 1 {
      BelowIrreflexive(pool[0].status);
    } else {
      var best, last := Latest(pool[..|pool| - 1]), pool[|pool| - 1];
      LatestIsUnbeaten(pool[..|pool| - 1]);
      BelowIrreflexive(last.status);
      forall j | j in pool ensures !Outranks(j, Latest(pool)) {
        if Outranks(last, best) && j in pool[..|pool| - 1] {
          OutranksIsStrict(last, best, j);
          if Outranks(j, last) {
            OutranksIsStrict(j, last, best);
          }
        }
      }
    }
  }

  // ---- Reading and choosing in the source's own terms ---------------------------------------------

  /** A job is read exactly from a job-run document with a source, a canonical id and textual type and status; its
      fields are those of the payload, its observation that of the document. */
  lemma JobIsReadExactly(hit: Value, clock: Clock)
    ensures ReadJob(hit, clock).Ok? <==>
            && Unwrap(hit).Ok?
            && var document := Unwrap(hit).value.0;
               && SourceOf(document, false).Ok? && document.Get("document_type") == Str("job-run")
               && document.Get("payload").Object?
               && var payload := document.Get("payload");
                  && PositiveId(payload.Get("job_id")).Some?
                  && payload.Get("type").Str? && payload.Get("status_normalized").Str?
    ensures ReadJob(hit, clock).Ok? ==>
              var j, document := ReadJob(hit, clock).value, Unwrap(hit).value.0;
              var payload := document.Get("payload");
              && SourceOf(document, false) == Ok(j.source) && PositiveId(payload.Get("job_id")) == Some(j.identity)
              && j.kind == Lower(Strip(payload.Get("type").text))
              && j.status == Lower(Strip(payload.Get("status_normalized").text))
              && j.parent == PositiveId(payload.Get("parent_job_id"))
              && j.root == PositiveId(payload.Get("root_parent_job_id"))
              && j.start == Timestamp(clock, payload.Get("start_time"))
              && j.end == Timestamp(clock, payload.Get("end_time"))
              && j.observedAt == Timestamp(clock, document.Get("observed_at")) && j.reference == Unwrap(hit).value.1
  {}

  /** The five statuses a snapshot may have, of which the first three end a run. */
  predicate EndsRun(status: string) {
    status == "success" || status == "failed" || status == "canceled"
  }

  predicate Contradicts(j: Job) {
    || j.start.None? || j.observedAt.None?
    || (!EndsRun(j.status) && j.status != "running" && j.status != "unknown")
    || (j.end.Some? && j.end.value < j.start.value)
    || (EndsRun(j.status) && j.end.None?)
    || (j.end.Some? && j.observedAt.value < j.end.value)
    || j.observedAt.value < j.start.value
  }

  lemma EndsRunExactly(j: Job)
    ensures j.Terminal() <==> EndsRun(j.status)
  {}

  lemma ContradictsExactly(j: Job)
    ensures Contradicts(j) <==> !Consistent(j)
  {
    EndsRunExactly(j);
  }

  lemma ConflictsExactly(jobs: seq<Job>)
    ensures !OneExecution(jobs) <==> exists a, b :: a in jobs && b in jobs && (a.start != b.start || a.kind != b.kind)
    ensures !OneHierarchy(jobs) <==> exists a, b :: a in jobs && b in jobs && (a.parent != b.parent || a.root != b.root)
    ensures !OneTermination(jobs) <==>
            exists a, b :: a in jobs && b in jobs && EndsRun(a.status) && EndsRun(b.status)
              && (a.status != b.status || a.end != b.end)
  {
    forall j: Job ensures j.Terminal() <==> EndsRun(j.status) {
      EndsRunExactly(j);
    }
  }

  lemma ReasonsInParts(jobs: seq<Job>)
    requires jobs != []
    ensures var reasons := SelectionReasons(jobs);
            && (JobIdReuseOrExecutionConflict in reasons <==> !OneExecution(jobs))
            && (JobHierarchyConflict in reasons <==> !OneHierarchy(jobs))
            && (TerminalStateConflict in reasons <==> !OneTermination(jobs))
            && (InvalidJobTimeOrStatus in reasons <==> !Consistent(Selected(jobs).value))
            && reasons <= {JobIdReuseOrExecutionConflict, JobHierarchyConflict, TerminalStateConflict,
                           InvalidJobTimeOrStatus}
  {}

  /** What is held against the snapshots, each with its ground. */
  lemma SelectionReasonsExactly(jobs: seq<Job>)
    requires jobs != []
    ensures var reasons := SelectionReasons(jobs);
            && (JobIdReuseOrExecutionConflict in reasons <==>
                 exists a, b :: a in jobs && b in jobs && (a.start != b.start || a.kind != b.kind))
            && (JobHierarchyConflict in reasons <==>
                 exists a, b :: a in jobs && b in jobs && (a.parent != b.parent || a.root != b.root))
            && (TerminalStateConflict in reasons <==>
                 exists a, b :: a in jobs && b in jobs && EndsRun(a.status) && EndsRun(b.status)
                   && (a.status != b.status || a.end != b.end))
            && (InvalidJobTimeOrStatus in reasons <==> Contradicts(Selected(jobs).value))
            && reasons <= {JobIdReuseOrExecutionConflict, JobHierarchyConflict, TerminalStateConflict,
                           InvalidJobTimeOrStatus}
  {
    ReasonsInParts(jobs);
    ConflictsExactly(jobs);
    ContradictsExactly(Selected(jobs).value);
  }
}
