/** What a verdict means: exact conditions for publication, and what malformed input forbids. */
module Verdicts {
  import opened Basics
  import opened Dict
  import opened Json
  import opened Models
  import opened Extract
  import opened Validate
  import opened EvidenceLedger
  import opened History

  function RecordedUnder(l: Ledger, key: Key): seq<Evidence> {
    Values(RecordsOf(l.evidence, key))
  }

  /** The candidates of every observation under the key. */
  ghost function SeenCandidates(s: Seen, key: Key): set<Candidate> {
    set e | e in s.items && e.ActionKey() == key :: e.Normalized()
  }

  /** A record of the observation's revision, observed no earlier. */
  ghost predicate KeptIn(records: seq<Evidence>, e: Evidence) {
    exists r :: r in records && FingerprintOf(r) == FingerprintOf(e) && !Newer(e, r)
  }

  lemma RecordIsSeen(l: Ledger, s: Seen, key: Key, i: nat)
    requires Explained(l, s) && i < |RecordedUnder(l, key)|
    ensures var r := RecordedUnder(l, key)[i];
            r in s.items && r.ActionKey() == key && FingerprintOf(r) == RecordsOf(l.evidence, key)[i].key
  {
    var entries := RecordsOf(l.evidence, key);
    LookupIsUnique(entries, entries[i]);
    assert RecordExplained(entries, s.items, key, entries[i].key);
  }

  lemma SeenIsRecorded(l: Ledger, s: Seen, e: Evidence)
    requires Explained(l, s) && e in s.items
    ensures KeptIn(RecordedUnder(l, e.ActionKey()), e)
  {
    var entries, fingerprint := RecordsOf(l.evidence, e.ActionKey()), FingerprintOf(e);
    assert RecordExplained(entries, s.items, e.ActionKey(), fingerprint);
    assert Under(e, e.ActionKey(), fingerprint);
    var kept := Lookup(entries, fingerprint).value;
    var i :| 0 <= i < |entries| && entries[i] == Entry(fingerprint, kept);
    assert Values(entries)[i] == kept;
  }

  /** Recorded under a key is what was seen under it, one observation of each revision. */
  lemma RecordsAreSeen(l: Ledger, s: Seen, key: Key)
    requires Explained(l, s)
    ensures forall e | e in RecordedUnder(l, key) :: e in s.items && e.ActionKey() == key
    ensures forall e | e in s.items && e.ActionKey() == key :: KeptIn(RecordedUnder(l, key), e)
  {
    var records := RecordedUnder(l, key);
    forall i | 0 <= i < |records| ensures records[i] in s.items && records[i].ActionKey() == key {
      RecordIsSeen(l, s, key, i);
    }
    forall e | e in s.items && e.ActionKey() == key ensures KeptIn(records, e) {
      SeenIsRecorded(l, s, e);
    }
  }

  /** No revision is recorded twice under one key. */
  lemma RecordsAreRevisions(l: Ledger, s: Seen, key: Key, i: nat, j: nat)
    requires Explained(l, s) && i < j < |RecordedUnder(l, key)|
    ensures FingerprintOf(RecordedUnder(l, key)[i]) != FingerprintOf(RecordedUnder(l, key)[j])
  {
    RecordIsSeen(l, s, key, i);
    RecordIsSeen(l, s, key, j);
    assert Distinct(RecordsOf(l.evidence, key));
  }

  lemma CandidatesAreSeen(l: Ledger, s: Seen, key: Key)
    requires Explained(l, s)
    ensures CandidatesOf(RecordedUnder(l, key)) == SeenCandidates(s, key)
  {
    RecordsAreSeen(l, s, key);
    forall e | e in s.items && e.ActionKey() == key
      ensures e.Normalized() in CandidatesOf(RecordedUnder(l, key))
    {
      CandidateIsRecorded(l, s, e);
    }
    forall c | c in CandidatesOf(RecordedUnder(l, key)) ensures c in SeenCandidates(s, key) {
      CandidateWasSeen(RecordedUnder(l, key), s, key, c);
    }
  }

  lemma CandidateIsRecorded(l: Ledger, s: Seen, e: Evidence)
    requires Explained(l, s) && e in s.items
    ensures e.Normalized() in CandidatesOf(RecordedUnder(l, e.ActionKey()))
  {
    SeenIsRecorded(l, s, e);
    RecordsAreSeen(l, s, e.ActionKey());
    var r :| r in RecordedUnder(l, e.ActionKey()) && FingerprintOf(r) == FingerprintOf(e) && !Newer(e, r);
    SameFingerprintSameNames(e, r);
  }

  lemma SameFingerprintSameNames(a: Evidence, b: Evidence)
    requires Sound(a) && Sound(b) && FingerprintOf(a) == FingerprintOf(b)
    ensures a.Normalized() == b.Normalized()
  {
    assert a.Original() == b.Original();
    SoundNamesAreDetermined(a, b);
  }

  lemma CandidateWasSeen(records: seq<Evidence>, s: Seen, key: Key, c: Candidate)
    requires forall r | r in records :: r in s.items && r.ActionKey() == key
    requires c in CandidatesOf(records)
    ensures c in SeenCandidates(s, key)
  {
    var r :| r in records && r.Normalized() == c;
  }

  // ---- When a document is verified ----------------------------------------------------------

  /** The snapshots tell one consistent story. */
  predicate Coherent(copies: seq<Job>) {
    copies != [] && OneExecution(copies) && OneHierarchy(copies) && OneTermination(copies)
    && Consistent(Selected(copies).value)
  }

  lemma CoherentMeansNoReasons(copies: seq<Job>)
    ensures SelectionReasons(copies) == {} <==> Coherent(copies)
  {
    if copies != [] && !OneExecution(copies) {
      assert JobIdReuseOrExecutionConflict in SelectionReasons(copies);
    } else if copies != [] && !OneHierarchy(copies) {
      assert JobHierarchyConflict in SelectionReasons(copies);
    } else if copies != [] && !OneTermination(copies) {
      assert TerminalStateConflict in SelectionReasons(copies);
    } else if copies != [] && !Consistent(Selected(copies).value) {
      assert InvalidJobTimeOrStatus in SelectionReasons(copies);
    }
  }

  predicate NotBefore(a: Option<int>, b: Option<int>) {
    a.Some? && b.Some? ==> b.value <= a.value
  }

  predicate WorkflowFits(workflows: seq<Job>, action: Job) {
    && Coherent(workflows)
    && var workflow := Selected(workflows).value;
       && workflow.kind == WORKFLOW_TYPE
       && NotBefore(action.start, workflow.start)
       && NotBefore(workflow.end, action.end)
  }

  predicate SaveFits(copies: seq<Job>, action: Job) {
    && Coherent(copies)
    && var save := Selected(copies).value;
       && save.kind == SAVE_TYPE && save.source == action.source && save.parent == Some(action.identity)
       && (save.root.Some? && action.root.Some? ==> save.root == action.root)
       && NotBefore(save.start, action.start)
       && NotBefore(action.end, save.end)
  }

  /** One backup of the action, observed, locatable and inside the action's run. */
  predicate BackupFits(e: Evidence, action: Job, syncedAt: int) {
    && e.observedAt.Some? && e.observedAt.value <= syncedAt
    && e.reference.Locatable()
    && e.saveTime.at.Some? && e.completionTime.at.Some?
    && e.saveTime.at.value <= e.completionTime.at.value
    && NotBefore(e.saveTime.at, action.start)
    && NotBefore(action.end, e.completionTime.at)
  }

  /** The run hierarchy around a finished backup action is present and agrees. */
  predicate HierarchyFits(key: Key, jobs: map<Key, seq<Job>>) {
    && Coherent(JobsOf(jobs, key))
    && var action := Selected(JobsOf(jobs, key)).value;
       && action.kind == ACTION_TYPE && action.Terminal() && action.root.Some?
       && WorkflowFits(WorkflowsOf(jobs, action), action)
       && (forall k | k in jobs && Related(jobs[k], key) :: SaveFits(jobs[k], action))
  }

  /** Everything publication asks for. */
  predicate Supported(l: Ledger, key: Key, syncedAt: int, coverage: Option<Coverage>) {
    && HierarchyFits(key, l.jobs)
    && var action := Selected(JobsOf(l.jobs, key)).value;
       && NotBefore(Some(syncedAt), action.observedAt)
       && CompleteCoverage(coverage, action.start, action.end) && coverage.value.suffixReviewed
       && !l.unknownSourceErrors && key.source !in l.incomplete && ReasonsOf(l.blocked, key) == {}
       && |CandidatesOf(RecordedUnder(l, key))| == 1
       && (forall e | e in RecordedUnder(l, key) :: BackupFits(e, action, syncedAt))
  }

  lemma SaveReasonsAreExact(copies: seq<Job>, key: Key, action: Job)
    ensures SaveReasons(copies, key, action) == {} <==>
            (Related(copies, key) ==> SaveFits(copies, action) && action.kind == ACTION_TYPE)
  {
    CoherentMeansNoReasons(copies);
    if Related(copies, key) {
      var save := Selected(copies).value;
      var faults := SaveFaults(save, action);
      assert save.kind != SAVE_TYPE ==> NotASaveJob in faults;
      assert save.source != action.source ==> SourceMismatch in faults;
      assert save.parent != Some(action.identity) ==> SaveParentMismatch in faults;
      assert action.kind != ACTION_TYPE ==> TargetTypeMismatch in faults;
      assert save.root.Some? && action.root.Some? && save.root != action.root ==> SaveRootConflict in faults;
      assert Before(save.start, action.start) || Before(action.end, save.end) ==> SaveTimeConflict in faults;
    }
  }

  lemma AllSaveReasonsAreExact(key: Key, jobs: map<Key, seq<Job>>, action: Job)
    requires action.kind == ACTION_TYPE
    ensures AllSaveReasons(jobs, jobs.Keys, key, action) == {} <==>
            forall k | k in jobs && Related(jobs[k], key) :: SaveFits(jobs[k], action)
  {
    forall k | k in jobs
      ensures SaveReasons(jobs[k], key, action) == {} <==> (Related(jobs[k], key) ==> SaveFits(jobs[k], action))
    {
      SaveReasonsAreExact(jobs[k], key, action);
    }
    var all := AllSaveReasons(jobs, jobs.Keys, key, action);
    if k :| k in jobs && SaveReasons(jobs[k], key, action) != {} {
      var r :| r in SaveReasons(jobs[k], key, action);
      assert r in all;
    }
  }

  lemma WorkflowReasonsAreExact(workflows: seq<Job>, action: Job)
    requires workflows != []
    ensures WorkflowReasons(workflows, action) == {} <==> WorkflowFits(workflows, action)
  {
    CoherentMeansNoReasons(workflows);
    var workflow := Selected(workflows).value;
    var reasons := WorkflowReasons(workflows, action);
    assert SelectionReasons(workflows) <= reasons;
    assert workflow.kind != WORKFLOW_TYPE ==> WorkflowTypeMismatch in reasons;
    assert Before(action.start, workflow.start) || Before(workflow.end, action.end) ==> WorkflowTimeConflict in reasons;
  }

  /** The run hierarchy, as far as it is known, contradicts nothing. */
  predicate NoExecutionBlock(key: Key, jobs: map<Key, seq<Job>>) {
    JobsOf(jobs, key) != [] ==>
      && Coherent(JobsOf(jobs, key))
      && var action := Selected(JobsOf(jobs, key)).value;
         && action.kind == ACTION_TYPE
         && (WorkflowsOf(jobs, action) != [] ==> WorkflowFits(WorkflowsOf(jobs, action), action))
         && (forall k | k in jobs && Related(jobs[k], key) :: SaveFits(jobs[k], action))
  }

  predicate ExecutionComplete(key: Key, jobs: map<Key, seq<Job>>) {
    && JobsOf(jobs, key) != []
    && var action := Selected(JobsOf(jobs, key)).value;
       action.Terminal() && action.root.Some? && WorkflowsOf(jobs, action) != []
  }

  lemma CheckBlocksExactly(key: Key, jobs: map<Key, seq<Job>>)
    ensures CheckOf(key, jobs).blocked == {} <==> NoExecutionBlock(key, jobs)
  {
    var copies := JobsOf(jobs, key);
    if copies != [] {
      CoherentMeansNoReasons(copies);
      var action := Selected(copies).value;
      var workflows := WorkflowsOf(jobs, action);
      if workflows != [] {
        WorkflowReasonsAreExact(workflows, action);
      }
      var blocked := BlockedBy(key, jobs, action);
      assert ActionReasons(copies, action) <= blocked && RootReasons(jobs, action) <= blocked;
      assert AllSaveReasons(jobs, jobs.Keys, key, action) <= blocked;
      assert action.kind != ACTION_TYPE ==> TargetTypeMismatch in ActionReasons(copies, action);
      if action.kind == ACTION_TYPE {
        AllSaveReasonsAreExact(key, jobs, action);
      }
    }
  }

  lemma CheckPendsExactly(key: Key, jobs: map<Key, seq<Job>>)
    ensures CheckOf(key, jobs).pending == {} <==> ExecutionComplete(key, jobs)
  {
    var copies := JobsOf(jobs, key);
    if copies != [] {
      var action := Selected(copies).value;
      var pending := PendingFrom(jobs, action);
      assert !action.Terminal() ==> ActionNotTerminal in pending;
      assert action.root.None? ==> WorkflowRootUnconfirmed in pending;
      assert action.root.Some? && WorkflowsOf(jobs, action) == [] ==> WorkflowJobMissing in pending;
    }
  }

  /** The execution check passes exactly when the hierarchy fits. */
  lemma CheckIsExact(key: Key, jobs: map<Key, seq<Job>>)
    ensures var check := CheckOf(key, jobs);
            check.blocked == {} && check.pending == {} <==> HierarchyFits(key, jobs)
  {
    CheckBlocksExactly(key, jobs);
    CheckPendsExactly(key, jobs);
  }

  lemma InputPendingIsExact(l: Ledger, key: Key, coverage: Option<Coverage>)
    ensures InputPending(l, key, coverage) == {} <==>
            && !l.unknownSourceErrors && key.source !in l.incomplete
            && coverage.Some? && !coverage.value.partial && !coverage.value.queryWindowGap
            && coverage.value.suffixReviewed
  {
    var pending := InputPending(l, key, coverage);
    assert l.unknownSourceErrors ==> UnattributedInputErrors in pending;
    assert key.source in l.incomplete || (coverage.Some? && coverage.value.partial) ==>
             PartialCollectionReason in pending;
    assert coverage.Some? && coverage.value.queryWindowGap ==> QueryWindowGap in pending;
    assert coverage.None? || !coverage.value.suffixReviewed ==> SuffixRuleUnreviewed in pending;
  }

  lemma EvidencePendingIsExact(records: seq<Evidence>, syncedAt: int)
    ensures EvidencePending(records, syncedAt) == {} <==>
            forall e | e in records ::
              && e.observedAt.Some? && e.observedAt.value <= syncedAt && e.reference.Locatable()
              && e.saveTime.at.Some? && e.completionTime.at.Some?
  {
    var pending := EvidencePending(records, syncedAt);
    assert (exists e | e in records :: e.observedAt.None?) ==> MissingObservationTime in pending;
    assert (exists e | e in records :: !e.reference.Locatable()) ==> MissingRawReference in pending;
    assert (exists e | e in records :: e.saveTime.at.None? || e.completionTime.at.None?) ==>
             BackupTimeUnconfirmed in pending;
    assert (exists e | e in records :: Before(Some(syncedAt), e.observedAt)) ==> FutureObservationTime in pending;
  }

  lemma ActionPendingIsExact(records: seq<Evidence>, action: Job, coverage: Option<Coverage>, syncedAt: int)
    ensures ActionPending(records, Some(action), coverage, syncedAt) == {} <==>
            && NotBefore(Some(syncedAt), action.observedAt) && records != []
            && CompleteCoverage(coverage, action.start, action.end)
  {
    var pending := ActionPending(records, Some(action), coverage, syncedAt);
    assert Before(Some(syncedAt), action.observedAt) ==> FutureObservationTime in pending;
    assert !CompleteCoverage(coverage, action.start, action.end) ==> CoverageUnverified in pending;
    assert CompleteCoverage(coverage, action.start, action.end) && records == [] ==> NoBackupInCoveredWindow in pending;
  }

  lemma NoBlockIsExact(l: Ledger, key: Key)
    ensures BlockedReasons(l, key) == {} <==>
            && CheckOf(key, l.jobs).blocked == {} && ReasonsOf(l.blocked, key) == {}
            && forall e | e in RecordedUnder(l, key) ::
                 !TimeConflict(e, StartOf(CheckOf(key, l.jobs).action), EndOf(CheckOf(key, l.jobs).action))
  {
    var blocked, check := BlockedReasons(l, key), CheckOf(key, l.jobs);
    assert check.blocked <= blocked && ReasonsOf(l.blocked, key) <= blocked;
    if exists e | e in RecordedUnder(l, key) :: TimeConflict(e, StartOf(check.action), EndOf(check.action)) {
      assert BackupExecutionTimeConflict in blocked;
    }
  }

  lemma NoPendingIsExact(l: Ledger, key: Key, coverage: Option<Coverage>, syncedAt: int)
    ensures var records, check := RecordedUnder(l, key), CheckOf(key, l.jobs);
            PendingReasons(l, key, coverage, syncedAt) == {} <==>
            && check.pending == {} && InputPending(l, key, coverage) == {}
            && EvidencePending(records, syncedAt) == {}
            && ActionPending(records, check.action, coverage, syncedAt) == {}
  {
    var records, check := RecordedUnder(l, key), CheckOf(key, l.jobs);
    var pending := PendingReasons(l, key, coverage, syncedAt);
    assert check.pending <= pending && InputPending(l, key, coverage) <= pending;
    assert EvidencePending(records, syncedAt) <= pending;
    assert ActionPending(records, check.action, coverage, syncedAt) <= pending;
  }

  /** A document is verified exactly when everything publication asks for holds. */
  lemma VerifiedIsExact(l: Ledger, key: Key, syncedAt: int, coverage: Option<Coverage>, generation: string, limit: nat)
    ensures DocumentOf(l, key, syncedAt, coverage, generation, limit).verification.Verified?
        <==> Supported(l, key, syncedAt, coverage)
  {
    var records, check := RecordedUnder(l, key), CheckOf(key, l.jobs);
    CheckIsExact(key, l.jobs);
    NoBlockIsExact(l, key);
    NoPendingIsExact(l, key, coverage, syncedAt);
    InputPendingIsExact(l, key, coverage);
    EvidencePendingIsExact(records, syncedAt);
    if check.action.Some? {
      ActionPendingIsExact(records, check.action.value, coverage, syncedAt);
      TimesFit(records, check.action.value, syncedAt);
    }
    assert records == [] ==> CandidatesOf(records) == {};
  }

  lemma TimesFit(records: seq<Evidence>, action: Job, syncedAt: int)
    ensures (EvidencePending(records, syncedAt) == {}
             && forall e | e in records :: !TimeConflict(e, action.start, action.end))
        <==> forall e | e in records :: BackupFits(e, action, syncedAt)
  {
    EvidencePendingIsExact(records, syncedAt);
  }

  // ---- What a verified document says about the ledger ---------------------------------------

  /** The times of a verified action are nested: the workflow starts first, every backup lies inside
      the action, the action was observed after its end, and coverage encloses it. */
  lemma VerifiedTimesAreNested(l: Ledger, key: Key, syncedAt: int, coverage: Option<Coverage>, generation: string,
                               limit: nat)
    requires DocumentOf(l, key, syncedAt, coverage, generation, limit).verification.Verified?
    ensures HierarchyFits(key, l.jobs) && coverage.Some?
    ensures var action := Selected(JobsOf(l.jobs, key)).value;
            var workflow := Selected(WorkflowsOf(l.jobs, action)).value;
            && action.Terminal() && action.start.Some? && action.end.Some? && action.observedAt.Some?
            && workflow.start.Some?
            && workflow.start.value <= action.start.value <= action.end.value <= action.observedAt.value <= syncedAt
            && (workflow.end.Some? ==> action.end.value <= workflow.end.value)
            && coverage.value.start.Some? && coverage.value.end.Some?
            && coverage.value.start.value <= action.start.value && action.end.value <= coverage.value.end.value
            && (forall e | e in RecordedUnder(l, key) ::
                  e.saveTime.at.Some? && e.completionTime.at.Some?
                  && action.start.value <= e.saveTime.at.value <= e.completionTime.at.value <= action.end.value)
  {
    VerifiedIsExact(l, key, syncedAt, coverage, generation, limit);
  }

  /** Every snapshot that names a verified action as parent agrees with it: the type, the root, the
      start of each copy, and the end of the selected one. */
  lemma VerifiedSavesBelong(l: Ledger, key: Key, syncedAt: int, coverage: Option<Coverage>, generation: string,
                            limit: nat, k: Key, j: Job)
    requires DocumentOf(l, key, syncedAt, coverage, generation, limit).verification.Verified?
    requires k in l.jobs && j in l.jobs[k] && SaveOf(j, key)
    ensures HierarchyFits(key, l.jobs)
    ensures var action, save := Selected(JobsOf(l.jobs, key)).value, Selected(l.jobs[k]).value;
            && j.start.Some? && j.start == save.start && j.root == save.root && save.parent == Some(action.identity)
            && (j.root.Some? ==> j.root == action.root)
            && action.start.Some? && action.end.Some? && action.start.value <= j.start.value
            && (save.end.Some? ==> save.end.value <= action.end.value)
  {
    VerifiedIsExact(l, key, syncedAt, coverage, generation, limit);
    assert Related(l.jobs[k], key);
    assert SaveFits(l.jobs[k], Selected(JobsOf(l.jobs, key)).value);
  }

  /** A verified conclusion has one candidate and publishes it; any other publishes nothing. */
  lemma ConclusionPublishesOne(key: Key, records: seq<Evidence>, action: Option<Job>, blocked: set<Reason>,
                               pending: set<Reason>,
                               syncedAt: int, coverage: Option<Coverage>, generation: string, limit: nat)
    ensures var d := Conclude(key, records, action, blocked, pending, syncedAt, coverage, generation, limit);
            if d.verification.Verified? then OnlyCandidate(CandidatesOf(records)).Some?
                                             && d.Publishes(OnlyCandidate(CandidatesOf(records)).value)
            else d.Anonymous()
  {
    var candidates := CandidatesOf(records);
    if candidates != {} {
      HasMember(candidates);
    }
  }

  lemma HasMember<T>(s: set<T>)
    requires s != {}
    ensures |s| >= 1
  {
    var x :| x in s;
    assert |s - {x}| == |s| - 1;
  }

  /** The names a key would publish are the only candidate ever seen under it, and none is empty. */
  ghost predicate IsOnlyCandidate(s: Seen, key: Key, c: Candidate) {
    SeenCandidates(s, key) == {c} && c.policy != "" && c.workflow != "" && c.group != ""
  }

  /** Names are published exactly by verified documents, and then they are the one candidate. */
  lemma PublishedNamesAreTheCandidate(l: Ledger, s: Seen, key: Key, syncedAt: int, coverage: Option<Coverage>,
                                      generation: string, limit: nat)
    requires Explained(l, s)
    ensures var d := DocumentOf(l, key, syncedAt, coverage, generation, limit);
            if d.verification.Verified? then exists c :: IsOnlyCandidate(s, key, c) && d.Publishes(c) else d.Anonymous()
  {
    var d := DocumentOf(l, key, syncedAt, coverage, generation, limit);
    var records := RecordedUnder(l, key);
    ConclusionPublishesOne(key, records, CheckOf(key, l.jobs).action, BlockedReasons(l, key),
                           PendingReasons(l, key, coverage, syncedAt), syncedAt, coverage, generation, limit);
    if d.verification.Verified? {
      var c := OnlyCandidate(CandidatesOf(records)).value;
      OnlySeenCandidate(l, s, key, c);
    }
  }

  lemma OnlySeenCandidate(l: Ledger, s: Seen, key: Key, c: Candidate)
    requires Explained(l, s) && CandidatesOf(RecordedUnder(l, key)) == {c}
    ensures IsOnlyCandidate(s, key, c)
  {
    CandidatesAreSeen(l, s, key);
    assert c in SeenCandidates(s, key);
    var e :| e in s.items && e.ActionKey() == key && e.Normalized() == c;
    SoundNamesAreNonEmpty(e);
  }

  // ---- Revisions ----------------------------------------------------------------------------

  /** A key carries the revision conflict exactly when some backup id was seen in two revisions, one of
      them under that key. */
  lemma RevisionConflictIsExact(batches: seq<Batch>, clock: Clock, key: Key)
    ensures BackupRevisionConflict in ReasonsOf(Replay(batches, clock).blocked, key) <==>
            exists a, b :: a in SeenIn(RawHits(batches), JobHits(batches), clock).items
                           && b in SeenIn(RawHits(batches), JobHits(batches), clock).items
                           && Rivals(a, b) && a.ActionKey() == key
  {
    RunsAreExplained(batches, clock);
    ConflictIsSeen(Replay(batches, clock), SeenIn(RawHits(batches), JobHits(batches), clock), key);
  }

  lemma ConflictIsSeen(l: Ledger, s: Seen, key: Key)
    requires Explained(l, s)
    ensures BackupRevisionConflict in ReasonsOf(l.blocked, key) <==>
            exists a, b :: a in s.items && b in s.items && Rivals(a, b) && a.ActionKey() == key
  {
    assert BackupRevisionConflict in ReasonsOf(l.blocked, key) <==> Blames(s, key, BackupRevisionConflict);
  }

  ghost function BackupIdsSeen(s: Seen, key: Key): set<Option<string>> {
    set e | e in s.items && e.ActionKey() == key :: e.backupId
  }

  lemma {:induction false} DistinctCount<T>(s: seq<T>)
    requires forall i, j :: 0 <= i < j < |s| ==> s[i] != s[j]
    ensures |Elements(s)| == |s|
  {
    if s != [] {
      DistinctCount(s[..|s| - 1]);
      ElementsOfLast(s);
      assert s[|s| - 1] !in Elements(s[..|s| - 1]);
    }
  }

  function RecordedIds(l: Ledger, key: Key): seq<Option<string>> {
    var records := RecordedUnder(l, key);
    seq(|records|, i requires 0 <= i < |records| => records[i].backupId)
  }

  lemma SeenIdIsRecorded(l: Ledger, s: Seen, e: Evidence)
    requires Explained(l, s) && e in s.items
    ensures e.backupId in Elements(RecordedIds(l, e.ActionKey()))
  {
    SeenIsRecorded(l, s, e);
    var records := RecordedUnder(l, e.ActionKey());
    var r :| r in records && FingerprintOf(r) == FingerprintOf(e) && !Newer(e, r);
    var i :| 0 <= i < |records| && records[i] == r;
    assert RecordedIds(l, e.ActionKey())[i] == e.backupId;
  }

  lemma RecordedIdsAreSeen(l: Ledger, s: Seen, key: Key)
    requires Explained(l, s)
    ensures Elements(RecordedIds(l, key)) == BackupIdsSeen(s, key)
  {
    forall i | 0 <= i < |RecordedIds(l, key)| ensures RecordedIds(l, key)[i] in BackupIdsSeen(s, key) {
      RecordIsSeen(l, s, key, i);
    }
    forall e | e in s.items && e.ActionKey() == key ensures e.backupId in Elements(RecordedIds(l, key)) {
      SeenIdIsRecorded(l, s, e);
    }
  }

  lemma RecordedIdsAreDistinct(l: Ledger, s: Seen, key: Key, i: nat, j: nat)
    requires Explained(l, s) && ReasonsOf(l.blocked, key) == {}
    requires i < j < |RecordedUnder(l, key)|
    ensures RecordedIds(l, key)[i].Some? && RecordedIds(l, key)[i] != RecordedIds(l, key)[j]
  {
    assert BackupIdentityMissing in ReasonsOf(l.blocked, key) <==> Blames(s, key, BackupIdentityMissing);
    assert BackupRevisionConflict in ReasonsOf(l.blocked, key) <==> Blames(s, key, BackupRevisionConflict);
    RecordIsSeen(l, s, key, i);
    RecordIsSeen(l, s, key, j);
    RecordsAreRevisions(l, s, key, i, j);
    assert !Rivals(RecordedUnder(l, key)[i], RecordedUnder(l, key)[j]);
  }

  /** The backup count of a verified document is the number of backup ids seen under its action. */
  lemma VerifiedCountIsDistinctBackups(l: Ledger, s: Seen, key: Key, syncedAt: int, coverage: Option<Coverage>,
                                       generation: string, limit: nat)
    requires Explained(l, s)
    requires DocumentOf(l, key, syncedAt, coverage, generation, limit).verification.Verified?
    ensures DocumentOf(l, key, syncedAt, coverage, generation, limit).referenceCount == |BackupIdsSeen(s, key)|
    ensures None !in BackupIdsSeen(s, key)
  {
    VerifiedIsExact(l, key, syncedAt, coverage, generation, limit);
    UnblamedIdsAreDistinct(l, s, key);
  }

  lemma UnblamedIdsAreDistinct(l: Ledger, s: Seen, key: Key)
    requires Explained(l, s) && ReasonsOf(l.blocked, key) == {}
    ensures |RecordedUnder(l, key)| == |BackupIdsSeen(s, key)| && None !in BackupIdsSeen(s, key)
  {
    assert BackupIdentityMissing in ReasonsOf(l.blocked, key) <==> Blames(s, key, BackupIdentityMissing);
    var ids := RecordedIds(l, key);
    forall i, j | 0 <= i < j < |ids| ensures ids[i] != ids[j] {
      RecordedIdsAreDistinct(l, s, key, i, j);
    }
    DistinctCount(ids);
    RecordedIdsAreSeen(l, s, key);
  }

  // ---- Growth -------------------------------------------------------------------------------

  lemma CandidatesGrow(s: Seen, later: Seen, key: Key)
    requires Within(s, later)
    ensures SeenCandidates(s, key) <= SeenCandidates(later, key)
  {}

  /** Two verified documents of one growing ledger publish the same names, whatever was added between
      them and whatever coverage each used. */
  lemma PublishedNamesNeverChange(l: Ledger, s: Seen, syncedAt: int, coverage: Option<Coverage>, generation: string,
                                  limit: nat, l': Ledger, s': Seen, syncedAt': int, coverage': Option<Coverage>,
                                  generation': string, limit': nat, key: Key)
    requires Explained(l, s) && Explained(l', s') && Within(s, s')
    requires DocumentOf(l, key, syncedAt, coverage, generation, limit).verification.Verified?
    requires DocumentOf(l', key, syncedAt', coverage', generation', limit').verification.Verified?
    ensures exists c :: DocumentOf(l, key, syncedAt, coverage, generation, limit).Publishes(c)
                        && DocumentOf(l', key, syncedAt', coverage', generation', limit').Publishes(c)
  {
    PublishedNamesAreTheCandidate(l, s, key, syncedAt, coverage, generation, limit);
    PublishedNamesAreTheCandidate(l', s', key, syncedAt', coverage', generation', limit');
    CandidatesGrow(s, s', key);
    OnlyCandidateStays(s, s', key, DocumentOf(l, key, syncedAt, coverage, generation, limit),
                       DocumentOf(l', key, syncedAt', coverage', generation', limit'));
  }

  lemma OnlyCandidateStays(s: Seen, s': Seen, key: Key, d: Document, d': Document)
    requires SeenCandidates(s, key) <= SeenCandidates(s', key)
    requires exists c :: IsOnlyCandidate(s, key, c) && d.Publishes(c)
    requires exists c :: IsOnlyCandidate(s', key, c) && d'.Publishes(c)
    ensures exists c :: d.Publishes(c) && d'.Publishes(c)
  {
    var c :| IsOnlyCandidate(s, key, c) && d.Publishes(c);
    var c' :| IsOnlyCandidate(s', key, c') && d'.Publishes(c');
    assert c in SeenCandidates(s', key);
    assert c == c';
  }

  lemma SeenGrowsOverRun(before: seq<Batch>, more: seq<Batch>, clock: Clock)
    ensures Within(SeenIn(RawHits(before), JobHits(before), clock),
                   SeenIn(RawHits(before + more), JobHits(before + more), clock))
  {
    HitsGrowOverRun(before, more);
    SeenGrowsWithHits(RawHits(before), JobHits(before), RawHits(before + more), JobHits(before + more), clock);
  }

  lemma HitsGrowOverRun(before: seq<Batch>, more: seq<Batch>)
    ensures RawHits(before) <= RawHits(before + more) && JobHits(before) <= JobHits(before + more)
  {}

  lemma PlusIsWithin(a: Seen, b: Seen)
    ensures Within(a, Plus(a, b))
  {}

  lemma SeenGrowsWithHits(raw: set<Value>, jobs: set<Value>, raw': set<Value>, jobs': set<Value>, clock: Clock)
    requires raw <= raw' && jobs <= jobs'
    ensures Within(SeenIn(raw, jobs, clock), SeenIn(raw', jobs', clock))
  {
    SeenGrowsWithRaw(raw, raw', jobs, clock);
    SeenGrowsWithJobs(raw', jobs, jobs', clock);
    WithinTransitive(SeenIn(raw, jobs, clock), SeenIn(raw', jobs, clock), SeenIn(raw', jobs', clock));
  }

  lemma WithinTransitive(a: Seen, b: Seen, c: Seen)
    requires Within(a, b) && Within(b, c)
    ensures Within(a, c)
  {}

  lemma SeenGrowsWithRaw(raw: set<Value>, raw': set<Value>, jobs: set<Value>, clock: Clock)
    requires raw <= raw'
    ensures Within(SeenIn(raw, jobs, clock), SeenIn(raw', jobs, clock))
  {
    assert raw + raw' == raw';
    SeenInMoreRaw(raw, raw', jobs, clock);
    PlusIsWithin(SeenIn(raw, jobs, clock), SeenInRaw(raw', clock));
  }

  lemma SeenGrowsWithJobs(raw: set<Value>, jobs: set<Value>, jobs': set<Value>, clock: Clock)
    requires jobs <= jobs'
    ensures Within(SeenIn(raw, jobs, clock), SeenIn(raw, jobs', clock))
  {
    assert jobs + jobs' == jobs';
    SeenInMoreJobs(raw, jobs, jobs', clock);
    PlusIsWithin(SeenIn(raw, jobs, clock), SeenInJobs(jobs', clock));
  }

  /** So over a run: once published, an action's names are published unchanged or not at all. */
  lemma RunsPublishOneName(before: seq<Batch>, more: seq<Batch>, clock: Clock, key: Key,
                           syncedAt: int, coverage: Option<Coverage>, generation: string, limit: nat,
                           syncedAt': int, coverage': Option<Coverage>, generation': string, limit': nat)
    requires DocumentOf(Replay(before, clock), key, syncedAt, coverage, generation, limit).verification.Verified?
    requires DocumentOf(Replay(before + more, clock), key, syncedAt', coverage', generation',
                        limit').verification.Verified?
    ensures exists c :: DocumentOf(Replay(before, clock), key, syncedAt, coverage, generation, limit).Publishes(c)
                        && DocumentOf(Replay(before + more, clock), key, syncedAt', coverage', generation',
                                      limit').Publishes(c)
  {
    RunsAreExplained(before, clock);
    RunsAreExplained(before + more, clock);
    SeenGrowsOverRun(before, more, clock);
    PublishedNamesNeverChange(
      Replay(before, clock), SeenIn(RawHits(before), JobHits(before), clock), syncedAt, coverage, generation, limit,
      Replay(before + more, clock), SeenIn(RawHits(before + more), JobHits(before + more), clock),
      syncedAt', coverage', generation', limit', key);
  }

  // ---- Fail closed --------------------------------------------------------------------------

  /** What an issue forbids: nothing at all, one action, or a whole source can no longer be verified. */
  ghost predicate Forbids(issue: Issue, key: Key) {
    match issue.source
    case None => true
    case Some(source) => source == key.source && (issue.actionId.None? || issue.actionId.value == key.id)
  }

  /** Once a malformed hit has been fed, no later build verifies what its issues forbid, and an action
      that could be identified is blocked. */
  lemma MalformedInputFailsClosed(batches: seq<Batch>, clock: Clock, hit: Value, issue: Issue, key: Key, syncedAt: int,
                                  coverage: Option<Coverage>, generation: string, limit: nat)
    requires hit in RawHits(batches) && issue in ExtractionOf(hit, clock).issues && Forbids(issue, key)
    ensures var d := DocumentOf(Replay(batches, clock), key, syncedAt, coverage, generation, limit);
            && !d.verification.Verified? && d.Anonymous()
            && (issue.source.Some? && issue.actionId.Some? ==> d.verification.Blocked?)
  {
    var l, s := Replay(batches, clock), SeenIn(RawHits(batches), JobHits(batches), clock);
    RunsAreExplained(batches, clock);
    IssuesAreSeen(RawHits(batches), hit, issue, clock);
    ForbiddenIsNotVerified(l, s, issue, key, syncedAt, coverage, generation, limit);
    ConclusionPublishesOne(key, RecordedUnder(l, key), CheckOf(key, l.jobs).action, BlockedReasons(l, key),
                           PendingReasons(l, key, coverage, syncedAt), syncedAt, coverage, generation, limit);
  }

  /** Once a hit that reports a partial collection has been fed, no later build verifies an action of its source. */
  lemma PartialCollectionFailsClosed(batches: seq<Batch>, clock: Clock, hit: Value, document: Value, payload: Value,
                                     key: Key,
                                     syncedAt: int, coverage: Option<Coverage>, generation: string, limit: nat)
    requires hit in RawHits(batches) && IsRawOf(hit, key.source, document, payload) && ReportsPartial(document, payload)
    ensures var d := DocumentOf(Replay(batches, clock), key, syncedAt, coverage, generation, limit);
            !d.verification.Verified? && d.Anonymous()
  {
    PartialHitsAreNoted(hit, key.source, document, payload, clock);
    var issue :| issue in ExtractionOf(hit, clock).issues && issue.source == Some(key.source) && issue.actionId.None?;
    MalformedInputFailsClosed(batches, clock, hit, issue, key, syncedAt, coverage, generation, limit);
  }

  /** The issue is reflected in what was seen. */
  ghost predicate Noted(s: Seen, issue: Issue) {
    match issue.source
    case None => s.unattributed
    case Some(source) => if issue.actionId.Some? then Key(source, issue.actionId.value) in s.accused
                         else source in s.incomplete
  }

  lemma NotedIsRecorded(l: Ledger, s: Seen, issue: Issue, key: Key)
    requires Explained(l, s) && Noted(s, issue) && Forbids(issue, key)
    ensures issue.source.None? ==> l.unknownSourceErrors
    ensures issue.source.Some? && issue.actionId.Some? ==> InvalidBackupEvidence in ReasonsOf(l.blocked, key)
    ensures issue.source.Some? && issue.actionId.None? ==> key.source in l.incomplete
  {
    assert InvalidBackupEvidence in ReasonsOf(l.blocked, key) <==> Blames(s, key, InvalidBackupEvidence);
  }

  lemma ForbiddenIsNotVerified(l: Ledger, s: Seen, issue: Issue, key: Key, syncedAt: int, coverage: Option<Coverage>,
                               generation: string, limit: nat)
    requires Explained(l, s) && Noted(s, issue) && Forbids(issue, key)
    ensures var d := DocumentOf(l, key, syncedAt, coverage, generation, limit);
            && !d.verification.Verified?
            && (issue.source.Some? && issue.actionId.Some? ==> d.verification.Blocked?)
  {
    NotedIsRecorded(l, s, issue, key);
    FlawIsNotVerified(l, key, syncedAt, coverage, generation, limit);
  }

  lemma FlawIsNotVerified(l: Ledger, key: Key, syncedAt: int, coverage: Option<Coverage>, generation: string,
                          limit: nat)
    ensures var d := DocumentOf(l, key, syncedAt, coverage, generation, limit);
            && (ReasonsOf(l.blocked, key) != {} ==> d.verification.Blocked?)
            && (l.unknownSourceErrors || key.source in l.incomplete ==> !d.verification.Verified?)
  {
    VerifiedIsExact(l, key, syncedAt, coverage, generation, limit);
    NoBlockIsExact(l, key);
  }

  lemma InUnion<T>(hits: set<Value>, hit: Value, f: Value -> set<T>, t: T)
    requires hit in hits && t in f(hit)
    ensures t in UnionOver(hits, f)
  {}

  lemma IssuesAreSeen(hits: set<Value>, hit: Value, issue: Issue, clock: Clock)
    requires hit in hits && issue in ExtractionOf(hit, clock).issues
    ensures Noted(SeenInRaw(hits, clock), issue)
  {
    ExtractionIsAttributed(hit, clock);
    var seen := SeenInHit(hit, clock);
    if issue.source.Some? && issue.actionId.Some? {
      var accused := Key(issue.source.value, issue.actionId.value);
      assert accused in seen.accused;
      InUnion(hits, hit, h => SeenInHit(h, clock).accused, accused);
    } else if issue.source.Some? {
      InUnion(hits, hit, h => SeenInHit(h, clock).incomplete, issue.source.value);
    }
  }

  /** An unreadable job hit has no source to confine it: nothing is verified afterwards. */
  lemma UnreadableJobFailsClosed(batches: seq<Batch>, clock: Clock, hit: Value, key: Key, syncedAt: int,
                                 coverage: Option<Coverage>, generation: string, limit: nat)
    requires hit in JobHits(batches) && ReadJob(hit, clock).Err?
    ensures !DocumentOf(Replay(batches, clock), key, syncedAt, coverage, generation, limit).verification.Verified?
  {
    RunsAreExplained(batches, clock);
    assert SeenInJobs(JobHits(batches), clock).unattributed;
    VerifiedIsExact(Replay(batches, clock), key, syncedAt, coverage, generation, limit);
  }

  // ---- Publication is possible ----------------------------------------------------------------

  /** A finished action, its workflow, and one backup of it that has an id. */
  predicate Story(e: Evidence, action: Job, workflow: Job, syncedAt: int) {
    && e.backupId.Some? && action.JobKey() == e.ActionKey() && BackupFits(e, action, syncedAt)
    && action.kind == ACTION_TYPE && action.Terminal() && Consistent(action)
    && NotBefore(Some(syncedAt), action.observedAt)
    && workflow.source == action.source && action.root == Some(workflow.identity)
    && workflow.identity != action.identity
    && workflow.kind == WORKFLOW_TYPE && Consistent(workflow)
    && NotBefore(action.start, workflow.start) && NotBefore(workflow.end, action.end)
  }

  function Told(e: Evidence, action: Job, workflow: Job): Ledger {
    AddJob(AddJob(FileEvidence(EMPTY, e), Ok(workflow)), Ok(action))
  }

  lemma LoneSnapshot(j: Job)
    ensures Selected([j]) == Some(j) && (Coherent([j]) <==> Consistent(j))
  {
    assert [j][..0] == [];
    assert Terminals([]) == [];
  }

  lemma FirstCopy(l: Ledger, j: Job)
    requires j.JobKey() !in l.jobs
    ensures AddJob(l, Ok(j)).jobs == l.jobs[j.JobKey() := [j]]
  {
    assert JobsOf(l.jobs, j.JobKey()) == [];
    assert [] + [j] == [j];
  }

  lemma ToldJobs(e: Evidence, action: Job, workflow: Job)
    requires action.JobKey() != workflow.JobKey()
    ensures Told(e, action, workflow).jobs == map[workflow.JobKey() := [workflow]][action.JobKey() := [action]]
  {
    var l := FileEvidence(EMPTY, e);
    assert l.jobs == map[];
    FirstCopy(l, workflow);
    FirstCopy(AddJob(l, Ok(workflow)), action);
  }

  lemma ToldEvidence(e: Evidence, action: Job, workflow: Job)
    requires e.backupId.Some?
    ensures var l := Told(e, action, workflow);
            && RecordedUnder(l, e.ActionKey()) == [e] && ReasonsOf(l.blocked, e.ActionKey()) == {}
            && !l.unknownSourceErrors && l.incomplete == {}
  {
    var l := FileEvidence(EMPTY, e);
    assert Conflicting(map[], {}, FingerprintOf(e)) == {};
    assert RecordsOf(l.evidence, e.ActionKey()) == [Entry(FingerprintOf(e), e)];
  }

  /** One complete story suffices: the ledger it makes is one that runs explain, and under a complete, reviewed
      coverage its names are published. */
  lemma CompleteStoryIsPublished(e: Evidence, action: Job, workflow: Job, syncedAt: int, coverage: Coverage,
                                 generation: string, limit: nat)
    requires Story(e, action, workflow, syncedAt) && Sound(e) && Canonical(action) && Canonical(workflow)
    requires coverage.CompleteFor(action.start, action.end) && coverage.suffixReviewed
    ensures var l := Told(e, action, workflow);
            && Explained(l, Seen({e}, {}, {}, false, {workflow, action}))
            && DocumentOf(l, e.ActionKey(), syncedAt, Some(coverage), generation, limit).Publishes(e.Normalized())
  {
    var l := Told(e, action, workflow);
    ToldIsExplained(e, action, workflow);
    ToldIsSupported(e, action, workflow, syncedAt, coverage);
    VerifiedIsExact(l, e.ActionKey(), syncedAt, Some(coverage), generation, limit);
    var s := Seen({e}, {}, {}, false, {workflow, action});
    PublishedNamesAreTheCandidate(l, s, e.ActionKey(), syncedAt, Some(coverage), generation, limit);
    assert e in s.items && e.Normalized() in SeenCandidates(s, e.ActionKey());
  }

  lemma ToldIsExplained(e: Evidence, action: Job, workflow: Job)
    requires Sound(e) && Canonical(action) && Canonical(workflow)
    ensures Explained(Told(e, action, workflow), Seen({e}, {}, {}, false, {workflow, action}))
  {
    NothingSeen();
    FileExplains(EMPTY, NOTHING, e);
    var s := WithItems(NOTHING, {e});
    SnapshotExplains(FileEvidence(EMPTY, e), s, workflow);
    SnapshotExplains(AddJob(FileEvidence(EMPTY, e), Ok(workflow)), s.(jobs := s.jobs + {workflow}), action);
    assert {} + {e} == {e} && {} + {workflow} + {action} == {workflow, action};
  }

  lemma SnapshotExplains(l: Ledger, s: Seen, j: Job)
    requires Explained(l, s) && Canonical(j)
    ensures Explained(AddJob(l, Ok(j)), s.(jobs := s.jobs + {j}))
  {
    JobExplains(l, s, Ok(j));
    assert Plus(s, SeenInRead(Ok(j))) == s.(jobs := s.jobs + {j});
  }

  lemma StoryFits(e: Evidence, action: Job, workflow: Job, syncedAt: int, jobs: map<Key, seq<Job>>)
    requires Story(e, action, workflow, syncedAt)
    requires jobs == map[workflow.JobKey() := [workflow]][action.JobKey() := [action]]
    ensures HierarchyFits(e.ActionKey(), jobs) && JobsOf(jobs, e.ActionKey()) == [action]
  {
    LoneSnapshot(action);
    LoneSnapshot(workflow);
    assert WorkflowsOf(jobs, action) == [workflow];
  }

  lemma ToldIsSupported(e: Evidence, action: Job, workflow: Job, syncedAt: int, coverage: Coverage)
    requires Story(e, action, workflow, syncedAt)
    requires coverage.CompleteFor(action.start, action.end) && coverage.suffixReviewed
    ensures Supported(Told(e, action, workflow), e.ActionKey(), syncedAt, Some(coverage))
  {
    ToldJobs(e, action, workflow);
    ToldEvidence(e, action, workflow);
    StoryIsSupported(Told(e, action, workflow), e, action, workflow, syncedAt, coverage);
  }

  lemma StoryIsSupported(l: Ledger, e: Evidence, action: Job, workflow: Job, syncedAt: int, coverage: Coverage)
    requires Story(e, action, workflow, syncedAt)
    requires coverage.CompleteFor(action.start, action.end) && coverage.suffixReviewed
    requires l.jobs == map[workflow.JobKey() := [workflow]][action.JobKey() := [action]]
    requires RecordedUnder(l, e.ActionKey()) == [e] && ReasonsOf(l.blocked, e.ActionKey()) == {}
    requires !l.unknownSourceErrors && l.incomplete == {}
    ensures Supported(l, e.ActionKey(), syncedAt, Some(coverage))
  {
    StoryFits(e, action, workflow, syncedAt, l.jobs);
    LoneSnapshot(action);
    assert CandidatesOf([e]) == {e.Normalized()};
  }

  // ---- Which records and actions there are ------------------------------------------------------

  /** Of each revision seen under a key one observation is kept, and none observed later was seen. */
  lemma LatestObservationIsKept(l: Ledger, s: Seen, e: Evidence)
    requires Explained(l, s) && e in s.items
    ensures exists r :: r in RecordedUnder(l, Key(e.source, e.actionId)) && r in s.items
              && FingerprintOf(r) == FingerprintOf(e)
              && (e.observedAt.Some? ==> r.observedAt.Some? && e.observedAt.value <= r.observedAt.value)
  {
    SeenIsRecorded(l, s, e);
    var r :| r in RecordedUnder(l, e.ActionKey()) && FingerprintOf(r) == FingerprintOf(e) && !Newer(e, r);
    RecordWasSeen(l, s, e.ActionKey(), r);
    NotNewerIsNotLater(e, r);
  }

  lemma RecordWasSeen(l: Ledger, s: Seen, key: Key, r: Evidence)
    requires Explained(l, s) && r in RecordedUnder(l, key)
    ensures r in s.items
  {
    RecordsAreSeen(l, s, key);
  }

  lemma NotNewerIsNotLater(e: Evidence, r: Evidence)
    requires !Newer(e, r)
    ensures e.observedAt.Some? ==> r.observedAt.Some? && e.observedAt.value <= r.observedAt.value
  {}

  /** A build has a document for exactly the actions that a backup names, an attributed finding accuses, an action
      job is, or a save job names as its parent. */
  lemma KnownExactly(l: Ledger, s: Seen, key: Key)
    requires Explained(l, s)
    ensures key in LedgerKeys(l) <==>
            || (exists e :: e in s.items && e.source == key.source && e.actionId == key.id)
            || key in s.accused
            || (exists j ::
                  j in s.jobs && j.source == key.source && j.identity == key.id && j.kind == "backup action job")
            || (exists j :: j in s.jobs && j.kind == "save job" && j.source == key.source && j.parent == Some(key.id))
  {
    KnownByEvidence(l, s, key);
    KnownByBlock(l, s, key);
    KnownInParts(l, key);
    if Announced(l.jobs, key) {
      AnnouncedWasSeen(l, s, key);
    }
    if exists j :: j in s.jobs && Announces(j, j.JobKey(), key) {
      SeenIsAnnounced(l, s, key);
    }
    AnnouncingExactly(s.jobs, key);
  }

  lemma KnownByEvidence(l: Ledger, s: Seen, key: Key)
    requires Explained(l, s)
    ensures key in l.evidence <==> exists e :: e in s.items && e.source == key.source && e.actionId == key.id
  {
    if key in l.evidence {
      RecordIsSeen(l, s, key, 0);
    }
    if e :| e in s.items && e.source == key.source && e.actionId == key.id {
      assert e.ActionKey() == key;
      SeenIsRecorded(l, s, e);
    }
  }

  lemma KnownByBlock(l: Ledger, s: Seen, key: Key)
    requires Explained(l, s)
    ensures key in s.accused ==> key in l.blocked
    ensures key in l.blocked ==>
              key in s.accused || exists e :: e in s.items && e.source == key.source && e.actionId == key.id
  {
    assert InvalidBackupEvidence in ReasonsOf(l.blocked, key) <==> Blames(s, key, InvalidBackupEvidence);
    if key in l.blocked {
      var r :| r in l.blocked[key];
      assert r in ReasonsOf(l.blocked, key) <==> Blames(s, key, r);
    }
  }

  /** A snapshot filed under `k` makes the action known. */
  predicate Announces(j: Job, k: Key, key: Key) {
    (k == key && j.kind == "backup action job")
    || (j.kind == "save job" && j.parent.Some? && key == Key(j.source, j.parent.value))
  }

  ghost predicate Announced(jobs: map<Key, seq<Job>>, key: Key) {
    exists k, j :: k in jobs && j in jobs[k] && Announces(j, k, key)
  }

  lemma AnnouncingExactly(jobs: set<Job>, key: Key)
    ensures (exists j :: j in jobs && Announces(j, j.JobKey(), key)) <==>
            || (exists j ::
                  j in jobs && j.source == key.source && j.identity == key.id && j.kind == "backup action job")
            || (exists j :: j in jobs && j.kind == "save job" && j.source == key.source && j.parent == Some(key.id))
  {
    if j :| j in jobs && j.source == key.source && j.identity == key.id && j.kind == "backup action job" {
      assert Announces(j, j.JobKey(), key);
    }
    if j :| j in jobs && j.kind == "save job" && j.source == key.source && j.parent == Some(key.id) {
      assert Announces(j, j.JobKey(), key);
    }
  }

  lemma AnnouncedWasSeen(l: Ledger, s: Seen, key: Key)
    requires Explained(l, s) && Announced(l.jobs, key)
    ensures exists j :: j in s.jobs && Announces(j, j.JobKey(), key)
  {
    var k, j :| k in l.jobs && j in l.jobs[k] && Announces(j, k, key);
    assert j in JobsOf(l.jobs, k) <==> j in s.jobs && j.JobKey() == k;
  }

  lemma SeenIsAnnounced(l: Ledger, s: Seen, key: Key)
    requires Explained(l, s) && exists j :: j in s.jobs && Announces(j, j.JobKey(), key)
    ensures Announced(l.jobs, key)
  {
    var j :| j in s.jobs && Announces(j, j.JobKey(), key);
    assert j in JobsOf(l.jobs, j.JobKey()) <==> j in s.jobs && j.JobKey() == j.JobKey();
  }

  lemma KnownInParts(l: Ledger, key: Key)
    ensures key in LedgerKeys(l) <==> key in l.evidence || key in l.blocked || Announced(l.jobs, key)
  {
    if key in LedgerKeys(l) && key !in l.evidence && key !in l.blocked {
      if key in l.jobs && exists j | j in l.jobs[key] :: j.kind == ACTION_TYPE {
        var j :| j in l.jobs[key] && j.kind == ACTION_TYPE;
        assert Announces(j, key, key);
      } else {
        var k, j :| k in l.jobs && j in l.jobs[k] && j.kind == SAVE_TYPE && j.parent.Some?
                    && key == Key(j.source, j.parent.value);
        assert Announces(j, k, key);
      }
    }
  }
}
