/** The verdict on an action depends on which hits were fed, not on their order, batching or repetition. */
module ArrivalOrder {
  import opened Basics
  import opened Text
  import opened Dict
  import opened Models
  import opened Validate
  import opened EvidenceLedger
  import opened History
  import opened Verdicts

  /** Unfinished copies of a job observed at one time in one status agree on its end. */
  ghost predicate TiesAgree(jobs: set<Job>) {
    forall a, b | a in jobs && b in jobs && a.JobKey() == b.JobKey() && !a.Terminal() && !b.Terminal()
                  && a.observedAt == b.observedAt && a.status == b.status :: a.end == b.end
  }

  /** Observations of one revision at one time agree on whether their raw hit can be located. */
  ghost predicate ReferencesAgree(items: set<Evidence>) {
    forall a, b | a in items && b in items && SameObservation(a, b) ::
      a.reference.Locatable() == b.reference.Locatable()
  }

  ghost predicate SameObservation(a: Evidence, b: Evidence) {
    a.ActionKey() == b.ActionKey() && FingerprintOf(a) == FingerprintOf(b) && a.observedAt == b.observedAt
  }

  // ---- Snapshots in any order ---------------------------------------------------------------

  ghost predicate SameSnapshots(a: seq<Job>, b: seq<Job>) {
    forall j :: j in a <==> j in b
  }

  /** Equal up to where the snapshot was read. */
  ghost predicate Alike(a: Job, b: Job) {
    a.(reference := b.reference) == b
  }

  lemma UnbeatenAreLevel(a: Job, b: Job)
    requires !Outranks(a, b) && !Outranks(b, a)
    ensures a.observedAt == b.observedAt && a.status == b.status
  {
    BelowTotal(a.status, b.status);
  }

  lemma SelectedAlike(a: seq<Job>, b: seq<Job>, jobs: set<Job>, key: Key)
    requires SameSnapshots(a, b) && a != [] && b != []
    requires forall j | j in a :: j in jobs && j.JobKey() == key
    requires TiesAgree(jobs) && OneExecution(a) && OneHierarchy(a) && OneTermination(a)
    ensures Alike(Selected(a).value, Selected(b).value)
  {
    var x, y := Selected(a).value, Selected(b).value;
    assert forall j :: j in Terminals(a) <==> j in Terminals(b);
    assert Terminals(a) != [] ==> Terminals(a)[0] in Terminals(b);
    assert Terminals(b) != [] ==> Terminals(b)[0] in Terminals(a);
    LatestIsUnbeaten(Pool(a));
    LatestIsUnbeaten(Pool(b));
    UnbeatenAreLevel(x, y);
    assert x in a && y in a;
  }

  lemma StoryAgrees(a: seq<Job>, b: seq<Job>)
    requires SameSnapshots(a, b)
    ensures OneExecution(a) ==> OneExecution(b)
    ensures OneHierarchy(a) ==> OneHierarchy(b)
    ensures OneTermination(a) ==> OneTermination(b)
  {}

  lemma SameEmptiness(a: seq<Job>, b: seq<Job>)
    requires SameSnapshots(a, b)
    ensures a == [] <==> b == []
  {
    assert a != [] ==> a[0] in b;
    assert b != [] ==> b[0] in a;
  }

  lemma CoherenceAgrees(a: seq<Job>, b: seq<Job>, jobs: set<Job>, key: Key)
    requires SameSnapshots(a, b)
    requires forall j | j in a :: j in jobs && j.JobKey() == key
    requires TiesAgree(jobs)
    ensures a == [] <==> b == []
    ensures Coherent(a) <==> Coherent(b)
    ensures Coherent(a) ==> Alike(Selected(a).value, Selected(b).value)
  {
    SameEmptiness(a, b);
    StoryAgrees(a, b);
    StoryAgrees(b, a);
    if a != [] && OneExecution(a) && OneHierarchy(a) && OneTermination(a) {
      SelectedAlike(a, b, jobs, key);
      AlikeAreConsistent(Selected(a).value, Selected(b).value);
    }
  }

  lemma AlikeAreConsistent(a: Job, b: Job)
    requires Alike(a, b)
    ensures Consistent(a) <==> Consistent(b)
  {}

  lemma CopiesAgree(x: map<Key, seq<Job>>, y: map<Key, seq<Job>>, jobs: set<Job>, key: Key)
    requires JobsExplained(x, jobs) && JobsExplained(y, jobs) && TiesAgree(jobs)
    ensures var a, b := JobsOf(x, key), JobsOf(y, key);
            && SameSnapshots(a, b) && (a == [] <==> b == []) && (key in x <==> key in y)
            && (Coherent(a) <==> Coherent(b))
            && (Coherent(a) ==> Alike(Selected(a).value, Selected(b).value))
  {
    var a, b := JobsOf(x, key), JobsOf(y, key);
    forall j ensures j in a <==> j in b {
      assert j in a <==> j in jobs && j.JobKey() == key;
      assert j in b <==> j in jobs && j.JobKey() == key;
    }
    forall j | j in a ensures j in jobs && j.JobKey() == key {}
    CoherenceAgrees(a, b, jobs, key);
  }

  lemma WorkflowsAgree(x: map<Key, seq<Job>>, y: map<Key, seq<Job>>, jobs: set<Job>, action: Job, action': Job)
    requires JobsExplained(x, jobs) && JobsExplained(y, jobs) && TiesAgree(jobs) && Alike(action, action')
    ensures WorkflowsOf(x, action) == [] <==> WorkflowsOf(y, action') == []
    ensures WorkflowFits(WorkflowsOf(x, action), action) <==> WorkflowFits(WorkflowsOf(y, action'), action')
  {
    if action.root.Some? {
      CopiesAgree(x, y, jobs, Key(action.source, action.root.value));
    }
  }

  lemma SavesAgree(x: map<Key, seq<Job>>, y: map<Key, seq<Job>>, jobs: set<Job>, key: Key, action: Job, action': Job)
    requires JobsExplained(x, jobs) && JobsExplained(y, jobs) && TiesAgree(jobs) && Alike(action, action')
    requires forall k | k in x && Related(x[k], key) :: SaveFits(x[k], action)
    ensures forall k | k in y && Related(y[k], key) :: SaveFits(y[k], action')
  {
    forall k | k in y && Related(y[k], key) ensures SaveFits(y[k], action') {
      CopiesAgree(x, y, jobs, k);
      var j :| j in y[k] && SaveOf(j, key);
      assert j in x[k] && Related(x[k], key);
      assert SaveFits(x[k], action);
    }
  }

  /** The execution check blocks in both ledgers or in neither; unblocked, it sees the same run. */
  lemma ExecutionAgrees(x: map<Key, seq<Job>>, y: map<Key, seq<Job>>, jobs: set<Job>, key: Key)
    requires JobsExplained(x, jobs) && JobsExplained(y, jobs) && TiesAgree(jobs)
    ensures NoExecutionBlock(key, x) ==> NoExecutionBlock(key, y)
    ensures NoExecutionBlock(key, x) ==> (ExecutionComplete(key, x) <==> ExecutionComplete(key, y))
    ensures NoExecutionBlock(key, x) ==>
              match (CheckOf(key, x).action, CheckOf(key, y).action)
              case (Some(a), Some(b)) => Alike(a, b)
              case (None, None) => true
              case _ => false
  {
    CopiesAgree(x, y, jobs, key);
    if NoExecutionBlock(key, x) && JobsOf(x, key) != [] {
      var action, action' := Selected(JobsOf(x, key)).value, Selected(JobsOf(y, key)).value;
      WorkflowsAgree(x, y, jobs, action, action');
      SavesAgree(x, y, jobs, key, action, action');
    }
  }

  // ---- Evidence in any order ----------------------------------------------------------------

  /** The record of the same revision in the other ledger was observed at the same time. */
  lemma RecordAgrees(l: Ledger, l': Ledger, s: Seen, key: Key, e: Evidence) returns (r: Evidence)
    requires Explained(l, s) && Explained(l', s) && ReferencesAgree(s.items)
    requires e in RecordedUnder(l, key)
    ensures r in RecordedUnder(l', key) && SameObservation(e, r) && e.reference.Locatable() == r.reference.Locatable()
  {
    var i :| 0 <= i < |RecordedUnder(l, key)| && RecordedUnder(l, key)[i] == e;
    RecordIsSeen(l, s, key, i);
    SeenIsRecorded(l', s, e);
    r :| r in RecordedUnder(l', key) && FingerprintOf(r) == FingerprintOf(e) && !Newer(e, r);
    var j :| 0 <= j < |RecordedUnder(l', key)| && RecordedUnder(l', key)[j] == r;
    RecordIsSeen(l', s, key, j);
    NotNewerThanRecord(l, s, key, e, r);
    LevelObservationsAgree(s.items, e, r);
  }

  lemma LevelObservationsAgree(items: set<Evidence>, a: Evidence, b: Evidence)
    requires ReferencesAgree(items) && a in items && b in items
    requires a.ActionKey() == b.ActionKey() && FingerprintOf(a) == FingerprintOf(b) && !Newer(a, b) && !Newer(b, a)
    ensures SameObservation(a, b) && a.reference.Locatable() == b.reference.Locatable()
  {
    assert SameObservation(a, b);
  }

  lemma NotNewerThanRecord(l: Ledger, s: Seen, key: Key, e: Evidence, other: Evidence)
    requires Explained(l, s) && e in RecordedUnder(l, key)
    requires other in s.items && other.ActionKey() == key && FingerprintOf(other) == FingerprintOf(e)
    ensures !Newer(other, e)
  {
    var i :| 0 <= i < |RecordedUnder(l, key)| && RecordedUnder(l, key)[i] == e;
    var entries := RecordsOf(l.evidence, key);
    RecordIsSeen(l, s, key, i);
    LookupIsUnique(entries, entries[i]);
    assert RecordExplained(entries, s.items, key, FingerprintOf(e));
    assert Under(other, key, FingerprintOf(e));
  }

  lemma EvidenceAgrees(l: Ledger, l': Ledger, s: Seen, key: Key, syncedAt: int, start: Option<int>, end: Option<int>)
    requires Explained(l, s) && Explained(l', s) && ReferencesAgree(s.items)
    ensures EvidencePending(RecordedUnder(l, key), syncedAt) == {} ==>
              EvidencePending(RecordedUnder(l', key), syncedAt) == {}
    ensures (forall e | e in RecordedUnder(l, key) :: !TimeConflict(e, start, end)) ==>
            forall e | e in RecordedUnder(l', key) :: !TimeConflict(e, start, end)
    ensures RecordedUnder(l, key) == [] ==> RecordedUnder(l', key) == []
  {
    EvidencePendingIsExact(RecordedUnder(l, key), syncedAt);
    EvidencePendingIsExact(RecordedUnder(l', key), syncedAt);
    forall e | e in RecordedUnder(l', key)
      ensures exists r :: r in RecordedUnder(l, key) && SameObservation(e, r)
                          && e.reference.Locatable() == r.reference.Locatable()
    {
      var r := RecordAgrees(l', l, s, key, e);
    }
    assert RecordedUnder(l', key) != [] ==> RecordedUnder(l', key)[0] in RecordedUnder(l', key);
  }

  // ---- The verdict --------------------------------------------------------------------------

  lemma BlockAgrees(l: Ledger, l': Ledger, s: Seen, key: Key)
    requires Explained(l, s) && Explained(l', s) && ReferencesAgree(s.items) && TiesAgree(s.jobs)
    ensures BlockedReasons(l, key) == {} ==> BlockedReasons(l', key) == {}
  {
    NoBlockIsExact(l, key);
    NoBlockIsExact(l', key);
    CheckBlocksExactly(key, l.jobs);
    CheckBlocksExactly(key, l'.jobs);
    ExecutionAgrees(l.jobs, l'.jobs, s.jobs, key);
    LedgerReasonsAgree(l, l', s, key);
    EvidenceAgrees(l, l', s, key, 0, StartOf(CheckOf(key, l.jobs).action), EndOf(CheckOf(key, l.jobs).action));
  }

  lemma LedgerReasonsAgree(l: Ledger, l': Ledger, s: Seen, key: Key)
    requires Explained(l, s) && Explained(l', s)
    ensures ReasonsOf(l.blocked, key) == ReasonsOf(l'.blocked, key)
  {
    forall r ensures r in ReasonsOf(l.blocked, key) <==> r in ReasonsOf(l'.blocked, key) {
      assert r in ReasonsOf(l.blocked, key) <==> Blames(s, key, r);
      assert r in ReasonsOf(l'.blocked, key) <==> Blames(s, key, r);
    }
  }

  lemma PendingAgrees(l: Ledger, l': Ledger, s: Seen, key: Key, syncedAt: int, coverage: Option<Coverage>)
    requires Explained(l, s) && Explained(l', s) && ReferencesAgree(s.items) && TiesAgree(s.jobs)
    requires BlockedReasons(l, key) == {}
    ensures PendingReasons(l, key, coverage, syncedAt) == {} ==> PendingReasons(l', key, coverage, syncedAt) == {}
  {
    NoBlockIsExact(l, key);
    NoPendingIsExact(l, key, coverage, syncedAt);
    NoPendingIsExact(l', key, coverage, syncedAt);
    CheckBlocksExactly(key, l.jobs);
    CheckPendsExactly(key, l.jobs);
    CheckPendsExactly(key, l'.jobs);
    ExecutionAgrees(l.jobs, l'.jobs, s.jobs, key);
    EvidenceAgrees(l, l', s, key, syncedAt, None, None);
    EvidenceAgrees(l', l, s, key, syncedAt, None, None);
  }

  /** What a reader of the lookup acts on. */
  ghost predicate SameVerdict(a: Document, b: Document) {
    && a.candidates == b.candidates && a.mapping == b.mapping && a.verification == b.verification
    && a.policy == b.policy && a.workflow == b.workflow && a.group == b.group
  }

  lemma ConclusionsAgree(key: Key, syncedAt: int, coverage: Option<Coverage>, generation: string, limit: nat,
                         records: seq<Evidence>, action: Option<Job>, blocked: set<Reason>, pending: set<Reason>,
                         records': seq<Evidence>, action': Option<Job>, blocked': set<Reason>, pending': set<Reason>)
    requires CandidatesOf(records) == CandidatesOf(records')
    requires blocked == {} <==> blocked' == {}
    requires blocked == {} ==> (pending == {} <==> pending' == {})
    ensures SameVerdict(Conclude(key, records, action, blocked, pending, syncedAt, coverage, generation, limit),
                        Conclude(key, records', action', blocked', pending', syncedAt, coverage, generation, limit))
  {}

  lemma VerdictAgrees(l: Ledger, l': Ledger, s: Seen, key: Key, syncedAt: int, coverage: Option<Coverage>,
                      generation: string, limit: nat)
    requires Explained(l, s) && Explained(l', s) && ReferencesAgree(s.items) && TiesAgree(s.jobs)
    ensures SameVerdict(DocumentOf(l, key, syncedAt, coverage, generation, limit),
                        DocumentOf(l', key, syncedAt, coverage, generation, limit))
  {
    CandidatesAreSeen(l, s, key);
    CandidatesAreSeen(l', s, key);
    BlockAgrees(l, l', s, key);
    BlockAgrees(l', l, s, key);
    if BlockedReasons(l, key) == {} {
      PendingAgrees(l, l', s, key, syncedAt, coverage);
      PendingAgrees(l', l, s, key, syncedAt, coverage);
    }
    ConclusionsAgree(key, syncedAt, coverage, generation, limit,
                     RecordedUnder(l, key), CheckOf(key, l.jobs).action,
                     BlockedReasons(l, key), PendingReasons(l, key, coverage, syncedAt),
                     RecordedUnder(l', key), CheckOf(key, l'.jobs).action,
                     BlockedReasons(l', key), PendingReasons(l', key, coverage, syncedAt));
  }

  lemma JobsArriveAlike(l: Ledger, l': Ledger, s: Seen, k: Key, j: Job)
    requires Explained(l, s) && Explained(l', s) && k in l.jobs && j in l.jobs[k]
    ensures k in l'.jobs && j in l'.jobs[k]
  {
    assert j in JobsOf(l.jobs, k);
    assert j in s.jobs && j.JobKey() == k;
    assert j in JobsOf(l'.jobs, k);
  }

  /** Both ledgers have documents for the same actions. */
  lemma KeysAgree(l: Ledger, l': Ledger, s: Seen, key: Key)
    requires Explained(l, s) && Explained(l', s) && key in LedgerKeys(l)
    ensures key in LedgerKeys(l')
  {
    if key in l.evidence {
      RecordIsSeen(l, s, key, 0);
      SeenIsRecorded(l', s, RecordedUnder(l, key)[0]);
    } else if key in l.blocked {
      var r :| r in l.blocked[key];
      assert r in ReasonsOf(l.blocked, key) <==> Blames(s, key, r);
      assert r in ReasonsOf(l'.blocked, key) <==> Blames(s, key, r);
    } else if key in l.jobs && exists j | j in l.jobs[key] :: j.kind == ACTION_TYPE {
      var j :| j in l.jobs[key] && j.kind == ACTION_TYPE;
      JobsArriveAlike(l, l', s, key, j);
    } else {
      var k, j :| k in l.jobs && j in l.jobs[k] && j.kind == SAVE_TYPE && j.parent.Some?
        && key == Key(j.source, j.parent.value);
      JobsArriveAlike(l, l', s, k, j);
    }
  }

  /** Two runs fed the same hits reach the same verdicts: permuting, re-batching or repeating them is
      invisible, as long as equally late observations do not contradict each other. */
  lemma ArrivalOrderIsIrrelevant(one: seq<Batch>, other: seq<Batch>, clock: Clock, key: Key, syncedAt: int,
                                 coverage: Option<Coverage>, generation: string, limit: nat)
    requires RawHits(one) == RawHits(other) && JobHits(one) == JobHits(other)
    requires ReferencesAgree(SeenIn(RawHits(one), JobHits(one), clock).items)
    requires TiesAgree(SeenIn(RawHits(one), JobHits(one), clock).jobs)
    ensures key in LedgerKeys(Replay(one, clock)) <==> key in LedgerKeys(Replay(other, clock))
    ensures SameVerdict(DocumentOf(Replay(one, clock), key, syncedAt, coverage, generation, limit),
                        DocumentOf(Replay(other, clock), key, syncedAt, coverage, generation, limit))
  {
    RunsAreExplained(one, clock);
    RunsAreExplained(other, clock);
    var seen := SeenIn(RawHits(one), JobHits(one), clock);
    if key in LedgerKeys(Replay(one, clock)) {
      KeysAgree(Replay(one, clock), Replay(other, clock), seen, key);
    }
    if key in LedgerKeys(Replay(other, clock)) {
      KeysAgree(Replay(other, clock), Replay(one, clock), seen, key);
    }
    VerdictAgrees(Replay(one, clock), Replay(other, clock), SeenIn(RawHits(one), JobHits(one), clock),
                  key, syncedAt, coverage, generation, limit);
  }

  // ---- Why ties must agree ------------------------------------------------------------------

  /** Of two unfinished snapshots level in time and status the first to arrive is chosen: when only one
      of their ends is possible, the order of arrival decides whether the action is blocked. */
  lemma TiesAreBrokenByArrival(a: Job, b: Job)
    requires !a.Terminal() && b == a.(end := b.end)
    requires Consistent(a) && !Consistent(b)
    ensures Coherent([a, b]) && !Coherent([b, a])
  {
    FirstOfLevelSnapshotsIsChosen(a, b);
    FirstOfLevelSnapshotsIsChosen(b, a);
  }

  lemma FirstOfLevelSnapshotsIsChosen(a: Job, b: Job)
    requires !a.Terminal() && !b.Terminal() && a.observedAt == b.observedAt && a.status == b.status
    ensures Terminals([a, b]) == [] && Selected([a, b]) == Some(a)
  {
    BelowIrreflexive(a.status);
    assert [a, b][..1] == [a];
    assert Terminals([a]) == [];
  }

  /** Of two equally late observations of one revision the first to arrive is kept, with its reference. */
  lemma FirstOfLevelObservationsIsKept(a: Evidence, b: Evidence)
    requires SameObservation(a, b)
    ensures Values(Observe(Observe([], a), b)) == [a]
    ensures Values(Observe(Observe([], b), a)) == [b]
  {}
}
