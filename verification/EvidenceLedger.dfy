/** The evidence ledger as a value: what one observation adds to it, and the document it supports. */
module EvidenceLedger {
  import opened Basics
  import opened Dict
  import opened Json
  import opened Models
  import opened Extract
  import opened Validate

  type Records = seq<Entry<Fingerprint, Evidence>>

  /** A backup id within the source that reported it. */
  datatype Identity = Identity(source: Source, backupId: string)

  datatype Ledger = Ledger(
    evidence: map<Key, Records>, jobs: map<Key, seq<Job>>, issues: seq<Issue>, incomplete: set<Source>,
    unknownSourceErrors: bool, blocked: map<Key, set<Reason>>, identities: map<Identity, map<Fingerprint, Key>>)

  const EMPTY := Ledger(map[], map[], [], {}, false, map[], map[])

  function RecordsOf(evidence: map<Key, Records>, key: Key): Records {
    if key in evidence then evidence[key] else []
  }

  function ReasonsOf(blocked: map<Key, set<Reason>>, key: Key): set<Reason> {
    if key in blocked then blocked[key] else {}
  }

  function RevisionsOf(identities: map<Identity, map<Fingerprint, Key>>, id: Identity): map<Fingerprint, Key> {
    if id in identities then identities[id] else map[]
  }

  // ---- Adding observations ------------------------------------------------------------------

  /** The reason is added under each of the keys. */
  function AddReason(blocked: map<Key, set<Reason>>, keys: set<Key>, r: Reason): map<Key, set<Reason>> {
    map k | k in blocked.Keys + keys :: ReasonsOf(blocked, k) + (if k in keys then {r} else {})
  }

  /** Where revisions of a backup other than `fingerprint` were filed. */
  function Conflicting(revisions: map<Fingerprint, Key>, over: set<Fingerprint>, fingerprint: Fingerprint): set<Key>
    requires over <= revisions.Keys
  {
    set f | f in over && f != fingerprint :: revisions[f]
  }

  /** A revision conflict blocks both sides. */
  function MarkConflicts(blocked: map<Key, set<Reason>>, conflicting: set<Key>, key: Key): map<Key, set<Reason>> {
    if conflicting == {} then blocked else AddReason(blocked, conflicting + {key}, BackupRevisionConflict)
  }

  predicate Newer(item: Evidence, previous: Evidence) {
    EarlierTime(previous.observedAt, item.observedAt)
  }

  /** The latest observation of each revision is kept, the first of equals. */
  function Observe(records: Records, item: Evidence): Records {
    var fingerprint := FingerprintOf(item);
    match Lookup(records, fingerprint)
    case None => Put(records, fingerprint, item)
    case Some(previous) => if Newer(item, previous) then Put(records, fingerprint, item) else records
  }

  function Identify(l: Ledger, item: Evidence): Ledger {
    var key, fingerprint := item.ActionKey(), FingerprintOf(item);
    if item.backupId.None? then l.(blocked := AddReason(l.blocked, {key}, BackupIdentityMissing))
    else
      var id := Identity(item.source, item.backupId.value);
      var revisions := RevisionsOf(l.identities, id);
      l.(blocked := MarkConflicts(l.blocked, Conflicting(revisions, revisions.Keys, fingerprint), key),
         identities := l.identities[id := revisions[fingerprint := key]])
  }

  function FileEvidence(l: Ledger, item: Evidence): Ledger {
    var identified := Identify(l, item);
    var records := Observe(RecordsOf(l.evidence, item.ActionKey()), item);
    identified.(evidence := identified.evidence[item.ActionKey() := records])
  }

  function FileAll(l: Ledger, items: seq<Evidence>): Ledger {
    if items == [] then l else FileEvidence(FileAll(l, items[..|items| - 1]), items[|items| - 1])
  }

  function NoteIssue(l: Ledger, issue: Issue): Ledger {
    if issue.source.None? then l.(unknownSourceErrors := true)
    else if issue.actionId.Some? then
      l.(blocked := AddReason(l.blocked, {Key(issue.source.value, issue.actionId.value)}, InvalidBackupEvidence))
    else l
  }

  function NoteIssues(l: Ledger, issues: seq<Issue>): Ledger {
    if issues == [] then l else NoteIssue(NoteIssues(l, issues[..|issues| - 1]), issues[|issues| - 1])
  }

  function AddExtraction(l: Ledger, x: Extraction): Ledger {
    FileAll(NoteIssues(l.(issues := l.issues + x.issues, incomplete := l.incomplete + x.incomplete), x.issues),
            x.evidence)
  }

  /** A RAW batch: one extraction per hit, in order. */
  function AddRaw(l: Ledger, hits: seq<Value>, clock: Clock): Ledger {
    if hits == [] then l
    else AddExtraction(AddRaw(l, hits[..|hits| - 1], clock), ExtractionOf(hits[|hits| - 1], clock))
  }

  function AddJob(l: Ledger, read: Result<Job, string>): Ledger {
    match read
    case Err(e) => l.(issues := l.issues + [Issue({e}, None, None, None)], unknownSourceErrors := true)
    case Ok(job) =>
      var copies := JobsOf(l.jobs, job.JobKey());
      l.(jobs := l.jobs[job.JobKey() := if job in copies then copies else copies + [job]],
         issues := if job.kind == SAVE_TYPE && job.parent.None?
                   then l.issues + [Issue({"invalid_save_parent"}, Some(job.source), None, Some(job.reference))]
                   else l.issues)
  }

  function AddJobs(l: Ledger, hits: seq<Value>, clock: Clock): Ledger {
    if hits == [] then l
    else AddJob(AddJobs(l, hits[..|hits| - 1], clock), ReadJob(hits[|hits| - 1], clock))
  }

  // ---- The document of one action -----------------------------------------------------------

  datatype Mapping = Ambiguous | Resolved | Invalid | Unresolved

  datatype Verification = Blocked | Provisional | Verified | Unverified

  datatype AuditItem = AuditItem(
    original: Candidate, normalized: Candidate, policySuffix: Option<string>, workflowSuffix: Option<string>,
    attributes: seq<Attribute>, reference: Reference)

  /** The run metadata of a document. */
  datatype Execution = Execution(
    start: Option<int>, end: Option<int>, status: Option<string>, kind: Option<string>, workflowRun: Option<string>)

  /** One lookup document. `candidates` is what the candidate fingerprint digests. */
  datatype Document = Document(
    runKey: string, source: string, actionId: string, execution: Execution,
    policy: Option<string>, workflow: Option<string>, group: Option<string>,
    mapping: Mapping, verification: Verification, reasons: set<Reason>,
    candidateCount: nat, rawCandidateCount: nat, candidates: set<Candidate>,
    suffixReviewed: bool, generation: string, observedAt: Option<int>, syncedAt: int,
    coverageFrom: Option<int>, coverageTo: Option<int>, coverageProof: string,
    referenceCount: nat, truncated: bool, audit: seq<AuditItem>, conflicting: Option<Execution>)
  {
    predicate Anonymous() {
      policy.None? && workflow.None? && group.None?
    }

    predicate Publishes(c: Candidate) {
      policy == Some(c.policy) && workflow == Some(c.workflow) && group == Some(c.group)
    }
  }

  function CandidatesOf(records: seq<Evidence>): set<Candidate> {
    set e | e in records :: e.Normalized()
  }

  function OriginalsOf(records: seq<Evidence>): set<Candidate> {
    set e | e in records :: e.Original()
  }

  function StartOf(action: Option<Job>): Option<int> {
    if action.Some? then action.value.start else None
  }

  function EndOf(action: Option<Job>): Option<int> {
    if action.Some? then action.value.end else None
  }

  predicate TimeConflict(e: Evidence, start: Option<int>, end: Option<int>) {
    && e.saveTime.at.Some? && e.completionTime.at.Some?
    && (Before(e.completionTime.at, e.saveTime.at) || Before(e.saveTime.at, start) || Before(end, e.completionTime.at))
  }

  predicate CompleteCoverage(coverage: Option<Coverage>, start: Option<int>, end: Option<int>) {
    coverage.Some? && coverage.value.CompleteFor(start, end)
  }

  function BlockedReasons(l: Ledger, key: Key): set<Reason> {
    var records, check := Values(RecordsOf(l.evidence, key)), CheckOf(key, l.jobs);
    check.blocked
    + ReasonsOf(l.blocked, key)
    + (if exists e | e in records :: TimeConflict(e, StartOf(check.action), EndOf(check.action))
       then {BackupExecutionTimeConflict} else {})
  }

  function InputPending(l: Ledger, key: Key, coverage: Option<Coverage>): set<Reason> {
    (if l.unknownSourceErrors then {UnattributedInputErrors} else {})
    + (if key.source in l.incomplete || (coverage.Some? && coverage.value.partial)
       then {PartialCollectionReason} else {})
    + (if coverage.Some? && coverage.value.queryWindowGap then {QueryWindowGap} else {})
    + (if coverage.None? || !coverage.value.suffixReviewed then {SuffixRuleUnreviewed} else {})
  }

  function EvidencePending(records: seq<Evidence>, syncedAt: int): set<Reason> {
    (if exists e | e in records :: e.observedAt.None? then {MissingObservationTime} else {})
    + (if exists e | e in records :: !e.reference.Locatable() then {MissingRawReference} else {})
    + (if exists e | e in records :: e.saveTime.at.None? || e.completionTime.at.None?
       then {BackupTimeUnconfirmed} else {})
    + (if exists e | e in records :: Before(Some(syncedAt), e.observedAt) then {FutureObservationTime} else {})
  }

  function ActionPending(records: seq<Evidence>, action: Option<Job>, coverage: Option<Coverage>,
                         syncedAt: int): set<Reason> {
    (if action.Some? && Before(Some(syncedAt), action.value.observedAt) then {FutureObservationTime} else {})
    + (if CompleteCoverage(coverage, StartOf(action), EndOf(action)) then
         if records == [] then {NoBackupInCoveredWindow} else {}
       else if records == [] then {CoverageUnverified, AwaitingBackups} else {CoverageUnverified})
  }

  function PendingReasons(l: Ledger, key: Key, coverage: Option<Coverage>, syncedAt: int): set<Reason> {
    var records, check := Values(RecordsOf(l.evidence, key)), CheckOf(key, l.jobs);
    check.pending
    + InputPending(l, key, coverage)
    + EvidencePending(records, syncedAt)
    + ActionPending(records, check.action, coverage, syncedAt)
  }

  function MappingOf(candidates: set<Candidate>, blocked: set<Reason>): Mapping {
    if |candidates| > 1 then Ambiguous
    else if candidates != {} then Resolved
    else if blocked != {} then Invalid
    else Unresolved
  }

  function VerificationOf(mapping: Mapping, blocked: set<Reason>, pending: set<Reason>): Verification {
    if blocked != {} then Blocked
    else if pending != {} then Provisional
    else if mapping.Resolved? then Verified
    else Unverified
  }

  function AuditOf(e: Evidence): AuditItem {
    AuditItem(e.Original(), e.Normalized(), e.policy.suffix, e.workflow.suffix, e.attributes, e.reference)
  }

  function FirstAudits(records: seq<Evidence>, limit: nat): (r: seq<AuditItem>)
    ensures |r| == if |records| <= limit then |records| else limit
  {
    var n := if |records| <= limit then |records| else limit;
    seq(n, i requires 0 <= i < n => AuditOf(records[i]))
  }

  function LaterOf(a: Option<int>, b: Option<int>): Option<int> {
    if EarlierTime(a, b) then b else a
  }

  function LatestObservation(records: seq<Evidence>, start: Option<int>): Option<int> {
    if records == [] then start
    else LaterOf(LatestObservation(records[..|records| - 1], start), records[|records| - 1].observedAt)
  }

  function ExecutionOf(key: Key, action: Option<Job>): Execution {
    match action
    case None => Execution(None, None, None, None, None)
    case Some(job) =>
      Execution(job.start, job.end, Some(job.status), Some(job.kind),
                if job.root.Some? then Some(KeyText(Key(key.source, job.root.value))) else None)
  }

  function OnlyCandidate(candidates: set<Candidate>): (r: Option<Candidate>)
    ensures r.Some? <==> |candidates| == 1
    ensures r.Some? ==> candidates == {r.value}
  {
    if |candidates| == 1 then
      SingletonExists(candidates);
      var c :| c in candidates && forall d | d in candidates :: d == c;
      Some(c)
    else None
  }

  lemma SingletonExists(candidates: set<Candidate>)
    requires |candidates| == 1
    ensures exists c :: c in candidates && (forall d | d in candidates :: d == c) && candidates == {c}
  {
    var c :| c in candidates;
    assert |candidates - {c}| == 0;
    forall d | d in candidates ensures d == c {
      assert d != c ==> d in candidates - {c};
    }
    assert candidates == {c};
  }

  function PublicName(mapping: Mapping, verification: Verification, candidates: set<Candidate>): (r: Option<Candidate>)
    ensures r.Some? ==> verification.Verified? && candidates == {r.value}
  {
    if mapping.Resolved? && verification.Verified? then OnlyCandidate(candidates) else None
  }

  /** The verdict and everything else that follows from the reasons found. */
  function Conclude(key: Key, records: seq<Evidence>, action: Option<Job>, blocked: set<Reason>, pending: set<Reason>,
                    syncedAt: int, coverage: Option<Coverage>, generation: string, limit: nat): Document
  {
    var candidates := CandidatesOf(records);
    var mapping := MappingOf(candidates, blocked);
    var verification := VerificationOf(mapping, blocked, pending);
    var public := PublicName(mapping, verification, candidates);
    Document(
      KeyText(key), SourceText(key.source), key.id, ExecutionOf(key, action),
      if public.Some? then Some(public.value.policy) else None,
      if public.Some? then Some(public.value.workflow) else None,
      if public.Some? then Some(public.value.group) else None,
      mapping, verification, blocked + pending,
      |candidates|, |OriginalsOf(records)|, candidates,
      coverage.Some? && coverage.value.suffixReviewed, generation,
      LatestObservation(records, if action.Some? then action.value.observedAt else None), syncedAt,
      if coverage.Some? then coverage.value.start else None,
      if coverage.Some? then coverage.value.end else None,
      if coverage.Some? then coverage.value.proofReference else "",
      |records|, |records| > limit, FirstAudits(records, limit), None)
  }

  function DocumentOf(l: Ledger, key: Key, syncedAt: int, coverage: Option<Coverage>, generation: string,
                      limit: nat): Document
  {
    Conclude(key, Values(RecordsOf(l.evidence, key)), CheckOf(key, l.jobs).action,
             BlockedReasons(l, key), PendingReasons(l, key, coverage, syncedAt), syncedAt, coverage, generation, limit)
  }

  // ---- A build ------------------------------------------------------------------------------

  /** Every action the ledger has heard of: by evidence, by block, by its own job, or as a Save's parent. */
  function LedgerKeys(l: Ledger): set<Key> {
    l.evidence.Keys + l.blocked.Keys
    + (set k | k in l.jobs && exists j | j in l.jobs[k] :: j.kind == ACTION_TYPE)
    + (set k, j | k in l.jobs && j in l.jobs[k] && j.kind == SAVE_TYPE && j.parent.Some? ::
         Key(j.source, j.parent.value))
  }

  function CoverageKey(c: Coverage): Option<Key> {
    var identity := PositiveId(Str(c.actionId));
    if identity.Some? then Some(Key(c.source, identity.value)) else None
  }

  /** Attestations by action; an invalid id or a second attestation of one action is an error. */
  function Attest(coverage: seq<Coverage>): Option<map<Key, Coverage>> {
    if coverage == [] then Some(map[])
    else
      var last := coverage[|coverage| - 1];
      var before, key := Attest(coverage[..|coverage| - 1]), CoverageKey(last);
      if before.None? || key.None? || key.value in before.value then None
      else Some(before.value[key.value := last])
  }

  function AttestationFor(attestations: map<Key, Coverage>, key: Key): Option<Coverage> {
    if key in attestations then Some(attestations[key]) else None
  }

  /** One value per action key, filed under the key's text. */
  ghost function ByText<V>(keys: set<Key>, f: Key -> V): (r: map<string, V>)
    ensures forall k | k in keys :: KeyText(k) in r && r[KeyText(k)] == f(k)
    ensures forall t | t in r :: exists k :: k in keys && t == KeyText(k)
  {
    assert forall a, b | a in keys && b in keys && KeyText(a) == KeyText(b) :: a == b by {
      forall a, b | a in keys && b in keys && KeyText(a) == KeyText(b) ensures a == b {
        KeyTextInjective(a, b);
      }
    }
    map k | k in keys :: KeyText(k) := f(k)
  }

  lemma ByTextHolds<V>(keys: set<Key>, f: Key -> V, t: string) returns (key: Key)
    requires t in ByText(keys, f)
    ensures key in keys && t == KeyText(key) && ByText(keys, f)[t] == f(key)
  {
    key :| key in keys && t == KeyText(key);
  }

  lemma ByTextGrows<V>(keys: set<Key>, key: Key, f: Key -> V)
    ensures ByText(keys + {key}, f) == ByText(keys, f)[KeyText(key) := f(key)]
  {
    var before, after := ByText(keys, f), ByText(keys + {key}, f);
    var expected := before[KeyText(key) := f(key)];
    ByTextCovers(keys, key, f);
    forall t | t in after ensures after[t] == expected[t] {
      var k :| k in keys + {key} && t == KeyText(k);
      assert after[KeyText(k)] == f(k);
      if k != key && KeyText(k) == KeyText(key) {
        KeyTextInjective(k, key);
      }
    }
  }

  lemma ByTextCovers<V>(keys: set<Key>, key: Key, f: Key -> V)
    ensures ByText(keys + {key}, f).Keys == ByText(keys, f).Keys + {KeyText(key)}
  {
    var before, after := ByText(keys, f), ByText(keys + {key}, f);
    forall t | t in before ensures t in after {
      var k :| k in keys && t == KeyText(k);
      assert k in keys + {key};
    }
    forall t | t in after ensures t in before || t == KeyText(key) {
      var k :| k in keys + {key} && t == KeyText(k);
    }
    assert key in keys + {key};
  }

  /** What a build computes for each key. */
  ghost function Drafts(l: Ledger, syncedAt: int, attestations: map<Key, Coverage>, generation: string, limit: nat)
    : Key -> Document
  {
    k => DocumentOf(l, k, syncedAt, AttestationFor(attestations, k), generation, limit)
  }

  lemma ByTextStep<V>(keys: set<Key>, todo: set<Key>, key: Key, f: Key -> V)
    requires todo <= keys && key in todo
    ensures ByText(keys - (todo - {key}), f) == ByText(keys - todo, f)[KeyText(key) := f(key)]
  {
    ByTextGrows(keys - todo, key, f);
    assert keys - (todo - {key}) == (keys - todo) + {key};
  }

  /** A build, or nothing when its limit or its attestations are refused. */
  ghost function BuildOf(l: Ledger, syncedAt: int, coverage: seq<Coverage>, generation: string, limit: int)
    : (r: Option<map<string, Document>>)
  {
    var attestations := Attest(coverage);
    if limit < 1 || attestations.None? then None
    else Some(ByText(LedgerKeys(l), Drafts(l, syncedAt, attestations.value, generation, limit)))
  }

  // ---- Steps of the builder's loops ---------------------------------------------------------

  lemma AddReasonTwice(blocked: map<Key, set<Reason>>, a: set<Key>, b: set<Key>, r: Reason)
    ensures AddReason(AddReason(blocked, a, r), b, r) == AddReason(blocked, a + b, r)
  {
    var once := AddReason(blocked, a, r);
    var twice, both := AddReason(once, b, r), AddReason(blocked, a + b, r);
    forall k | k in both ensures twice[k] == both[k] {
      assert ReasonsOf(once, k) == ReasonsOf(blocked, k) + if k in a then {r} else {};
    }
  }

  lemma MarkOneMore(blocked: map<Key, set<Reason>>, revisions: map<Fingerprint, Key>, done: set<Fingerprint>,
                    f: Fingerprint, fingerprint: Fingerprint, key: Key)
    requires done <= revisions.Keys && f in revisions && f !in done
    ensures var before := MarkConflicts(blocked, Conflicting(revisions, done, fingerprint), key);
            MarkConflicts(blocked, Conflicting(revisions, done + {f}, fingerprint), key)
            == if f == fingerprint then before
               else AddReason(AddReason(before, {revisions[f]}, BackupRevisionConflict), {key}, BackupRevisionConflict)
  {
    var before, after := Conflicting(revisions, done, fingerprint), Conflicting(revisions, done + {f}, fingerprint);
    if f == fingerprint {
      assert after == before;
    } else {
      assert after == before + {revisions[f]};
      AddReasonTwice(MarkConflicts(blocked, before, key), {revisions[f]}, {key}, BackupRevisionConflict);
      if before != {} {
        AddReasonTwice(blocked, before + {key}, {revisions[f]} + {key}, BackupRevisionConflict);
        assert before + {key} + ({revisions[f]} + {key}) == after + {key};
      } else {
        assert {revisions[f]} + {key} == after + {key};
      }
    }
  }

  lemma {:induction false} AttestFailsOn(coverage: seq<Coverage>, n: nat)
    requires n <= |coverage| && Attest(coverage[..n]).None?
    ensures Attest(coverage).None?
    decreases |coverage|
  {
    if n == |coverage| {
      assert coverage[..n] == coverage;
    } else {
      var shorter := coverage[..|coverage| - 1];
      assert shorter[..n] == coverage[..n];
      AttestFailsOn(shorter, n);
    }
  }
}
