/** Sources do not affect each other: only errors without a source cross between them. */
module Isolation {
  import opened Basics
  import opened Json
  import opened Models
  import opened Extract
  import opened Validate
  import opened EvidenceLedger
  import opened History

  /** Every entry is filed under the source it came from. */
  ghost predicate Keyed(l: Ledger) {
    && (forall id, f | f in RevisionsOf(l.identities, id) :: RevisionsOf(l.identities, id)[f].source == id.source)
    && (forall k, j | j in JobsOf(l.jobs, k) :: j.JobKey() == k)
  }

  /** The ledgers agree on everything about one source. */
  ghost predicate SameFor(t: Source, l: Ledger, m: Ledger) {
    && (forall k: Key | k.source == t :: SameAt(k, l, m))
    && (forall id: Identity | id.source == t :: RevisionsOf(l.identities, id) == RevisionsOf(m.identities, id))
    && (t in l.incomplete <==> t in m.incomplete)
    && l.unknownSourceErrors == m.unknownSourceErrors
  }

  ghost predicate SameAt(k: Key, l: Ledger, m: Ledger) {
    && RecordsOf(l.evidence, k) == RecordsOf(m.evidence, k) && (k in l.evidence <==> k in m.evidence)
    && ReasonsOf(l.blocked, k) == ReasonsOf(m.blocked, k) && (k in l.blocked <==> k in m.blocked)
    && JobsOf(l.jobs, k) == JobsOf(m.jobs, k) && (k in l.jobs <==> k in m.jobs)
  }

  lemma FileKeepsKeyed(l: Ledger, item: Evidence)
    requires Keyed(l)
    ensures Keyed(FileEvidence(l, item))
  {
    var after := FileEvidence(l, item);
    forall id, f | f in RevisionsOf(after.identities, id)
      ensures RevisionsOf(after.identities, id)[f].source == id.source
    {
      assert f in RevisionsOf(l.identities, id) || id.source == item.source;
    }
  }

  lemma JobKeepsKeyed(l: Ledger, read: Result<Job, string>)
    requires Keyed(l)
    ensures Keyed(AddJob(l, read))
  {
    var after := AddJob(l, read);
    forall k, j | j in JobsOf(after.jobs, k) ensures j.JobKey() == k {
      assert j in JobsOf(l.jobs, k) || (read.Ok? && j == read.value && k == j.JobKey());
    }
  }

  // ---- One observation: another source's, or one fed to both --------------------------------

  lemma ReasonAddedAlike(b: map<Key, set<Reason>>, c: map<Key, set<Reason>>, keys: set<Key>, r: Reason, k: Key)
    requires ReasonsOf(b, k) == ReasonsOf(c, k) && (k in b <==> k in c)
    ensures ReasonsOf(AddReason(b, keys, r), k) == ReasonsOf(AddReason(c, keys, r), k)
    ensures k in AddReason(b, keys, r) <==> k in AddReason(c, keys, r)
  {}

  lemma ReasonAddedElsewhere(b: map<Key, set<Reason>>, keys: set<Key>, r: Reason, k: Key)
    requires k !in keys
    ensures ReasonsOf(AddReason(b, keys, r), k) == ReasonsOf(b, k) && (k in AddReason(b, keys, r) <==> k in b)
  {}

  lemma IdentifyElsewhere(l: Ledger, item: Evidence, k: Key)
    requires Keyed(l) && item.source != k.source
    ensures var b := FileEvidence(l, item).blocked;
            ReasonsOf(b, k) == ReasonsOf(l.blocked, k) && (k in b <==> k in l.blocked)
  {
    var key := item.ActionKey();
    if item.backupId.None? {
      ReasonAddedElsewhere(l.blocked, {key}, BackupIdentityMissing, k);
    } else {
      var revisions := RevisionsOf(l.identities, Identity(item.source, item.backupId.value));
      var conflicting := Conflicting(revisions, revisions.Keys, FingerprintOf(item));
      assert forall c | c in conflicting :: c.source == item.source;
      ReasonAddedElsewhere(l.blocked, conflicting + {key}, BackupRevisionConflict, k);
    }
  }

  lemma FileElsewhereAt(l: Ledger, item: Evidence, k: Key)
    requires Keyed(l) && item.source != k.source
    ensures SameAt(k, l, FileEvidence(l, item))
  {
    IdentifyElsewhere(l, item, k);
  }

  lemma FileElsewhere(t: Source, l: Ledger, item: Evidence)
    requires Keyed(l) && item.source != t
    ensures SameFor(t, l, FileEvidence(l, item))
  {
    forall k: Key | k.source == t ensures SameAt(k, l, FileEvidence(l, item)) {
      FileElsewhereAt(l, item, k);
    }
    RevisionsElsewhere(t, l, item);
    FilingKeepsFlags(l, item);
  }

  lemma RevisionsElsewhere(t: Source, l: Ledger, item: Evidence)
    requires item.source != t
    ensures forall id: Identity | id.source == t ::
              RevisionsOf(l.identities, id) == RevisionsOf(FileEvidence(l, item).identities, id)
  {}

  lemma FilingKeepsFlags(l: Ledger, item: Evidence)
    ensures FileEvidence(l, item).incomplete == l.incomplete
    ensures FileEvidence(l, item).unknownSourceErrors == l.unknownSourceErrors
  {}

  /** The revisions filing an item consults. */
  function RevisionsFor(l: Ledger, item: Evidence): map<Fingerprint, Key> {
    if item.backupId.Some? then RevisionsOf(l.identities, Identity(item.source, item.backupId.value)) else map[]
  }

  function BlockedAfter(l: Ledger, item: Evidence, revisions: map<Fingerprint, Key>): map<Key, set<Reason>> {
    if item.backupId.None? then AddReason(l.blocked, {item.ActionKey()}, BackupIdentityMissing)
    else MarkConflicts(l.blocked, Conflicting(revisions, revisions.Keys, FingerprintOf(item)), item.ActionKey())
  }

  lemma BlockedAfterAlike(l: Ledger, m: Ledger, item: Evidence, revisions: map<Fingerprint, Key>, k: Key)
    requires ReasonsOf(l.blocked, k) == ReasonsOf(m.blocked, k) && (k in l.blocked <==> k in m.blocked)
    ensures var b, c := BlockedAfter(l, item, revisions), BlockedAfter(m, item, revisions);
            ReasonsOf(b, k) == ReasonsOf(c, k) && (k in b <==> k in c)
  {
    var key := item.ActionKey();
    var conflicting := Conflicting(revisions, revisions.Keys, FingerprintOf(item));
    if item.backupId.None? {
      ReasonAddedAlike(l.blocked, m.blocked, {key}, BackupIdentityMissing, k);
    } else if conflicting != {} {
      ReasonAddedAlike(l.blocked, m.blocked, conflicting + {key}, BackupRevisionConflict, k);
    }
  }

  lemma BlockedIs(l: Ledger, item: Evidence)
    ensures FileEvidence(l, item).blocked == BlockedAfter(l, item, RevisionsFor(l, item))
    ensures FileEvidence(l, item).jobs == l.jobs
  {}

  lemma RecordsAt(l: Ledger, item: Evidence, k: Key)
    ensures RecordsOf(FileEvidence(l, item).evidence, k)
            == if k == item.ActionKey() then Observe(RecordsOf(l.evidence, k), item) else RecordsOf(l.evidence, k)
    ensures k in FileEvidence(l, item).evidence <==> k in l.evidence || k == item.ActionKey()
  {}

  lemma RevisionsAfter(l: Ledger, item: Evidence, id: Identity)
    ensures RevisionsOf(FileEvidence(l, item).identities, id)
            == if item.backupId.Some? && id == Identity(item.source, item.backupId.value)
               then RevisionsFor(l, item)[FingerprintOf(item) := item.ActionKey()]
               else RevisionsOf(l.identities, id)
  {}

  lemma FileAt(l: Ledger, m: Ledger, item: Evidence, k: Key)
    requires SameAt(k, l, m) && RevisionsFor(l, item) == RevisionsFor(m, item)
    ensures SameAt(k, FileEvidence(l, item), FileEvidence(m, item))
  {
    BlockedAfterAlike(l, m, item, RevisionsFor(l, item), k);
    BlockedIs(l, item);
    BlockedIs(m, item);
    RecordsAt(l, item, k);
    RecordsAt(m, item, k);
  }

  lemma RevisionsAlike(l: Ledger, m: Ledger, item: Evidence, id: Identity)
    requires RevisionsOf(l.identities, id) == RevisionsOf(m.identities, id)
    requires RevisionsFor(l, item) == RevisionsFor(m, item)
    ensures RevisionsOf(FileEvidence(l, item).identities, id) == RevisionsOf(FileEvidence(m, item).identities, id)
  {
    RevisionsAfter(l, item, id);
    RevisionsAfter(m, item, id);
  }

  lemma FileHere(l: Ledger, m: Ledger, item: Evidence)
    requires SameFor(item.source, l, m)
    ensures SameFor(item.source, FileEvidence(l, item), FileEvidence(m, item))
  {
    assert RevisionsFor(l, item) == RevisionsFor(m, item);
    forall k: Key | k.source == item.source ensures SameAt(k, FileEvidence(l, item), FileEvidence(m, item)) {
      FileAt(l, m, item, k);
    }
    forall id: Identity | id.source == item.source
      ensures RevisionsOf(FileEvidence(l, item).identities, id) == RevisionsOf(FileEvidence(m, item).identities, id)
    {
      RevisionsAlike(l, m, item, id);
    }
  }

  lemma SameForJoins(t: Source, a: Ledger, b: Ledger, c: Ledger, d: Ledger)
    requires SameFor(t, b, a) && SameFor(t, b, c) && SameFor(t, c, d)
    ensures SameFor(t, a, d)
  {
    forall k: Key | k.source == t ensures SameAt(k, a, d) {
      assert SameAt(k, b, a) && SameAt(k, b, c) && SameAt(k, c, d);
    }
    forall id: Identity | id.source == t ensures RevisionsOf(a.identities, id) == RevisionsOf(d.identities, id) {
      assert RevisionsOf(b.identities, id) == RevisionsOf(c.identities, id);
    }
  }

  lemma FileTogether(t: Source, l: Ledger, m: Ledger, item: Evidence)
    requires Keyed(l) && Keyed(m) && SameFor(t, l, m)
    ensures SameFor(t, FileEvidence(l, item), FileEvidence(m, item))
  {
    if item.source == t {
      FileHere(l, m, item);
    } else {
      FileElsewhere(t, l, item);
      FileElsewhere(t, m, item);
      SameForJoins(t, FileEvidence(l, item), l, m, FileEvidence(m, item));
    }
  }

  lemma NoteElsewhere(t: Source, l: Ledger, issue: Issue)
    requires issue.source.Some? && issue.source.value != t
    ensures SameFor(t, l, NoteIssue(l, issue))
  {
    forall k: Key | k.source == t ensures SameAt(k, l, NoteIssue(l, issue)) {
      NoteElsewhereAt(l, issue, k);
    }
    NotingKeepsRest(l, issue);
  }

  lemma NoteElsewhereAt(l: Ledger, issue: Issue, k: Key)
    requires issue.source.Some? && issue.source.value != k.source
    ensures SameAt(k, l, NoteIssue(l, issue))
  {
    if issue.actionId.Some? {
      ReasonAddedElsewhere(l.blocked, {Key(issue.source.value, issue.actionId.value)}, InvalidBackupEvidence, k);
    }
  }

  lemma NoteAt(l: Ledger, m: Ledger, issue: Issue, k: Key)
    requires SameAt(k, l, m)
    ensures SameAt(k, NoteIssue(l, issue), NoteIssue(m, issue))
  {
    if issue.source.Some? && issue.actionId.Some? {
      ReasonAddedAlike(l.blocked, m.blocked, {Key(issue.source.value, issue.actionId.value)}, InvalidBackupEvidence, k);
    }
  }

  lemma NoteTogether(t: Source, l: Ledger, m: Ledger, issue: Issue)
    requires SameFor(t, l, m)
    ensures SameFor(t, NoteIssue(l, issue), NoteIssue(m, issue))
  {
    forall k: Key | k.source == t ensures SameAt(k, NoteIssue(l, issue), NoteIssue(m, issue)) {
      NoteAt(l, m, issue, k);
    }
    NotingKeepsRest(l, issue);
    NotingKeepsRest(m, issue);
  }

  lemma NotingKeepsRest(l: Ledger, issue: Issue)
    ensures NoteIssue(l, issue).identities == l.identities && NoteIssue(l, issue).incomplete == l.incomplete
    ensures NoteIssue(l, issue).unknownSourceErrors == (l.unknownSourceErrors || issue.source.None?)
  {}

  lemma JobTogether(t: Source, l: Ledger, m: Ledger, read: Result<Job, string>)
    requires SameFor(t, l, m)
    ensures SameFor(t, AddJob(l, read), AddJob(m, read))
  {
    forall k: Key | k.source == t ensures SameAt(k, AddJob(l, read), AddJob(m, read)) {
      assert SameAt(k, l, m);
    }
  }

  lemma JobElsewhere(t: Source, l: Ledger, job: Job)
    requires job.source != t
    ensures SameFor(t, l, AddJob(l, Ok(job)))
  {}

  // ---- Whole batches ------------------------------------------------------------------------

  /** Two ledgers that cannot be told apart through one source. */
  ghost predicate Paired(t: Source, l: Ledger, m: Ledger) {
    Keyed(l) && Keyed(m) && SameFor(t, l, m)
  }

  lemma PairedExtends(t: Source, l: Ledger, m: Ledger, n: Ledger)
    requires Paired(t, l, m) && SameFor(t, m, n) && Keyed(n)
    ensures Paired(t, l, n)
  {
    SameForJoins(t, l, l, m, n);
  }

  lemma {:induction false} FileAllTogether(t: Source, l: Ledger, m: Ledger, items: seq<Evidence>)
    requires Paired(t, l, m)
    ensures Paired(t, FileAll(l, items), FileAll(m, items))
  {
    if items != [] {
      var before, last := items[..|items| - 1], items[|items| - 1];
      FileAllTogether(t, l, m, before);
      FileTogether(t, FileAll(l, before), FileAll(m, before), last);
      FileKeepsKeyed(FileAll(l, before), last);
      FileKeepsKeyed(FileAll(m, before), last);
    }
  }

  lemma {:induction false} FileAllElsewhere(t: Source, l: Ledger, m: Ledger, items: seq<Evidence>)
    requires Paired(t, l, m) && forall e | e in items :: e.source != t
    ensures Paired(t, l, FileAll(m, items))
  {
    if items != [] {
      var before, last := items[..|items| - 1], items[|items| - 1];
      FileAllElsewhere(t, l, m, before);
      FileElsewhere(t, FileAll(m, before), last);
      FileKeepsKeyed(FileAll(m, before), last);
      PairedExtends(t, l, FileAll(m, before), FileAll(m, items));
    }
  }

  lemma {:induction false} NoteAllTogether(t: Source, l: Ledger, m: Ledger, issues: seq<Issue>)
    requires Paired(t, l, m)
    ensures Paired(t, NoteIssues(l, issues), NoteIssues(m, issues))
  {
    if issues != [] {
      NoteAllTogether(t, l, m, issues[..|issues| - 1]);
      NoteTogether(t, NoteIssues(l, issues[..|issues| - 1]), NoteIssues(m, issues[..|issues| - 1]),
                   issues[|issues| - 1]);
    }
  }

  lemma {:induction false} NoteAllElsewhere(t: Source, l: Ledger, m: Ledger, issues: seq<Issue>)
    requires Paired(t, l, m) && forall i | i in issues :: i.source.Some? && i.source.value != t
    ensures Paired(t, l, NoteIssues(m, issues))
  {
    if issues != [] {
      var before := issues[..|issues| - 1];
      NoteAllElsewhere(t, l, m, before);
      NoteElsewhere(t, NoteIssues(m, before), issues[|issues| - 1]);
      PairedExtends(t, l, NoteIssues(m, before), NoteIssues(m, issues));
    }
  }

  function Widened(l: Ledger, x: Extraction): Ledger {
    l.(issues := l.issues + x.issues, incomplete := l.incomplete + x.incomplete)
  }

  lemma WidenTogether(t: Source, l: Ledger, m: Ledger, x: Extraction)
    requires Paired(t, l, m)
    ensures Paired(t, Widened(l, x), Widened(m, x))
  {
    forall k: Key | k.source == t ensures SameAt(k, Widened(l, x), Widened(m, x)) {
      assert SameAt(k, l, m);
    }
  }

  lemma WidenElsewhere(t: Source, l: Ledger, m: Ledger, x: Extraction)
    requires Paired(t, l, m) && t !in x.incomplete
    ensures Paired(t, l, Widened(m, x))
  {
    forall k: Key | k.source == t ensures SameAt(k, l, Widened(m, x)) {
      assert SameAt(k, l, m);
    }
  }

  lemma ExtractionTogether(t: Source, l: Ledger, m: Ledger, x: Extraction)
    requires Paired(t, l, m)
    ensures Paired(t, AddExtraction(l, x), AddExtraction(m, x))
  {
    WidenTogether(t, l, m, x);
    NoteAllTogether(t, Widened(l, x), Widened(m, x), x.issues);
    FileAllTogether(t, NoteIssues(Widened(l, x), x.issues), NoteIssues(Widened(m, x), x.issues), x.evidence);
  }

  lemma ExtractionElsewhere(t: Source, l: Ledger, m: Ledger, x: Extraction, source: Source)
    requires Paired(t, l, m) && AttributedTo(x, source) && source != t
    ensures Paired(t, l, AddExtraction(m, x))
  {
    WidenElsewhere(t, l, m, x);
    NoteAllElsewhere(t, l, Widened(m, x), x.issues);
    FileAllElsewhere(t, l, NoteIssues(Widened(m, x), x.issues), x.evidence);
  }

  /** Every hit of the batch names a source other than `t`. */
  ghost predicate Foreign(t: Source, batch: Batch, clock: Clock) {
    match batch
    case RawBatch(hits) => forall h | h in hits :: HitSource(h).Some? && HitSource(h).value != t
    case JobBatch(hits) => forall h | h in hits :: ReadJob(h, clock).Ok? && ReadJob(h, clock).value.source != t
  }

  lemma {:induction false} RawTogether(t: Source, l: Ledger, m: Ledger, hits: seq<Value>, clock: Clock)
    requires Paired(t, l, m)
    ensures Paired(t, AddRaw(l, hits, clock), AddRaw(m, hits, clock))
  {
    if hits != [] {
      var before := hits[..|hits| - 1];
      RawTogether(t, l, m, before, clock);
      ExtractionTogether(t, AddRaw(l, before, clock), AddRaw(m, before, clock), ExtractionOf(hits[|hits| - 1], clock));
    }
  }

  lemma {:induction false} RawElsewhere(t: Source, l: Ledger, m: Ledger, hits: seq<Value>, clock: Clock)
    requires Paired(t, l, m) && forall h | h in hits :: HitSource(h).Some? && HitSource(h).value != t
    ensures Paired(t, l, AddRaw(m, hits, clock))
  {
    if hits != [] {
      var before, last := hits[..|hits| - 1], hits[|hits| - 1];
      RawElsewhere(t, l, m, before, clock);
      ExtractionIsAttributed(last, clock);
      ExtractionElsewhere(t, l, AddRaw(m, before, clock), ExtractionOf(last, clock), HitSource(last).value);
    }
  }

  lemma {:induction false} JobsTogether(t: Source, l: Ledger, m: Ledger, hits: seq<Value>, clock: Clock)
    requires Paired(t, l, m)
    ensures Paired(t, AddJobs(l, hits, clock), AddJobs(m, hits, clock))
  {
    if hits != [] {
      var before, read := hits[..|hits| - 1], ReadJob(hits[|hits| - 1], clock);
      JobsTogether(t, l, m, before, clock);
      JobTogether(t, AddJobs(l, before, clock), AddJobs(m, before, clock), read);
      JobKeepsKeyed(AddJobs(l, before, clock), read);
      JobKeepsKeyed(AddJobs(m, before, clock), read);
    }
  }

  lemma {:induction false} JobsElsewhere(t: Source, l: Ledger, m: Ledger, hits: seq<Value>, clock: Clock)
    requires Paired(t, l, m) && forall h | h in hits :: ReadJob(h, clock).Ok? && ReadJob(h, clock).value.source != t
    ensures Paired(t, l, AddJobs(m, hits, clock))
  {
    if hits != [] {
      var before, last := hits[..|hits| - 1], hits[|hits| - 1];
      JobsElsewhere(t, l, m, before, clock);
      JobElsewhere(t, AddJobs(m, before, clock), ReadJob(last, clock).value);
      JobKeepsKeyed(AddJobs(m, before, clock), ReadJob(last, clock));
      PairedExtends(t, l, AddJobs(m, before, clock), AddJobs(m, hits, clock));
    }
  }

  lemma {:induction false} FeedTogether(t: Source, l: Ledger, m: Ledger, batches: seq<Batch>, clock: Clock)
    requires Paired(t, l, m)
    ensures Paired(t, FeedAll(l, batches, clock), FeedAll(m, batches, clock))
  {
    if batches != [] {
      var before, last := batches[..|batches| - 1], batches[|batches| - 1];
      FeedTogether(t, l, m, before, clock);
      match last
      case RawBatch(hits) => RawTogether(t, FeedAll(l, before, clock), FeedAll(m, before, clock), hits, clock);
      case JobBatch(hits) => JobsTogether(t, FeedAll(l, before, clock), FeedAll(m, before, clock), hits, clock);
    }
  }

  lemma {:induction false} FeedElsewhere(t: Source, l: Ledger, m: Ledger, batches: seq<Batch>, clock: Clock)
    requires Paired(t, l, m) && forall b | b in batches :: Foreign(t, b, clock)
    ensures Paired(t, l, FeedAll(m, batches, clock))
  {
    if batches != [] {
      var before, last := batches[..|batches| - 1], batches[|batches| - 1];
      FeedElsewhere(t, l, m, before, clock);
      assert Foreign(t, last, clock);
      match last
      case RawBatch(hits) => RawElsewhere(t, l, FeedAll(m, before, clock), hits, clock);
      case JobBatch(hits) => JobsElsewhere(t, l, FeedAll(m, before, clock), hits, clock);
    }
  }

  // ---- The documents of the other source ----------------------------------------------------

  lemma RelatedJobsAreLocal(t: Source, l: Ledger, m: Ledger, key: Key, k: Key)
    requires Paired(t, l, m) && key.source == t && k in l.jobs && Related(l.jobs[k], key)
    ensures k in m.jobs && m.jobs[k] == l.jobs[k]
  {
    var j :| j in l.jobs[k] && SaveOf(j, key);
    assert j in JobsOf(l.jobs, k);
    assert j.JobKey() == k && k.source == t;
    assert SameAt(k, l, m);
  }

  lemma SavesElsewhere(t: Source, l: Ledger, m: Ledger, key: Key, action: Job)
    requires Paired(t, l, m) && key.source == t
    ensures AllSaveReasons(l.jobs, l.jobs.Keys, key, action) <= AllSaveReasons(m.jobs, m.jobs.Keys, key, action)
  {
    forall k | k in l.jobs && Related(l.jobs[k], key) ensures k in m.jobs && m.jobs[k] == l.jobs[k] {
      RelatedJobsAreLocal(t, l, m, key, k);
    }
    SavesOfMore(l.jobs, m.jobs, key, action);
  }

  lemma SavesOfMore(x: map<Key, seq<Job>>, y: map<Key, seq<Job>>, key: Key, action: Job)
    requires forall k | k in x && Related(x[k], key) :: k in y && y[k] == x[k]
    ensures AllSaveReasons(x, x.Keys, key, action) <= AllSaveReasons(y, y.Keys, key, action)
  {
    forall r | r in AllSaveReasons(x, x.Keys, key, action) ensures r in AllSaveReasons(y, y.Keys, key, action) {
      var k :| k in x && r in SaveReasons(x[k], key, action);
      assert Related(x[k], key);
      assert k in y.Keys && r in SaveReasons(y[k], key, action);
    }
  }

  lemma PairedIsSymmetric(t: Source, l: Ledger, m: Ledger)
    requires Paired(t, l, m)
    ensures Paired(t, m, l)
  {
    forall k: Key | k.source == t ensures SameAt(k, m, l) {
      assert SameAt(k, l, m);
    }
  }

  lemma CheckIsLocal(t: Source, l: Ledger, m: Ledger, key: Key)
    requires Paired(t, l, m) && key.source == t
    ensures CheckOf(key, l.jobs) == CheckOf(key, m.jobs)
  {
    assert SameAt(key, l, m);
    if JobsOf(l.jobs, key) != [] {
      CheckOfActionIsLocal(t, l, m, key, Selected(JobsOf(l.jobs, key)).value);
    }
  }

  lemma CheckOfActionIsLocal(t: Source, l: Ledger, m: Ledger, key: Key, action: Job)
    requires Paired(t, l, m) && key.source == t && action.JobKey() == key && JobsOf(l.jobs, key) != []
    ensures BlockedBy(key, l.jobs, action) == BlockedBy(key, m.jobs, action)
    ensures PendingFrom(l.jobs, action) == PendingFrom(m.jobs, action)
  {
    assert SameAt(key, l, m);
    RootIsLocal(t, l, m, action);
    PairedIsSymmetric(t, l, m);
    SavesElsewhere(t, l, m, key, action);
    SavesElsewhere(t, m, l, key, action);
  }

  lemma RootIsLocal(t: Source, l: Ledger, m: Ledger, action: Job)
    requires Paired(t, l, m) && action.source == t
    ensures WorkflowsOf(l.jobs, action) == WorkflowsOf(m.jobs, action)
  {
    if action.root.Some? {
      assert SameAt(Key(t, action.root.value), l, m);
    }
  }

  lemma DocumentIsLocal(t: Source, l: Ledger, m: Ledger, key: Key, syncedAt: int, coverage: Option<Coverage>,
                        generation: string, limit: nat)
    requires Paired(t, l, m) && key.source == t
    ensures DocumentOf(l, key, syncedAt, coverage, generation, limit)
         == DocumentOf(m, key, syncedAt, coverage, generation, limit)
  {
    CheckIsLocal(t, l, m, key);
    assert SameAt(key, l, m);
  }

  lemma KeyIsLocal(t: Source, l: Ledger, m: Ledger, key: Key)
    requires Paired(t, l, m) && key.source == t && key in LedgerKeys(l)
    ensures key in LedgerKeys(m)
  {
    assert SameAt(key, l, m);
    if k, j :| k in l.jobs && j in l.jobs[k] && j.kind == SAVE_TYPE && j.parent.Some?
               && key == Key(j.source, j.parent.value)
    {
      assert j in JobsOf(l.jobs, k);
      assert j.JobKey() == k && k.source == t;
      assert SameAt(k, l, m);
    }
  }

  /** Hits of other sources, fed at any point of a run, change no document of this one: neither which
      actions it has, nor anything their documents say, in any later build. */
  lemma SourcesAreIsolated(before: seq<Batch>, extra: seq<Batch>, after: seq<Batch>, clock: Clock, key: Key,
                           syncedAt: int, coverage: Option<Coverage>, generation: string, limit: nat)
    requires forall b | b in extra :: Foreign(key.source, b, clock)
    ensures key in LedgerKeys(Replay(before + after, clock)) <==>
              key in LedgerKeys(Replay(before + extra + after, clock))
    ensures DocumentOf(Replay(before + after, clock), key, syncedAt, coverage, generation, limit)
         == DocumentOf(Replay(before + extra + after, clock), key, syncedAt, coverage, generation, limit)
  {
    var t, start := key.source, Replay(before, clock);
    assert Paired(t, EMPTY, EMPTY);
    FeedTogether(t, EMPTY, EMPTY, before, clock);
    FeedElsewhere(t, start, start, extra, clock);
    FeedTogether(t, start, FeedAll(start, extra, clock), after, clock);
    FeedInTwo(EMPTY, before, after, clock);
    FeedInTwo(EMPTY, before + extra, after, clock);
    FeedInTwo(EMPTY, before, extra, clock);
    var l, m := Replay(before + after, clock), Replay(before + extra + after, clock);
    PairedIsSymmetric(t, l, m);
    DocumentIsLocal(t, l, m, key, syncedAt, coverage, generation, limit);
    if key in LedgerKeys(l) {
      KeyIsLocal(t, l, m, key);
    }
    if key in LedgerKeys(m) {
      KeyIsLocal(t, m, l, key);
    }
  }
}
