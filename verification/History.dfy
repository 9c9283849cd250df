/** What a ledger knows, as a function of the set of observations it has seen: neither their order,
    their batching nor their repetition can be read from it, except which of two equally late
    observations of one revision is kept. */
module History {
  import opened Basics
  import opened Dict
  import opened Json
  import opened Models
  import opened Extract
  import opened Validate
  import opened EvidenceLedger

  /** The observations seen so far. */
  datatype Seen = Seen(
    items: set<Evidence>, accused: set<Key>, incomplete: set<Source>, unattributed: bool, jobs: set<Job>)

  const NOTHING := Seen({}, {}, {}, false, {})

  ghost function Plus(a: Seen, b: Seen): Seen {
    Seen(a.items + b.items, a.accused + b.accused, a.incomplete + b.incomplete,
         a.unattributed || b.unattributed, a.jobs + b.jobs)
  }

  ghost function WithItems(s: Seen, items: set<Evidence>): Seen {
    s.(items := s.items + items)
  }

  ghost predicate Within(a: Seen, b: Seen) {
    && a.items <= b.items && a.accused <= b.accused && a.incomplete <= b.incomplete
    && (a.unattributed ==> b.unattributed) && a.jobs <= b.jobs
  }

  /** What one hit adds. */
  ghost function SeenInExtraction(x: Extraction): Seen {
    Seen(Elements(x.evidence),
         set i | i in x.issues && i.source.Some? && i.actionId.Some? :: Key(i.source.value, i.actionId.value),
         x.incomplete, exists i :: i in x.issues && i.source.None?, {})
  }

  ghost function SeenInRead(read: Result<Job, string>): Seen {
    match read
    case Err(_) => NOTHING.(unattributed := true)
    case Ok(job) => NOTHING.(jobs := {job})
  }

  // ---- How each dictionary follows from what was seen ---------------------------------------

  ghost predicate Under(e: Evidence, key: Key, fingerprint: Fingerprint) {
    e.ActionKey() == key && FingerprintOf(e) == fingerprint
  }

  /** A revision is recorded exactly when it was seen, by a latest observation of it. */
  ghost predicate RecordExplained(records: Records, items: set<Evidence>, key: Key, fingerprint: Fingerprint) {
    match Lookup(records, fingerprint)
    case None => forall e | e in items :: !Under(e, key, fingerprint)
    case Some(kept) =>
      && kept in items && Under(kept, key, fingerprint)
      && forall e | e in items && Under(e, key, fingerprint) :: !Newer(e, kept)
  }

  ghost predicate EvidenceExplained(evidence: map<Key, Records>, items: set<Evidence>) {
    && (forall key :: Distinct(RecordsOf(evidence, key)))
    && (forall key, fingerprint :: RecordExplained(RecordsOf(evidence, key), items, key, fingerprint))
    && (forall key | key in evidence :: evidence[key] != [])
  }

  ghost predicate Revises(e: Evidence, id: Identity, fingerprint: Fingerprint) {
    e.source == id.source && e.backupId == Some(id.backupId) && FingerprintOf(e) == fingerprint
  }

  ghost predicate IdentitiesExplained(identities: map<Identity, map<Fingerprint, Key>>, items: set<Evidence>) {
    && (forall id, f :: f in RevisionsOf(identities, id) <==> exists e :: e in items && Revises(e, id, f))
    && (forall id, f | f in RevisionsOf(identities, id) :: RevisionsOf(identities, id)[f] == Key(id.source, f.action))
  }

  /** Two revisions of one backup id. */
  ghost predicate Rivals(a: Evidence, b: Evidence) {
    a.source == b.source && a.backupId.Some? && a.backupId == b.backupId && FingerprintOf(a) != FingerprintOf(b)
  }

  /** Why the ledger itself blocks an action. */
  ghost predicate Blames(s: Seen, key: Key, r: Reason) {
    match r
    case InvalidBackupEvidence => key in s.accused
    case BackupIdentityMissing => exists e :: e in s.items && e.ActionKey() == key && e.backupId.None?
    case BackupRevisionConflict => exists a, b :: a in s.items && b in s.items && Rivals(a, b) && a.ActionKey() == key
    case _ => false
  }

  ghost predicate BlockedExplained(blocked: map<Key, set<Reason>>, s: Seen) {
    && (forall key, r :: r in ReasonsOf(blocked, key) <==> Blames(s, key, r))
    && (forall key | key in blocked :: blocked[key] != {})
  }

  ghost predicate JobsExplained(jobs: map<Key, seq<Job>>, seen: set<Job>) {
    && (forall key, j :: j in JobsOf(jobs, key) <==> j in seen && j.JobKey() == key)
    && (forall key | key in jobs :: jobs[key] != [])
  }

  ghost predicate Explained(l: Ledger, s: Seen) {
    && EvidenceExplained(l.evidence, s.items)
    && IdentitiesExplained(l.identities, s.items)
    && BlockedExplained(l.blocked, s)
    && JobsExplained(l.jobs, s.jobs)
    && l.incomplete == s.incomplete
    && l.unknownSourceErrors == s.unattributed
    && (forall e | e in s.items :: Sound(e))
    && (forall k | k in s.accused :: IsPositiveId(k.id))
    && (forall j | j in s.jobs :: Canonical(j))
  }

  lemma NothingSeen()
    ensures Explained(EMPTY, NOTHING)
  {
    assert forall key, fingerprint :: RecordExplained(RecordsOf(EMPTY.evidence, key), {}, key, fingerprint);
  }

  // ---- One observation ----------------------------------------------------------------------

  lemma ObserveExplains(records: Records, items: set<Evidence>, item: Evidence, fingerprint: Fingerprint)
    requires Distinct(records)
    requires RecordExplained(records, items, item.ActionKey(), fingerprint)
    ensures Distinct(Observe(records, item))
    ensures RecordExplained(Observe(records, item), items + {item}, item.ActionKey(), fingerprint)
  {
    PutKeepsDistinct(records, FingerprintOf(item), item);
    LookupAfterPut(records, FingerprintOf(item), item, fingerprint);
  }

  lemma FiledRecord(l: Ledger, items: set<Evidence>, item: Evidence, key: Key, fingerprint: Fingerprint)
    requires EvidenceExplained(l.evidence, items)
    ensures var after := FileEvidence(l, item).evidence;
            Distinct(RecordsOf(after, key)) && RecordExplained(RecordsOf(after, key), items + {item}, key, fingerprint)
  {
    assert RecordExplained(RecordsOf(l.evidence, key), items, key, fingerprint);
    if key == item.ActionKey() {
      ObserveExplains(RecordsOf(l.evidence, key), items, item, fingerprint);
    }
  }

  lemma FileKeepsEvidence(l: Ledger, items: set<Evidence>, item: Evidence)
    requires EvidenceExplained(l.evidence, items)
    ensures EvidenceExplained(FileEvidence(l, item).evidence, items + {item})
  {
    var after := FileEvidence(l, item).evidence;
    forall key, fingerprint
      ensures RecordExplained(RecordsOf(after, key), items + {item}, key, fingerprint)
    {
      FiledRecord(l, items, item, key, fingerprint);
    }
    forall key ensures Distinct(RecordsOf(after, key)) {
      FiledRecord(l, items, item, key, FingerprintOf(item));
    }
  }

  lemma RevisionsWithOneMore(l: Ledger, item: Evidence, id: Identity, f: Fingerprint)
    ensures var before, after := RevisionsOf(l.identities, id), RevisionsOf(FileEvidence(l, item).identities, id);
            && (f in after <==> f in before || Revises(item, id, f))
            && (f in after ==> after[f] == if Revises(item, id, f) then item.ActionKey() else before[f])
  {}

  lemma FiledRevision(l: Ledger, items: set<Evidence>, item: Evidence, id: Identity, f: Fingerprint)
    requires IdentitiesExplained(l.identities, items)
    ensures var after := RevisionsOf(FileEvidence(l, item).identities, id);
            && (f in after <==> exists e :: e in items + {item} && Revises(e, id, f))
            && (f in after ==> after[f] == Key(id.source, f.action))
  {
    var after := RevisionsOf(FileEvidence(l, item).identities, id);
    RevisionsWithOneMore(l, item, id, f);
    if Revises(item, id, f) {
      assert item in items + {item};
    } else if f in after {
      var e :| e in items && Revises(e, id, f);
      assert e in items + {item};
    }
  }

  lemma FileKeepsIdentities(l: Ledger, items: set<Evidence>, item: Evidence)
    requires IdentitiesExplained(l.identities, items)
    ensures IdentitiesExplained(FileEvidence(l, item).identities, items + {item})
  {
    forall id, f
      ensures var after := RevisionsOf(FileEvidence(l, item).identities, id);
              && (f in after <==> exists e :: e in items + {item} && Revises(e, id, f))
              && (f in after ==> after[f] == Key(id.source, f.action))
    {
      FiledRevision(l, items, item, id, f);
    }
  }

  /** A key among the conflicting ones is that of a rival. */
  lemma ConflictIsRival(l: Ledger, items: set<Evidence>, item: Evidence, key: Key) returns (a: Evidence)
    requires IdentitiesExplained(l.identities, items) && item.backupId.Some?
    requires var revisions := RevisionsOf(l.identities, Identity(item.source, item.backupId.value));
             key in Conflicting(revisions, revisions.Keys, FingerprintOf(item))
    ensures a in items && Rivals(a, item) && Rivals(item, a) && a.ActionKey() == key
  {
    var id := Identity(item.source, item.backupId.value);
    var revisions := RevisionsOf(l.identities, id);
    var f :| f in revisions && f != FingerprintOf(item) && revisions[f] == key;
    a :| a in items && Revises(a, id, f);
  }

  /** The key of a rival is among the conflicting ones. */
  lemma RivalConflicts(l: Ledger, items: set<Evidence>, item: Evidence, a: Evidence)
    requires IdentitiesExplained(l.identities, items) && item.backupId.Some? && a in items && Rivals(a, item)
    ensures var revisions := RevisionsOf(l.identities, Identity(item.source, item.backupId.value));
            a.ActionKey() in Conflicting(revisions, revisions.Keys, FingerprintOf(item))
  {
    var id := Identity(item.source, item.backupId.value);
    assert Revises(a, id, FingerprintOf(a));
    assert RevisionsOf(l.identities, id)[FingerprintOf(a)] == a.ActionKey();
  }

  /** Under which keys filing one evidence adds a revision conflict. */
  lemma ConflictsAreRivals(l: Ledger, items: set<Evidence>, item: Evidence, key: Key)
    requires IdentitiesExplained(l.identities, items)
    requires item.backupId.Some?
    ensures var revisions := RevisionsOf(l.identities, Identity(item.source, item.backupId.value));
            var conflicting := Conflicting(revisions, revisions.Keys, FingerprintOf(item));
            && (key in conflicting <==> exists a :: a in items && Rivals(a, item) && a.ActionKey() == key)
            && (conflicting != {} <==> exists a :: a in items && Rivals(item, a))
  {
    var revisions := RevisionsOf(l.identities, Identity(item.source, item.backupId.value));
    var conflicting := Conflicting(revisions, revisions.Keys, FingerprintOf(item));
    if key in conflicting {
      var a := ConflictIsRival(l, items, item, key);
    }
    if k :| k in conflicting {
      var a := ConflictIsRival(l, items, item, k);
    }
    forall a | a in items && Rivals(a, item) ensures a.ActionKey() in conflicting {
      RivalConflicts(l, items, item, a);
    }
    if a :| a in items && Rivals(item, a) {
      assert Rivals(a, item);
    }
  }

  lemma AddReasonAdds(blocked: map<Key, set<Reason>>, keys: set<Key>, r: Reason, key: Key)
    ensures ReasonsOf(AddReason(blocked, keys, r), key) == ReasonsOf(blocked, key) + if key in keys then {r} else {}
  {}

  lemma BlamesWithOneMore(s: Seen, item: Evidence, key: Key, r: Reason)
    requires r != BackupRevisionConflict
    ensures Blames(WithItems(s, {item}), key, r)
        <==> Blames(s, key, r) || (r == BackupIdentityMissing && item.backupId.None? && item.ActionKey() == key)
  {
    if r == BackupIdentityMissing && item.backupId.None? && item.ActionKey() == key {
      assert item in WithItems(s, {item}).items;
    }
  }

  lemma AnonymousReason(l: Ledger, s: Seen, item: Evidence, key: Key, r: Reason)
    requires BlockedExplained(l.blocked, s) && item.backupId.None?
    ensures r in ReasonsOf(FileEvidence(l, item).blocked, key) <==> Blames(WithItems(s, {item}), key, r)
  {
    assert r in ReasonsOf(l.blocked, key) <==> Blames(s, key, r);
    AddReasonAdds(l.blocked, {item.ActionKey()}, BackupIdentityMissing, key);
    if r == BackupRevisionConflict {
      RivalsWithOneMore(s, item, key);
    } else {
      BlamesWithOneMore(s, item, key, r);
    }
  }

  lemma IdentifiedReasons(l: Ledger, item: Evidence, key: Key)
    requires item.backupId.Some?
    ensures var revisions := RevisionsOf(l.identities, Identity(item.source, item.backupId.value));
            var conflicting := Conflicting(revisions, revisions.Keys, FingerprintOf(item));
            ReasonsOf(FileEvidence(l, item).blocked, key)
            == ReasonsOf(l.blocked, key)
               + if conflicting != {} && key in conflicting + {item.ActionKey()} then {BackupRevisionConflict} else {}
  {
    var revisions := RevisionsOf(l.identities, Identity(item.source, item.backupId.value));
    var conflicting := Conflicting(revisions, revisions.Keys, FingerprintOf(item));
    AddReasonAdds(l.blocked, conflicting + {item.ActionKey()}, BackupRevisionConflict, key);
  }

  lemma IdentifiedReason(l: Ledger, s: Seen, item: Evidence, key: Key, r: Reason)
    requires IdentitiesExplained(l.identities, s.items) && BlockedExplained(l.blocked, s) && item.backupId.Some?
    ensures r in ReasonsOf(FileEvidence(l, item).blocked, key) <==> Blames(WithItems(s, {item}), key, r)
  {
    assert r in ReasonsOf(l.blocked, key) <==> Blames(s, key, r);
    IdentifiedReasons(l, item, key);
    if r == BackupRevisionConflict {
      ConflictIsBlamed(l, s, item, key);
    } else {
      BlamesWithOneMore(s, item, key, r);
    }
  }

  lemma ConflictIsBlamed(l: Ledger, s: Seen, item: Evidence, key: Key)
    requires IdentitiesExplained(l.identities, s.items) && item.backupId.Some?
    ensures var revisions := RevisionsOf(l.identities, Identity(item.source, item.backupId.value));
            var conflicting := Conflicting(revisions, revisions.Keys, FingerprintOf(item));
            Blames(WithItems(s, {item}), key, BackupRevisionConflict) <==>
              Blames(s, key, BackupRevisionConflict)
              || (conflicting != {} && key in conflicting + {item.ActionKey()})
  {
    ConflictsAreRivals(l, s.items, item, key);
    RivalsWithOneMore(s, item, key);
  }

  lemma FileKeepsBlocked(l: Ledger, s: Seen, item: Evidence)
    requires IdentitiesExplained(l.identities, s.items) && BlockedExplained(l.blocked, s)
    ensures BlockedExplained(FileEvidence(l, item).blocked, WithItems(s, {item}))
  {
    forall key, r
      ensures r in ReasonsOf(FileEvidence(l, item).blocked, key) <==> Blames(WithItems(s, {item}), key, r)
    {
      if item.backupId.None? {
        AnonymousReason(l, s, item, key, r);
      } else {
        IdentifiedReason(l, s, item, key, r);
      }
    }
    forall key | key in FileEvidence(l, item).blocked
      ensures FileEvidence(l, item).blocked[key] != {}
    {
      FiledKeyIsBlocked(l, item, key);
    }
  }

  lemma FiledKeyIsBlocked(l: Ledger, item: Evidence, key: Key)
    requires forall k | k in l.blocked :: l.blocked[k] != {}
    requires key in FileEvidence(l, item).blocked
    ensures FileEvidence(l, item).blocked[key] != {}
  {
    var after := FileEvidence(l, item).blocked;
    if item.backupId.None? {
      assert key !in l.blocked ==> BackupIdentityMissing in after[key];
    } else {
      var revisions := RevisionsOf(l.identities, Identity(item.source, item.backupId.value));
      var conflicting := Conflicting(revisions, revisions.Keys, FingerprintOf(item));
      assert after == MarkConflicts(l.blocked, conflicting, item.ActionKey());
      assert key !in l.blocked ==> BackupRevisionConflict in after[key];
    }
  }

  lemma RivalsWithOneMore(s: Seen, item: Evidence, key: Key)
    ensures Blames(WithItems(s, {item}), key, BackupRevisionConflict)
        <==> Blames(s, key, BackupRevisionConflict)
             || (exists a :: a in s.items && Rivals(a, item) && a.ActionKey() == key)
             || (item.ActionKey() == key && exists a :: a in s.items && Rivals(item, a))
  {}

  lemma FileExplains(l: Ledger, s: Seen, item: Evidence)
    requires Explained(l, s) && Sound(item)
    ensures Explained(FileEvidence(l, item), WithItems(s, {item}))
  {
    FileKeepsEvidence(l, s.items, item);
    FileKeepsIdentities(l, s.items, item);
    FileKeepsBlocked(l, s, item);
  }

  ghost function Elements<T>(s: seq<T>): set<T> {
    set x | x in s
  }

  lemma ElementsOfLast<T>(s: seq<T>)
    requires s != []
    ensures Elements(s) == Elements(s[..|s| - 1]) + {s[|s| - 1]}
  {
    assert s == s[..|s| - 1] + [s[|s| - 1]];
  }

  lemma {:induction false} FileAllExplains(l: Ledger, s: Seen, items: seq<Evidence>)
    requires Explained(l, s) && forall e | e in items :: Sound(e)
    ensures Explained(FileAll(l, items), WithItems(s, Elements(items)))
  {
    if items == [] {
      assert WithItems(s, Elements(items)) == s;
    } else {
      var before, last := items[..|items| - 1], items[|items| - 1];
      FileAllExplains(l, s, before);
      FileExplains(FileAll(l, before), WithItems(s, Elements(before)), last);
      WithLastItem(s, items);
    }
  }

  lemma WithLastItem(s: Seen, items: seq<Evidence>)
    requires items != []
    ensures WithItems(WithItems(s, Elements(items[..|items| - 1])), {items[|items| - 1]})
         == WithItems(s, Elements(items))
  {
    ElementsOfLast(items);
  }

  // ---- One hit ------------------------------------------------------------------------------

  ghost function AccusedBy(issues: seq<Issue>): set<Key> {
    set i | i in issues && i.source.Some? && i.actionId.Some? :: Key(i.source.value, i.actionId.value)
  }

  lemma NoteExplains(l: Ledger, s: Seen, issue: Issue)
    requires Explained(l, s)
    requires issue.actionId.Some? ==> IsPositiveId(issue.actionId.value)
    ensures Explained(NoteIssue(l, issue), s.(accused := s.accused + AccusedBy([issue]),
                                              unattributed := s.unattributed || issue.source.None?))
  {
    var more := s.(accused := s.accused + AccusedBy([issue]), unattributed := s.unattributed || issue.source.None?);
    forall key, r
      ensures r in ReasonsOf(NoteIssue(l, issue).blocked, key) <==> Blames(more, key, r)
    {
      NotedReason(l, s, issue, key, r);
    }
    NotedKeyIsBlocked(l, issue);
    AccusedByOne(issue);
  }

  lemma AccusedByOne(issue: Issue)
    ensures AccusedBy([issue]) == if issue.source.Some? && issue.actionId.Some?
                                  then {Key(issue.source.value, issue.actionId.value)} else {}
  {
    assert issue in [issue];
  }

  lemma BlamesWithAccused(s: Seen, accused: set<Key>, unattributed: bool, key: Key, r: Reason)
    ensures Blames(s.(accused := s.accused + accused, unattributed := unattributed), key, r)
        <==> Blames(s, key, r) || (r == InvalidBackupEvidence && key in accused)
  {}

  lemma NotedReason(l: Ledger, s: Seen, issue: Issue, key: Key, r: Reason)
    requires BlockedExplained(l.blocked, s)
    ensures r in ReasonsOf(NoteIssue(l, issue).blocked, key) <==>
            Blames(s.(accused := s.accused + AccusedBy([issue]),
                      unattributed := s.unattributed || issue.source.None?), key, r)
  {
    assert r in ReasonsOf(l.blocked, key) <==> Blames(s, key, r);
    NotedReasons(l, issue, key);
    BlamesWithAccused(s, AccusedBy([issue]), s.unattributed || issue.source.None?, key, r);
  }

  lemma NotedReasons(l: Ledger, issue: Issue, key: Key)
    ensures ReasonsOf(NoteIssue(l, issue).blocked, key)
         == ReasonsOf(l.blocked, key) + if key in AccusedBy([issue]) then {InvalidBackupEvidence} else {}
  {
    AccusedByOne(issue);
    if issue.source.Some? && issue.actionId.Some? {
      AddReasonAdds(l.blocked, {Key(issue.source.value, issue.actionId.value)}, InvalidBackupEvidence, key);
    }
  }

  lemma NotedKeyIsBlocked(l: Ledger, issue: Issue)
    requires forall key | key in l.blocked :: l.blocked[key] != {}
    ensures forall key | key in NoteIssue(l, issue).blocked :: NoteIssue(l, issue).blocked[key] != {}
  {
    var after := NoteIssue(l, issue).blocked;
    forall key | key in after ensures after[key] != {} {
      assert key !in l.blocked ==> InvalidBackupEvidence in after[key];
    }
  }

  lemma {:induction false} NoteAllExplains(l: Ledger, s: Seen, issues: seq<Issue>)
    requires Explained(l, s)
    requires forall i | i in issues && i.actionId.Some? :: IsPositiveId(i.actionId.value)
    ensures Explained(NoteIssues(l, issues),
                      s.(accused := s.accused + AccusedBy(issues),
                         unattributed := s.unattributed || exists i :: i in issues && i.source.None?))
  {
    if issues == [] {
      assert s.accused + AccusedBy(issues) == s.accused;
    } else {
      var before, last := issues[..|issues| - 1], issues[|issues| - 1];
      NoteAllExplains(l, s, before);
      NoteExplains(NoteIssues(l, before),
                   s.(accused := s.accused + AccusedBy(before),
                      unattributed := s.unattributed || exists i :: i in before && i.source.None?), last);
      assert issues == before + [last];
      assert s.accused + AccusedBy(issues) == s.accused + AccusedBy(before) + AccusedBy([last]);
    }
  }

  /** An extraction the extractor can produce. */
  ghost predicate Extractable(x: Extraction) {
    && (forall e | e in x.evidence :: Sound(e))
    && (forall i | i in x.issues && i.actionId.Some? :: IsPositiveId(i.actionId.value))
  }

  lemma ExtractionExplains(l: Ledger, s: Seen, x: Extraction)
    requires Explained(l, s) && Extractable(x)
    ensures Explained(AddExtraction(l, x), Plus(s, SeenInExtraction(x)))
  {
    var widened := l.(issues := l.issues + x.issues, incomplete := l.incomplete + x.incomplete);
    var open := s.(incomplete := s.incomplete + x.incomplete);
    assert Explained(widened, open) by {
      assert forall key, r :: Blames(s, key, r) <==> Blames(open, key, r);
    }
    NoteAllExplains(widened, open, x.issues);
    var noted := open.(accused := open.accused + AccusedBy(x.issues),
                       unattributed := open.unattributed || exists i :: i in x.issues && i.source.None?);
    FileAllExplains(NoteIssues(widened, x.issues), noted, x.evidence);
    assert Plus(s, SeenInExtraction(x)) == WithItems(noted, Elements(x.evidence));
  }

  lemma JobExplains(l: Ledger, s: Seen, read: Result<Job, string>)
    requires Explained(l, s) && (read.Ok? ==> Canonical(read.value))
    ensures Explained(AddJob(l, read), Plus(s, SeenInRead(read)))
  {
    var after, more := AddJob(l, read), Plus(s, SeenInRead(read));
    assert more.items == s.items && more.accused == s.accused && more.incomplete == s.incomplete;
    assert forall key, r :: Blames(s, key, r) <==> Blames(more, key, r);
    forall key, j
      ensures j in JobsOf(after.jobs, key) <==> j in more.jobs && j.JobKey() == key
    {
      assert j in JobsOf(l.jobs, key) <==> j in s.jobs && j.JobKey() == key;
    }
  }

  // ---- Batches ------------------------------------------------------------------------------

  ghost function UnionOver<T>(hits: set<Value>, f: Value -> set<T>): set<T> {
    set h, t | h in hits && t in f(h) :: t
  }

  lemma UnionOverSplits<T>(a: set<Value>, b: set<Value>, f: Value -> set<T>)
    ensures UnionOver(a + b, f) == UnionOver(a, f) + UnionOver(b, f)
  {}

  lemma UnionOverOne<T>(hit: Value, f: Value -> set<T>)
    ensures UnionOver({hit}, f) == f(hit)
  {
    assert hit in {hit};
  }

  ghost function SeenInHit(hit: Value, clock: Clock): Seen {
    SeenInExtraction(ExtractionOf(hit, clock))
  }

  ghost function SeenInRaw(hits: set<Value>, clock: Clock): Seen {
    Seen(UnionOver(hits, h => SeenInHit(h, clock).items),
         UnionOver(hits, h => SeenInHit(h, clock).accused),
         UnionOver(hits, h => SeenInHit(h, clock).incomplete),
         exists h :: h in hits && SeenInHit(h, clock).unattributed, {})
  }

  lemma SeenInRawSplits(a: set<Value>, b: set<Value>, clock: Clock)
    ensures SeenInRaw(a + b, clock) == Plus(SeenInRaw(a, clock), SeenInRaw(b, clock))
  {
    UnionOverSplits(a, b, h => SeenInHit(h, clock).items);
    UnionOverSplits(a, b, h => SeenInHit(h, clock).accused);
    UnionOverSplits(a, b, h => SeenInHit(h, clock).incomplete);
  }

  lemma SeenInOneRaw(hit: Value, clock: Clock)
    ensures SeenInRaw({hit}, clock) == SeenInHit(hit, clock)
  {
    UnionOverOne(hit, h => SeenInHit(h, clock).items);
    UnionOverOne(hit, h => SeenInHit(h, clock).accused);
    UnionOverOne(hit, h => SeenInHit(h, clock).incomplete);
    assert hit in {hit};
  }

  ghost function SeenInJobs(hits: set<Value>, clock: Clock): Seen {
    NOTHING.(unattributed := exists h :: h in hits && ReadJob(h, clock).Err?,
             jobs := set h | h in hits && ReadJob(h, clock).Ok? :: ReadJob(h, clock).value)
  }

  lemma HitsAreExtractable(hit: Value, clock: Clock)
    ensures Extractable(ExtractionOf(hit, clock))
  {
    ExtractionIsAttributed(hit, clock);
  }

  lemma LastHitExplains(l: Ledger, s: Seen, hits: seq<Value>, clock: Clock, x: Extraction)
    requires hits != [] && Explained(l, Plus(s, SeenInRaw(Elements(hits[..|hits| - 1]), clock)))
    requires x == ExtractionOf(hits[|hits| - 1], clock)
    ensures Explained(AddExtraction(l, x), Plus(s, SeenInRaw(Elements(hits), clock)))
  {
    HitsAreExtractable(hits[|hits| - 1], clock);
    ExtractionExplains(l, Plus(s, SeenInRaw(Elements(hits[..|hits| - 1]), clock)), x);
    SeenInLastHit(s, hits, clock);
  }

  lemma NoHitExplains(l: Ledger, s: Seen, clock: Clock)
    requires Explained(l, s)
    ensures Explained(l, Plus(s, SeenInRaw(Elements([]), clock)))
  {
    assert Elements<Value>([]) == {};
    assert Plus(s, SeenInRaw({}, clock)) == s;
  }

  lemma {:induction false} RawExplains(l: Ledger, s: Seen, hits: seq<Value>, clock: Clock, after: Ledger)
    requires Explained(l, s) && after == AddRaw(l, hits, clock)
    ensures Explained(after, Plus(s, SeenInRaw(Elements(hits), clock)))
  {
    if hits == [] {
      NoHitExplains(l, s, clock);
    } else {
      var sofar := AddRaw(l, hits[..|hits| - 1], clock);
      RawExplains(l, s, hits[..|hits| - 1], clock, sofar);
      LastHitExplains(sofar, s, hits, clock, ExtractionOf(hits[|hits| - 1], clock));
    }
  }

  lemma SeenInLastHit(s: Seen, hits: seq<Value>, clock: Clock)
    requires hits != []
    ensures Plus(Plus(s, SeenInRaw(Elements(hits[..|hits| - 1]), clock)),
                 SeenInHit(hits[|hits| - 1], clock))
            == Plus(s, SeenInRaw(Elements(hits), clock))
  {
    ElementsOfLast(hits);
    SeenInRawSplits(Elements(hits[..|hits| - 1]), {hits[|hits| - 1]}, clock);
    SeenInOneRaw(hits[|hits| - 1], clock);
    PlusAssociates(s, SeenInRaw(Elements(hits[..|hits| - 1]), clock), SeenInHit(hits[|hits| - 1], clock));
  }

  lemma PlusAssociates(a: Seen, b: Seen, c: Seen)
    ensures Plus(Plus(a, b), c) == Plus(a, Plus(b, c))
  {}

  lemma {:induction false} JobsExplain(l: Ledger, s: Seen, hits: seq<Value>, clock: Clock)
    requires Explained(l, s)
    ensures Explained(AddJobs(l, hits, clock), Plus(s, SeenInJobs(Elements(hits), clock)))
  {
    if hits == [] {
      assert Elements(hits) == {};
      assert Plus(s, SeenInJobs({}, clock)) == s;
    } else {
      var before, last := hits[..|hits| - 1], hits[|hits| - 1];
      JobsExplain(l, s, before, clock);
      ReadJobsAreCanonical(last, clock);
      JobExplains(AddJobs(l, before, clock), Plus(s, SeenInJobs(Elements(before), clock)), ReadJob(last, clock));
      SeenInLastJob(s, hits, clock);
    }
  }

  lemma SeenInLastJob(s: Seen, hits: seq<Value>, clock: Clock)
    requires hits != []
    ensures Plus(Plus(s, SeenInJobs(Elements(hits[..|hits| - 1]), clock)), SeenInRead(ReadJob(hits[|hits| - 1], clock)))
            == Plus(s, SeenInJobs(Elements(hits), clock))
  {
    ElementsOfLast(hits);
    assert SeenInJobs(Elements(hits), clock)
           == Plus(SeenInJobs(Elements(hits[..|hits| - 1]), clock), SeenInRead(ReadJob(hits[|hits| - 1], clock)));
    PlusAssociates(s, SeenInJobs(Elements(hits[..|hits| - 1]), clock), SeenInRead(ReadJob(hits[|hits| - 1], clock)));
  }

  // ---- Whole runs ---------------------------------------------------------------------------

  /** One call on the builder. */
  datatype Batch = RawBatch(hits: seq<Value>) | JobBatch(hits: seq<Value>)

  function Feed(l: Ledger, batch: Batch, clock: Clock): Ledger {
    match batch
    case RawBatch(hits) => AddRaw(l, hits, clock)
    case JobBatch(hits) => AddJobs(l, hits, clock)
  }

  function FeedAll(l: Ledger, batches: seq<Batch>, clock: Clock): Ledger {
    if batches == [] then l else Feed(FeedAll(l, batches[..|batches| - 1], clock), batches[|batches| - 1], clock)
  }

  function Replay(batches: seq<Batch>, clock: Clock): Ledger {
    FeedAll(EMPTY, batches, clock)
  }

  lemma {:induction false} FeedInTwo(l: Ledger, a: seq<Batch>, b: seq<Batch>, clock: Clock)
    ensures FeedAll(l, a + b, clock) == FeedAll(FeedAll(l, a, clock), b, clock)
  {
    if b == [] {
      assert a + b == a;
    } else {
      assert (a + b)[..|a + b| - 1] == a + b[..|b| - 1];
      FeedInTwo(l, a, b[..|b| - 1], clock);
    }
  }

  ghost function RawHits(batches: seq<Batch>): set<Value> {
    set b, h | b in batches && b.RawBatch? && h in b.hits :: h
  }

  ghost function JobHits(batches: seq<Batch>): set<Value> {
    set b, h | b in batches && b.JobBatch? && h in b.hits :: h
  }

  ghost function SeenIn(raw: set<Value>, jobs: set<Value>, clock: Clock): Seen {
    Plus(SeenInRaw(raw, clock), SeenInJobs(jobs, clock))
  }

  lemma SeenInMoreRaw(raw: set<Value>, more: set<Value>, jobs: set<Value>, clock: Clock)
    ensures Plus(SeenIn(raw, jobs, clock), SeenInRaw(more, clock)) == SeenIn(raw + more, jobs, clock)
  {
    SeenInRawSplits(raw, more, clock);
    PlusSwaps(SeenInRaw(raw, clock), SeenInJobs(jobs, clock), SeenInRaw(more, clock));
  }

  lemma PlusSwaps(a: Seen, b: Seen, c: Seen)
    ensures Plus(Plus(a, b), c) == Plus(Plus(a, c), b)
  {}

  lemma SeenInJobsSplits(a: set<Value>, b: set<Value>, clock: Clock)
    ensures SeenInJobs(a + b, clock) == Plus(SeenInJobs(a, clock), SeenInJobs(b, clock))
  {
    assert SeenInJobs(a + b, clock).jobs == SeenInJobs(a, clock).jobs + SeenInJobs(b, clock).jobs;
  }

  lemma SeenInMoreJobs(raw: set<Value>, jobs: set<Value>, more: set<Value>, clock: Clock)
    ensures Plus(SeenIn(raw, jobs, clock), SeenInJobs(more, clock)) == SeenIn(raw, jobs + more, clock)
  {
    SeenInJobsSplits(jobs, more, clock);
    PlusAssociates(SeenInRaw(raw, clock), SeenInJobs(jobs, clock), SeenInJobs(more, clock));
  }

  lemma FeedExplains(l: Ledger, s: Seen, batch: Batch, clock: Clock)
    requires Explained(l, s)
    ensures Explained(Feed(l, batch, clock),
                      if batch.RawBatch? then Plus(s, SeenInRaw(Elements(batch.hits), clock))
                      else Plus(s, SeenInJobs(Elements(batch.hits), clock)))
  {
    match batch
    case RawBatch(hits) => RawExplains(l, s, hits, clock, AddRaw(l, hits, clock));
    case JobBatch(hits) => JobsExplain(l, s, hits, clock);
  }

  lemma HitsOfLast(batches: seq<Batch>)
    requires batches != []
    ensures var before, last := batches[..|batches| - 1], batches[|batches| - 1];
            && RawHits(batches) == RawHits(before) + (if last.RawBatch? then Elements(last.hits) else {})
            && JobHits(batches) == JobHits(before) + (if last.JobBatch? then Elements(last.hits) else {})
  {
    assert batches == batches[..|batches| - 1] + [batches[|batches| - 1]];
  }

  /** Every reachable ledger is explained by the sets of hits fed to it. */
  lemma {:induction false} RunsAreExplained(batches: seq<Batch>, clock: Clock)
    ensures Explained(Replay(batches, clock), SeenIn(RawHits(batches), JobHits(batches), clock))
  {
    if batches == [] {
      NothingSeen();
      assert SeenIn(RawHits(batches), JobHits(batches), clock) == NOTHING;
    } else {
      RunsAreExplained(batches[..|batches| - 1], clock);
      LastBatchExplains(Replay(batches[..|batches| - 1], clock), batches, clock);
    }
  }

  lemma LastBatchExplains(l: Ledger, batches: seq<Batch>, clock: Clock)
    requires batches != []
    requires var before := batches[..|batches| - 1]; Explained(l, SeenIn(RawHits(before), JobHits(before), clock))
    ensures Explained(Feed(l, batches[|batches| - 1], clock), SeenIn(RawHits(batches), JobHits(batches), clock))
  {
    var before, last := batches[..|batches| - 1], batches[|batches| - 1];
    FeedExplains(l, SeenIn(RawHits(before), JobHits(before), clock), last, clock);
    HitsOfLast(batches);
    if last.RawBatch? {
      SeenInMoreRaw(RawHits(before), Elements(last.hits), JobHits(before), clock);
      assert JobHits(before) + {} == JobHits(before);
    } else {
      SeenInMoreJobs(RawHits(before), JobHits(before), Elements(last.hits), clock);
      assert RawHits(before) + {} == RawHits(before);
    }
  }

  // ---- Findings -----------------------------------------------------------------------------

  ghost predicate FoundInRaw(hits: set<Value>, clock: Clock, i: Issue) {
    exists hit :: hit in hits && i in ExtractionOf(hit, clock).issues
  }

  /** What a job hit leaves: an unreadable one without a source, a save that names no parent. */
  ghost predicate FoundInJob(hit: Value, clock: Clock, i: Issue) {
    match ReadJob(hit, clock)
    case Err(e) => i == Issue({e}, None, None, None)
    case Ok(j) =>
      j.kind == "save job" && j.parent.None?
        && i == Issue({"invalid_save_parent"}, Some(j.source), None, Some(j.reference))
  }

  ghost predicate FoundInJobs(hits: set<Value>, clock: Clock, i: Issue) {
    exists hit :: hit in hits && FoundInJob(hit, clock, i)
  }

  lemma FilingKeepsIssues(l: Ledger, item: Evidence)
    ensures FileEvidence(l, item).issues == l.issues
  {}

  lemma {:induction false} FilingAllKeepsIssues(l: Ledger, items: seq<Evidence>)
    ensures FileAll(l, items).issues == l.issues
  {
    if items != [] {
      FilingAllKeepsIssues(l, items[..|items| - 1]);
      FilingKeepsIssues(FileAll(l, items[..|items| - 1]), items[|items| - 1]);
    }
  }

  lemma {:induction false} NotingKeepsIssues(l: Ledger, issues: seq<Issue>)
    ensures NoteIssues(l, issues).issues == l.issues
  {
    if issues != [] {
      NotingKeepsIssues(l, issues[..|issues| - 1]);
    }
  }

  lemma ExtractionAddsIssues(l: Ledger, x: Extraction)
    ensures AddExtraction(l, x).issues == l.issues + x.issues
  {
    var widened := l.(issues := l.issues + x.issues, incomplete := l.incomplete + x.incomplete);
    NotingKeepsIssues(widened, x.issues);
    FilingAllKeepsIssues(NoteIssues(widened, x.issues), x.evidence);
  }

  lemma {:induction false} RawIssuesExactly(l: Ledger, hits: seq<Value>, clock: Clock, i: Issue, after: Ledger)
    requires after == AddRaw(l, hits, clock)
    ensures i in after.issues <==> i in l.issues || FoundInRaw(Elements(hits), clock, i)
  {
    if hits != [] {
      var before, last := hits[..|hits| - 1], hits[|hits| - 1];
      var sofar := AddRaw(l, before, clock);
      RawIssuesExactly(l, before, clock, i, sofar);
      ExtractionAddsIssues(sofar, ExtractionOf(last, clock));
      ElementsOfLast(hits);
      FoundInOneMore(Elements(before), last, clock, i);
    }
  }

  lemma FoundInOneMore(hits: set<Value>, last: Value, clock: Clock, i: Issue)
    ensures FoundInRaw(hits + {last}, clock, i) <==> FoundInRaw(hits, clock, i) || i in ExtractionOf(last, clock).issues
    ensures FoundInJobs(hits + {last}, clock, i) <==> FoundInJobs(hits, clock, i) || FoundInJob(last, clock, i)
  {
    assert last in hits + {last};
  }

  lemma JobAddsIssues(l: Ledger, hit: Value, clock: Clock, i: Issue)
    ensures i in AddJob(l, ReadJob(hit, clock)).issues <==> i in l.issues || FoundInJob(hit, clock, i)
  {}

  lemma {:induction false} JobIssuesExactly(l: Ledger, hits: seq<Value>, clock: Clock, i: Issue, after: Ledger)
    requires after == AddJobs(l, hits, clock)
    ensures i in after.issues <==> i in l.issues || FoundInJobs(Elements(hits), clock, i)
  {
    if hits != [] {
      var before, last := hits[..|hits| - 1], hits[|hits| - 1];
      var sofar := AddJobs(l, before, clock);
      JobIssuesExactly(l, before, clock, i, sofar);
      JobAddsIssues(sofar, last, clock, i);
      ElementsOfLast(hits);
      FoundInOneMore(Elements(before), last, clock, i);
    }
  }

  /** The findings of a run are those of its hits: none is lost and none made up. */
  lemma {:induction false} IssuesAreThoseOfHits(batches: seq<Batch>, clock: Clock, i: Issue)
    ensures i in Replay(batches, clock).issues <==>
            FoundInRaw(RawHits(batches), clock, i) || FoundInJobs(JobHits(batches), clock, i)
  {
    if batches != [] {
      var before, last := batches[..|batches| - 1], batches[|batches| - 1];
      var sofar := Replay(before, clock);
      IssuesAreThoseOfHits(before, clock, i);
      HitsOfLast(batches);
      FoundInBoth(RawHits(before), JobHits(before), Elements(last.hits), clock, i);
      if last.RawBatch? {
        RawIssuesExactly(sofar, last.hits, clock, i, Feed(sofar, last, clock));
      } else {
        JobIssuesExactly(sofar, last.hits, clock, i, Feed(sofar, last, clock));
      }
    }
  }

  lemma FoundInBoth(raw: set<Value>, jobs: set<Value>, more: set<Value>, clock: Clock, i: Issue)
    ensures FoundInRaw(raw + more, clock, i) <==> FoundInRaw(raw, clock, i) || FoundInRaw(more, clock, i)
    ensures FoundInJobs(jobs + more, clock, i) <==> FoundInJobs(jobs, clock, i) || FoundInJobs(more, clock, i)
    ensures FoundInRaw(raw + {}, clock, i) <==> FoundInRaw(raw, clock, i)
    ensures FoundInJobs(jobs + {}, clock, i) <==> FoundInJobs(jobs, clock, i)
  {
    assert raw + {} == raw && jobs + {} == jobs;
  }
}
