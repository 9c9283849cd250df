/** The builder: dictionaries updated hit by hit, and documents computed from them. */
module Aggregate {
  import opened Basics
  import opened Dict
  import opened Json
  import opened Models
  import opened Extract
  import opened Validate
  import opened EvidenceLedger

  class ActionLookupBuilder {
    const clock: Clock
    var evidence: map<Key, Records>
    var jobs: map<Key, seq<Job>>
    var issues: seq<Issue>
    var incompleteSources: set<Source>
    var unknownSourceErrors: bool
    var blocked: map<Key, set<Reason>>
    var identities: map<Identity, map<Fingerprint, Key>>

    function State(): Ledger
      reads this
    {
      Ledger(evidence, jobs, issues, incompleteSources, unknownSourceErrors, blocked, identities)
    }

    constructor (clock: Clock)
      ensures State() == EMPTY && this.clock == clock
    {
      this.clock := clock;
      evidence, jobs, issues, incompleteSources := map[], map[], [], {};
      unknownSourceErrors, blocked, identities := false, map[], map[];
    }

    method RecordIssues(found: seq<Issue>)
      modifies this`unknownSourceErrors, this`blocked
      ensures State() == NoteIssues(old(State()), found)
    {
      for i := 0 to |found|
        invariant State() == NoteIssues(old(State()), found[..i])
      {
        assert found[..i + 1][..i] == found[..i];
        var issue := found[i];
        if issue.source.None? {
          unknownSourceErrors := true;
        } else if issue.actionId.Some? {
          blocked := AddReason(blocked, {Key(issue.source.value, issue.actionId.value)}, InvalidBackupEvidence);
        }
      }
      assert found[..|found|] == found;
    }

    /** Every earlier revision of this backup id with another fingerprint blocks both sides. */
    method MarkRevisions(id: Identity, fingerprint: Fingerprint, key: Key)
      modifies this`blocked
      ensures var revisions := RevisionsOf(identities, id);
              blocked == MarkConflicts(old(blocked), Conflicting(revisions, revisions.Keys, fingerprint), key)
    {
      var revisions := RevisionsOf(identities, id);
      var todo := revisions.Keys;
      while todo != {}
        invariant todo <= revisions.Keys
        invariant blocked == MarkConflicts(old(blocked), Conflicting(revisions, revisions.Keys - todo, fingerprint),
                                           key)
        decreases todo
      {
        var f :| f in todo;
        var done := revisions.Keys - todo;
        if f != fingerprint {
          blocked := AddReason(AddReason(blocked, {revisions[f]}, BackupRevisionConflict), {key},
                               BackupRevisionConflict);
        }
        MarkOneMore(old(blocked), revisions, done, f, fingerprint, key);
        todo := todo - {f};
        assert revisions.Keys - todo == done + {f};
      }
      assert revisions.Keys - {} == revisions.Keys;
    }

    method AddEvidence(item: Evidence)
      modifies this`evidence, this`blocked, this`identities
      ensures State() == FileEvidence(old(State()), item)
    {
      var key, fingerprint := item.ActionKey(), FingerprintOf(item);
      if item.backupId.Some? {
        var id := Identity(item.source, item.backupId.value);
        MarkRevisions(id, fingerprint, key);
        identities := identities[id := RevisionsOf(identities, id)[fingerprint := key]];
      } else {
        blocked := AddReason(blocked, {key}, BackupIdentityMissing);
      }
      var records := RecordsOf(evidence, key);
      var previous := Lookup(records, fingerprint);
      if previous.None? || Newer(item, previous.value) {
        records := Put(records, fingerprint, item);
      }
      evidence := evidence[key := records];
    }

    method AddHit(hit: Value)
      modifies this
      ensures State() == AddExtraction(old(State()), ExtractionOf(hit, clock))
    {
      var x := ExtractRaw(hit, clock);
      issues := issues + x.issues;
      incompleteSources := incompleteSources + x.incomplete;
      RecordIssues(x.issues);
      AddEvidences(x.evidence);
    }

    method AddEvidences(items: seq<Evidence>)
      modifies this`evidence, this`blocked, this`identities
      ensures State() == FileAll(old(State()), items)
    {
      for i := 0 to |items|
        invariant State() == FileAll(old(State()), items[..i])
      {
        assert items[..i + 1][..i] == items[..i];
        AddEvidence(items[i]);
      }
      assert items[..|items|] == items;
    }

    method AddRaw(hits: seq<Value>)
      modifies this
      ensures State() == EvidenceLedger.AddRaw(old(State()), hits, clock)
    {
      for i := 0 to |hits|
        invariant State() == EvidenceLedger.AddRaw(old(State()), hits[..i], clock)
      {
        assert hits[..i + 1][..i] == hits[..i];
        AddHit(hits[i]);
      }
      assert hits[..|hits|] == hits;
    }

    method AddJobHit(hit: Value)
      modifies this
      ensures State() == AddJob(old(State()), ReadJob(hit, clock))
    {
      var read := ReadJob(hit, clock);
      if read.Err? {
        issues := issues + [Issue({read.error}, None, None, None)];
        unknownSourceErrors := true;
      } else {
        FileJob(read.value);
      }
    }

    method FileJob(job: Job)
      modifies this
      ensures State() == AddJob(old(State()), Ok(job))
    {
      var copies := JobsOf(jobs, job.JobKey());
      if job !in copies {
        copies := copies + [job];
      }
      jobs := jobs[job.JobKey() := copies];
      if job.kind == SAVE_TYPE && job.parent.None? {
        issues := issues + [Issue({"invalid_save_parent"}, Some(job.source), None, Some(job.reference))];
      }
    }

    method AddJobs(hits: seq<Value>)
      modifies this
      ensures State() == EvidenceLedger.AddJobs(old(State()), hits, clock)
    {
      for i := 0 to |hits|
        invariant State() == EvidenceLedger.AddJobs(old(State()), hits[..i], clock)
      {
        assert hits[..i + 1][..i] == hits[..i];
        AddJobHit(hits[i]);
      }
      assert hits[..|hits|] == hits;
    }

    method InspectTimes(records: seq<Evidence>, start: Option<int>, end: Option<int>)
      returns (untimed: bool, conflict: bool)
      ensures untimed <==> exists e | e in records :: e.saveTime.at.None? || e.completionTime.at.None?
      ensures conflict <==> exists e | e in records :: TimeConflict(e, start, end)
    {
      untimed, conflict := false, false;
      for i := 0 to |records|
        invariant untimed <==> exists e | e in records[..i] :: e.saveTime.at.None? || e.completionTime.at.None?
        invariant conflict <==> exists e | e in records[..i] :: TimeConflict(e, start, end)
      {
        var e := records[i];
        assert records[..i + 1] == records[..i] + [e];
        ghost var clash := TimeConflict(e, start, end);
        assert clash <==> (e.saveTime.at.Some? && e.completionTime.at.Some?
                           && (e.completionTime.at.value < e.saveTime.at.value
                               || (start.Some? && e.saveTime.at.value < start.value)
                               || (end.Some? && e.completionTime.at.value > end.value)));
        if e.saveTime.at.None? || e.completionTime.at.None? {
          untimed := true;
        } else if e.completionTime.at.value < e.saveTime.at.value
                  || (start.Some? && e.saveTime.at.value < start.value)
                  || (end.Some? && e.completionTime.at.value > end.value) {
          conflict := true;
        }
      }
      assert records[..|records|] == records;
    }

    method InspectEvidence(records: seq<Evidence>, syncedAt: int, start: Option<int>, end: Option<int>)
      returns (blocking: set<Reason>, pending: set<Reason>)
      ensures pending == EvidencePending(records, syncedAt)
      ensures blocking == if exists e | e in records :: TimeConflict(e, start, end)
                          then {BackupExecutionTimeConflict} else {}
    {
      blocking, pending := {}, {};
      if exists e | e in records :: e.observedAt.None? {
        pending := pending + {MissingObservationTime};
      }
      if exists e | e in records :: !e.reference.Locatable() {
        pending := pending + {MissingRawReference};
      }
      var untimed, conflict := InspectTimes(records, start, end);
      if untimed {
        pending := pending + {BackupTimeUnconfirmed};
      }
      if conflict {
        blocking := {BackupExecutionTimeConflict};
      }
      if exists e | e in records :: e.observedAt.Some? && e.observedAt.value > syncedAt {
        pending := pending + {FutureObservationTime};
      }
      assert forall e | e in records :: (e.observedAt.Some? && e.observedAt.value > syncedAt)
                                        <==> Before(Some(syncedAt), e.observedAt);
    }

    /** `_document`: reasons are accumulated, then the verdict and the public names follow from them. */
    method BuildDocument(key: Key, syncedAt: int, coverage: Option<Coverage>, generation: string, limit: nat)
      returns (document: Document)
      ensures document == DocumentOf(State(), key, syncedAt, coverage, generation, limit)
    {
      var records := Values(RecordsOf(evidence, key));
      var candidates := CandidatesOf(records);
      var check := ExecutionCheck(key, jobs);
      var start, end := StartOf(check.action), EndOf(check.action);
      var conflict, unsettled := InspectEvidence(records, syncedAt, start, end);
      var blocking := check.blocked + ReasonsOf(blocked, key) + conflict;
      var input := InputReasons(key, coverage);
      var pending := check.pending + input + unsettled + ActionPending(records, check.action, coverage, syncedAt);
      assert blocking == BlockedReasons(State(), key);
      assert pending == PendingReasons(State(), key, coverage, syncedAt);
      document := Conclude(key, records, check.action, blocking, pending, syncedAt, coverage, generation, limit);
    }

    method InputReasons(key: Key, coverage: Option<Coverage>) returns (pending: set<Reason>)
      ensures pending == InputPending(State(), key, coverage)
    {
      pending := {};
      if unknownSourceErrors {
        pending := pending + {UnattributedInputErrors};
      }
      if key.source in incompleteSources || (coverage.Some? && coverage.value.partial) {
        pending := pending + {PartialCollectionReason};
      }
      if coverage.Some? && coverage.value.queryWindowGap {
        pending := pending + {QueryWindowGap};
      }
      if coverage.None? || !coverage.value.suffixReviewed {
        pending := pending + {SuffixRuleUnreviewed};
      }
    }

    method ReadCoverage(coverage: seq<Coverage>) returns (attestations: Option<map<Key, Coverage>>)
      ensures attestations == Attest(coverage)
    {
      var read: map<Key, Coverage> := map[];
      for i := 0 to |coverage|
        invariant Some(read) == Attest(coverage[..i])
      {
        assert coverage[..i + 1][..i] == coverage[..i];
        var key := CoverageKey(coverage[i]);
        if key.None? || key.value in read {
          AttestFailsOn(coverage, i + 1);
          return None;
        }
        read := read[key.value := coverage[i]];
      }
      assert coverage[..|coverage|] == coverage;
      attestations := Some(read);
    }

    method Draft(key: Key, syncedAt: int, attestations: map<Key, Coverage>, generation: string, limit: nat)
      returns (document: Document)
      ensures document == Drafts(State(), syncedAt, attestations, generation, limit)(key)
    {
      document := BuildDocument(key, syncedAt, AttestationFor(attestations, key), generation, limit);
    }

    method BuildKeys(keys: set<Key>, syncedAt: int, attestations: map<Key, Coverage>, generation: string, limit: nat)
      returns (documents: map<string, Document>)
      ensures documents == ByText(keys, Drafts(State(), syncedAt, attestations, generation, limit))
    {
      var todo := keys;
      documents := map[];
      ghost var drafts := Drafts(State(), syncedAt, attestations, generation, limit);
      while todo != {}
        invariant todo <= keys
        invariant documents == ByText(keys - todo, drafts)
        decreases todo
      {
        var key :| key in todo;
        var document := Draft(key, syncedAt, attestations, generation, limit);
        ByTextStep(keys, todo, key, drafts);
        documents := documents[KeyText(key) := document];
        todo := todo - {key};
      }
      assert keys - {} == keys;
    }

    method Build(syncedAt: int, coverage: seq<Coverage>, generation: string, limit: int)
      returns (result: Option<map<string, Document>>)
      ensures result == BuildOf(State(), syncedAt, coverage, generation, limit)
    {
      if limit < 1 {
        return None;
      }
      var attestations := ReadCoverage(coverage);
      if attestations.None? {
        return None;
      }
      var documents := BuildKeys(LedgerKeys(State()), syncedAt, attestations.value, generation, limit);
      result := Some(documents);
    }
  }
}
