/** Builder and store together, over whole runs: which builds the store accepts, and what it then shows. */
module Agreement {
  import opened Basics
  import opened Text
  import opened Json
  import opened Models
  import opened Validate
  import opened EvidenceLedger
  import opened History
  import opened Verdicts
  import opened Store
  import Aggregate

  datatype Event =
    | Arrive(batch: Batch)
    | Publish(syncedAt: int, coverage: seq<Coverage>, generation: string, limit: int, checkpoint: Checkpoint)

  datatype System = System(ledger: Ledger, store: StoreState)

  const START := System(EMPTY, FRESH)

  ghost function BuiltBy(l: Ledger, e: Event): Option<map<string, Document>>
    requires e.Publish?
  {
    BuildOf(l, e.syncedAt, e.coverage, e.generation, e.limit)
  }

  /** A publication commits what was built at the store's current version. */
  ghost function Step(sys: System, e: Event, clock: Clock): System {
    match e
    case Arrive(batch) => sys.(ledger := Feed(sys.ledger, batch, clock))
    case Publish(_, _, _, _, checkpoint) =>
      match BuiltBy(sys.ledger, e)
      case None => sys
      case Some(documents) => sys.(store := Apply(sys.store, Attempt(documents, sys.store.version, checkpoint)))
  }

  ghost function Run(events: seq<Event>, clock: Clock): System {
    if events == [] then START else Step(Run(events[..|events| - 1], clock), events[|events| - 1], clock)
  }

  /** The builder and the store as objects take the same step. */
  method PublishOnce(builder: Aggregate.ActionLookupBuilder, store: InMemoryLookupStore, syncedAt: int,
                     coverage: seq<Coverage>, generation: string, limit: int, checkpoint: Checkpoint)
    returns (version: Option<nat>)
    modifies store
    ensures System(builder.State(), store.State())
         == Step(old(System(builder.State(), store.State())),
                 Publish(syncedAt, coverage, generation, limit, checkpoint), builder.clock)
    ensures version.Some? ==> version.value == store.version == old(store.version) + 1
    ensures version.None? ==> store.State() == old(store.State())
  {
    ghost var sys := System(builder.State(), store.State());
    var built := builder.Build(syncedAt, coverage, generation, limit);
    PublishSteps(sys, Publish(syncedAt, coverage, generation, limit, checkpoint), built, builder.clock);
    if built.None? {
      return None;
    }
    var result := store.Commit(built.value, store.version, checkpoint);
    version := if result.Ok? then Some(result.value) else None;
  }

  /** What a publication does, given what was built. */
  lemma PublishSteps(sys: System, e: Event, built: Option<map<string, Document>>, clock: Clock)
    requires e.Publish? && built == BuiltBy(sys.ledger, e)
    ensures Step(sys, e, clock)
         == if built.None? then sys
            else sys.(store := Apply(sys.store, Attempt(built.value, sys.store.version, e.checkpoint)))
  {}

  // ---- What a stored document reflects ------------------------------------------------------

  ghost predicate SomeJob(s: Seen, key: Key, start: Option<int>) {
    exists j :: j in s.jobs && j.JobKey() == key && j.start == start
  }

  ghost predicate SomeTerminalJob(s: Seen, key: Key) {
    exists j :: j in s.jobs && j.JobKey() == key && j.Terminal()
  }

  predicate TerminalStatus(x: Execution) {
    x.status.Some? && x.status.value in TERMINAL
  }

  ghost predicate PublishesOnly(d: Document) {
    d.Anonymous() || exists c :: d.candidates == {c} && d.Publishes(c)
  }

  /** The document says nothing about the action that has not been seen. */
  ghost predicate Reflects(d: Document, s: Seen, key: Key) {
    && WellFormed(d)
    && d.candidates <= SeenCandidates(s, key)
    && PublishesOnly(d)
    && (d.execution.start.Some? ==> SomeJob(s, key, d.execution.start))
    && (TerminalStatus(d.execution) ==> SomeTerminalJob(s, key))
  }

  ghost predicate StoreReflects(documents: map<string, Document>, s: Seen) {
    forall key :: KeyText(key) in documents ==> Reflects(documents[KeyText(key)], s, key)
  }

  lemma ReflectsMore(d: Document, s: Seen, later: Seen, key: Key)
    requires Reflects(d, s, key) && Within(s, later)
    ensures Reflects(d, later, key)
  {
    CandidatesGrow(s, later, key);
    if d.execution.start.Some? {
      var j :| j in s.jobs && j.JobKey() == key && j.start == d.execution.start;
      assert j in later.jobs;
    }
    if TerminalStatus(d.execution) {
      var j :| j in s.jobs && j.JobKey() == key && j.Terminal();
      assert j in later.jobs;
    }
  }

  // ---- A draft against what is stored -------------------------------------------------------

  lemma CanonicalIdsAreIds(id: string)
    requires IsPositiveId(id)
    ensures PositiveId(Str(id)) == Some(id)
  {
    assert IsDigit(id[0]) && IsDigit(id[|id| - 1]);
    StripKeeps(id);
  }

  lemma SourceTextsAreSources(source: Source)
    ensures ValidateSource(Str(SourceText(source))) == Some(source)
  {
    var text := SourceText(source);
    StripKeeps(text);
    assert Lower(text) == text;
  }

  lemma LedgerKeysAreCanonical(l: Ledger, s: Seen, key: Key)
    requires Explained(l, s) && key in LedgerKeys(l)
    ensures IsPositiveId(key.id)
  {
    if key in l.evidence {
      RecordIsSeen(l, s, key, 0);
    } else if key in l.blocked {
      var r :| r in l.blocked[key];
      assert r in ReasonsOf(l.blocked, key) <==> Blames(s, key, r);
    } else if k :| k in l.jobs && k == key {
      assert l.jobs[k][0] in JobsOf(l.jobs, k);
      assert l.jobs[k][0] in s.jobs && l.jobs[k][0].JobKey() == k;
    } else {
      var k, j :| k in l.jobs && j in l.jobs[k] && j.kind == SAVE_TYPE && j.parent.Some?
        && key == Key(j.source, j.parent.value);
      assert j in JobsOf(l.jobs, k);
      assert j in s.jobs;
    }
  }

  lemma SelectedIsSeen(l: Ledger, s: Seen, key: Key)
    requires Explained(l, s) && JobsOf(l.jobs, key) != []
    ensures var j := Selected(JobsOf(l.jobs, key)).value; j in s.jobs && j.JobKey() == key
  {
    var j := Selected(JobsOf(l.jobs, key)).value;
    assert j in JobsOf(l.jobs, key) <==> j in s.jobs && j.JobKey() == key;
  }

  lemma AuditIsWithin(records: seq<Evidence>, limit: nat)
    ensures (set i | i in FirstAudits(records, limit) :: i.normalized) <= CandidatesOf(records)
    ensures |records| <= limit ==> (set i | i in FirstAudits(records, limit) :: i.normalized) == CandidatesOf(records)
  {
    var audits := FirstAudits(records, limit);
    forall k | 0 <= k < |audits| ensures audits[k].normalized in CandidatesOf(records) {
      assert records[k] in records;
    }
    if |records| <= limit {
      forall e | e in records ensures e.Normalized() in set i | i in audits :: i.normalized {
        var k :| 0 <= k < |records| && records[k] == e;
        assert audits[k] in audits;
      }
    }
  }

  /** A built document reflects the ledger. */
  lemma DraftReflects(l: Ledger, s: Seen, key: Key, syncedAt: int, coverage: Option<Coverage>, generation: string,
                      limit: nat)
    requires Explained(l, s)
    ensures Reflects(DocumentOf(l, key, syncedAt, coverage, generation, limit), s, key)
  {
    var d := DocumentOf(l, key, syncedAt, coverage, generation, limit);
    CandidatesAreSeen(l, s, key);
    AuditIsWithin(RecordedUnder(l, key), limit);
    DraftPublishesOnly(l, s, key, syncedAt, coverage, generation, limit);
    if JobsOf(l.jobs, key) != [] {
      SelectedIsSeen(l, s, key);
    }
  }

  lemma DraftPublishesOnly(l: Ledger, s: Seen, key: Key, syncedAt: int, coverage: Option<Coverage>, generation: string,
                           limit: nat)
    requires Explained(l, s)
    ensures PublishesOnly(DocumentOf(l, key, syncedAt, coverage, generation, limit))
  {
    ConclusionPublishesOne(key, RecordedUnder(l, key), CheckOf(key, l.jobs).action, BlockedReasons(l, key),
                           PendingReasons(l, key, coverage, syncedAt), syncedAt, coverage, generation, limit);
  }

  lemma DraftHasIdentity(l: Ledger, key: Key, syncedAt: int, coverage: Option<Coverage>, generation: string, limit: nat)
    ensures var d := DocumentOf(l, key, syncedAt, coverage, generation, limit);
            d.runKey == KeyText(key) && d.source == SourceText(key.source) && d.actionId == key.id
  {}

  lemma DraftRelationshipIsValid(l: Ledger, s: Seen, key: Key, syncedAt: int, coverage: Option<Coverage>,
                                 generation: string, limit: nat)
    requires Explained(l, s)
    ensures RelationshipFault(DocumentOf(l, key, syncedAt, coverage, generation, limit)).None?
  {
    PublishedNamesAreTheCandidate(l, s, key, syncedAt, coverage, generation, limit);
    DraftCandidates(l, key, syncedAt, coverage, generation, limit);
    CandidatesAreSeen(l, s, key);
    var d := DocumentOf(l, key, syncedAt, coverage, generation, limit);
    if d.verification.Verified? {
      var c :| IsOnlyCandidate(s, key, c) && d.Publishes(c);
      RelationshipIsValid(d, c);
    }
  }

  lemma RelationshipIsValid(d: Document, c: Candidate)
    requires d.Publishes(c) && c.policy != "" && c.workflow != "" && c.group != "" && d.candidateCount == 1
    requires d.mapping.Resolved? && d.verification.Verified?
    ensures RelationshipFault(d).None?
  {}

  lemma DraftCandidates(l: Ledger, key: Key, syncedAt: int, coverage: Option<Coverage>, generation: string, limit: nat)
    ensures var d := DocumentOf(l, key, syncedAt, coverage, generation, limit);
            && d.candidates == CandidatesOf(RecordedUnder(l, key)) && d.candidateCount == |d.candidates|
            && (d.verification.Verified? ==> d.mapping.Resolved?)
  {}

  /** A built document is consistent in itself. */
  lemma DraftIsValid(l: Ledger, s: Seen, key: Key, syncedAt: int, coverage: Option<Coverage>, generation: string,
                     limit: nat)
    requires Explained(l, s) && key in LedgerKeys(l)
    ensures FaultOf(None, KeyText(key), DocumentOf(l, key, syncedAt, coverage, generation, limit)).None?
  {
    LedgerKeysAreCanonical(l, s, key);
    DraftHasIdentity(l, key, syncedAt, coverage, generation, limit);
    DraftRelationshipIsValid(l, s, key, syncedAt, coverage, generation, limit);
    ConsistentIsValid(DocumentOf(l, key, syncedAt, coverage, generation, limit), key);
  }

  lemma ConsistentIsValid(d: Document, key: Key)
    requires d.runKey == KeyText(key) && d.source == SourceText(key.source) && d.actionId == key.id
             && IsPositiveId(key.id)
    requires RelationshipFault(d).None?
    ensures FaultOf(None, KeyText(key), d).None?
  {
    CanonicalIdsAreIds(key.id);
    SourceTextsAreSources(key.source);
  }

  /** Two starts of one action force a block, so an unblocked draft keeps a stored start. */
  lemma DraftKeepsExecution(l: Ledger, s: Seen, key: Key, syncedAt: int, coverage: Option<Coverage>, generation: string,
                            limit: nat, prior: Document)
    requires Explained(l, s) && Reflects(prior, s, key)
    ensures !ReplacesExecution(prior, DocumentOf(l, key, syncedAt, coverage, generation, limit))
  {
    var d := DocumentOf(l, key, syncedAt, coverage, generation, limit);
    if prior.execution.start.Some? && !d.verification.Blocked? {
      var j :| j in s.jobs && j.JobKey() == key && j.start == prior.execution.start;
      assert j in JobsOf(l.jobs, key);
      NoBlockIsExact(l, key);
      CheckBlocksExactly(key, l.jobs);
    }
  }

  /** A terminal snapshot stays selected. */
  lemma DraftStaysTerminal(l: Ledger, s: Seen, key: Key, syncedAt: int, coverage: Option<Coverage>, generation: string,
                           limit: nat)
    requires Explained(l, s) && SomeTerminalJob(s, key)
    ensures TerminalStatus(DocumentOf(l, key, syncedAt, coverage, generation, limit).execution)
  {
    var j :| j in s.jobs && j.JobKey() == key && j.Terminal();
    assert j in JobsOf(l.jobs, key);
    assert j in Terminals(JobsOf(l.jobs, key));
  }

  /** The audit items still show every stored candidate, where the candidates have changed. */
  predicate AuditSuffices(prior: Document, d: Document) {
    || prior.candidates == {} || prior.candidates == d.candidates
    || (Audited(prior) == prior.candidates && prior.candidates <= Audited(d))
  }

  lemma AuditDecides(prior: Document, d: Document)
    requires WellFormed(prior) && WellFormed(d) && prior.candidates <= d.candidates
    ensures ShrinksCandidates(prior, d) <==> !AuditSuffices(prior, d)
  {
    SmallerSubset(prior.candidates, d.candidates);
    if prior.candidateCount == d.candidateCount {
      SubsetOfEqualSize(prior.candidates, d.candidates);
    }
    if |Audited(prior)| == prior.candidateCount {
      SubsetOfEqualSize(Audited(prior), prior.candidates);
    }
  }

  /** Over what is stored, a draft can only be refused for an audit too short to show the old candidates. */
  lemma DraftFault(l: Ledger, s: Seen, key: Key, syncedAt: int, coverage: Option<Coverage>, generation: string,
                   limit: nat, prior: Option<Document>)
    requires Explained(l, s) && key in LedgerKeys(l)
    requires prior.Some? ==> Reflects(prior.value, s, key)
    ensures var d := DocumentOf(l, key, syncedAt, coverage, generation, limit);
            FaultOf(prior, KeyText(key), d).None? <==> (prior.Some? ==> AuditSuffices(prior.value, d))
  {
    var d := DocumentOf(l, key, syncedAt, coverage, generation, limit);
    DraftIsValid(l, s, key, syncedAt, coverage, generation, limit);
    FaultIsOfHistory(prior, KeyText(key), d);
    if prior.Some? {
      DraftHistory(l, s, key, syncedAt, coverage, generation, limit, prior.value);
    }
  }

  lemma FaultIsOfHistory(prior: Option<Document>, key: string, d: Document)
    requires FaultOf(None, key, d).None?
    ensures FaultOf(prior, key, d).None? <==> (prior.Some? ==> HistoryFault(prior.value, d).None?)
  {}

  lemma DraftHistory(l: Ledger, s: Seen, key: Key, syncedAt: int, coverage: Option<Coverage>, generation: string,
                     limit: nat, prior: Document)
    requires Explained(l, s) && Reflects(prior, s, key)
    ensures var d := DocumentOf(l, key, syncedAt, coverage, generation, limit);
            HistoryFault(prior, d).None? <==> AuditSuffices(prior, d)
  {
    var d := DocumentOf(l, key, syncedAt, coverage, generation, limit);
    DraftKeepsExecution(l, s, key, syncedAt, coverage, generation, limit, prior);
    DraftReflects(l, s, key, syncedAt, coverage, generation, limit);
    CandidatesAreSeen(l, s, key);
    DraftCandidates(l, key, syncedAt, coverage, generation, limit);
    if TerminalStatus(prior.execution) {
      DraftStaysTerminal(l, s, key, syncedAt, coverage, generation, limit);
    }
    AuditDecidesHistory(prior, d);
  }

  lemma AuditDecidesHistory(prior: Document, d: Document)
    requires WellFormed(prior) && WellFormed(d) && prior.candidates <= d.candidates
    requires !ReplacesExecution(prior, d) && (TerminalStatus(prior.execution) ==> TerminalStatus(d.execution))
    ensures HistoryFault(prior, d).None? <==> AuditSuffices(prior, d)
  {
    AuditDecides(prior, d);
  }

  // ---- Runs ---------------------------------------------------------------------------------

  ghost function BatchesOf(events: seq<Event>): seq<Batch> {
    if events == [] then []
    else
      var before, last := BatchesOf(events[..|events| - 1]), events[|events| - 1];
      if last.Arrive? then before + [last.batch] else before
  }

  lemma {:induction false} LedgerOfRun(events: seq<Event>, clock: Clock)
    ensures Run(events, clock).ledger == Replay(BatchesOf(events), clock)
  {
    if events != [] {
      var before, last := events[..|events| - 1], events[|events| - 1];
      LedgerOfRun(before, clock);
      if last.Arrive? {
        var batches := BatchesOf(before);
        assert (batches + [last.batch])[..|batches|] == batches;
      }
    }
  }

  ghost function SeenBy(events: seq<Event>, clock: Clock): Seen {
    SeenIn(RawHits(BatchesOf(events)), JobHits(BatchesOf(events)), clock)
  }

  lemma SeenGrows(events: seq<Event>, clock: Clock)
    requires events != []
    ensures Within(SeenBy(events[..|events| - 1], clock), SeenBy(events, clock))
  {
    var before, last := BatchesOf(events[..|events| - 1]), events[|events| - 1];
    if last.Arrive? {
      var batches := before + [last.batch];
      assert batches[..|batches| - 1] == before;
      HitsOfLast(batches);
      var hits := Elements(last.batch.hits);
      if last.batch.RawBatch? {
        SeenInMoreRaw(RawHits(before), hits, JobHits(before), clock);
        assert JobHits(before) + {} == JobHits(before);
      } else {
        SeenInMoreJobs(RawHits(before), JobHits(before), hits, clock);
        assert RawHits(before) + {} == RawHits(before);
      }
    }
  }

  /** Each stored document that a build would replace shows its candidates in both audits. */
  ghost predicate AuditsSuffice(stored: map<string, Document>, documents: map<string, Document>) {
    forall key | key in documents && key in stored :: AuditSuffices(stored[key], documents[key])
  }

  lemma BuildIsOfDrafts(l: Ledger, e: Event, t: string) returns (key: Key)
    requires e.Publish? && BuiltBy(l, e).Some? && t in BuiltBy(l, e).value
    ensures key in LedgerKeys(l) && t == KeyText(key) && e.limit >= 1 && Attest(e.coverage).Some?
    ensures BuiltBy(l, e).value[t]
         == DocumentOf(l, key, e.syncedAt, AttestationFor(Attest(e.coverage).value, key), e.generation, e.limit)
  {
    key := ByTextHolds(LedgerKeys(l), Drafts(l, e.syncedAt, Attest(e.coverage).value, e.generation, e.limit), t);
  }

  /** A build of the ledger is accepted exactly when no audit is too short. */
  lemma BuildFault(l: Ledger, s: Seen, stored: map<string, Document>, e: Event)
    requires Explained(l, s) && StoreReflects(stored, s)
    requires e.Publish? && BuiltBy(l, e).Some?
    ensures Acceptable(stored, BuiltBy(l, e).value) <==> AuditsSuffice(stored, BuiltBy(l, e).value)
  {
    var documents := BuiltBy(l, e).value;
    forall t | t in documents
      ensures FaultOf(DocumentAt(stored, t), t, documents[t]).None? <==>
              (t in stored ==> AuditSuffices(stored[t], documents[t]))
    {
      var key := BuildIsOfDrafts(l, e, t);
      DraftFault(l, s, key, e.syncedAt, AttestationFor(Attest(e.coverage).value, key), e.generation, e.limit,
                 DocumentAt(stored, t));
    }
  }

  lemma BuildReflects(l: Ledger, s: Seen, e: Event, t: string, key: Key)
    requires Explained(l, s) && e.Publish? && BuiltBy(l, e).Some? && t in BuiltBy(l, e).value && t == KeyText(key)
    ensures Reflects(BuiltBy(l, e).value[t], s, key)
  {
    var k := BuildIsOfDrafts(l, e, t);
    KeyTextInjective(k, key);
    DraftReflects(l, s, key, e.syncedAt, AttestationFor(Attest(e.coverage).value, key), e.generation, e.limit);
  }

  lemma SettledReflects(prior: Option<Document>, d: Document, s: Seen, key: Key)
    requires Reflects(d, s, key) && (prior.Some? ==> Reflects(prior.value, s, key))
    ensures Reflects(Settle(prior, d), s, key)
  {
    var settled := Settle(prior, d);
    if c :| d.candidates == {c} && d.Publishes(c) {
      assert settled.candidates == {c} && settled.Publishes(c);
    }
  }

  lemma CommitReflects(l: Ledger, s: Seen, stored: map<string, Document>, e: Event)
    requires Explained(l, s) && StoreReflects(stored, s) && e.Publish? && BuiltBy(l, e).Some?
    ensures StoreReflects(Merge(stored, BuiltBy(l, e).value), s)
  {
    BuildAllReflects(l, s, e);
    MergeReflects(stored, BuiltBy(l, e).value, s);
  }

  lemma BuildAllReflects(l: Ledger, s: Seen, e: Event)
    requires Explained(l, s) && e.Publish? && BuiltBy(l, e).Some?
    ensures StoreReflects(BuiltBy(l, e).value, s)
  {
    forall key: Key | KeyText(key) in BuiltBy(l, e).value ensures Reflects(BuiltBy(l, e).value[KeyText(key)], s, key) {
      BuildReflects(l, s, e, KeyText(key), key);
    }
  }

  lemma MergeReflects(stored: map<string, Document>, documents: map<string, Document>, s: Seen)
    requires StoreReflects(stored, s) && StoreReflects(documents, s)
    ensures StoreReflects(Merge(stored, documents), s)
  {
    var merged := Merge(stored, documents);
    forall key: Key | KeyText(key) in merged ensures Reflects(merged[KeyText(key)], s, key) {
      MergedReflects(stored, documents, s, key);
    }
  }

  lemma MergedReflects(stored: map<string, Document>, documents: map<string, Document>, s: Seen, key: Key)
    requires StoreReflects(stored, s) && StoreReflects(documents, s) && KeyText(key) in Merge(stored, documents)
    ensures Reflects(Merge(stored, documents)[KeyText(key)], s, key)
  {
    var t := KeyText(key);
    if t in documents {
      SettledReflects(DocumentAt(stored, t), documents[t], s, key);
    }
  }

  lemma StoreReflectsMore(stored: map<string, Document>, s: Seen, later: Seen)
    requires StoreReflects(stored, s) && Within(s, later)
    ensures StoreReflects(stored, later)
  {
    forall key: Key | KeyText(key) in stored ensures Reflects(stored[KeyText(key)], later, key) {
      ReflectsMore(stored[KeyText(key)], s, later, key);
    }
  }

  /** In every run the store says nothing that was not seen. */
  lemma {:induction false} RunsReflect(events: seq<Event>, clock: Clock)
    ensures Explained(Run(events, clock).ledger, SeenBy(events, clock))
    ensures StoreReflects(Run(events, clock).store.documents, SeenBy(events, clock))
  {
    LedgerOfRun(events, clock);
    RunsAreExplained(BatchesOf(events), clock);
    if events != [] {
      var before, last := events[..|events| - 1], events[|events| - 1];
      RunsReflect(before, clock);
      SeenGrows(events, clock);
      StoreReflectsMore(Run(before, clock).store.documents, SeenBy(before, clock), SeenBy(events, clock));
      StepReflects(Run(before, clock), last, SeenBy(events, clock), clock);
    }
  }

  lemma StepReflects(sys: System, e: Event, s: Seen, clock: Clock)
    requires Explained(Step(sys, e, clock).ledger, s) && StoreReflects(sys.store.documents, s)
    ensures StoreReflects(Step(sys, e, clock).store.documents, s)
  {
    if e.Publish? && BuiltBy(sys.ledger, e).Some? {
      CommitReflects(sys.ledger, s, sys.store.documents, e);
    }
  }

  ghost predicate Rejected(sys: System, e: Event) {
    e.Publish? && BuiltBy(sys.ledger, e).Some? && !Acceptable(sys.store.documents, BuiltBy(sys.ledger, e).value)
  }

  /** Whatever arrived and was published before, a build is rejected exactly when the candidates of some
      stored action have changed and an audit, cut at the reference limit, no longer shows the old ones. */
  lemma RejectionIsExact(events: seq<Event>, clock: Clock, e: Event)
    requires e.Publish? && BuiltBy(Run(events, clock).ledger, e).Some?
    ensures Rejected(Run(events, clock), e) <==>
            !AuditsSuffice(Run(events, clock).store.documents, BuiltBy(Run(events, clock).ledger, e).value)
  {
    RunsReflect(events, clock);
    BuildFault(Run(events, clock).ledger, SeenBy(events, clock), Run(events, clock).store.documents, e);
  }

  // ---- Roomy runs ---------------------------------------------------------------------------

  /** No action has more records than the build's reference limit. */
  ghost predicate Roomy(sys: System, e: Event) {
    e.Publish? ==> forall key :: |RecordedUnder(sys.ledger, key)| <= e.limit
  }

  ghost predicate RoomyRun(events: seq<Event>, clock: Clock) {
    events != [] ==>
      && RoomyRun(events[..|events| - 1], clock)
      && Roomy(Run(events[..|events| - 1], clock), events[|events| - 1])
  }

  ghost predicate AuditsComplete(documents: map<string, Document>) {
    forall t | t in documents :: Audited(documents[t]) == documents[t].candidates
  }

  lemma RoomyBuildIsComplete(sys: System, e: Event)
    requires Roomy(sys, e) && e.Publish? && BuiltBy(sys.ledger, e).Some?
    ensures AuditsComplete(BuiltBy(sys.ledger, e).value)
  {
    var documents := BuiltBy(sys.ledger, e).value;
    forall t | t in documents ensures Audited(documents[t]) == documents[t].candidates {
      var key := BuildIsOfDrafts(sys.ledger, e, t);
      AuditIsWithin(RecordedUnder(sys.ledger, key), e.limit);
    }
  }

  lemma MergeIsComplete(stored: map<string, Document>, documents: map<string, Document>)
    requires AuditsComplete(stored) && AuditsComplete(documents)
    ensures AuditsComplete(Merge(stored, documents))
  {}

  lemma {:induction false} RoomyRunsAreComplete(events: seq<Event>, clock: Clock)
    requires RoomyRun(events, clock)
    ensures AuditsComplete(Run(events, clock).store.documents)
  {
    if events != [] {
      var before, last := events[..|events| - 1], events[|events| - 1];
      RoomyRunsAreComplete(before, clock);
      var sys := Run(before, clock);
      if last.Publish? && BuiltBy(sys.ledger, last).Some? {
        RoomyBuildIsComplete(sys, last);
        MergeIsComplete(sys.store.documents, BuiltBy(sys.ledger, last).value);
      }
    }
  }

  /** Builder and store agree: as long as no action outgrows the reference limit, no interleaving of
      arrivals and builds, under any coverages, ever produces a build the store rejects. */
  lemma RoomyRunsAreNeverRejected(events: seq<Event>, clock: Clock, e: Event)
    requires RoomyRun(events + [e], clock)
    ensures !Rejected(Run(events, clock), e)
  {
    assert (events + [e])[..|events + [e]| - 1] == events;
    if e.Publish? && BuiltBy(Run(events, clock).ledger, e).Some? {
      var sys := Run(events, clock);
      RoomyRunsAreComplete(events, clock);
      RoomyBuildIsComplete(sys, e);
      RunsReflect(events, clock);
      forall t | t in BuiltBy(sys.ledger, e).value && t in sys.store.documents
        ensures AuditSuffices(sys.store.documents[t], BuiltBy(sys.ledger, e).value[t])
      {
        var key := BuildIsOfDrafts(sys.ledger, e, t);
        CandidatesAreSeen(sys.ledger, SeenBy(events, clock), key);
      }
      RejectionIsExact(events, clock, e);
    }
  }

  // ---- What the store shows over a run ------------------------------------------------------

  /** A stored action that has ended has still ended later. */
  ghost predicate TerminalStays(a: map<string, Document>, b: map<string, Document>) {
    forall t | t in a && TerminalStatus(a[t].execution) :: t in b && TerminalStatus(b[t].execution)
  }

  lemma BuildIsWellFormed(l: Ledger, s: Seen, e: Event)
    requires Explained(l, s) && e.Publish? && BuiltBy(l, e).Some?
    ensures AllWellFormed(BuiltBy(l, e).value)
  {
    forall t | t in BuiltBy(l, e).value ensures WellFormed(BuiltBy(l, e).value[t]) {
      var key := BuildIsOfDrafts(l, e, t);
      BuildReflects(l, s, e, t, key);
    }
  }

  lemma CommitStaysTerminal(l: Ledger, s: Seen, stored: map<string, Document>, e: Event)
    requires Explained(l, s) && StoreReflects(stored, s) && e.Publish? && BuiltBy(l, e).Some?
    ensures TerminalStays(stored, Merge(stored, BuiltBy(l, e).value))
  {
    var documents := BuiltBy(l, e).value;
    forall t | t in stored && TerminalStatus(stored[t].execution)
      ensures TerminalStatus(Merge(stored, documents)[t].execution)
    {
      if t in documents {
        var key := BuildIsOfDrafts(l, e, t);
        DraftStaysTerminal(l, s, key, e.syncedAt, AttestationFor(Attest(e.coverage).value, key), e.generation, e.limit);
        SettleStaysTerminal(stored[t], documents[t]);
      }
    }
  }

  lemma SettleStaysTerminal(prior: Document, d: Document)
    requires TerminalStatus(prior.execution) && TerminalStatus(d.execution)
    ensures TerminalStatus(Settle(Some(prior), d).execution)
  {}

  lemma StepEvolves(events: seq<Event>, clock: Clock, e: Event)
    requires AllWellFormed(Run(events, clock).store.documents)
    ensures var before, after := Run(events, clock).store.documents, Step(Run(events, clock), e, clock).store.documents;
            AllWellFormed(after) && Evolves(before, after) && TerminalStays(before, after)
  {
    RunsReflect(events, clock);
    ReflectingStepEvolves(Run(events, clock), SeenBy(events, clock), e, clock);
  }

  lemma ReflectingStepEvolves(sys: System, s: Seen, e: Event, clock: Clock)
    requires Explained(sys.ledger, s) && StoreReflects(sys.store.documents, s) && AllWellFormed(sys.store.documents)
    ensures var before, after := sys.store.documents, Step(sys, e, clock).store.documents;
            AllWellFormed(after) && Evolves(before, after) && TerminalStays(before, after)
  {
    if e.Publish? && BuiltBy(sys.ledger, e).Some? && Acceptable(sys.store.documents, BuiltBy(sys.ledger, e).value) {
      BuildIsWellFormed(sys.ledger, s, e);
      MergeEvolves(sys.store.documents, BuiltBy(sys.ledger, e).value);
      CommitStaysTerminal(sys.ledger, s, sys.store.documents, e);
    }
  }

  lemma {:induction false} RunsAreWellFormed(events: seq<Event>, clock: Clock)
    ensures AllWellFormed(Run(events, clock).store.documents)
  {
    if events != [] {
      RunsAreWellFormed(events[..|events| - 1], clock);
      StepEvolves(events[..|events| - 1], clock, events[|events| - 1]);
    }
  }

  /** Whatever happens after a run, no stored document is lost, no stored candidate forgotten, no stored
      start altered, and no action that has ended runs again. */
  lemma {:induction false} StoreOnlyLearns(events: seq<Event>, more: seq<Event>, clock: Clock)
    ensures Evolves(Run(events, clock).store.documents, Run(events + more, clock).store.documents)
    ensures TerminalStays(Run(events, clock).store.documents, Run(events + more, clock).store.documents)
  {
    if more == [] {
      assert events + more == events;
    } else {
      var before := events + more[..|more| - 1];
      assert (events + more)[..|events + more| - 1] == before;
      StoreOnlyLearns(events, more[..|more| - 1], clock);
      RunsAreWellFormed(before, clock);
      StepEvolves(before, clock, more[|more| - 1]);
      EvolvesTransitive(Run(events, clock).store.documents, Run(before, clock).store.documents,
                        Run(events + more, clock).store.documents);
    }
  }

  lemma OneCandidateOneName(a: Document, b: Document)
    requires PublishesOnly(a) && PublishesOnly(b) && !a.Anonymous() && !b.Anonymous() && a.candidates <= b.candidates
    ensures a.policy == b.policy && a.workflow == b.workflow && a.group == b.group
  {
    var c :| a.candidates == {c} && a.Publishes(c);
    var d :| b.candidates == {d} && b.Publishes(d);
    assert c in b.candidates;
  }

  /** Through the store an action's names are only ever one triple or null: whatever arrives, is built,
      accepted or refused in between, two published relationships of one action are the same. */
  lemma StoredNamesNeverChange(events: seq<Event>, more: seq<Event>, clock: Clock, key: Key)
    requires KeyText(key) in Run(events, clock).store.documents
    ensures KeyText(key) in Run(events + more, clock).store.documents
    ensures var a, b := Run(events, clock).store.documents[KeyText(key)],
            Run(events + more, clock).store.documents[KeyText(key)];
            a.Anonymous() || b.Anonymous() || (a.policy == b.policy && a.workflow == b.workflow && a.group == b.group)
  {
    StoreOnlyLearns(events, more, clock);
    RunsReflect(events, clock);
    RunsReflect(events + more, clock);
    var a, b := Run(events, clock).store.documents[KeyText(key)],
      Run(events + more, clock).store.documents[KeyText(key)];
    assert Reflects(a, SeenBy(events, clock), key) && Reflects(b, SeenBy(events + more, clock), key);
    if !a.Anonymous() && !b.Anonymous() {
      OneCandidateOneName(a, b);
    }
  }
}
