/** The versioned lookup store: a compare-and-swap that refuses histories it cannot explain. */
module Store {
  import opened Basics
  import opened Json
  import opened Models
  import opened Validate
  import opened EvidenceLedger

  datatype Checkpoint = Checkpoint(cursor: string, generation: string)

  datatype Fault =
    | UnsupportedSource
    | InvalidIdentity
    | KeyMismatch
    | UnverifiedPublicRelationship
    | InvalidVerifiedRelationship
    | ExecutionReplacement
    | CandidateLedger
    | TerminalRegression

  datatype CommitError = StaleVersion | Refused(fault: Fault)

  datatype StoreState = StoreState(version: nat, documents: map<string, Document>, checkpoint: Option<Checkpoint>)

  const FRESH := StoreState(0, map[], None)

  function DocumentAt(documents: map<string, Document>, key: string): Option<Document> {
    if key in documents then Some(documents[key]) else None
  }

  /** The candidates a document's audit items show. */
  function Audited(d: Document): set<Candidate> {
    set i | i in d.audit :: i.normalized
  }

  predicate Named(name: Option<string>) {
    name.Some? && name.value != ""
  }

  function RelationshipFault(d: Document): Option<Fault> {
    if !d.mapping.Resolved? || !d.verification.Verified? then
      if d.Anonymous() then None else Some(UnverifiedPublicRelationship)
    else if d.candidateCount != 1 || !Named(d.policy) || !Named(d.workflow) || !Named(d.group) then
      Some(InvalidVerifiedRelationship)
    else None
  }

  predicate ReplacesExecution(prior: Document, d: Document) {
    prior.execution.start.Some? && d.execution.start != prior.execution.start && !d.verification.Blocked?
  }

  predicate ShrinksCandidates(prior: Document, d: Document) {
    || prior.candidateCount > d.candidateCount
    || (prior.candidateCount == d.candidateCount && prior.candidates != d.candidates)
    || (prior.candidateCount != 0 && prior.candidates != d.candidates
        && (|Audited(prior)| != prior.candidateCount || !(Audited(prior) <= Audited(d))))
  }

  predicate Regresses(prior: Document, d: Document) {
    && prior.execution.status.Some? && prior.execution.status.value in TERMINAL
    && d.execution.status == Some("running") && !d.verification.Blocked?
  }

  function HistoryFault(prior: Document, d: Document): Option<Fault> {
    if ReplacesExecution(prior, d) then Some(ExecutionReplacement)
    else if ShrinksCandidates(prior, d) then Some(CandidateLedger)
    else if Regresses(prior, d) then Some(TerminalRegression)
    else None
  }

  /** The first objection to filing the document under the key over what is stored there. */
  function FaultOf(prior: Option<Document>, key: string, d: Document): Option<Fault> {
    if ValidateSource(Str(d.source)).None? then Some(UnsupportedSource)
    else if key != d.runKey || PositiveId(Str(d.actionId)).None? then Some(InvalidIdentity)
    else if key != d.source + ":" + d.actionId then Some(KeyMismatch)
    else if RelationshipFault(d).Some? then RelationshipFault(d)
    else if prior.Some? then HistoryFault(prior.value, d)
    else None
  }

  predicate Acceptable(stored: map<string, Document>, documents: map<string, Document>) {
    forall key | key in documents :: FaultOf(DocumentAt(stored, key), key, documents[key]).None?
  }

  /** A blocked document takes over the prior execution and keeps its own aside. */
  function Settle(prior: Option<Document>, d: Document): Document {
    if prior.Some? && d.verification.Blocked? then
      d.(execution := prior.value.execution, conflicting := Some(d.execution))
    else d
  }

  function Merge(stored: map<string, Document>, documents: map<string, Document>): map<string, Document> {
    map key | key in stored.Keys + documents.Keys ::
      if key in documents then Settle(DocumentAt(stored, key), documents[key]) else stored[key]
  }

  /** The transaction's outcome under a key while blocked documents of `todo` are still to be settled. */
  function Halfway(stored: map<string, Document>, documents: map<string, Document>, todo: set<string>,
                   key: string): Document
    requires key in stored.Keys + documents.Keys && todo <= documents.Keys
  {
    if key in todo then documents[key]
    else if key in documents then Settle(DocumentAt(stored, key), documents[key])
    else stored[key]
  }

  /** Settling one more key leaves the others as they are. */
  lemma HalfwaySettles(stored: map<string, Document>, documents: map<string, Document>, todo: set<string>, key: string)
    requires key in todo && todo <= documents.Keys
    ensures forall k | k in stored.Keys + documents.Keys ::
              Halfway(stored, documents, todo - {key}, k)
              == if k == key then Settle(DocumentAt(stored, key), documents[key])
                else Halfway(stored, documents, todo, k)
  {}

  function Committed(s: StoreState, documents: map<string, Document>, checkpoint: Checkpoint): StoreState {
    StoreState(s.version + 1, Merge(s.documents, documents), Some(checkpoint))
  }

  class InMemoryLookupStore {
    var version: nat
    var documents: map<string, Document>
    var checkpoint: Option<Checkpoint>

    function State(): StoreState
      reads this
    {
      StoreState(version, documents, checkpoint)
    }

    constructor ()
      ensures State() == FRESH
    {
      version, documents, checkpoint := 0, map[], None;
    }

    method Inspect(incoming: map<string, Document>) returns (fault: Option<Fault>)
      ensures fault.None? <==> Acceptable(documents, incoming)
      ensures fault.Some? ==> exists key ::
                key in incoming && FaultOf(DocumentAt(documents, key), key, incoming[key]) == fault
    {
      var todo := incoming.Keys;
      while todo != {}
        invariant todo <= incoming.Keys
        invariant forall key | key in incoming.Keys - todo ::
                    FaultOf(DocumentAt(documents, key), key, incoming[key]).None?
        decreases todo
      {
        var key :| key in todo;
        fault := FaultOf(DocumentAt(documents, key), key, incoming[key]);
        if fault.Some? {
          return;
        }
        todo := todo - {key};
      }
      fault := None;
    }

    /** The transaction's outcome: untouched keys are retained, blocked documents settled. */
    method Replacement(incoming: map<string, Document>) returns (replacement: map<string, Document>)
      ensures replacement == Merge(documents, incoming)
    {
      replacement := documents + incoming;
      var todo := incoming.Keys;
      while todo != {}
        invariant todo <= incoming.Keys && replacement.Keys == documents.Keys + incoming.Keys
        invariant forall key | key in replacement :: replacement[key] == Halfway(documents, incoming, todo, key)
        decreases todo
      {
        var key :| key in todo;
        HalfwaySettles(documents, incoming, todo, key);
        todo := todo - {key};
        if key in documents && incoming[key].verification.Blocked? {
          replacement := replacement[key := incoming[key].(execution := documents[key].execution,
                                                           conflicting := Some(incoming[key].execution))];
        }
      }
    }

    /** All documents are inspected before anything changes; then state and checkpoint change together. */
    method Commit(incoming: map<string, Document>, expectedVersion: int, mark: Checkpoint)
      returns (result: Result<nat, CommitError>)
      modifies this
      ensures result == Err(StaleVersion) <==> expectedVersion != old(version)
      ensures result.Ok? <==> expectedVersion == old(version) && Acceptable(old(documents), incoming)
      ensures result.Ok? ==> result.value == version && State() == Committed(old(State()), incoming, mark)
      ensures result.Err? ==> State() == old(State())
      ensures State() == Apply(old(State()), Attempt(incoming, expectedVersion, mark))
      ensures result.Err? && result.error.Refused? ==>
                exists key :: key in incoming
                  && FaultOf(DocumentAt(old(documents), key), key, incoming[key]) == Some(result.error.fault)
    {
      if expectedVersion != version {
        return Err(StaleVersion);
      }
      var fault := Inspect(incoming);
      if fault.Some? {
        return Err(Refused(fault.value));
      }
      documents := Replacement(incoming);
      checkpoint := Some(mark);
      version := version + 1;
      result := Ok(version);
    }
  }

  // ---- Histories of arbitrary documents -----------------------------------------------------

  /** Count, fingerprint and audit items describe one candidate set. */
  predicate WellFormed(d: Document) {
    d.candidateCount == |d.candidates| && Audited(d) <= d.candidates
  }

  predicate AllWellFormed(documents: map<string, Document>) {
    forall key | key in documents :: WellFormed(documents[key])
  }

  datatype Attempt = Attempt(documents: map<string, Document>, expectedVersion: int, checkpoint: Checkpoint)

  predicate Accepts(s: StoreState, a: Attempt) {
    a.expectedVersion == s.version && Acceptable(s.documents, a.documents)
  }

  /** What a commit attempt makes of the state: all of it, or none. */
  function Apply(s: StoreState, a: Attempt): StoreState {
    if Accepts(s, a) then Committed(s, a.documents, a.checkpoint) else s
  }

  function ApplyAll(s: StoreState, attempts: seq<Attempt>): StoreState {
    if attempts == [] then s else Apply(ApplyAll(s, attempts[..|attempts| - 1]), attempts[|attempts| - 1])
  }

  /** Documents never disappear, candidates never shrink, a known start is never altered. */
  ghost predicate Evolves(a: map<string, Document>, b: map<string, Document>) {
    forall key | key in a ::
      && key in b
      && a[key].candidates <= b[key].candidates
      && (a[key].execution.start.Some? ==> b[key].execution.start == a[key].execution.start)
  }

  lemma SubsetOfEqualSize<T>(a: set<T>, b: set<T>)
    requires a <= b && |a| >= |b|
    ensures a == b
  {
    assert |b - a| == |b| - |a|;
  }

  lemma SmallerSubset<T>(a: set<T>, b: set<T>)
    requires a <= b
    ensures |a| <= |b|
  {
    assert |b - a| == |b| - |a|;
  }

  /** A document that passes inspection keeps every candidate already stored. */
  lemma AcceptedCandidatesGrow(prior: Document, d: Document)
    requires WellFormed(prior) && WellFormed(d) && !ShrinksCandidates(prior, d)
    ensures prior.candidates <= d.candidates
  {
    if prior.candidates != d.candidates && prior.candidateCount != 0 {
      SubsetOfEqualSize(Audited(prior), prior.candidates);
    }
  }

  lemma SettleKeeps(prior: Option<Document>, d: Document)
    ensures Settle(prior, d).candidates == d.candidates && (WellFormed(d) ==> WellFormed(Settle(prior, d)))
  {}

  lemma AcceptedEvolves(prior: Document, key: string, d: Document)
    requires WellFormed(prior) && WellFormed(d) && FaultOf(Some(prior), key, d).None?
    ensures prior.candidates <= Settle(Some(prior), d).candidates
    ensures prior.execution.start.Some? ==> Settle(Some(prior), d).execution.start == prior.execution.start
  {
    AcceptedCandidatesGrow(prior, d);
  }

  lemma MergeEvolves(stored: map<string, Document>, documents: map<string, Document>)
    requires AllWellFormed(stored) && AllWellFormed(documents) && Acceptable(stored, documents)
    ensures AllWellFormed(Merge(stored, documents)) && Evolves(stored, Merge(stored, documents))
  {
    var merged := Merge(stored, documents);
    forall key | key in merged ensures WellFormed(merged[key]) {
      if key in documents {
        SettleKeeps(DocumentAt(stored, key), documents[key]);
      }
    }
    forall key | key in stored
      ensures key in merged && stored[key].candidates <= merged[key].candidates
              && (stored[key].execution.start.Some? ==> merged[key].execution.start == stored[key].execution.start)
    {
      if key in documents {
        assert FaultOf(DocumentAt(stored, key), key, documents[key]).None?;
        AcceptedEvolves(stored[key], key, documents[key]);
      }
    }
  }

  lemma EvolvesTransitive(a: map<string, Document>, b: map<string, Document>, c: map<string, Document>)
    requires Evolves(a, b) && Evolves(b, c)
    ensures Evolves(a, c)
  {}

  /** Over any sequence of commits, accepted or refused, of documents each describing one candidate set:
      stored candidate sets only grow, and a stored start stays what it was. */
  lemma {:induction false} StoreHistory(s: StoreState, attempts: seq<Attempt>)
    requires AllWellFormed(s.documents) && forall a | a in attempts :: AllWellFormed(a.documents)
    ensures AllWellFormed(ApplyAll(s, attempts).documents)
    ensures Evolves(s.documents, ApplyAll(s, attempts).documents)
  {
    if attempts != [] {
      var before, last := ApplyAll(s, attempts[..|attempts| - 1]), attempts[|attempts| - 1];
      StoreHistory(s, attempts[..|attempts| - 1]);
      if Accepts(before, last) {
        MergeEvolves(before.documents, last.documents);
        EvolvesTransitive(s.documents, before.documents, Merge(before.documents, last.documents));
      }
    }
  }

  /** How many of the attempts were accepted. */
  function AcceptedCount(s: StoreState, attempts: seq<Attempt>): nat {
    if attempts == [] then 0
    else AcceptedCount(s, attempts[..|attempts| - 1])
         + if Accepts(ApplyAll(s, attempts[..|attempts| - 1]), attempts[|attempts| - 1]) then 1 else 0
  }

  /** The version counts accepted commits; a key none of them names keeps its document; and when all
      were refused nothing changed, the checkpoint included. */
  lemma {:induction false} OnlyAcceptedCommitsCount(s: StoreState, attempts: seq<Attempt>, key: string)
    ensures ApplyAll(s, attempts).version == s.version + AcceptedCount(s, attempts)
    ensures (forall a | a in attempts :: key !in a.documents) ==>
              DocumentAt(ApplyAll(s, attempts).documents, key) == DocumentAt(s.documents, key)
    ensures AcceptedCount(s, attempts) == 0 ==> ApplyAll(s, attempts) == s
  {
    if attempts != [] {
      OnlyAcceptedCommitsCount(s, attempts[..|attempts| - 1], key);
    }
  }

  // ---- What the transaction refuses, and what it keeps, in the documents' own terms -----------------

  predicate Names(d: Document) {
    d.policy.Some? || d.workflow.Some? || d.group.Some?
  }

  predicate NamesAll(d: Document) {
    && d.policy.Some? && d.policy.value != "" && d.workflow.Some? && d.workflow.value != ""
    && d.group.Some? && d.group.value != ""
  }

  /** The document stands under its own id, and shows names exactly where it is resolved and verified. */
  predicate SpeaksForItself(key: string, d: Document) {
    && ValidateSource(Str(d.source)).Some? && PositiveId(Str(d.actionId)).Some?
    && key == d.runKey && key == d.source + ":" + d.actionId
    && (if d.mapping == Resolved && d.verification == Verified then d.candidateCount == 1 && NamesAll(d) else !Names(d))
  }

  predicate HasEnded(d: Document) {
    d.execution.status == Some("success") || d.execution.status == Some("failed")
      || d.execution.status == Some("canceled")
  }

  function Shown(d: Document): set<Candidate> {
    set i | i in d.audit :: i.normalized
  }

  /** The document may follow the stored one. */
  predicate MayFollow(prior: Document, d: Document) {
    && (prior.execution.start.Some? && d.execution.start != prior.execution.start ==> d.verification == Blocked)
    && (HasEnded(prior) && d.execution.status == Some("running") ==> d.verification == Blocked)
    && prior.candidateCount <= d.candidateCount
    && (prior.candidates != d.candidates ==>
          && prior.candidateCount < d.candidateCount
          && (prior.candidateCount > 0 ==> |Shown(prior)| == prior.candidateCount && Shown(prior) <= Shown(d)))
  }

  /** A document is accepted exactly when it speaks for itself and may follow what is stored. */
  lemma AcceptedExactly(prior: Option<Document>, key: string, d: Document)
    ensures FaultOf(prior, key, d).None? <==> SpeaksForItself(key, d) && (prior.Some? ==> MayFollow(prior.value, d))
  {
    if prior.Some? {
      HistoryExactly(prior.value, d);
    }
  }

  lemma HistoryExactly(prior: Document, d: Document)
    ensures HistoryFault(prior, d).None? <==> MayFollow(prior, d)
  {
    assert Shown(prior) == Audited(prior) && Shown(d) == Audited(d);
    EndedExactly(prior);
  }

  lemma EndedExactly(d: Document)
    ensures HasEnded(d) <==> d.execution.status.Some? && d.execution.status.value in TERMINAL
  {}

  /** Each fault says what is wrong. */
  lemma FaultsHaveGrounds(prior: Option<Document>, key: string, d: Document)
    requires FaultOf(prior, key, d).Some?
    ensures match FaultOf(prior, key, d).value
            case UnsupportedSource => ValidateSource(Str(d.source)).None?
            case InvalidIdentity => key != d.runKey || PositiveId(Str(d.actionId)).None?
            case KeyMismatch => key == d.runKey && key != d.source + ":" + d.actionId
            case UnverifiedPublicRelationship => Names(d) && !(d.mapping == Resolved && d.verification == Verified)
            case InvalidVerifiedRelationship =>
              d.mapping == Resolved && d.verification == Verified && (d.candidateCount != 1 || !NamesAll(d))
            case ExecutionReplacement =>
              && prior.Some? && prior.value.execution.start.Some? && d.verification != Blocked
              && d.execution.start != prior.value.execution.start
            case CandidateLedger =>
              prior.Some? && (prior.value.candidateCount > d.candidateCount || prior.value.candidates != d.candidates)
            case TerminalRegression =>
              prior.Some? && HasEnded(prior.value) && d.execution.status == Some("running") && d.verification != Blocked
  {
    if prior.Some? {
      EndedExactly(prior.value);
    }
  }

  /** No commit, accepted or refused, lets an ended action show as running. */
  lemma EndedDoesNotRun(s: StoreState, a: Attempt, key: string)
    requires key in s.documents && HasEnded(s.documents[key])
    ensures key in Apply(s, a).documents
    ensures Apply(s, a).documents[key].execution.status != Some("running")
  {
    if Accepts(s, a) && key in a.documents {
      AcceptedExactly(Some(s.documents[key]), key, a.documents[key]);
      assert FaultOf(DocumentAt(s.documents, key), key, a.documents[key]).None?;
    }
  }

  predicate AllSpeakForThemselves(documents: map<string, Document>) {
    forall key | key in documents :: SpeaksForItself(key, documents[key])
  }

  lemma SettlingKeepsSpeech(prior: Option<Document>, key: string, d: Document)
    requires SpeaksForItself(key, d)
    ensures SpeaksForItself(key, Settle(prior, d))
  {}

  /** After any sequence of commits, accepted or refused, of any documents, every stored document stands under its own
      id and shows names exactly where it is resolved and verified, and then all three, of one candidate. */
  lemma {:induction false} StoredSpeakForThemselves(attempts: seq<Attempt>)
    ensures AllSpeakForThemselves(ApplyAll(FRESH, attempts).documents)
  {
    if attempts != [] {
      var before, last := ApplyAll(FRESH, attempts[..|attempts| - 1]), attempts[|attempts| - 1];
      StoredSpeakForThemselves(attempts[..|attempts| - 1]);
      if Accepts(before, last) {
        forall key | key in last.documents ensures SpeaksForItself(key, Merge(before.documents, last.documents)[key]) {
          var prior := DocumentAt(before.documents, key);
          AcceptedExactly(prior, key, last.documents[key]);
          SettlingKeepsSpeech(prior, key, last.documents[key]);
        }
      }
    }
  }

  /** A commit shows the committed document, except that a blocked one over a stored one keeps the stored run and puts
      its own aside; keys it does not name keep their document. */
  lemma CommittedShows(s: StoreState, a: Attempt, key: string)
    requires Accepts(s, a) && key in a.documents
    ensures key in Apply(s, a).documents && Apply(s, a).version == s.version + 1
            && Apply(s, a).checkpoint == Some(a.checkpoint)
    ensures var d, shown := a.documents[key], Apply(s, a).documents[key];
            if key in s.documents && d.verification == Blocked then
              && shown.execution == s.documents[key].execution && shown.conflicting == Some(d.execution)
              && shown.(execution := d.execution, conflicting := d.conflicting) == d
            else shown == d
  {}
}
