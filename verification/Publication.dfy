/** What publication asks for and what a document shows, written out on the snapshots, records and attestations
    themselves: the conditions do not go through the functions that choose, check and conclude. */
module Publication {
  import opened Basics
  import opened Text
  import opened Models
  import opened Validate
  import opened EvidenceLedger
  import opened Verdicts

  // ---- The chosen snapshot ------------------------------------------------------------------

  predicate Ended(j: Job) {
    j.status == "success" || j.status == "failed" || j.status == "canceled"
  }

  /** Observed later, or at the same time with the greater status; a snapshot without a time comes before all. */
  predicate Later(a: Job, b: Job) {
    if a.observedAt.Some? && b.observedAt.Some? && a.observedAt != b.observedAt then
      a.observedAt.value > b.observedAt.value
    else if a.observedAt.Some? != b.observedAt.Some? then a.observedAt.Some?
    else Below(b.status, a.status)
  }

  /** The `k`-th snapshot speaks for the job: an ended one if there is any, of those the latest, of equals the first. */
  ghost predicate Speaks(copies: seq<Job>, k: nat) {
    && k < |copies|
    && ((exists j :: j in copies && Ended(j)) ==> Ended(copies[k]))
    && forall i | 0 <= i < |copies| && i != k && (Ended(copies[k]) ==> Ended(copies[i])) ::
         Precedes(copies, k, i)
  }

  predicate Precedes(copies: seq<Job>, k: nat, i: nat)
    requires k < |copies| && i < |copies|
  {
    if i < k then Later(copies[k], copies[i]) else !Later(copies[i], copies[k])
  }

  lemma LaterIsOutranking(a: Job, b: Job)
    ensures Later(a, b) <==> Outranks(a, b)
  {}

  lemma TerminalMeansEnded(j: Job)
    ensures j.Terminal() <==> Ended(j)
  {}

  /** The best of the snapshots before, and one more. */
  lemma OneMoreSpeaks(before: seq<Job>, last: Job, k: nat)
    requires Speaks(before, k) && (Ended(before[k]) <==> Ended(last))
    ensures Speaks(before + [last], if Outranks(last, before[k]) then |before| else k)
  {
    var all, best := before + [last], before[k];
    LaterIsOutranking(last, best);
    if Outranks(last, best) {
      forall i | 0 <= i < |before| && (Ended(last) ==> Ended(before[i])) ensures Precedes(all, |before|, i) {
        OutranksIsStrict(last, best, before[i]);
        LaterIsOutranking(last, before[i]);
        LaterIsOutranking(best, before[i]);
        LaterIsOutranking(before[i], best);
        assert i != k ==> Precedes(before, k, i);
      }
    } else {
      forall i | 0 <= i < |all| && i != k && (Ended(best) ==> Ended(all[i])) ensures Precedes(all, k, i) {
        assert i < |before| ==> Precedes(before, k, i);
      }
    }
  }

  /** An unfinished snapshot does not matter beside an ended one. */
  lemma UnfinishedDoesNotSpeak(before: seq<Job>, last: Job, k: nat)
    requires Speaks(before, k) && Ended(before[k]) && !Ended(last)
    ensures Speaks(before + [last], k)
  {
    var all := before + [last];
    forall i | 0 <= i < |all| && i != k && (Ended(all[k]) ==> Ended(all[i])) ensures Precedes(all, k, i) {
      assert Precedes(before, k, i);
    }
  }

  lemma FirstEndedSpeaks(before: seq<Job>, last: Job)
    requires (forall j | j in before :: !Ended(j)) && Ended(last)
    ensures Speaks(before + [last], |before|)
  {}

  lemma NoTerminalsMeansNoneEnded(copies: seq<Job>)
    ensures Terminals(copies) == [] <==> forall j | j in copies :: !Ended(j)
  {
    forall j | j in copies ensures j in Terminals(copies) <==> Ended(j) {
      TerminalMeansEnded(j);
    }
    if Terminals(copies) != [] {
      assert Terminals(copies)[0] in Terminals(copies);
      TerminalMeansEnded(Terminals(copies)[0]);
    }
  }

  /** How one more snapshot changes the choice. */
  lemma ChosenOfMore(before: seq<Job>, last: Job)
    requires before != []
    ensures var best := Selected(before).value;
            Selected(before + [last])
            == if Ended(last) && Terminals(before) == [] then Some(last)
               else if !Ended(last) && Terminals(before) != [] then Some(best)
               else if Outranks(last, best) then Some(last) else Some(best)
  {
    var copies := before + [last];
    assert copies[..|copies| - 1] == before;
    TerminalMeansEnded(last);
    var ended := Terminals(before);
    assert (ended + [last])[..|ended + [last]| - 1] == ended;
  }

  /** One snapshot speaks for the job, and it is the one chosen. */
  lemma {:induction false} SpeakerIsChosen(copies: seq<Job>) returns (k: nat)
    requires copies != []
    ensures Speaks(copies, k) && Selected(copies) == Some(copies[k])
  {
    if |copies| == 1 {
      k := 0;
      assert Selected(copies).value in copies;
    } else {
      var before, last := copies[..|copies| - 1], copies[|copies| - 1];
      assert copies == before + [last];
      var best := SpeakerIsChosen(before);
      k := SpeakerOfMore(before, last, best);
    }
  }

  lemma SpeakerOfMore(before: seq<Job>, last: Job, best: nat) returns (k: nat)
    requires Speaks(before, best) && Selected(before) == Some(before[best])
    ensures Speaks(before + [last], k) && Selected(before + [last]) == Some((before + [last])[k])
  {
    NoTerminalsMeansNoneEnded(before);
    ChosenOfMore(before, last);
    if Ended(last) && Terminals(before) == [] {
      FirstEndedSpeaks(before, last);
      k := |before|;
    } else if !Ended(last) && Terminals(before) != [] {
      UnfinishedDoesNotSpeak(before, last, best);
      k := best;
    } else {
      OneMoreSpeaks(before, last, best);
      k := if Outranks(last, before[best]) then |before| else best;
    }
  }

  lemma OneSpeaker(copies: seq<Job>, j: nat, k: nat)
    requires Speaks(copies, j) && Speaks(copies, k)
    ensures j == k
  {
    assert j == k || Precedes(copies, j, k);
    assert j == k || Precedes(copies, k, j);
  }

  lemma SpeaksExactly(copies: seq<Job>, k: nat)
    requires Speaks(copies, k)
    ensures Selected(copies) == Some(copies[k])
  {
    var chosen := SpeakerIsChosen(copies);
    OneSpeaker(copies, chosen, k);
  }

  // ---- The story of a run -------------------------------------------------------------------

  /** The snapshots tell one execution, one place in the hierarchy and one ending. */
  ghost predicate OneStory(copies: seq<Job>) {
    forall a, b | a in copies && b in copies ::
      && a.start == b.start && a.kind == b.kind && a.parent == b.parent && a.root == b.root
      && (Ended(a) && Ended(b) ==> a.status == b.status && a.end == b.end)
  }

  predicate TimesInOrder(j: Job) {
    && j.start.Some? && j.observedAt.Some? && j.start.value <= j.observedAt.value
    && (j.end.Some? ==> j.start.value <= j.end.value <= j.observedAt.value)
    && (Ended(j) ==> j.end.Some?)
    && (Ended(j) || j.status == "running" || j.status == "unknown")
  }

  /** The `k`-th snapshot is the job's, and nothing speaks against it. */
  ghost predicate Testifies(copies: seq<Job>, k: nat) {
    OneStory(copies) && Speaks(copies, k) && TimesInOrder(copies[k])
  }

  lemma TestimonyIsCoherent(copies: seq<Job>, k: nat)
    requires Speaks(copies, k)
    ensures Coherent(copies) <==> Testifies(copies, k)
  {
    SpeaksExactly(copies, k);
    OneStoryInParts(copies);
    TerminalMeansEnded(copies[k]);
  }

  lemma OneStoryInParts(copies: seq<Job>)
    ensures OneStory(copies) <==> OneExecution(copies) && OneHierarchy(copies) && OneTermination(copies)
  {
    forall j | j in copies ensures j.Terminal() <==> Ended(j) {
      TerminalMeansEnded(j);
    }
  }

  /** Which snapshots take part: saves that name the action as their parent. */
  ghost predicate HasSaveOf(copies: seq<Job>, key: Key) {
    exists j :: j in copies && j.kind == "save job" && j.source == key.source && j.parent == Some(key.id)
  }

  /** A save, in the snapshot that speaks for it, belongs to the action and lies in its bounds. */
  ghost predicate SaveAgrees(copies: seq<Job>, action: Job, k: nat) {
    && Testifies(copies, k)
    && copies[k].kind == "save job" && copies[k].source == action.source && copies[k].parent == Some(action.identity)
    && (copies[k].root.Some? && action.root.Some? ==> copies[k].root == action.root)
    && (copies[k].start.Some? && action.start.Some? ==> action.start.value <= copies[k].start.value)
    && (copies[k].end.Some? && action.end.Some? ==> copies[k].end.value <= action.end.value)
  }

  lemma SaveAgreesAt(copies: seq<Job>, action: Job, k: nat)
    requires Speaks(copies, k)
    ensures SaveFits(copies, action) <==> SaveAgrees(copies, action, k)
  {
    TestimonyIsCoherent(copies, k);
    SpeaksExactly(copies, k);
  }

  lemma SaveAgreesExactly(copies: seq<Job>, action: Job)
    requires copies != []
    ensures SaveFits(copies, action) <==> exists k: nat :: SaveAgrees(copies, action, k)
  {
    var k := SpeakerIsChosen(copies);
    SaveAgreesAt(copies, action, k);
    if other: nat :| SaveAgrees(copies, action, other) {
      SaveAgreesAt(copies, action, other);
    }
  }

  /** The workflow, in the snapshot that speaks for it, is one and encloses the action. */
  ghost predicate WorkflowEncloses(copies: seq<Job>, action: Job, k: nat) {
    && Testifies(copies, k)
    && copies[k].kind == "workflow job"
    && (action.start.Some? ==> copies[k].start.value <= action.start.value)
    && (copies[k].end.Some? && action.end.Some? ==> action.end.value <= copies[k].end.value)
  }

  lemma WorkflowEnclosesAt(copies: seq<Job>, action: Job, k: nat)
    requires Speaks(copies, k)
    ensures WorkflowFits(copies, action) <==> WorkflowEncloses(copies, action, k)
  {
    TestimonyIsCoherent(copies, k);
    SpeaksExactly(copies, k);
  }

  lemma WorkflowEnclosesExactly(copies: seq<Job>, action: Job)
    requires copies != []
    ensures WorkflowFits(copies, action) <==> exists k: nat :: WorkflowEncloses(copies, action, k)
  {
    var k := SpeakerIsChosen(copies);
    WorkflowEnclosesAt(copies, action, k);
    if other: nat :| WorkflowEncloses(copies, action, other) {
      WorkflowEnclosesAt(copies, action, other);
    }
  }

  /** The snapshots filed under a key. */
  function Copies(jobs: map<Key, seq<Job>>, key: Key): seq<Job> {
    if key in jobs then jobs[key] else []
  }

  /** The finished backup action, its workflow and its saves, as the snapshots give them. */
  ghost predicate RunStands(jobs: map<Key, seq<Job>>, key: Key, k: nat) {
    && Testifies(Copies(jobs, key), k)
    && var action := Copies(jobs, key)[k];
       && action.kind == "backup action job" && Ended(action) && action.root.Some?
       && (exists w: nat :: WorkflowEncloses(Copies(jobs, Key(action.source, action.root.value)), action, w))
       && (forall other | other in jobs && HasSaveOf(jobs[other], key) ::
             exists s: nat :: SaveAgrees(jobs[other], action, s))
  }

  lemma RunStandsExactly(jobs: map<Key, seq<Job>>, key: Key)
    ensures HierarchyFits(key, jobs) <==> exists k: nat :: RunStands(jobs, key, k)
    ensures forall k: nat | RunStands(jobs, key, k) :: Selected(Copies(jobs, key)) == Some(Copies(jobs, key)[k])
  {
    var copies := Copies(jobs, key);
    assert copies == JobsOf(jobs, key);
    if copies != [] {
      var k := SpeakerIsChosen(copies);
      RunStandsAt(jobs, key, k);
      forall other: nat | RunStands(jobs, key, other) ensures other == k {
        OneSpeaker(copies, k, other);
      }
    }
  }

  lemma RunStandsAt(jobs: map<Key, seq<Job>>, key: Key, k: nat)
    requires Speaks(Copies(jobs, key), k)
    ensures HierarchyFits(key, jobs) <==> RunStands(jobs, key, k)
  {
    var copies := Copies(jobs, key);
    var action := copies[k];
    assert copies == JobsOf(jobs, key);
    SpeaksExactly(copies, k);
    TestimonyIsCoherent(copies, k);
    TerminalMeansEnded(action);
    WorkflowStandsExactly(jobs, action);
    forall other | other in jobs
      ensures HasSaveOf(jobs[other], key) <==> Related(jobs[other], key)
      ensures HasSaveOf(jobs[other], key) ==>
                (SaveFits(jobs[other], action) <==> exists s: nat :: SaveAgrees(jobs[other], action, s))
    {
      if HasSaveOf(jobs[other], key) {
        SaveAgreesExactly(jobs[other], action);
      }
    }
  }

  lemma WorkflowStandsExactly(jobs: map<Key, seq<Job>>, action: Job)
    ensures action.root.Some? ==>
              (WorkflowFits(WorkflowsOf(jobs, action), action) <==>
                 exists w: nat :: WorkflowEncloses(Copies(jobs, Key(action.source, action.root.value)), action, w))
  {
    if action.root.Some? {
      var copies := Copies(jobs, Key(action.source, action.root.value));
      assert copies == WorkflowsOf(jobs, action);
      if copies != [] {
        WorkflowEnclosesExactly(copies, action);
      }
    }
  }

  // ---- The records and the attestation ------------------------------------------------------

  /** The evidence is recorded under the key. */
  ghost predicate Held(l: Ledger, key: Key, e: Evidence) {
    key in l.evidence && exists n :: 0 <= n < |l.evidence[key]| && l.evidence[key][n].value == e
  }

  lemma HeldIsRecorded(l: Ledger, key: Key, e: Evidence)
    ensures Held(l, key, e) <==> e in RecordedUnder(l, key)
  {
    var records := RecordedUnder(l, key);
    if Held(l, key, e) {
      var n :| 0 <= n < |l.evidence[key]| && l.evidence[key][n].value == e;
      assert records[n] == e;
    }
    if e in records {
      var n :| 0 <= n < |records| && records[n] == e;
      assert l.evidence[key][n].value == e;
    }
  }

  /** The backup was observed by now in a hit that can be found again, and saved within the run. */
  predicate BackupStands(e: Evidence, action: Job, syncedAt: int) {
    && e.observedAt.Some? && e.observedAt.value <= syncedAt
    && (e.reference.rawDocumentId.Truthy() || (e.reference.index.Truthy() && e.reference.id.Truthy()))
    && e.saveTime.at.Some? && e.completionTime.at.Some? && e.saveTime.at.value <= e.completionTime.at.value
    && (action.start.Some? ==> action.start.value <= e.saveTime.at.value)
    && (action.end.Some? ==> e.completionTime.at.value <= action.end.value)
  }

  predicate SameNames(a: Evidence, b: Evidence) {
    && a.policy.normalized == b.policy.normalized
    && a.workflow.normalized == b.workflow.normalized
    && a.group.normalized == b.group.normalized
  }

  /** There is a backup, all of them stand, and all give the same names. */
  ghost predicate EvidenceStands(l: Ledger, key: Key, action: Job, syncedAt: int) {
    && (exists e :: Held(l, key, e))
    && (forall e | Held(l, key, e) :: BackupStands(e, action, syncedAt))
    && (forall a, b | Held(l, key, a) && Held(l, key, b) :: SameNames(a, b))
  }

  lemma OneCandidateExactly(records: seq<Evidence>)
    ensures |CandidatesOf(records)| == 1 <==>
            records != [] && forall a, b | a in records && b in records :: SameNames(a, b)
  {
    var candidates := CandidatesOf(records);
    if |candidates| == 1 {
      SingletonExists(candidates);
      forall a, b | a in records && b in records ensures SameNames(a, b) {
        assert a.Normalized() in candidates && b.Normalized() in candidates;
      }
      assert records == [] ==> candidates == {};
    }
    if records != [] && forall a, b | a in records && b in records :: SameNames(a, b) {
      forall c | c in candidates ensures c == records[0].Normalized() {
        var e :| e in records && e.Normalized() == c;
        assert SameNames(e, records[0]);
      }
      assert records[0] in records;
      assert candidates == {records[0].Normalized()};
    }
  }

  lemma EvidenceStandsExactly(l: Ledger, key: Key, action: Job, syncedAt: int)
    ensures EvidenceStands(l, key, action, syncedAt) <==>
            && |CandidatesOf(RecordedUnder(l, key))| == 1
            && forall e | e in RecordedUnder(l, key) :: BackupFits(e, action, syncedAt)
  {
    var records := RecordedUnder(l, key);
    forall e ensures Held(l, key, e) <==> e in records {
      HeldIsRecorded(l, key, e);
    }
    OneCandidateExactly(records);
    assert records != [] ==> records[0] in records;
    forall e ensures BackupStands(e, action, syncedAt) <==> BackupFits(e, action, syncedAt) {}
  }

  /** The text spells the id: nothing but white space around it, and no leading zero. */
  predicate Spells(text: string, id: string) {
    Strip(text) == id && id != "" && id[0] != '0' && forall c | c in id :: '0' <= c <= '9'
  }

  /** The attestation is about this action of this source. */
  predicate About(c: Coverage, key: Key) {
    c.source == key.source && Spells(c.actionId, key.id)
  }

  /** The attestation covers the run without a hole, its suffixes are reviewed and its proof is named. */
  predicate Covers(c: Coverage, action: Job) {
    && c.jobsComplete && c.backupsComplete && !c.partial && !c.queryWindowGap && c.suffixReviewed
    && Strip(c.proofReference) != ""
    && c.start.Some? && c.end.Some? && action.start.Some? && action.end.Some?
    && c.start.value <= action.start.value <= action.end.value <= c.end.value
  }

  /** Beside the run, everything the ledger knows speaks for publishing the action under the attestation. */
  ghost predicate StandsBeside(l: Ledger, key: Key, syncedAt: int, c: Coverage, action: Job) {
    && action.observedAt.Some? && action.observedAt.value <= syncedAt
    && Covers(c, action)
    && EvidenceStands(l, key, action, syncedAt)
    && !l.unknownSourceErrors && key.source !in l.incomplete && (key in l.blocked ==> l.blocked[key] == {})
  }

  /** Run and records stand, and the attestation covers them. */
  ghost predicate Stands(l: Ledger, key: Key, syncedAt: int, c: Coverage, k: nat) {
    RunStands(l.jobs, key, k) && StandsBeside(l, key, syncedAt, c, Copies(l.jobs, key)[k])
  }

  /** What is asked for beside the run. */
  predicate SupportedBeside(l: Ledger, key: Key, syncedAt: int, c: Coverage, action: Job) {
    && NotBefore(Some(syncedAt), action.observedAt)
    && CompleteCoverage(Some(c), action.start, action.end) && c.suffixReviewed
    && !l.unknownSourceErrors && key.source !in l.incomplete && ReasonsOf(l.blocked, key) == {}
    && |CandidatesOf(RecordedUnder(l, key))| == 1
    && forall e | e in RecordedUnder(l, key) :: BackupFits(e, action, syncedAt)
  }

  lemma SupportedInParts(l: Ledger, key: Key, syncedAt: int, c: Coverage)
    ensures Supported(l, key, syncedAt, Some(c)) <==>
            HierarchyFits(key, l.jobs) && SupportedBeside(l, key, syncedAt, c, Selected(JobsOf(l.jobs, key)).value)
  {}

  lemma BesideRunExactly(l: Ledger, key: Key, syncedAt: int, c: Coverage, action: Job)
    requires action.observedAt.Some?
    ensures SupportedBeside(l, key, syncedAt, c, action) <==> StandsBeside(l, key, syncedAt, c, action)
  {
    EvidenceStandsExactly(l, key, action, syncedAt);
    CoversExactly(c, action);
    NothingHeldAgainst(l, key);
  }

  /** Under a run that stands, what is asked for beside it. */
  lemma SupportedBesideRun(l: Ledger, key: Key, syncedAt: int, c: Coverage, k: nat)
    requires RunStands(l.jobs, key, k) && HierarchyFits(key, l.jobs)
    requires Selected(JobsOf(l.jobs, key)) == Some(Copies(l.jobs, key)[k])
    ensures Supported(l, key, syncedAt, Some(c)) <==> Stands(l, key, syncedAt, c, k)
  {
    SupportedInParts(l, key, syncedAt, c);
    BesideRunExactly(l, key, syncedAt, c, Copies(l.jobs, key)[k]);
  }

  lemma NothingHeldAgainst(l: Ledger, key: Key)
    ensures ReasonsOf(l.blocked, key) == {} <==> (key in l.blocked ==> l.blocked[key] == {})
  {}

  lemma CoversExactly(c: Coverage, action: Job)
    ensures Covers(c, action) <==> CompleteCoverage(Some(c), action.start, action.end) && c.suffixReviewed
  {}

  lemma SupportedExactly(l: Ledger, key: Key, syncedAt: int, c: Coverage)
    ensures Supported(l, key, syncedAt, Some(c)) <==> exists k: nat :: Stands(l, key, syncedAt, c, k)
  {
    RunStandsExactly(l.jobs, key);
    assert Copies(l.jobs, key) == JobsOf(l.jobs, key);
    forall k: nat | RunStands(l.jobs, key, k)
      ensures Supported(l, key, syncedAt, Some(c)) <==> Stands(l, key, syncedAt, c, k)
    {
      SupportedBesideRun(l, key, syncedAt, c, k);
    }
  }

  // ---- Attestations in a list ---------------------------------------------------------------

  lemma KeyOfCoverage(c: Coverage, key: Key)
    ensures CoverageKey(c) == Some(key) <==> About(c, key)
  {
    if Spells(c.actionId, key.id) {
      assert key.id[0] in key.id;
      forall i | 0 <= i < |key.id| ensures IsDigit(key.id[i]) {
        assert key.id[i] in key.id;
      }
    }
  }

  /** Every item names an action, and no two the same. */
  ghost predicate Attestable(coverage: seq<Coverage>) {
    && (forall c | c in coverage :: exists key :: About(c, key))
    && (forall i, j, key | 0 <= i < j < |coverage| && About(coverage[i], key) :: !About(coverage[j], key))
  }

  lemma AboutOne(c: Coverage, a: Key, b: Key)
    requires About(c, a) && About(c, b)
    ensures a == b
  {}

  ghost predicate Holds(attestations: map<Key, Coverage>, coverage: seq<Coverage>) {
    forall key :: HoldsFor(attestations, coverage, key)
  }

  ghost predicate HoldsFor(attestations: map<Key, Coverage>, coverage: seq<Coverage>, key: Key) {
    key in attestations <==> exists c :: c in coverage && About(c, key)
  }

  ghost predicate HoldsRightly(attestations: map<Key, Coverage>, coverage: seq<Coverage>) {
    forall key | key in attestations :: attestations[key] in coverage && About(attestations[key], key)
  }

  /** A list is accepted exactly when every item names an action and no two the same; an action's attestation is
      then the item about it. */
  lemma {:induction false} AttestExactly(coverage: seq<Coverage>)
    ensures Attest(coverage).Some? <==> Attestable(coverage)
    ensures Attest(coverage).Some? ==>
              Holds(Attest(coverage).value, coverage) && HoldsRightly(Attest(coverage).value, coverage)
  {
    if coverage != [] {
      var before, last := coverage[..|coverage| - 1], coverage[|coverage| - 1];
      assert coverage == before + [last];
      AttestExactly(before);
      AttestableOfMore(before, last);
      NamedExactly(last);
      if Attest(before).Some? && CoverageKey(last).Some? {
        HoldsOneMore(Attest(before).value, before, last, CoverageKey(last).value);
        NewExactly(Attest(before).value, before, last, CoverageKey(last).value);
      }
    }
  }

  lemma NamedExactly(c: Coverage)
    ensures CoverageKey(c).Some? ==> About(c, CoverageKey(c).value)
    ensures CoverageKey(c).None? ==> !exists key :: About(c, key)
  {
    if CoverageKey(c).Some? {
      KeyOfCoverage(c, CoverageKey(c).value);
    }
    if key :| About(c, key) {
      KeyOfCoverage(c, key);
    }
  }

  lemma NewExactly(attestations: map<Key, Coverage>, before: seq<Coverage>, last: Coverage, key: Key)
    requires Holds(attestations, before) && About(last, key)
    ensures key !in attestations <==> exists k :: About(last, k) && !exists c :: c in before && About(c, k)
  {
    assert HoldsFor(attestations, before, key);
    forall k | About(last, k) ensures k == key {
      AboutOne(last, k, key);
    }
  }

  lemma AttestableOfMore(before: seq<Coverage>, last: Coverage)
    ensures Attestable(before + [last]) <==>
            && Attestable(before)
            && exists key :: About(last, key) && !exists c :: c in before && About(c, key)
  {
    var all := before + [last];
    if Attestable(all) {
      forall i, j, key | 0 <= i < j < |before| && About(before[i], key) ensures !About(before[j], key) {
        assert all[i] == before[i] && all[j] == before[j];
      }
      assert last in all;
      var key :| About(last, key);
      forall c | c in before ensures !About(c, key) {
        var i :| 0 <= i < |before| && before[i] == c;
        assert all[i] == c && all[|before|] == last;
      }
      forall c | c in before ensures exists k :: About(c, k) {
        assert c in all;
      }
    }
    if Attestable(before) && exists key :: About(last, key) && !exists c :: c in before && About(c, key) {
      var named :| About(last, named) && !exists c :: c in before && About(c, named);
      forall i, j, key | 0 <= i < j < |all| && About(all[i], key) ensures !About(all[j], key) {
        if j == |before| {
          assert all[i] == before[i] && before[i] in before;
          assert About(last, key) ==> key == named;
        }
      }
    }
  }

  lemma HoldsOneMore(attestations: map<Key, Coverage>, before: seq<Coverage>, last: Coverage, key: Key)
    requires Holds(attestations, before) && HoldsRightly(attestations, before) && About(last, key)
    ensures Holds(attestations[key := last], before + [last])
    ensures HoldsRightly(attestations[key := last], before + [last])
  {
    var all, after := before + [last], attestations[key := last];
    forall k ensures HoldsFor(after, all, k) {
      assert HoldsFor(attestations, before, k);
      if k in attestations {
        var c :| c in before && About(c, k);
        assert c in all;
      }
      assert last in all;
      if About(last, k) {
        AboutOne(last, k, key);
      }
    }
  }

  // ---- A build ------------------------------------------------------------------------------

  ghost predicate VerifiedIn(documents: map<string, Document>, key: Key) {
    KeyText(key) in documents && documents[KeyText(key)].verification.Verified?
  }

  lemma DocumentsOfBuild(l: Ledger, syncedAt: int, coverage: seq<Coverage>, generation: string, limit: int, key: Key)
    requires limit >= 1 && Attest(coverage).Some?
    ensures var documents := BuildOf(l, syncedAt, coverage, generation, limit).value;
            && (KeyText(key) in documents <==> key in LedgerKeys(l))
            && (key in LedgerKeys(l) ==>
                  documents[KeyText(key)]
                  == DocumentOf(l, key, syncedAt, AttestationFor(Attest(coverage).value, key), generation, limit))
  {
    var f := Drafts(l, syncedAt, Attest(coverage).value, generation, limit);
    BuildIsByText(l, syncedAt, coverage, generation, limit, f);
    ByTextAt(LedgerKeys(l), f, key);
  }

  lemma BuildIsByText(l: Ledger, syncedAt: int, coverage: seq<Coverage>, generation: string, limit: int,
                      f: Key -> Document)
    requires limit >= 1 && Attest(coverage).Some?
    requires f == Drafts(l, syncedAt, Attest(coverage).value, generation, limit)
    ensures BuildOf(l, syncedAt, coverage, generation, limit) == Some(ByText(LedgerKeys(l), f))
  {}

  lemma ByTextAt<V>(keys: set<Key>, f: Key -> V, key: Key)
    ensures KeyText(key) in ByText(keys, f) <==> key in keys
    ensures key in keys ==> ByText(keys, f)[KeyText(key)] == f(key)
  {
    if KeyText(key) in ByText(keys, f) {
      var other := ByTextHolds(keys, f, KeyText(key));
      KeyTextInjective(other, key);
    }
  }

  /** A build is refused exactly for a limit below one or a list that names no action or one action twice. */
  lemma BuildSucceedsExactly(l: Ledger, syncedAt: int, coverage: seq<Coverage>, generation: string, limit: int)
    ensures BuildOf(l, syncedAt, coverage, generation, limit).Some? <==> limit >= 1 && Attestable(coverage)
  {
    AttestExactly(coverage);
  }

  /** Under the attestation found for it, an action is verified if and only if everything stands. */
  lemma VerifiedUnder(l: Ledger, key: Key, syncedAt: int, attestation: Option<Coverage>, generation: string, limit: nat)
    ensures DocumentOf(l, key, syncedAt, attestation, generation, limit).verification.Verified? <==>
            attestation.Some? && exists k: nat :: Stands(l, key, syncedAt, attestation.value, k)
  {
    VerifiedIsExact(l, key, syncedAt, attestation, generation, limit);
    if attestation.Some? {
      SupportedExactly(l, key, syncedAt, attestation.value);
    }
  }

  /** The list holds an item about the action under which everything stands. */
  ghost predicate StandsUnder(l: Ledger, key: Key, syncedAt: int, coverage: seq<Coverage>) {
    exists c, k: nat :: c in coverage && About(c, key) && Stands(l, key, syncedAt, c, k)
  }

  lemma StandsUnderTheOne(l: Ledger, key: Key, syncedAt: int, coverage: seq<Coverage>, attestation: Option<Coverage>)
    requires Attestable(coverage) && Attest(coverage).Some?
    requires attestation == AttestationFor(Attest(coverage).value, key)
    ensures StandsUnder(l, key, syncedAt, coverage) <==>
            attestation.Some? && exists k: nat :: Stands(l, key, syncedAt, attestation.value, k)
  {
    AttestExactly(coverage);
    assert HoldsFor(Attest(coverage).value, coverage, key);
    if attestation.Some? {
      AboutOnlyOne(coverage, attestation.value, key);
    }
  }

  lemma StandingIsKnown(l: Ledger, key: Key, syncedAt: int, coverage: seq<Coverage>)
    requires StandsUnder(l, key, syncedAt, coverage)
    ensures key in LedgerKeys(l)
  {
    var c, k: nat :| c in coverage && About(c, key) && Stands(l, key, syncedAt, c, k);
    EvidenceIsKnown(l, key, syncedAt, c, k);
  }

  /** A build marks an action verified if and only if everything stands, under an item of the list about that very
      action and source. */
  lemma BuildVerifiesExactly(l: Ledger, syncedAt: int, coverage: seq<Coverage>, generation: string, limit: int,
                             key: Key)
    requires limit >= 1 && Attestable(coverage)
    ensures BuildOf(l, syncedAt, coverage, generation, limit).Some?
    ensures VerifiedIn(BuildOf(l, syncedAt, coverage, generation, limit).value, key) <==>
            StandsUnder(l, key, syncedAt, coverage)
  {
    AttestExactly(coverage);
    DocumentsOfBuild(l, syncedAt, coverage, generation, limit, key);
    var attestation := AttestationFor(Attest(coverage).value, key);
    VerifiedUnder(l, key, syncedAt, attestation, generation, limit);
    StandsUnderTheOne(l, key, syncedAt, coverage, attestation);
    if StandsUnder(l, key, syncedAt, coverage) {
      StandingIsKnown(l, key, syncedAt, coverage);
    }
  }

  lemma AboutOnlyOne(coverage: seq<Coverage>, c: Coverage, key: Key)
    requires Attestable(coverage) && c in coverage && About(c, key)
    ensures forall d | d in coverage && About(d, key) :: d == c
  {
    var i :| 0 <= i < |coverage| && coverage[i] == c;
    forall d | d in coverage && About(d, key) ensures d == c {
      var j :| 0 <= j < |coverage| && coverage[j] == d;
      OneItem(coverage, i, j, key);
    }
  }

  lemma OneItem(coverage: seq<Coverage>, i: nat, j: nat, key: Key)
    requires Attestable(coverage)
    requires i < |coverage| && j < |coverage| && About(coverage[i], key) && About(coverage[j], key)
    ensures i == j
  {}

  lemma EvidenceIsKnown(l: Ledger, key: Key, syncedAt: int, c: Coverage, k: nat)
    requires Stands(l, key, syncedAt, c, k)
    ensures key in LedgerKeys(l)
  {
    var e :| Held(l, key, e);
  }

  /** What a build publishes under a verified action are the names its backups give. */
  lemma BuildPublishesItsBackups(l: Ledger, syncedAt: int, coverage: seq<Coverage>, generation: string, limit: int,
                                 key: Key, e: Evidence)
    requires limit >= 1 && Attestable(coverage) && Held(l, key, e)
    ensures BuildOf(l, syncedAt, coverage, generation, limit).Some?
    ensures var documents := BuildOf(l, syncedAt, coverage, generation, limit).value;
            VerifiedIn(documents, key) ==>
              && documents[KeyText(key)].policy == Some(e.policy.normalized)
              && documents[KeyText(key)].workflow == Some(e.workflow.normalized)
              && documents[KeyText(key)].group == Some(e.group.normalized)
  {
    AttestExactly(coverage);
    DocumentsOfBuild(l, syncedAt, coverage, generation, limit, key);
    VerifiedShowsNames(l, key, syncedAt, AttestationFor(Attest(coverage).value, key), generation, limit, e);
  }

  lemma VerifiedShowsNames(l: Ledger, key: Key, syncedAt: int, attestation: Option<Coverage>, generation: string,
                           limit: nat, e: Evidence)
    requires Held(l, key, e)
    ensures var d := DocumentOf(l, key, syncedAt, attestation, generation, limit);
            d.verification.Verified? ==>
              && d.policy == Some(e.policy.normalized) && d.workflow == Some(e.workflow.normalized)
              && d.group == Some(e.group.normalized)
  {
    var records := RecordedUnder(l, key);
    HeldIsRecorded(l, key, e);
    assert e.Normalized() in CandidatesOf(records);
    ConclusionPublishesOne(key, records, CheckOf(key, l.jobs).action, BlockedReasons(l, key),
                           PendingReasons(l, key, attestation, syncedAt), syncedAt, attestation, generation, limit);
  }

  /** The attestation covers the story's run. */
  lemma CompleteCovers(c: Coverage, action: Job)
    requires Covers(c, action)
    ensures c.CompleteFor(action.start, action.end) && c.suffixReviewed
  {}

  /** A finished action, its workflow and one backup that agree are published by a build under the action's own
      attestation, with the backup's names. */
  lemma StoryIsPublishedByBuild(e: Evidence, action: Job, workflow: Job, syncedAt: int, coverage: seq<Coverage>,
                                c: Coverage, generation: string, limit: int)
    requires Story(e, action, workflow, syncedAt) && Sound(e) && Canonical(action) && Canonical(workflow)
    requires limit >= 1 && Attestable(coverage)
    requires c in coverage && About(c, e.ActionKey()) && Covers(c, action)
    ensures BuildOf(Told(e, action, workflow), syncedAt, coverage, generation, limit).Some?
    ensures var documents := BuildOf(Told(e, action, workflow), syncedAt, coverage, generation, limit).value;
            && VerifiedIn(documents, e.ActionKey())
            && documents[KeyText(e.ActionKey())].Publishes(e.Normalized())
  {
    var l, key := Told(e, action, workflow), e.ActionKey();
    ItemIsAttestation(coverage, c, key);
    DocumentsOfBuild(l, syncedAt, coverage, generation, limit, key);
    CompleteCovers(c, action);
    CompleteStoryIsPublished(e, action, workflow, syncedAt, c, generation, limit);
    ToldIsKnown(e, action, workflow);
  }

  lemma ItemIsAttestation(coverage: seq<Coverage>, c: Coverage, key: Key)
    requires Attestable(coverage) && c in coverage && About(c, key)
    ensures Attest(coverage).Some? && AttestationFor(Attest(coverage).value, key) == Some(c)
  {
    AttestExactly(coverage);
    assert HoldsFor(Attest(coverage).value, coverage, key);
    AboutOnlyOne(coverage, c, key);
  }

  lemma ToldIsKnown(e: Evidence, action: Job, workflow: Job)
    ensures e.ActionKey() in LedgerKeys(Told(e, action, workflow))
  {
    assert e.ActionKey() in FileEvidence(EMPTY, e).evidence;
  }

  /** An item about another action, or the same id of another source, changes nothing. */
  lemma OtherItemsChangeNothing(l: Ledger, syncedAt: int, coverage: seq<Coverage>, c: Coverage, generation: string,
                                limit: int, key: Key)
    requires limit >= 1 && Attestable(coverage) && Attestable(coverage + [c]) && !About(c, key)
    ensures BuildOf(l, syncedAt, coverage, generation, limit).Some?
    ensures BuildOf(l, syncedAt, coverage + [c], generation, limit).Some?
    ensures var without, with := BuildOf(l, syncedAt, coverage, generation, limit).value,
                                 BuildOf(l, syncedAt, coverage + [c], generation, limit).value;
            && (KeyText(key) in without <==> KeyText(key) in with)
            && (KeyText(key) in without ==> without[KeyText(key)] == with[KeyText(key)])
  {
    AttestExactly(coverage);
    AttestExactly(coverage + [c]);
    DocumentsOfBuild(l, syncedAt, coverage, generation, limit, key);
    DocumentsOfBuild(l, syncedAt, coverage + [c], generation, limit, key);
    SameAttestation(coverage, c, key);
  }

  lemma SameAttestation(coverage: seq<Coverage>, c: Coverage, key: Key)
    requires Attest(coverage).Some? && Attest(coverage + [c]).Some? && !About(c, key)
    ensures AttestationFor(Attest(coverage).value, key) == AttestationFor(Attest(coverage + [c]).value, key)
  {
    assert (coverage + [c])[..|coverage + [c]| - 1] == coverage;
    if CoverageKey(c) == Some(key) {
      KeyOfCoverage(c, key);
    }
  }

  // ---- What a document shows ------------------------------------------------------------------

  /** Nothing known of the run contradicts itself. */
  ghost predicate RunUncontradicted(jobs: map<Key, seq<Job>>, key: Key, k: nat) {
    && Testifies(Copies(jobs, key), k)
    && var action := Copies(jobs, key)[k];
       && action.kind == "backup action job"
       && (action.root.Some? && Copies(jobs, Key(action.source, action.root.value)) != [] ==>
             exists w: nat :: WorkflowEncloses(Copies(jobs, Key(action.source, action.root.value)), action, w))
       && (forall other | other in jobs && HasSaveOf(jobs[other], key) ::
             exists s: nat :: SaveAgrees(jobs[other], action, s))
  }

  lemma UncontradictedExactly(jobs: map<Key, seq<Job>>, key: Key, k: nat)
    requires Speaks(Copies(jobs, key), k)
    ensures NoExecutionBlock(key, jobs) <==> RunUncontradicted(jobs, key, k)
  {
    var copies := Copies(jobs, key);
    var action := copies[k];
    assert copies == JobsOf(jobs, key);
    SpeaksExactly(copies, k);
    TestimonyIsCoherent(copies, k);
    WorkflowStandsExactly(jobs, action);
    assert action.root.Some? ==> Copies(jobs, Key(action.source, action.root.value)) == WorkflowsOf(jobs, action);
    forall other | other in jobs
      ensures HasSaveOf(jobs[other], key) <==> Related(jobs[other], key)
      ensures HasSaveOf(jobs[other], key) ==>
                (SaveFits(jobs[other], action) <==> exists s: nat :: SaveAgrees(jobs[other], action, s))
    {
      if HasSaveOf(jobs[other], key) {
        SaveAgreesExactly(jobs[other], action);
      }
    }
  }

  /** The backup's times are known and lie outside the run, or run backwards. */
  predicate OutOfRun(e: Evidence, action: Option<Job>) {
    && e.saveTime.at.Some? && e.completionTime.at.Some?
    && (|| e.completionTime.at.value < e.saveTime.at.value
        || (action.Some? && action.value.start.Some? && e.saveTime.at.value < action.value.start.value)
        || (action.Some? && action.value.end.Some? && action.value.end.value < e.completionTime.at.value))
  }

  /** The snapshot that speaks for an action, if there is any. */
  ghost predicate SpokenFor(jobs: map<Key, seq<Job>>, key: Key, action: Option<Job>) {
    if Copies(jobs, key) == [] then action.None?
    else exists k: nat :: Speaks(Copies(jobs, key), k) && action == Some(Copies(jobs, key)[k])
  }

  lemma CheckedIsSpokenFor(jobs: map<Key, seq<Job>>, key: Key)
    ensures SpokenFor(jobs, key, CheckOf(key, jobs).action)
    ensures forall action | SpokenFor(jobs, key, action) :: action == CheckOf(key, jobs).action
  {
    var copies := Copies(jobs, key);
    assert copies == JobsOf(jobs, key);
    if copies != [] {
      var k := SpeakerIsChosen(copies);
      forall other: nat | Speaks(copies, other) ensures other == k {
        OneSpeaker(copies, k, other);
      }
    }
  }

  /** A document is blocked exactly when the run contradicts itself, the ledger holds something against the action,
      or a backup lies outside the run. */
  lemma BlockedExactly(l: Ledger, key: Key, syncedAt: int, coverage: Option<Coverage>, generation: string, limit: nat,
                       action: Option<Job>)
    requires SpokenFor(l.jobs, key, action)
    ensures !DocumentOf(l, key, syncedAt, coverage, generation, limit).verification.Blocked? <==>
            && (Copies(l.jobs, key) == [] || exists k: nat :: RunUncontradicted(l.jobs, key, k))
            && (key in l.blocked ==> l.blocked[key] == {})
            && forall e | Held(l, key, e) :: !OutOfRun(e, action)
  {
    CheckedIsSpokenFor(l.jobs, key);
    DocumentConcludes(l, key, syncedAt, coverage, generation, limit);
    NoBlockIsExact(l, key);
    CheckBlocksExactly(key, l.jobs);
    NothingOutOfRun(l, key, action);
    UncontradictedSomewhere(l.jobs, key);
  }

  lemma NothingOutOfRun(l: Ledger, key: Key, action: Option<Job>)
    ensures (forall e | Held(l, key, e) :: !OutOfRun(e, action)) <==>
            forall e | e in RecordedUnder(l, key) :: !TimeConflict(e, StartOf(action), EndOf(action))
  {
    forall e ensures Held(l, key, e) <==> e in RecordedUnder(l, key) {
      HeldIsRecorded(l, key, e);
    }
    forall e ensures OutOfRun(e, action) <==> TimeConflict(e, StartOf(action), EndOf(action)) {}
  }

  lemma UncontradictedSomewhere(jobs: map<Key, seq<Job>>, key: Key)
    ensures NoExecutionBlock(key, jobs) <==>
            Copies(jobs, key) == [] || exists k: nat :: RunUncontradicted(jobs, key, k)
  {
    assert Copies(jobs, key) == JobsOf(jobs, key);
    if Copies(jobs, key) != [] {
      var k := SpeakerIsChosen(Copies(jobs, key));
      UncontradictedExactly(jobs, key, k);
      forall other: nat | RunUncontradicted(jobs, key, other) ensures other == k {
        OneSpeaker(Copies(jobs, key), k, other);
      }
    }
  }

  /** Two names make a mapping ambiguous, one resolves it, none leaves it unresolved, or invalid where blocked. What
      is not blocked, verified or pending is ambiguous. */
  lemma MappingExactly(l: Ledger, key: Key, syncedAt: int, coverage: Option<Coverage>, generation: string, limit: nat)
    ensures var d := DocumentOf(l, key, syncedAt, coverage, generation, limit);
            && (d.mapping.Ambiguous? <==> exists a, b :: Held(l, key, a) && Held(l, key, b) && !SameNames(a, b))
            && (d.mapping.Unresolved? || d.mapping.Invalid? <==> !exists e :: Held(l, key, e))
            && (d.mapping.Invalid? ==> d.verification.Blocked?)
            && (d.mapping.Unresolved? ==> !d.verification.Blocked?)
            && (d.verification.Unverified? ==> d.mapping.Ambiguous?)
  {
    NamesHeld(l, key);
    DocumentConcludes(l, key, syncedAt, coverage, generation, limit);
    NoRecordsPends(l, key, coverage, syncedAt);
    VerdictCases(CandidatesOf(RecordedUnder(l, key)), BlockedReasons(l, key),
                 PendingReasons(l, key, coverage, syncedAt));
  }

  lemma NamesHeld(l: Ledger, key: Key)
    ensures |CandidatesOf(RecordedUnder(l, key))| > 1 <==>
            exists a, b :: Held(l, key, a) && Held(l, key, b) && !SameNames(a, b)
    ensures CandidatesOf(RecordedUnder(l, key)) == {} <==> !exists e :: Held(l, key, e)
  {
    var records := RecordedUnder(l, key);
    forall e ensures Held(l, key, e) <==> e in records {
      HeldIsRecorded(l, key, e);
    }
    NamesCounted(records);
    assert records != [] ==> records[0] in records;
  }

  lemma DocumentConcludes(l: Ledger, key: Key, syncedAt: int, coverage: Option<Coverage>, generation: string,
                          limit: nat)
    ensures var d := DocumentOf(l, key, syncedAt, coverage, generation, limit);
            && d.mapping == MappingOf(CandidatesOf(RecordedUnder(l, key)), BlockedReasons(l, key))
            && d.verification == VerificationOf(d.mapping, BlockedReasons(l, key),
                                                PendingReasons(l, key, coverage, syncedAt))
            && d.reasons == BlockedReasons(l, key) + PendingReasons(l, key, coverage, syncedAt)
  {}

  lemma VerdictCases(candidates: set<Candidate>, blocked: set<Reason>, pending: set<Reason>)
    requires candidates == {} ==> pending != {}
    ensures var mapping := MappingOf(candidates, blocked);
            var verification := VerificationOf(mapping, blocked, pending);
            && (mapping.Ambiguous? <==> |candidates| > 1)
            && (mapping.Unresolved? || mapping.Invalid? <==> candidates == {})
            && (mapping.Invalid? ==> verification.Blocked?) && (mapping.Unresolved? ==> !verification.Blocked?)
            && (verification.Unverified? ==> mapping.Ambiguous?)
  {}

  lemma NamesCounted(records: seq<Evidence>)
    ensures |CandidatesOf(records)| > 1 <==> exists a, b :: a in records && b in records && !SameNames(a, b)
    ensures CandidatesOf(records) == {} <==> records == []
  {
    OneCandidateExactly(records);
    var candidates := CandidatesOf(records);
    if records != [] {
      assert records[0] in records && records[0].Normalized() in candidates;
      HasMember(candidates);
    } else {
      assert candidates == {};
    }
  }

  lemma WithoutRecordsPends(action: Option<Job>, coverage: Option<Coverage>, syncedAt: int)
    ensures ActionPending([], action, coverage, syncedAt) != {}
  {
    var pending := ActionPending([], action, coverage, syncedAt);
    assert CompleteCoverage(coverage, StartOf(action), EndOf(action)) ==> NoBackupInCoveredWindow in pending;
    assert !CompleteCoverage(coverage, StartOf(action), EndOf(action)) ==> AwaitingBackups in pending;
  }

  lemma NoRecordsPends(l: Ledger, key: Key, coverage: Option<Coverage>, syncedAt: int)
    ensures CandidatesOf(RecordedUnder(l, key)) == {} ==> PendingReasons(l, key, coverage, syncedAt) != {}
  {
    NamesCounted(RecordedUnder(l, key));
    NoPendingIsExact(l, key, coverage, syncedAt);
    WithoutRecordsPends(CheckOf(key, l.jobs).action, coverage, syncedAt);
  }

  // ---- Why a document is held back --------------------------------------------------------------

  /** What two snapshots of one job can disagree in. */
  predicate Disagree(r: Reason, a: Job, b: Job) {
    match r
    case JobIdReuseOrExecutionConflict => a.start != b.start || a.kind != b.kind
    case JobHierarchyConflict => a.parent != b.parent || a.root != b.root
    case TerminalStateConflict => Ended(a) && Ended(b) && (a.status != b.status || a.end != b.end)
    case _ => false
  }

  /** What snapshots of one job can have against themselves. */
  ghost predicate StoryGround(r: Reason, copies: seq<Job>) {
    || (exists a, b :: a in copies && b in copies && Disagree(r, a, b))
    || (r == InvalidJobTimeOrStatus && exists k: nat :: Speaks(copies, k) && !TimesInOrder(copies[k]))
  }

  lemma StoryGroundExactly(r: Reason, copies: seq<Job>)
    requires copies != []
    ensures r in SelectionReasons(copies) <==> StoryGround(r, copies)
  {
    ReasonsInParts(copies);
    if r == InvalidJobTimeOrStatus {
      OutOfOrderExactly(copies);
    } else {
      DisagreementsExactly(r, copies);
    }
  }

  lemma DisagreementsExactly(r: Reason, copies: seq<Job>)
    ensures (exists a, b :: a in copies && b in copies && Disagree(r, a, b)) <==>
            || (r == JobIdReuseOrExecutionConflict && !OneExecution(copies))
            || (r == JobHierarchyConflict && !OneHierarchy(copies))
            || (r == TerminalStateConflict && !OneTermination(copies))
  {
    if r == TerminalStateConflict {
      EndingsDisagree(copies);
    }
  }

  lemma EndingsDisagree(copies: seq<Job>)
    ensures (exists a, b :: a in copies && b in copies && Disagree(TerminalStateConflict, a, b)) <==>
            !OneTermination(copies)
  {
    forall j | j in copies ensures j.Terminal() <==> Ended(j) {
      TerminalMeansEnded(j);
    }
  }

  lemma OutOfOrderExactly(copies: seq<Job>)
    requires copies != []
    ensures InvalidJobTimeOrStatus in SelectionReasons(copies) <==>
            exists k: nat :: Speaks(copies, k) && !TimesInOrder(copies[k])
  {
    ReasonsInParts(copies);
    var k := SpeakerIsChosen(copies);
    forall other: nat | Speaks(copies, other) ensures other == k {
      OneSpeaker(copies, k, other);
    }
    TerminalMeansEnded(copies[k]);
  }

  /** What a save can have against its action. */
  predicate SaveGround(r: Reason, save: Job, action: Job) {
    match r
    case NotASaveJob => save.kind != "save job"
    case SourceMismatch => save.source != action.source
    case SaveParentMismatch => save.parent != Some(action.identity)
    case TargetTypeMismatch => action.kind != "backup action job"
    case SaveRootConflict => save.root.Some? && action.root.Some? && save.root != action.root
    case SaveTimeConflict =>
      || (save.start.Some? && action.start.Some? && save.start.value < action.start.value)
      || (save.end.Some? && action.end.Some? && action.end.value < save.end.value)
    case _ => false
  }

  lemma SaveGroundExactly(r: Reason, save: Job, action: Job)
    ensures r in SaveFaults(save, action) <==> SaveGround(r, save, action)
  {}

  /** What a workflow can have against its action. */
  predicate WorkflowGround(r: Reason, workflow: Job, action: Job) {
    match r
    case WorkflowTypeMismatch => workflow.kind != "workflow job"
    case WorkflowTimeConflict =>
      || (workflow.start.Some? && action.start.Some? && action.start.value < workflow.start.value)
      || (workflow.end.Some? && action.end.Some? && workflow.end.value < action.end.value)
    case _ => false
  }

  /** Against the action's own snapshots. */
  ghost predicate ActionGround(r: Reason, jobs: map<Key, seq<Job>>, key: Key, action: Job) {
    StoryGround(r, Copies(jobs, key)) || (r == TargetTypeMismatch && action.kind != "backup action job")
  }

  /** Against the workflow the action names, where it is known. */
  ghost predicate RootGround(r: Reason, jobs: map<Key, seq<Job>>, action: Job) {
    && action.root.Some?
    && var copies := Copies(jobs, Key(action.source, action.root.value));
       && copies != []
       && (StoryGround(r, copies) || exists k: nat :: Speaks(copies, k) && WorkflowGround(r, copies[k], action))
  }

  /** Against one job that names the action as its parent. */
  ghost predicate ChildGround(r: Reason, copies: seq<Job>, key: Key, action: Job) {
    && HasSaveOf(copies, key)
    && (StoryGround(r, copies) || exists k: nat :: Speaks(copies, k) && SaveGround(r, copies[k], action))
  }

  ghost predicate RunGround(r: Reason, jobs: map<Key, seq<Job>>, key: Key, action: Job) {
    || ActionGround(r, jobs, key, action) || RootGround(r, jobs, action)
    || exists other :: other in jobs && ChildGround(r, jobs[other], key, action)
  }

  lemma RootGroundExactly(r: Reason, jobs: map<Key, seq<Job>>, action: Job)
    ensures r in RootReasons(jobs, action) <==> RootGround(r, jobs, action)
  {
    var copies := WorkflowsOf(jobs, action);
    if copies != [] {
      assert copies == Copies(jobs, Key(action.source, action.root.value));
      WorkflowGroundExactly(r, copies, action);
    }
  }

  lemma WorkflowGroundExactly(r: Reason, copies: seq<Job>, action: Job)
    requires copies != []
    ensures r in WorkflowReasons(copies, action) <==>
            StoryGround(r, copies) || exists k: nat :: Speaks(copies, k) && WorkflowGround(r, copies[k], action)
  {
    StoryGroundExactly(r, copies);
    var k := SpeakerIsChosen(copies);
    forall other: nat | Speaks(copies, other) ensures other == k {
      OneSpeaker(copies, k, other);
    }
    WorkflowFaultExactly(r, copies[k], action);
  }

  lemma WorkflowFaultExactly(r: Reason, workflow: Job, action: Job)
    ensures WorkflowGround(r, workflow, action) <==>
            r in (if workflow.kind != WORKFLOW_TYPE then {WorkflowTypeMismatch} else {})
                 + (if Before(action.start, workflow.start) || Before(workflow.end, action.end)
                    then {WorkflowTimeConflict} else {})
  {}

  lemma ChildGroundExactly(r: Reason, copies: seq<Job>, key: Key, action: Job)
    ensures r in SaveReasons(copies, key, action) <==> ChildGround(r, copies, key, action)
  {
    assert HasSaveOf(copies, key) <==> Related(copies, key);
    if HasSaveOf(copies, key) {
      StoryGroundExactly(r, copies);
      var k := SpeakerIsChosen(copies);
      forall other: nat | Speaks(copies, other) ensures other == k {
        OneSpeaker(copies, k, other);
      }
      SaveGroundExactly(r, copies[k], action);
    }
  }

  lemma ChildrenExactly(r: Reason, jobs: map<Key, seq<Job>>, key: Key, action: Job)
    ensures r in AllSaveReasons(jobs, jobs.Keys, key, action) <==>
            exists other :: other in jobs && ChildGround(r, jobs[other], key, action)
  {
    forall other | other in jobs
      ensures r in SaveReasons(jobs[other], key, action) <==> ChildGround(r, jobs[other], key, action)
    {
      ChildGroundExactly(r, jobs[other], key, action);
    }
  }

  /** The run is blocked for a reason exactly when there is a ground for it. */
  lemma RunGroundExactly(r: Reason, jobs: map<Key, seq<Job>>, key: Key, action: Job)
    requires Copies(jobs, key) != []
    ensures r in BlockedBy(key, jobs, action) <==> RunGround(r, jobs, key, action)
  {
    assert Copies(jobs, key) == JobsOf(jobs, key);
    StoryGroundExactly(r, Copies(jobs, key));
    RootGroundExactly(r, jobs, action);
    ChildrenExactly(r, jobs, key, action);
  }

  /** What the run still has to show. */
  predicate RunLacks(r: Reason, jobs: map<Key, seq<Job>>, action: Job) {
    match r
    case ActionNotTerminal => !Ended(action)
    case WorkflowRootUnconfirmed => action.root.None?
    case WorkflowJobMissing => action.root.Some? && Copies(jobs, Key(action.source, action.root.value)) == []
    case _ => false
  }

  lemma RunLacksExactly(r: Reason, jobs: map<Key, seq<Job>>, action: Job)
    ensures r in PendingFrom(jobs, action) <==> RunLacks(r, jobs, action)
  {
    TerminalMeansEnded(action);
    assert action.root.Some? ==> Copies(jobs, Key(action.source, action.root.value)) == WorkflowsOf(jobs, action);
  }

  /** The attestation covers the run, whether or not its suffixes are reviewed. */
  predicate CoversRun(coverage: Option<Coverage>, action: Option<Job>) {
    && coverage.Some? && action.Some?
    && Covers(coverage.value.(suffixReviewed := true), action.value)
  }

  /** What the inputs, the attestation and the records still have to show. */
  ghost predicate InputLacks(r: Reason, l: Ledger, key: Key, coverage: Option<Coverage>) {
    match r
    case UnattributedInputErrors => l.unknownSourceErrors
    case PartialCollectionReason => key.source in l.incomplete || (coverage.Some? && coverage.value.partial)
    case QueryWindowGap => coverage.Some? && coverage.value.queryWindowGap
    case SuffixRuleUnreviewed => coverage.None? || !coverage.value.suffixReviewed
    case _ => false
  }

  /** What one backup's evidence can lack. */
  predicate BackupLacks(r: Reason, e: Evidence, syncedAt: int) {
    match r
    case MissingObservationTime => e.observedAt.None?
    case MissingRawReference =>
      !e.reference.rawDocumentId.Truthy() && !(e.reference.index.Truthy() && e.reference.id.Truthy())
    case BackupTimeUnconfirmed => e.saveTime.at.None? || e.completionTime.at.None?
    case FutureObservationTime => e.observedAt.Some? && syncedAt < e.observedAt.value
    case _ => false
  }

  ghost predicate RecordsLack(r: Reason, l: Ledger, key: Key, syncedAt: int) {
    exists e :: Held(l, key, e) && BackupLacks(r, e, syncedAt)
  }

  ghost predicate CoverageLacks(r: Reason, l: Ledger, key: Key, syncedAt: int, coverage: Option<Coverage>,
                                action: Option<Job>)
  {
    match r
    case FutureObservationTime =>
      action.Some? && action.value.observedAt.Some? && syncedAt < action.value.observedAt.value
    case CoverageUnverified => !CoversRun(coverage, action)
    case AwaitingBackups => !CoversRun(coverage, action) && !exists e :: Held(l, key, e)
    case NoBackupInCoveredWindow => CoversRun(coverage, action) && !exists e :: Held(l, key, e)
    case _ => false
  }

  lemma InputLacksExactly(r: Reason, l: Ledger, key: Key, coverage: Option<Coverage>)
    ensures r in InputPending(l, key, coverage) <==> InputLacks(r, l, key, coverage)
  {}

  lemma EvidencePendingExactly(r: Reason, records: seq<Evidence>, syncedAt: int)
    ensures r in EvidencePending(records, syncedAt) <==> exists e | e in records :: BackupLacks(r, e, syncedAt)
  {}

  lemma RecordsLackExactly(r: Reason, l: Ledger, key: Key, syncedAt: int)
    ensures r in EvidencePending(RecordedUnder(l, key), syncedAt) <==> RecordsLack(r, l, key, syncedAt)
  {
    forall e ensures Held(l, key, e) <==> e in RecordedUnder(l, key) {
      HeldIsRecorded(l, key, e);
    }
    EvidencePendingExactly(r, RecordedUnder(l, key), syncedAt);
  }

  lemma CoversRunExactly(coverage: Option<Coverage>, action: Option<Job>)
    ensures CoversRun(coverage, action) <==> CompleteCoverage(coverage, StartOf(action), EndOf(action))
  {}

  lemma NoneHeldExactly(l: Ledger, key: Key)
    ensures (exists e :: Held(l, key, e)) <==> RecordedUnder(l, key) != []
  {
    var records := RecordedUnder(l, key);
    if e :| Held(l, key, e) {
      HeldIsRecorded(l, key, e);
    }
    if records != [] {
      HeldIsRecorded(l, key, records[0]);
    }
  }

  lemma ActionPendingInParts(records: seq<Evidence>, action: Option<Job>, coverage: Option<Coverage>, syncedAt: int)
    ensures var pending := ActionPending(records, action, coverage, syncedAt);
            && (FutureObservationTime in pending <==> action.Some? && Before(Some(syncedAt), action.value.observedAt))
            && (CoverageUnverified in pending <==> !CoversRun(coverage, action))
            && (AwaitingBackups in pending <==> !CoversRun(coverage, action) && records == [])
            && (NoBackupInCoveredWindow in pending <==> CoversRun(coverage, action) && records == [])
            && pending <= {FutureObservationTime, CoverageUnverified, AwaitingBackups, NoBackupInCoveredWindow}
  {
    CoversRunExactly(coverage, action);
  }

  lemma CoverageLacksExactly(r: Reason, l: Ledger, key: Key, syncedAt: int, coverage: Option<Coverage>,
                             action: Option<Job>)
    ensures r in ActionPending(RecordedUnder(l, key), action, coverage, syncedAt) <==>
            CoverageLacks(r, l, key, syncedAt, coverage, action)
  {
    NoneHeldExactly(l, key);
    ActionPendingInParts(RecordedUnder(l, key), action, coverage, syncedAt);
  }

  /** The check's own reasons, with and without a snapshot of the action. */
  ghost predicate CheckGround(r: Reason, jobs: map<Key, seq<Job>>, key: Key, action: Option<Job>) {
    match action
    case None => r == MissingActionJob
    case Some(j) => RunGround(r, jobs, key, j) || RunLacks(r, jobs, j)
  }

  lemma CheckGroundExactly(r: Reason, jobs: map<Key, seq<Job>>, key: Key, action: Option<Job>)
    requires SpokenFor(jobs, key, action)
    ensures var check := CheckOf(key, jobs);
            r in check.blocked + check.pending <==> CheckGround(r, jobs, key, action)
  {
    CheckedIsSpokenFor(jobs, key);
    if action.Some? {
      RunGroundExactly(r, jobs, key, action.value);
      RunLacksExactly(r, jobs, action.value);
    }
  }

  lemma TimeGroundExactly(l: Ledger, key: Key, action: Option<Job>)
    ensures (exists e :: Held(l, key, e) && OutOfRun(e, action)) <==>
            exists e | e in RecordedUnder(l, key) :: TimeConflict(e, StartOf(action), EndOf(action))
  {
    NothingOutOfRun(l, key, action);
    if e :| e in RecordedUnder(l, key) && TimeConflict(e, StartOf(action), EndOf(action)) {
      assert !forall x | Held(l, key, x) :: !OutOfRun(x, action);
    }
  }

  /** A document gives a reason exactly when its run, its inputs, its attestation or its records give the ground, or
      the ledger holds it against the action. */
  lemma ReasonsExactly(l: Ledger, key: Key, syncedAt: int, coverage: Option<Coverage>, generation: string, limit: nat,
                       action: Option<Job>, r: Reason)
    requires SpokenFor(l.jobs, key, action)
    ensures r in DocumentOf(l, key, syncedAt, coverage, generation, limit).reasons <==>
            || CheckGround(r, l.jobs, key, action)
            || InputLacks(r, l, key, coverage) || RecordsLack(r, l, key, syncedAt)
            || CoverageLacks(r, l, key, syncedAt, coverage, action)
            || (r == BackupExecutionTimeConflict && exists e :: Held(l, key, e) && OutOfRun(e, action))
            || (key in l.blocked && r in l.blocked[key])
  {
    DocumentConcludes(l, key, syncedAt, coverage, generation, limit);
    CheckedIsSpokenFor(l.jobs, key);
    CheckGroundExactly(r, l.jobs, key, action);
    InputLacksExactly(r, l, key, coverage);
    RecordsLackExactly(r, l, key, syncedAt);
    CoverageLacksExactly(r, l, key, syncedAt, coverage, action);
    TimeGroundExactly(l, key, action);
    BlockedSum(l, key, r);
    PendingSum(l, key, coverage, syncedAt, r);
  }

  lemma BlockedSum(l: Ledger, key: Key, r: Reason)
    ensures var records, check := RecordedUnder(l, key), CheckOf(key, l.jobs);
            r in BlockedReasons(l, key) <==>
              || r in check.blocked || (key in l.blocked && r in l.blocked[key])
              || (r == BackupExecutionTimeConflict
                  && exists e | e in records :: TimeConflict(e, StartOf(check.action), EndOf(check.action)))
  {}

  lemma PendingSum(l: Ledger, key: Key, coverage: Option<Coverage>, syncedAt: int, r: Reason)
    ensures var records, check := RecordedUnder(l, key), CheckOf(key, l.jobs);
            r in PendingReasons(l, key, coverage, syncedAt) <==>
              || r in check.pending || r in InputPending(l, key, coverage) || r in EvidencePending(records, syncedAt)
              || r in ActionPending(records, check.action, coverage, syncedAt)
  {}

  /** The run a document shows is that of the snapshot that speaks for the action. */
  lemma DocumentShowsRun(l: Ledger, key: Key, syncedAt: int, coverage: Option<Coverage>, generation: string, limit: nat,
                         action: Option<Job>)
    requires SpokenFor(l.jobs, key, action)
    ensures var d := DocumentOf(l, key, syncedAt, coverage, generation, limit);
            match action
            case None => d.execution == Execution(None, None, None, None, None)
            case Some(j) =>
              && d.execution.start == j.start && d.execution.end == j.end
              && d.execution.status == Some(j.status) && d.execution.kind == Some(j.kind)
              && d.execution.workflowRun
                 == if j.root.None? then None else Some(SourceText(key.source) + ":" + j.root.value)
  {
    CheckedIsSpokenFor(l.jobs, key);
  }

  /** What a document says of its attestation, its times and its generation. */
  lemma DocumentShowsCoverage(l: Ledger, key: Key, syncedAt: int, coverage: Option<Coverage>, generation: string,
                              limit: nat)
    ensures var d := DocumentOf(l, key, syncedAt, coverage, generation, limit);
            && d.runKey == SourceText(key.source) + ":" + key.id
            && d.source == SourceText(key.source) && d.actionId == key.id
            && d.syncedAt == syncedAt && d.generation == generation
            && d.coverageFrom == (if coverage.Some? then coverage.value.start else None)
            && d.coverageTo == (if coverage.Some? then coverage.value.end else None)
            && d.coverageProof == (if coverage.Some? then coverage.value.proofReference else "")
            && (d.suffixReviewed <==> coverage.Some? && coverage.value.suffixReviewed)
  {}

  /** A document counts all records and shows the first of them, each with its names and where it was read. */
  lemma DocumentShowsRecords(l: Ledger, key: Key, syncedAt: int, coverage: Option<Coverage>, generation: string,
                             limit: nat, n: nat)
    requires key in l.evidence && n < |l.evidence[key]|
    ensures var d, e := DocumentOf(l, key, syncedAt, coverage, generation, limit), l.evidence[key][n].value;
            && d.referenceCount == |l.evidence[key]| && (d.truncated <==> d.referenceCount > limit)
            && |d.audit| == (if d.truncated then limit else d.referenceCount)
            && (n < limit ==>
                  && d.audit[n].original == Candidate(e.policy.original, e.workflow.original, e.group.original)
                  && d.audit[n].normalized == Candidate(e.policy.normalized, e.workflow.normalized, e.group.normalized)
                  && d.audit[n].policySuffix == e.policy.suffix && d.audit[n].workflowSuffix == e.workflow.suffix
                  && d.audit[n].attributes == e.attributes && d.audit[n].reference == e.reference)
  {
    assert RecordedUnder(l, key)[n] == l.evidence[key][n].value;
  }

  /** A document counts the triples of names its backups give, as they were written and as they are published. */
  lemma DocumentCountsNames(l: Ledger, key: Key, syncedAt: int, coverage: Option<Coverage>, generation: string,
                            limit: nat, written: set<Candidate>, published: set<Candidate>)
    requires forall c :: c in written <==>
               exists e :: Held(l, key, e) && c == Candidate(e.policy.original, e.workflow.original, e.group.original)
    requires forall c :: c in published <==>
               exists e :: Held(l, key, e)
                           && c == Candidate(e.policy.normalized, e.workflow.normalized, e.group.normalized)
    ensures var d := DocumentOf(l, key, syncedAt, coverage, generation, limit);
            d.rawCandidateCount == |written| && d.candidateCount == |published| && d.candidates == published
  {
    var records := RecordedUnder(l, key);
    forall e ensures Held(l, key, e) <==> e in records {
      HeldIsRecorded(l, key, e);
    }
    assert written == OriginalsOf(records) && published == CandidatesOf(records);
  }

  /** The time is that of some observation in the list, or the given one, and none is later. */
  lemma {:induction false} LatestIsLatest(records: seq<Evidence>, start: Option<int>)
    ensures var at := LatestObservation(records, start);
            && (at == start || exists e :: e in records && e.observedAt == at)
            && (start.Some? ==> at.Some? && start.value <= at.value)
            && (forall e | e in records && e.observedAt.Some? :: at.Some? && e.observedAt.value <= at.value)
  {
    if records != [] {
      var before, last := records[..|records| - 1], records[|records| - 1];
      assert records == before + [last];
      LatestIsLatest(before, start);
    }
  }

  /** A document's observation time is the latest of its backups and of the snapshot that speaks for the action. */
  lemma DocumentShowsLatest(l: Ledger, key: Key, syncedAt: int, coverage: Option<Coverage>, generation: string,
                            limit: nat, action: Option<Job>)
    requires SpokenFor(l.jobs, key, action)
    ensures var at := DocumentOf(l, key, syncedAt, coverage, generation, limit).observedAt;
            && (at.Some? ==>
                  (action.Some? && action.value.observedAt == at) || exists e :: Held(l, key, e) && e.observedAt == at)
            && (action.Some? && action.value.observedAt.Some? ==> at.Some? && action.value.observedAt.value <= at.value)
            && (forall e | Held(l, key, e) && e.observedAt.Some? :: at.Some? && e.observedAt.value <= at.value)
  {
    CheckedIsSpokenFor(l.jobs, key);
    forall e ensures Held(l, key, e) <==> e in RecordedUnder(l, key) {
      HeldIsRecorded(l, key, e);
    }
    LatestIsLatest(RecordedUnder(l, key), if action.Some? then action.value.observedAt else None);
  }
}
