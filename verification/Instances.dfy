/** Concrete runs: where the provisos of the ledger's theorems fail, so do their conclusions. */
module Instances {
  import opened Basics
  import opened Text
  import opened Dict
  import opened Json
  import opened Normalize
  import opened Models
  import opened Extract
  import opened Validate
  import opened EvidenceLedger
  import opened History
  import opened Verdicts
  import opened ArrivalOrder
  import opened Store
  import opened Agreement

  /** Text stands for the instant of its length, a number for itself. */
  const CLOCK := Clock((s: string) => Some(|s|), (v: Value) => if v.Int? then Some(v.n) else None)

  function At(n: nat): Value {
    Str(seq(n, i => 'x'))
  }

  lemma AtReads(n: nat)
    ensures Timestamp(CLOCK, At(n)) == Some(n)
  {}

  const RUN := Key(Core, "1")

  // ---- Hits ---------------------------------------------------------------------------------

  function JobPayload(id: string, kind: string, root: Value, status: string, start: Value, end: Value): Value {
    Object(map["job_id" := Str(id), "type" := Str(kind), "root_parent_job_id" := root,
               "status_normalized" := Str(status),
               "start_time" := start, "end_time" := end])
  }

  function JobHit(payload: Value, observed: Value): Value {
    Object(map["source_networker" := Str("core"), "document_type" := Str("job-run"), "observed_at" := observed,
               "payload" := payload])
  }

  const NOWHERE := Reference(Null, Null, Null, None, None)

  predicate Plain(s: string) {
    Strip(s) == s && Lower(s) == s
  }

  lemma CoreIsASource()
    ensures ValidateSource(Str("core")) == Some(Core)
  {
    StripKeeps("core");
    assert Lower("core") == "core";
  }

  lemma JobPayloadHolds(id: string, kind: string, root: Value, status: string, start: Value, end: Value)
    ensures var payload := JobPayload(id, kind, root, status, start, end);
            && payload.Object? && payload.Get("job_id") == Str(id) && payload.Get("type") == Str(kind)
            && payload.Get("root_parent_job_id") == root && payload.Get("status_normalized") == Str(status)
            && payload.Get("start_time") == start && payload.Get("end_time") == end
            && payload.Get("parent_job_id") == Null && payload.Get("source_networker") == Null
  {}

  lemma JobHitHolds(payload: Value, observed: Value)
    requires payload.Object? && payload.Get("source_networker") == Null
    ensures var hit := JobHit(payload, observed);
            && Unwrap(hit) == Ok((hit, NOWHERE)) && SourceOf(hit, false) == Ok(Core)
            && hit.Get("payload") == payload && hit.Get("document_type") == Str("job-run")
            && hit.Get("observed_at") == observed
  {
    JobHitFields(payload, observed);
    CoreIsASource();
  }

  lemma JobHitFields(payload: Value, observed: Value)
    ensures var hit := JobHit(payload, observed);
            && "_source" !in hit.fields && hit.Get("_index") == Null && hit.Get("_id") == Null
            && hit.Get("source_networker") == Str("core") && hit.Get("payload") == payload
            && hit.Get("document_type") == Str("job-run") && hit.Get("observed_at") == observed
  {}

  lemma JobHitIsRead(id: string, kind: string, root: Value, status: string, start: Value, end: Value, observed: Value)
    requires PositiveId(Str(id)) == Some(id) && Plain(kind) && Plain(status)
    ensures ReadJob(JobHit(JobPayload(id, kind, root, status, start, end), observed), CLOCK)
         == Ok(Job(Core, id, kind, None, PositiveId(root), status, Timestamp(CLOCK, start), Timestamp(CLOCK, end),
                   Timestamp(CLOCK, observed), NOWHERE))
  {
    JobPayloadHolds(id, kind, root, status, start, end);
    var payload := JobPayload(id, kind, root, status, start, end);
    JobHitHolds(payload, observed);
    ReadPlainly(JobHit(payload, observed), payload);
  }

  lemma ReadPlainly(hit: Value, payload: Value)
    requires Unwrap(hit) == Ok((hit, NOWHERE)) && hit.Object? && SourceOf(hit, false) == Ok(Core)
    requires hit.Get("payload") == payload && hit.Get("document_type") == Str("job-run") && payload.Object?
    requires PositiveId(payload.Get("job_id")).Some? && payload.Get("type").Str?
             && payload.Get("status_normalized").Str?
    ensures ReadJob(hit, CLOCK)
         == Ok(Job(Core, PositiveId(payload.Get("job_id")).value, Lower(Strip(payload.Get("type").text)),
                   PositiveId(payload.Get("parent_job_id")), PositiveId(payload.Get("root_parent_job_id")),
                   Lower(Strip(payload.Get("status_normalized").text)), Timestamp(CLOCK, payload.Get("start_time")),
                   Timestamp(CLOCK, payload.Get("end_time")), Timestamp(CLOCK, hit.Get("observed_at")), NOWHERE))
  {}

  // ---- Ties between unfinished snapshots --------------------------------------------------------

  const OPEN := Job(Core, "1", ACTION_TYPE, None, None, "running", Some(5), None, Some(6), NOWHERE)

  lemma ActionTypeIsPlain()
    ensures Plain(ACTION_TYPE)
  {
    StripKeeps(ACTION_TYPE);
    assert Lower(ACTION_TYPE) == ACTION_TYPE;
  }

  lemma WorkflowTypeIsPlain()
    ensures Plain(WORKFLOW_TYPE)
  {
    StripKeeps(WORKFLOW_TYPE);
    assert Lower(WORKFLOW_TYPE) == WORKFLOW_TYPE;
  }

  lemma StatusesArePlain()
    ensures Plain("running") && Plain("success")
  {
    StripKeeps("running");
    StripKeeps("success");
    assert Lower("running") == "running";
    assert Lower("success") == "success";
  }

  lemma IdsAreCanonical()
    ensures PositiveId(Str("1")) == Some("1") && PositiveId(Str("2")) == Some("2")
  {
    StripKeeps("1");
    StripKeeps("2");
  }

  lemma WordsArePlain()
    ensures Plain(ACTION_TYPE) && Plain(WORKFLOW_TYPE) && Plain("running") && Plain("success")
    ensures PositiveId(Str("1")) == Some("1") && PositiveId(Str("2")) == Some("2")
  {
    ActionTypeIsPlain();
    WorkflowTypeIsPlain();
    StatusesArePlain();
    IdsAreCanonical();
  }

  /** Two hits of an unfinished action, of which one says it ended before it started. */
  lemma TiedHits() returns (x: Value, y: Value)
    ensures ReadJob(x, CLOCK) == Ok(OPEN) && ReadJob(y, CLOCK) == Ok(OPEN.(end := Some(1)))
  {
    WordsArePlain();
    AtReads(5);
    AtReads(6);
    AtReads(1);
    x := JobHit(JobPayload("1", ACTION_TYPE, Null, "running", At(5), Null), At(6));
    y := JobHit(JobPayload("1", ACTION_TYPE, Null, "running", At(5), At(1)), At(6));
    JobHitIsRead("1", ACTION_TYPE, Null, "running", At(5), Null, At(6));
    JobHitIsRead("1", ACTION_TYPE, Null, "running", At(5), At(1), At(6));
  }

  lemma SecondCopy(l: Ledger, a: Job, b: Job)
    requires JobsOf(l.jobs, b.JobKey()) == [a] && a != b
    ensures AddJob(l, Ok(b)).jobs == l.jobs[b.JobKey() := [a, b]]
  {
    assert [a] + [b] == [a, b];
  }

  /** A job changes the jobs only, and the issues. */
  predicate SameBesideJobs(l: Ledger, m: Ledger) {
    && l.evidence == m.evidence && l.blocked == m.blocked && l.incomplete == m.incomplete
    && l.unknownSourceErrors == m.unknownSourceErrors
  }

  lemma JobsOnly(l: Ledger, j: Job)
    ensures SameBesideJobs(l, AddJob(l, Ok(j)))
  {}

  lemma JobsInTurn(l: Ledger, x: Value, y: Value, a: Job, b: Job)
    requires ReadJob(x, CLOCK) == Ok(a) && ReadJob(y, CLOCK) == Ok(b)
    ensures AddJobs(l, [x, y], CLOCK) == AddJob(AddJob(l, Ok(a)), Ok(b))
  {
    assert [x, y][..1] == [x] && [x][..0] == [];
    assert AddJobs(l, [x], CLOCK) == AddJob(AddJobs(l, [], CLOCK), Ok(a));
  }

  lemma LedgerOfJobs(x: Value, y: Value, a: Job, b: Job)
    requires ReadJob(x, CLOCK) == Ok(a) && ReadJob(y, CLOCK) == Ok(b)
    ensures Replay([JobBatch([x, y])], CLOCK) == AddJob(AddJob(EMPTY, Ok(a)), Ok(b))
  {
    var batches := [JobBatch([x, y])];
    assert batches[..0] == [];
    assert FeedAll(EMPTY, [], CLOCK) == EMPTY;
    JobsInTurn(EMPTY, x, y, a, b);
  }

  lemma TwoCopies(a: Job, b: Job)
    requires a.JobKey() == RUN && b.JobKey() == RUN && a != b
    ensures var l := AddJob(AddJob(EMPTY, Ok(a)), Ok(b)); l.jobs == map[RUN := [a, b]] && SameBesideJobs(EMPTY, l)
  {
    FirstCopy(EMPTY, a);
    SecondCopy(AddJob(EMPTY, Ok(a)), a, b);
    JobsOnly(EMPTY, a);
    JobsOnly(AddJob(EMPTY, Ok(a)), b);
  }

  lemma TwoSnapshots(x: Value, y: Value, a: Job, b: Job)
    requires ReadJob(x, CLOCK) == Ok(a) && ReadJob(y, CLOCK) == Ok(b)
    requires a.JobKey() == RUN && b.JobKey() == RUN && a != b
    ensures var l := Replay([JobBatch([x, y])], CLOCK);
            l.jobs == map[RUN := [a, b]] && SameBesideJobs(EMPTY, l)
  {
    LedgerOfJobs(x, y, a, b);
    TwoCopies(a, b);
  }

  lemma UnrelatedAction(a: Job, b: Job, jobs: map<Key, seq<Job>>)
    requires jobs == map[RUN := [a, b]] && Selected([a, b]) == Some(a)
    requires a.JobKey() == RUN && a.root.None? && a.kind == ACTION_TYPE && b.kind == ACTION_TYPE
    ensures NoExecutionBlock(RUN, jobs) <==> Coherent([a, b])
  {
    assert JobsOf(jobs, RUN) == [a, b];
    assert !Related([a, b], RUN);
    assert WorkflowsOf(jobs, a) == [];
  }

  lemma SnapshotsDecide(l: Ledger, a: Job, b: Job, syncedAt: int, coverage: Option<Coverage>, generation: string,
                        limit: nat)
    requires l.jobs == map[RUN := [a, b]] && SameBesideJobs(EMPTY, l) && Selected([a, b]) == Some(a)
    requires a.JobKey() == RUN && a.root.None? && a.kind == ACTION_TYPE && b.kind == ACTION_TYPE
    ensures DocumentOf(l, RUN, syncedAt, coverage, generation, limit).verification.Blocked? <==> !Coherent([a, b])
  {
    UnrelatedAction(a, b, l.jobs);
    CheckBlocksExactly(RUN, l.jobs);
    assert RecordedUnder(l, RUN) == [] && ReasonsOf(l.blocked, RUN) == {};
    NoBlockIsExact(l, RUN);
    BlockedByReasons(l, RUN, syncedAt, coverage, generation, limit);
  }

  lemma BlockedByReasons(l: Ledger, key: Key, syncedAt: int, coverage: Option<Coverage>, generation: string, limit: nat)
    ensures DocumentOf(l, key, syncedAt, coverage, generation, limit).verification.Blocked? <==>
              BlockedReasons(l, key) != {}
  {}

  lemma OneJobBatch(x: Value, y: Value)
    ensures JobHits([JobBatch([x, y])]) == {x, y} && RawHits([JobBatch([x, y])]) == {}
  {
    var b := JobBatch([x, y]);
    assert x in b.hits && y in b.hits && b in [b];
  }

  lemma NoEvidenceInJobs(jobs: set<Value>)
    ensures SeenIn({}, jobs, CLOCK).items == {}
  {}

  lemma TiedRun(x: Value, y: Value, a: Job, b: Job, syncedAt: int, coverage: Option<Coverage>, generation: string,
                limit: nat)
    requires ReadJob(x, CLOCK) == Ok(a) && ReadJob(y, CLOCK) == Ok(b) && Selected([a, b]) == Some(a)
    requires a.JobKey() == RUN && b.JobKey() == RUN && a != b && a.root.None? && a.kind == ACTION_TYPE
             && b.kind == ACTION_TYPE
    ensures DocumentOf(Replay([JobBatch([x, y])], CLOCK), RUN, syncedAt, coverage, generation,
                       limit).verification.Blocked?
       <==> !Coherent([a, b])
  {
    TwoSnapshots(x, y, a, b);
    SnapshotsDecide(Replay([JobBatch([x, y])], CLOCK), a, b, syncedAt, coverage, generation, limit);
  }

  lemma TiedSnapshotsDiffer(a: Job, b: Job)
    requires a == OPEN && b == OPEN.(end := Some(1))
    ensures Selected([a, b]) == Some(a) && Selected([b, a]) == Some(b) && Coherent([a, b]) && !Coherent([b, a])
  {
    FirstOfLevelSnapshotsIsChosen(a, b);
    FirstOfLevelSnapshotsIsChosen(b, a);
    TiesAreBrokenByArrival(a, b);
  }

  lemma TiedOrdersDiffer(x: Value, y: Value, syncedAt: int, coverage: Option<Coverage>, generation: string, limit: nat)
    requires ReadJob(x, CLOCK) == Ok(OPEN) && ReadJob(y, CLOCK) == Ok(OPEN.(end := Some(1)))
    ensures !Blocks([JobBatch([x, y])], syncedAt, coverage, generation, limit)
    ensures Blocks([JobBatch([y, x])], syncedAt, coverage, generation, limit)
  {
    var late := OPEN.(end := Some(1));
    TiedSnapshotsDiffer(OPEN, late);
    TiedRun(x, y, OPEN, late, syncedAt, coverage, generation, limit);
    TiedRun(y, x, late, OPEN, syncedAt, coverage, generation, limit);
  }

  lemma TiedOrdersShareHits(x: Value, y: Value)
    ensures SameHits([JobBatch([x, y])], [JobBatch([y, x])])
    ensures ReferencesAgree(SeenOver([JobBatch([x, y])]).items)
  {
    OneJobBatch(x, y);
    OneJobBatch(y, x);
    NoEvidenceInJobs({x, y});
    NothingDisagrees(SeenOver([JobBatch([x, y])]).items);
  }

  lemma NothingDisagrees(items: set<Evidence>)
    requires items == {}
    ensures ReferencesAgree(items)
  {}

  ghost predicate SameHits(one: seq<Batch>, other: seq<Batch>) {
    RawHits(one) == RawHits(other) && JobHits(one) == JobHits(other)
  }

  ghost function SeenOver(batches: seq<Batch>): Seen {
    SeenIn(RawHits(batches), JobHits(batches), CLOCK)
  }

  ghost predicate Blocks(batches: seq<Batch>, syncedAt: int, coverage: Option<Coverage>, generation: string,
                         limit: nat) {
    DocumentOf(Replay(batches, CLOCK), RUN, syncedAt, coverage, generation, limit).verification.Blocked?
  }

  /** Two orders of the same job hits, level in time and status, of which only one blocks the action. */
  lemma TiesDecideTheVerdict(syncedAt: int, coverage: Option<Coverage>, generation: string, limit: nat)
    returns (one: seq<Batch>, other: seq<Batch>)
    ensures SameHits(one, other) && ReferencesAgree(SeenOver(one).items)
    ensures !Blocks(one, syncedAt, coverage, generation, limit) && Blocks(other, syncedAt, coverage, generation, limit)
  {
    var x, y := TiedHits();
    one, other := [JobBatch([x, y])], [JobBatch([y, x])];
    TiedOrdersShareHits(x, y);
    TiedOrdersDiffer(x, y, syncedAt, coverage, generation, limit);
  }

  // ---- Backups ------------------------------------------------------------------------------

  function AttributeValue(key: string, text: string): Value {
    Object(map["key" := Str(key), "values" := List([Str(text)])])
  }

  function Attributes(group: string): seq<Value> {
    [AttributeValue(ACTION_ID, "1"), AttributeValue(POLICY, "p"), AttributeValue(WORKFLOW, "w"),
     AttributeValue(GROUP, group)]
  }

  /** A backup of the action, saved at three and completed at four. */
  function BackupEntry(id: string, group: string): Value {
    Object(map["id" := Str(id), "attributes" := List(Attributes(group)), "saveTime" := Int(3),
               "completionTime" := Int(4)])
  }

  lemma AttributeIsRead(key: string, text: string)
    requires Strip(key) != "" && Strip(text) != ""
    ensures var a := AttributeValue(key, text);
            Keyed(a) && Valued(a.Get("values")) && ReadAttribute(a) == Attribute(key, [text])
  {
    var a := AttributeValue(key, text);
    assert a.Get("key") == Str(key) && a.Get("values") == List([Str(text)]);
    assert Texts([Str(text)]) == [text];
  }

  lemma GatherOneMore(before: seq<Value>, values: map<string, seq<string>>, key: string, text: string)
    requires Gather(before) == Gathered(values, {}) && key !in values && Strip(key) != "" && Strip(text) != ""
    ensures Gather(before + [AttributeValue(key, text)]) == Gathered(values[key := [text]], {})
  {
    var a := AttributeValue(key, text);
    AttributeIsRead(key, text);
    assert (before + [a])[..|before|] == before;
    assert [] + [text] == [text];
  }

  function BackupValues(group: string): map<string, seq<string>> {
    map[ACTION_ID := ["1"]][POLICY := ["p"]][WORKFLOW := ["w"]][GROUP := [group]]
  }

  lemma KeysAreText()
    ensures Strip(ACTION_ID) != "" && Strip(POLICY) != "" && Strip(WORKFLOW) != "" && Strip(GROUP) != ""
    ensures Strip("1") == "1" && Strip("p") == "p" && Strip("w") == "w"
  {
    StripKeeps(ACTION_ID);
    StripKeeps(POLICY);
    StripKeeps(WORKFLOW);
    StripKeeps(GROUP);
    StripKeeps("1");
    StripKeeps("p");
    StripKeeps("w");
  }

  lemma KeysAreDistinct()
    ensures WORKFLOW !in {ACTION_ID, POLICY} && GROUP !in {ACTION_ID, POLICY, WORKFLOW}
  {
    assert |WORKFLOW| != |ACTION_ID| && |WORKFLOW| != |POLICY|;
    assert |GROUP| < |POLICY|;
  }

  lemma HalfIsGathered()
    ensures Gather([AttributeValue(ACTION_ID, "1")] + [AttributeValue(POLICY, "p")])
         == Gathered(map[ACTION_ID := ["1"]][POLICY := ["p"]], {})
  {
    KeysAreText();
    var first := [AttributeValue(ACTION_ID, "1")];
    GatherOneMore([], map[], ACTION_ID, "1");
    assert [] + first == first;
    GatherOneMore(first, map[ACTION_ID := ["1"]], POLICY, "p");
  }

  lemma ThirdIsGathered(half: seq<Value>, values: map<string, seq<string>>)
    requires Gather(half) == Gathered(values, {}) && values.Keys == {ACTION_ID, POLICY}
    ensures Gather(half + [AttributeValue(WORKFLOW, "w")]) == Gathered(values[WORKFLOW := ["w"]], {})
  {
    KeysAreText();
    KeysAreDistinct();
    GatherOneMore(half, values, WORKFLOW, "w");
  }

  lemma FourthIsGathered(before: seq<Value>, values: map<string, seq<string>>, group: string)
    requires Gather(before) == Gathered(values, {}) && values.Keys == {ACTION_ID, POLICY, WORKFLOW}
             && Strip(group) != ""
    ensures Gather(before + [AttributeValue(GROUP, group)]) == Gathered(values[GROUP := [group]], {})
  {
    KeysAreText();
    KeysAreDistinct();
    GatherOneMore(before, values, GROUP, group);
  }

  lemma AttributesAreGathered(group: string)
    requires Strip(group) != ""
    ensures Gather(Attributes(group)) == Gathered(BackupValues(group), {})
  {
    HalfIsGathered();
    var half, values := [AttributeValue(ACTION_ID, "1")] + [AttributeValue(POLICY, "p")],
                        map[ACTION_ID := ["1"]][POLICY := ["p"]];
    ThirdIsGathered(half, values);
    FourthIsGathered(half + [AttributeValue(WORKFLOW, "w")], values[WORKFLOW := ["w"]], group);
    AttributesInParts(group);
  }

  lemma AttributesInParts(group: string)
    ensures [AttributeValue(ACTION_ID, "1")] + [AttributeValue(POLICY, "p")] + [AttributeValue(WORKFLOW, "w")]
            + [AttributeValue(GROUP, group)] == Attributes(group)
  {}

  lemma NameStays(name: string, strip: bool)
    requires Strip(name) == name != "" && ':' !in name
    ensures NormalizeName(Str(name), strip) == Ok(Name(name, name, None))
  {
    assert LastColon(name) == |name|;
  }

  lemma EntryFields(id: string, attributes: seq<Value>)
    ensures var b := Object(map["id" := Str(id), "attributes" := List(attributes), "saveTime" := Int(3),
                                "completionTime" := Int(4)]);
            && b.Get("id") == Str(id) && b.Get("saveTime") == Int(3) && b.Get("completionTime") == Int(4)
            && b.Get("attributes") == List(attributes)
  {}

  lemma EntryHolds(id: string, group: string)
    requires Strip(group) != ""
    ensures var b := BackupEntry(id, group);
            && b.Object? && b.Get("id") == Str(id) && b.Get("saveTime") == Int(3) && b.Get("completionTime") == Int(4)
            && b.Get("attributes") == List(Attributes(group)) && GatherFrom(b) == Gathered(BackupValues(group), {})
  {
    EntryFields(id, Attributes(group));
    AttributesAreGathered(group);
    GatheredFromList(BackupEntry(id, group), Attributes(group));
  }

  lemma GatheredFromList(b: Value, attributes: seq<Value>)
    requires b.Object? && b.Get("attributes") == List(attributes) && attributes != []
    ensures GatherFrom(b) == Gather(attributes)
  {}

  lemma ValuesAreFaultless(group: string)
    ensures var g := Gathered(BackupValues(group), {});
            && BackupFaults(g) == {} && ActionIdOf(g.values) == Some("1")
            && g.values[POLICY] == ["p"] && g.values[WORKFLOW] == ["w"] && g.values[GROUP] == [group]
  {
    var values := BackupValues(group);
    StripKeeps("1");
    assert ValuesUnder(values, ACTION_ID) == ["1"];
    assert Single(["1"]) && Single(["p"]) && Single(["w"]) && Single([group]);
  }

  /** The evidence such an entry becomes. */
  predicate IsEvidence(e: Evidence, id: string, group: string, reference: Reference) {
    && e.source == Core && e.actionId == "1" && e.backupId == Some(id)
    && e.policy == Name("p", "p", None) && e.workflow == Name("w", "w", None) && e.group == Name(group, group, None)
    && |e.attributes| == 4 && (forall i :: 0 <= i < 4 ==> e.attributes[i] == AttributeAt(group, i))
    && e.reference == reference.(backupId := Some(id)) && e.observedAt == Some(6)
    && e.saveTime == ReportedTime(Int(3), Some(3)) && e.completionTime == ReportedTime(Int(4), Some(4))
  }

  function AttributeAt(group: string, i: nat): Attribute {
    if i == 0 then Attribute(ACTION_ID, ["1"]) else if i == 1 then Attribute(POLICY, ["p"])
    else if i == 2 then Attribute(WORKFLOW, ["w"]) else Attribute(GROUP, [group])
  }

  lemma EntryIsFiled(id: string, group: string, reference: Reference)
    requires Strip(id) == id != "" && Strip(group) == group != "" && ':' !in group
    ensures var o := OutcomeOf(BackupEntry(id, group), Core, reference, Some(6), CLOCK);
            o.Filed? && IsEvidence(o.evidence, id, group, reference)
  {
    EntryHolds(id, group);
    ValuesAreFaultless(group);
    StripKeeps("p");
    StripKeeps("w");
    NameStays("p", true);
    NameStays("w", true);
    NameStays(group, false);
    AttributesAreRead(group);
    EntryIsNamed(BackupEntry(id, group), id, group, reference);
  }

  predicate ReadsAs(a: Value, attribute: Attribute) {
    Keyed(a) && Valued(a.Get("values")) && ReadAttribute(a) == attribute
  }

  lemma AttributesAreRead(group: string)
    requires Strip(group) != ""
    ensures forall i :: 0 <= i < 4 ==> ReadsAs(Attributes(group)[i], AttributeAt(group, i))
  {
    KeysAreText();
    AttributeIsRead(ACTION_ID, "1");
    AttributeIsRead(POLICY, "p");
    AttributeIsRead(WORKFLOW, "w");
    AttributeIsRead(GROUP, group);
    AttributesInOrder(group);
  }

  lemma AttributesInOrder(group: string)
    ensures Attributes(group)[0] == AttributeValue(ACTION_ID, "1")
    ensures Attributes(group)[1] == AttributeValue(POLICY, "p")
    ensures Attributes(group)[2] == AttributeValue(WORKFLOW, "w")
    ensures Attributes(group)[3] == AttributeValue(GROUP, group)
  {}

  lemma EntryIsNamed(b: Value, id: string, group: string, reference: Reference)
    requires b.Object? && b.Get("id") == Str(id) && b.Get("saveTime") == Int(3) && b.Get("completionTime") == Int(4)
    requires b.Get("attributes") == List(Attributes(group)) && GatherFrom(b) == Gathered(BackupValues(group), {})
    requires BackupFaults(GatherFrom(b)) == {} && ActionIdOf(BackupValues(group)) == Some("1")
    requires var v := BackupValues(group); v[POLICY] == ["p"] && v[WORKFLOW] == ["w"] && v[GROUP] == [group]
    requires NormalizeName(Str("p"), true) == Ok(Name("p", "p", None))
             && NormalizeName(Str("w"), true) == Ok(Name("w", "w", None))
    requires NormalizeName(Str(group), false) == Ok(Name(group, group, None)) && Strip(id) == id != ""
    requires forall i :: 0 <= i < 4 ==> ReadsAs(Attributes(group)[i], AttributeAt(group, i))
    ensures var o := OutcomeOf(b, Core, reference, Some(6), CLOCK);
            o.Filed? && IsEvidence(o.evidence, id, group, reference)
  {
    assert BackupId(b) == Some(id);
  }

  // ---- RAW hits -----------------------------------------------------------------------------

  function RawPayload(entries: seq<Value>): Value {
    Object(map["raw" := Object(map["backups" := List(entries)])])
  }

  function RawHit(entries: seq<Value>, rawId: Value): Value {
    Object(map["source_networker" := Str("core"), "raw_document_id" := rawId, "@timestamp" := At(6),
               "payload" := RawPayload(entries)])
  }

  const NOTHING_FOUND := Extraction([], [], {})

  lemma RawPayloadHolds(entries: seq<Value>, document: Value)
    requires document.Object? && document.Get("ok") == Null
    ensures var payload := RawPayload(entries);
            && payload.Object? && Response(payload) == List(entries) && payload.Get("summary") == Null
            && !PartialCollection(document, payload)
  {
    var payload := RawPayload(entries);
    assert payload.Get("collection_status") == Null && payload.Get("endpoint_errors") == Null;
    assert payload.Get("raw") == Object(map["backups" := List(entries)]);
  }

  lemma RawHitHolds(entries: seq<Value>, rawId: Value)
    ensures var hit := RawHit(entries, rawId);
            && Unwrap(hit) == Ok((hit, NOWHERE)) && SourceOf(hit, true) == Ok(Core)
            && hit.Get("payload") == RawPayload(entries)
            && hit.Get("raw_document_id") == rawId && Timestamp(CLOCK, hit.Get("@timestamp")) == Some(6)
            && hit.Get("ok") == Null
  {
    var hit := RawHit(entries, rawId);
    CoreIsASource();
    AtReads(6);
    assert "_source" !in hit.fields && hit.Get("_index") == Null && hit.Get("_id") == Null;
    assert hit.Get("source_networker") == Str("core") && hit.Get("payload") == RawPayload(entries);
    assert RawPayload(entries).Get("summary") == Null;
  }

  lemma RawHitIsExtracted(entries: seq<Value>, rawId: Value)
    ensures ExtractionOf(RawHit(entries, rawId), CLOCK)
         == ExtractEntries(entries, Core, NOWHERE.(rawDocumentId := rawId), Some(6), CLOCK, NOTHING_FOUND)
  {
    RawHitHolds(entries, rawId);
    RawPayloadHolds(entries, RawHit(entries, rawId));
    ExtractPlainly(RawHit(entries, rawId), RawPayload(entries), entries, rawId);
  }

  lemma ExtractPlainly(hit: Value, payload: Value, entries: seq<Value>, rawId: Value)
    requires hit.Object? && Unwrap(hit) == Ok((hit, NOWHERE)) && SourceOf(hit, true) == Ok(Core)
    requires hit.Get("payload") == payload && payload.Object? && Response(payload) == List(entries)
    requires !PartialCollection(hit, payload)
    requires hit.Get("raw_document_id") == rawId && Timestamp(CLOCK, hit.Get("@timestamp")) == Some(6)
    ensures ExtractionOf(hit, CLOCK)
         == ExtractEntries(entries, Core, NOWHERE.(rawDocumentId := rawId), Some(6), CLOCK, NOTHING_FOUND)
  {}

  function Place(rawId: Value, position: nat): Reference {
    NOWHERE.(rawDocumentId := rawId, position := Some(position))
  }

  /** A hit with one backup of the action. */
  lemma LoneBackupHit(id: string, group: string, rawId: Value) returns (hit: Value, e: Evidence)
    requires Strip(id) == id != "" && Strip(group) == group != "" && ':' !in group
    ensures ExtractionOf(hit, CLOCK) == Extraction([e], [], {}) && IsEvidence(e, id, group, Place(rawId, 0))
  {
    var b := BackupEntry(id, group);
    hit := RawHit([b], rawId);
    RawHitIsExtracted([b], rawId);
    EntryIsFiled(id, group, Place(rawId, 0));
    e := OutcomeOf(b, Core, Place(rawId, 0), Some(6), CLOCK).evidence;
    OneEntry(b, NOWHERE.(rawDocumentId := rawId), e);
  }

  lemma OneEntry(b: Value, reference: Reference, e: Evidence)
    requires OutcomeOf(b, Core, reference.(position := Some(0)), Some(6), CLOCK) == Filed(e)
    ensures ExtractEntries([b], Core, reference, Some(6), CLOCK, NOTHING_FOUND) == Extraction([e], [], {})
  {
    assert [b][..0] == [];
    assert ExtractEntries([], Core, reference, Some(6), CLOCK, NOTHING_FOUND) == NOTHING_FOUND;
    assert [] + [e] == [e];
  }

  lemma OneFiled(l: Ledger, e: Evidence)
    ensures AddExtraction(l, Extraction([e], [], {})) == FileEvidence(l, e)
  {
    assert l.issues + [] == l.issues && l.incomplete + {} == l.incomplete;
    assert l.(issues := l.issues + [], incomplete := l.incomplete + {}) == l;
    assert [e][..0] == [];
    assert FileAll(l, [e]) == FileEvidence(FileAll(l, []), e);
  }

  lemma HitsInTurn(l: Ledger, x: Value, y: Value, a: Evidence, b: Evidence)
    requires ExtractionOf(x, CLOCK) == Extraction([a], [], {}) && ExtractionOf(y, CLOCK) == Extraction([b], [], {})
    ensures AddRaw(l, [x, y], CLOCK) == FileEvidence(FileEvidence(l, a), b)
  {
    assert [x, y][..1] == [x] && [x][..0] == [];
    OneFiled(l, a);
    OneFiled(FileEvidence(l, a), b);
    assert AddRaw(l, [x], CLOCK) == AddExtraction(AddRaw(l, [], CLOCK), Extraction([a], [], {}));
    assert AddRaw(l, [x, y], CLOCK) == AddExtraction(AddRaw(l, [x], CLOCK), Extraction([b], [], {}));
  }

  lemma FirstObservation(a: Evidence)
    requires a.backupId.Some?
    ensures var l, id := FileEvidence(EMPTY, a), Identity(a.source, a.backupId.value);
            && RecordsOf(l.evidence, a.ActionKey()) == [Entry(FingerprintOf(a), a)] && l.blocked == map[]
            && l.incomplete == {} && !l.unknownSourceErrors && l.jobs == map[]
            && RevisionsOf(l.identities, id) == map[FingerprintOf(a) := a.ActionKey()]
  {
    assert Conflicting(map[], {}, FingerprintOf(a)) == {};
    assert RecordsOf(EMPTY.evidence, a.ActionKey()) == [];
    assert Observe([], a) == [Entry(FingerprintOf(a), a)];
  }

  /** Two equally late observations of one revision: the first is kept, and nothing is blocked. */
  lemma LevelObservations(a: Evidence, b: Evidence)
    requires SameObservation(a, b) && a.source == b.source && a.backupId.Some? && a.backupId == b.backupId
    ensures var l := FileEvidence(FileEvidence(EMPTY, a), b);
            && RecordedUnder(l, a.ActionKey()) == [a] && l.blocked == map[]
            && l.incomplete == {} && !l.unknownSourceErrors && l.jobs == map[]
  {
    var l := FileEvidence(EMPTY, a);
    FirstObservation(a);
    var revisions := RevisionsOf(l.identities, Identity(b.source, b.backupId.value));
    assert Conflicting(revisions, revisions.Keys, FingerprintOf(b)) == {};
    assert Observe([Entry(FingerprintOf(a), a)], b) == [Entry(FingerprintOf(a), a)];
  }

  // ---- Level observations with and without a locatable hit ------------------------------------

  const ENDED := Job(Core, "1", ACTION_TYPE, None, Some("2"), "success", Some(2), Some(5), Some(6), NOWHERE)
  const FLOW := Job(Core, "2", WORKFLOW_TYPE, None, None, "success", Some(1), Some(5), Some(6), NOWHERE)
  const PROOF := Coverage(Core, "1", Some(1), Some(9), true, true, false, false, true, "proof")

  lemma StoryHits() returns (w: Value, a: Value)
    ensures ReadJob(w, CLOCK) == Ok(FLOW) && ReadJob(a, CLOCK) == Ok(ENDED)
  {
    WordsArePlain();
    AtReads(1);
    AtReads(2);
    AtReads(5);
    AtReads(6);
    w := JobHit(JobPayload("2", WORKFLOW_TYPE, Null, "success", At(1), At(5)), At(6));
    a := JobHit(JobPayload("1", ACTION_TYPE, Str("2"), "success", At(2), At(5)), At(6));
    JobHitIsRead("2", WORKFLOW_TYPE, Null, "success", At(1), At(5), At(6));
    JobHitIsRead("1", ACTION_TYPE, Str("2"), "success", At(2), At(5), At(6));
  }

  /** Two hits of one backup at one time, of which only one can be located. */
  lemma LevelHits() returns (x: Value, y: Value, a: Evidence, b: Evidence)
    ensures ExtractionOf(x, CLOCK) == Extraction([a], [], {}) && ExtractionOf(y, CLOCK) == Extraction([b], [], {})
    ensures IsEvidence(a, "b", "g", Place(Str("r"), 0)) && IsEvidence(b, "b", "g", Place(Null, 0))
  {
    StripKeeps("b");
    StripKeeps("g");
    x, a := LoneBackupHit("b", "g", Str("r"));
    y, b := LoneBackupHit("b", "g", Null);
  }

  lemma LevelEvidence(a: Evidence, b: Evidence)
    requires IsEvidence(a, "b", "g", Place(Str("r"), 0)) && IsEvidence(b, "b", "g", Place(Null, 0))
    ensures SameObservation(a, b) && SameObservation(b, a)
    ensures a.reference.Locatable() && !b.reference.Locatable()
  {
    forall i | 0 <= i < 4 ensures a.attributes[i] == b.attributes[i] {
      assert a.attributes[i] == AttributeAt("g", i);
    }
    assert a.attributes == b.attributes;
  }

  function Batches(x: Value, y: Value, w: Value, j: Value): seq<Batch> {
    [RawBatch([x, y]), JobBatch([w, j])]
  }

  lemma LedgerOfBatches(x: Value, y: Value, w: Value, j: Value, a: Evidence, b: Evidence)
    requires ExtractionOf(x, CLOCK) == Extraction([a], [], {}) && ExtractionOf(y, CLOCK) == Extraction([b], [], {})
    requires ReadJob(w, CLOCK) == Ok(FLOW) && ReadJob(j, CLOCK) == Ok(ENDED)
    ensures Replay(Batches(x, y, w, j), CLOCK)
         == AddJob(AddJob(FileEvidence(FileEvidence(EMPTY, a), b), Ok(FLOW)), Ok(ENDED))
  {
    TwoBatches(x, y, w, j);
    HitsInTurn(EMPTY, x, y, a, b);
    JobsInTurn(FileEvidence(FileEvidence(EMPTY, a), b), w, j, FLOW, ENDED);
  }

  lemma TwoBatches(x: Value, y: Value, w: Value, j: Value)
    ensures Replay(Batches(x, y, w, j), CLOCK) == AddJobs(AddRaw(EMPTY, [x, y], CLOCK), [w, j], CLOCK)
  {
    var batches := Batches(x, y, w, j);
    assert batches[..1] == [RawBatch([x, y])] && batches[..1][..0] == [];
    assert FeedAll(EMPTY, [], CLOCK) == EMPTY;
    assert FeedAll(EMPTY, batches[..1], CLOCK) == AddRaw(EMPTY, [x, y], CLOCK);
  }

  lemma JobsOfStory(l: Ledger)
    requires l.jobs == map[]
    ensures var m := AddJob(AddJob(l, Ok(FLOW)), Ok(ENDED));
            m.jobs == map[FLOW.JobKey() := [FLOW]][ENDED.JobKey() := [ENDED]] && SameBesideJobs(l, m)
  {
    FirstCopy(l, FLOW);
    FirstCopy(AddJob(l, Ok(FLOW)), ENDED);
    JobsOnly(l, FLOW);
    JobsOnly(AddJob(l, Ok(FLOW)), ENDED);
  }

  lemma StoryOf(a: Evidence, reference: Reference)
    requires IsEvidence(a, "b", "g", reference) && a.reference.Locatable()
    ensures Story(a, ENDED, FLOW, 7) && PROOF.CompleteFor(ENDED.start, ENDED.end)
  {
    assert Strip("proof") == "proof" by {
      StripKeeps("proof");
    }
  }

  /** The document of the run, under a complete coverage. */
  ghost predicate Verifies(batches: seq<Batch>, generation: string, limit: nat) {
    DocumentOf(Replay(batches, CLOCK), RUN, 7, Some(PROOF), generation, limit).verification.Verified?
  }

  lemma FirstReferenceCounts(x: Value, y: Value, w: Value, j: Value, a: Evidence, b: Evidence, ra: Reference,
                             rb: Reference, generation: string, limit: nat)
    requires ExtractionOf(x, CLOCK) == Extraction([a], [], {}) && ExtractionOf(y, CLOCK) == Extraction([b], [], {})
    requires ReadJob(w, CLOCK) == Ok(FLOW) && ReadJob(j, CLOCK) == Ok(ENDED)
    requires SameObservation(a, b) && IsEvidence(a, "b", "g", ra) && IsEvidence(b, "b", "g", rb)
    ensures Verifies(Batches(x, y, w, j), generation, limit) <==> a.reference.Locatable()
  {
    var l := Replay(Batches(x, y, w, j), CLOCK);
    LedgerOfBatches(x, y, w, j, a, b);
    LevelObservations(a, b);
    JobsOfStory(FileEvidence(FileEvidence(EMPTY, a), b));
    assert a.ActionKey() == RUN;
    SupportedWhereLocatable(l, a, ra);
    VerifiedIsExact(l, RUN, 7, Some(PROOF), generation, limit);
  }

  lemma SupportedWhereLocatable(l: Ledger, a: Evidence, reference: Reference)
    requires IsEvidence(a, "b", "g", reference) && RecordedUnder(l, RUN) == [a]
    requires l.blocked == map[] && l.incomplete == {} && !l.unknownSourceErrors
    requires l.jobs == map[FLOW.JobKey() := [FLOW]][ENDED.JobKey() := [ENDED]]
    ensures Supported(l, RUN, 7, Some(PROOF)) <==> a.reference.Locatable()
  {
    assert a.ActionKey() == RUN;
    if a.reference.Locatable() {
      StoryOf(a, reference);
      StoryIsSupported(l, a, ENDED, FLOW, 7, PROOF);
    } else {
      assert a in RecordedUnder(l, RUN);
    }
  }

  lemma BatchesShareHits(x: Value, y: Value, w: Value, j: Value)
    ensures SameHits(Batches(x, y, w, j), Batches(y, x, w, j))
    ensures JobHits(Batches(x, y, w, j)) == {w, j}
  {
    BatchesHold(x, y, w, j);
    BatchesHold(y, x, w, j);
  }

  lemma BatchesHold(x: Value, y: Value, w: Value, j: Value)
    ensures RawHits(Batches(x, y, w, j)) == {x, y} && JobHits(Batches(x, y, w, j)) == {w, j}
  {
    var raw, jobs := RawBatch([x, y]), JobBatch([w, j]);
    assert x in raw.hits && y in raw.hits && w in jobs.hits && j in jobs.hits;
    assert raw in Batches(x, y, w, j) && jobs in Batches(x, y, w, j);
  }

  lemma EndedJobsHaveNoTies(jobs: set<Job>)
    requires forall j | j in jobs :: j.Terminal()
    ensures TiesAgree(jobs)
  {}

  lemma JobsComeFromJobHits(raw: set<Value>, jobs: set<Value>)
    ensures SeenIn(raw, jobs, CLOCK).jobs == SeenInJobs(jobs, CLOCK).jobs
  {}

  lemma JobsSeen(w: Value, j: Value, a: Job, b: Job)
    requires ReadJob(w, CLOCK) == Ok(a) && ReadJob(j, CLOCK) == Ok(b)
    ensures SeenInJobs({w, j}, CLOCK).jobs <= {a, b}
  {}

  lemma StoryJobsSeen(raw: set<Value>, w: Value, j: Value)
    requires ReadJob(w, CLOCK) == Ok(FLOW) && ReadJob(j, CLOCK) == Ok(ENDED)
    ensures SeenIn(raw, {w, j}, CLOCK).jobs <= {FLOW, ENDED}
  {
    JobsComeFromJobHits(raw, {w, j});
    JobsSeen(w, j, FLOW, ENDED);
  }

  lemma StoryHasNoTies(jobs: set<Job>)
    requires jobs <= {FLOW, ENDED}
    ensures TiesAgree(jobs)
  {
    EndedJobsHaveNoTies(jobs);
  }

  /** Two orders of the same hits, whose jobs have no ties, of which only one verifies the action: the backup was
      observed twice at one time, and only the first observation's hit is kept. */
  lemma ReferencesDecideTheVerdict(generation: string, limit: nat) returns (one: seq<Batch>, other: seq<Batch>)
    ensures SameHits(one, other) && TiesAgree(SeenOver(one).jobs)
    ensures Verifies(one, generation, limit) && !Verifies(other, generation, limit)
  {
    var x, y, a, b := LevelHits();
    var w, j := StoryHits();
    one, other := Batches(x, y, w, j), Batches(y, x, w, j);
    BatchesShareHits(x, y, w, j);
    StoryJobsSeen(RawHits(one), w, j);
    StoryHasNoTies(SeenOver(one).jobs);
    LevelEvidence(a, b);
    FirstReferenceCounts(x, y, w, j, a, b, Place(Str("r"), 0), Place(Null, 0), generation, limit);
    FirstReferenceCounts(y, x, w, j, b, a, Place(Null, 0), Place(Str("r"), 0), generation, limit);
  }

  // ---- A rejected build -----------------------------------------------------------------------

  /** Hits of three backups of the action, of different groups. */
  lemma ThreeHits() returns (x: Value, y: Value, z: Value, a: Evidence, b: Evidence, c: Evidence)
    ensures ExtractionOf(x, CLOCK) == Extraction([a], [], {}) && IsEvidence(a, "a", "f", Place(Null, 0))
    ensures ExtractionOf(y, CLOCK) == Extraction([b], [], {}) && IsEvidence(b, "b", "g", Place(Null, 0))
    ensures ExtractionOf(z, CLOCK) == Extraction([c], [], {}) && IsEvidence(c, "c", "h", Place(Null, 0))
  {
    StripKeeps("a");
    StripKeeps("b");
    StripKeeps("c");
    StripKeeps("f");
    StripKeeps("g");
    StripKeeps("h");
    x, a := LoneBackupHit("a", "f", Null);
    y, b := LoneBackupHit("b", "g", Null);
    z, c := LoneBackupHit("c", "h", Null);
  }

  const BUILD := Publish(7, [], "generation", 1, Checkpoint("cursor", "generation"))

  lemma EvidenceIsSeen(raw: set<Value>, hit: Value, e: Evidence)
    requires hit in raw && ExtractionOf(hit, CLOCK) == Extraction([e], [], {})
    ensures e in SeenInRaw(raw, CLOCK).items
  {
    assert e in SeenInHit(hit, CLOCK).items;
    InUnion(raw, hit, h => SeenInHit(h, CLOCK).items, e);
  }

  lemma ItemsComeFromRawHits(raw: set<Value>)
    ensures SeenIn(raw, {}, CLOCK).items == SeenInRaw(raw, CLOCK).items
  {}

  lemma HitShows(hit: Value, e: Evidence)
    requires ExtractionOf(hit, CLOCK) == Extraction([e], [], {})
    ensures SeenInHit(hit, CLOCK).items == {e}
  {
    assert Elements([e]) == {e};
  }

  lemma TwoHitsSeen(x: Value, y: Value, a: Evidence, b: Evidence)
    requires ExtractionOf(x, CLOCK) == Extraction([a], [], {}) && ExtractionOf(y, CLOCK) == Extraction([b], [], {})
    ensures SeenInRaw({x, y}, CLOCK).items == {a, b}
  {
    HitShows(x, a);
    HitShows(y, b);
    ItemsOfTwoHits(x, y);
  }

  lemma ItemsOfTwoHits(x: Value, y: Value)
    ensures SeenInRaw({x, y}, CLOCK).items == SeenInHit(x, CLOCK).items + SeenInHit(y, CLOCK).items
  {
    SeenInRawSplits({x}, {y}, CLOCK);
    SeenInOneRaw(x, CLOCK);
    SeenInOneRaw(y, CLOCK);
    assert {x} + {y} == {x, y};
  }

  lemma ThirdHitSeen(x: Value, y: Value, z: Value, c: Evidence)
    requires ExtractionOf(z, CLOCK) == Extraction([c], [], {})
    ensures c in SeenIn({x, y} + {z}, {}, CLOCK).items
  {
    ItemsComeFromRawHits({x, y} + {z});
    EvidenceIsSeen({x, y} + {z}, z, c);
  }

  function Arrivals(x: Value, y: Value): seq<Event> {
    [Arrive(RawBatch([x, y]))]
  }

  function Published(x: Value, y: Value): seq<Event> {
    Arrivals(x, y) + [BUILD]
  }

  function Grown(x: Value, y: Value, z: Value): seq<Event> {
    Published(x, y) + [Arrive(RawBatch([z]))]
  }

  lemma BatchesSoFar(x: Value, y: Value, z: Value)
    ensures BatchesOf(Arrivals(x, y)) == [RawBatch([x, y])]
    ensures BatchesOf(Published(x, y)) == [RawBatch([x, y])]
    ensures BatchesOf(Grown(x, y, z)) == [RawBatch([x, y]), RawBatch([z])]
  {
    var one, two, three := Arrivals(x, y), Published(x, y), Grown(x, y, z);
    assert one[..0] == [] && [] + [RawBatch([x, y])] == [RawBatch([x, y])];
    assert two[..1] == one && three[..2] == two;
    assert [RawBatch([x, y])] + [RawBatch([z])] == [RawBatch([x, y]), RawBatch([z])];
  }

  lemma HitsOfOne(x: Value, y: Value)
    ensures RawHits([RawBatch([x, y])]) == {x, y} && JobHits([RawBatch([x, y])]) == {}
  {
    var b := RawBatch([x, y]);
    assert b in [b] && x in b.hits && y in b.hits;
  }

  lemma HitsOfTwo(x: Value, y: Value, z: Value)
    ensures RawHits([RawBatch([x, y]), RawBatch([z])]) == {x, y} + {z}
            && JobHits([RawBatch([x, y]), RawBatch([z])]) == {}
  {
    var b, c := RawBatch([x, y]), RawBatch([z]);
    assert b in [b, c] && c in [b, c] && x in b.hits && y in b.hits && z in c.hits;
  }

  lemma SeenSoFar(x: Value, y: Value, z: Value, a: Evidence, b: Evidence, c: Evidence)
    requires ExtractionOf(x, CLOCK) == Extraction([a], [], {}) && ExtractionOf(y, CLOCK) == Extraction([b], [], {})
    requires ExtractionOf(z, CLOCK) == Extraction([c], [], {})
    ensures SeenBy(Arrivals(x, y), CLOCK).items == {a, b} == SeenBy(Published(x, y), CLOCK).items
    ensures c in SeenBy(Grown(x, y, z), CLOCK).items
  {
    BatchesSoFar(x, y, z);
    HitsOfOne(x, y);
    HitsOfTwo(x, y, z);
    TwoHitsSeen(x, y, a, b);
    ItemsComeFromRawHits({x, y});
    ThirdHitSeen(x, y, z, c);
  }

  /** The build's document of the run, once a backup of it was seen. */
  lemma RunIsBuilt(l: Ledger, s: Seen, e: Evidence)
    requires Explained(l, s) && e in s.items && e.ActionKey() == RUN
    ensures BuiltBy(l, BUILD).Some? && KeyText(RUN) in BuiltBy(l, BUILD).value
    ensures BuiltBy(l, BUILD).value[KeyText(RUN)] == DocumentOf(l, RUN, 7, None, "generation", 1)
    ensures BuiltBy(l, BUILD).value[KeyText(RUN)].candidates == SeenCandidates(s, RUN)
    ensures |BuiltBy(l, BUILD).value[KeyText(RUN)].audit| <= 1
  {
    RunIsKnown(l, s, e);
    DraftIsAt(l);
    CandidatesAreSeen(l, s, RUN);
    DraftCandidates(l, RUN, 7, None, "generation", 1);
    AuditIsCut(l);
  }

  lemma RunIsKnown(l: Ledger, s: Seen, e: Evidence)
    requires Explained(l, s) && e in s.items && e.ActionKey() == RUN
    ensures RUN in LedgerKeys(l)
  {
    SeenIsRecorded(l, s, e);
  }

  lemma AuditIsCut(l: Ledger)
    ensures |DocumentOf(l, RUN, 7, None, "generation", 1).audit| <= 1
  {}

  lemma DraftIsAt(l: Ledger)
    requires RUN in LedgerKeys(l)
    ensures BuiltBy(l, BUILD).Some? && KeyText(RUN) in BuiltBy(l, BUILD).value
    ensures BuiltBy(l, BUILD).value[KeyText(RUN)] == DocumentOf(l, RUN, 7, None, "generation", 1)
  {
    var drafts := Drafts(l, 7, map[], "generation", 1);
    assert Attest([]) == Some(map[]);
    assert ByText(LedgerKeys(l), drafts)[KeyText(RUN)] == drafts(RUN);
  }

  lemma OneAudited(d: Document)
    requires |d.audit| <= 1
    ensures |Audited(d)| <= 1
  {
    if d.audit == [] {
      assert Audited(d) == {};
    } else {
      assert Audited(d) == {d.audit[0].normalized};
    }
  }

  lemma CutAuditDoesNotSuffice(prior: Document, d: Document, a: Candidate, b: Candidate, c: Candidate)
    requires |prior.audit| <= 1 && prior.candidates == {a, b} && a != b && c in d.candidates && c != a && c != b
    ensures !AuditSuffices(prior, d)
  {
    OneAudited(prior);
    assert |prior.candidates| == 2 by {
      assert prior.candidates - {a} == {b};
    }
  }

  lemma ArrivalsStoreNothing(x: Value, y: Value)
    ensures Run(Arrivals(x, y), CLOCK).store == FRESH
  {
    assert Arrivals(x, y)[..0] == [];
  }

  lemma NothingStoredSuffices(documents: map<string, Document>)
    ensures AuditsSuffice(map[], documents)
  {}

  /** The first build is stored as it is: nothing was stored before. */
  lemma FirstBuildIsAccepted(x: Value, y: Value, documents: map<string, Document>)
    requires BuiltBy(Run(Arrivals(x, y), CLOCK).ledger, BUILD) == Some(documents)
    ensures Acceptable(map[], documents)
  {
    ArrivalsStoreNothing(x, y);
    NothingStoredSuffices(documents);
    RejectionIsExact(Arrivals(x, y), CLOCK, BUILD);
  }

  lemma PublishedStores(sys: System, documents: map<string, Document>)
    requires sys.store == FRESH && BuiltBy(sys.ledger, BUILD) == Some(documents) && Acceptable(map[], documents)
    ensures Step(sys, BUILD, CLOCK).ledger == sys.ledger
    ensures Step(sys, BUILD, CLOCK).store.documents == Merge(map[], documents)
  {
    FreshAccepts(Attempt(documents, sys.store.version, BUILD.checkpoint));
  }

  lemma FreshAccepts(a: Attempt)
    requires a.expectedVersion == 0 && Acceptable(map[], a.documents)
    ensures Apply(FRESH, a).documents == Merge(map[], a.documents)
  {}

  lemma FirstBuildIsStored(x: Value, y: Value, documents: map<string, Document>)
    requires BuiltBy(Run(Arrivals(x, y), CLOCK).ledger, BUILD) == Some(documents)
    ensures Run(Published(x, y), CLOCK).ledger == Run(Arrivals(x, y), CLOCK).ledger
    ensures Run(Published(x, y), CLOCK).store.documents == Merge(map[], documents)
  {
    ArrivalsStoreNothing(x, y);
    FirstBuildIsAccepted(x, y, documents);
    PublishedStores(Run(Arrivals(x, y), CLOCK), documents);
    assert Published(x, y)[..1] == Arrivals(x, y);
  }

  lemma GrownStoresNoMore(x: Value, y: Value, z: Value)
    ensures Run(Grown(x, y, z), CLOCK).store == Run(Published(x, y), CLOCK).store
  {
    assert Grown(x, y, z)[..2] == Published(x, y);
  }

  lemma TwoCandidates(s: Seen, a: Evidence, b: Evidence)
    requires s.items == {a, b} && a.ActionKey() == RUN && b.ActionKey() == RUN
    ensures SeenCandidates(s, RUN) == {a.Normalized(), b.Normalized()}
  {}

  lemma ThirdCandidate(s: Seen, c: Evidence)
    requires c in s.items && c.ActionKey() == RUN
    ensures c.Normalized() in SeenCandidates(s, RUN)
  {}

  /** What is stored of the run after the first build: both candidates, of which the audit shows one. */
  lemma StoredRun(x: Value, y: Value, z: Value, a: Evidence, b: Evidence) returns (d: Document)
    requires SeenBy(Arrivals(x, y), CLOCK).items == {a, b} && a.ActionKey() == RUN && b.ActionKey() == RUN
    ensures KeyText(RUN) in Run(Grown(x, y, z), CLOCK).store.documents
    ensures d == Run(Grown(x, y, z), CLOCK).store.documents[KeyText(RUN)]
    ensures d.candidates == {a.Normalized(), b.Normalized()} && |d.audit| <= 1
  {
    var l, s := Run(Arrivals(x, y), CLOCK).ledger, SeenBy(Arrivals(x, y), CLOCK);
    RunsReflect(Arrivals(x, y), CLOCK);
    RunIsBuilt(l, s, a);
    TwoCandidates(s, a, b);
    FirstBuildIsStored(x, y, BuiltBy(l, BUILD).value);
    GrownStoresNoMore(x, y, z);
    MergedIntoNothing(BuiltBy(l, BUILD).value, KeyText(RUN));
    d := BuiltBy(l, BUILD).value[KeyText(RUN)];
  }

  lemma MergedIntoNothing(documents: map<string, Document>, t: string)
    requires t in documents
    ensures t in Merge(map[], documents) && Merge(map[], documents)[t] == documents[t]
  {}

  lemma GrownIsRejected(x: Value, y: Value, z: Value, a: Evidence, b: Evidence, c: Evidence)
    requires SeenBy(Arrivals(x, y), CLOCK).items == {a, b} && c in SeenBy(Grown(x, y, z), CLOCK).items
    requires a.ActionKey() == RUN && b.ActionKey() == RUN && c.ActionKey() == RUN
    requires a.Normalized() != b.Normalized() && c.Normalized() !in {a.Normalized(), b.Normalized()}
    ensures Agreement.Rejected(Run(Grown(x, y, z), CLOCK), BUILD)
  {
    var d := StoredRun(x, y, z, a, b);
    var l, s := Run(Grown(x, y, z), CLOCK).ledger, SeenBy(Grown(x, y, z), CLOCK);
    RunsReflect(Grown(x, y, z), CLOCK);
    RunIsBuilt(l, s, c);
    ThirdCandidate(s, c);
    CutAuditDoesNotSuffice(d, BuiltBy(l, BUILD).value[KeyText(RUN)], a.Normalized(), b.Normalized(), c.Normalized());
    RejectionIsExact(Grown(x, y, z), CLOCK, BUILD);
  }

  /** A run whose next build the store rejects: two candidates were stored with an audit of one, then a third
      arrived. */
  lemma SomeBuildIsRejected() returns (events: seq<Event>)
    ensures Agreement.Rejected(Run(events, CLOCK), BUILD)
  {
    var x, y, z, a, b, c := ThreeHits();
    SeenSoFar(x, y, z, a, b, c);
    GrownIsRejected(x, y, z, a, b, c);
    events := Grown(x, y, z);
  }
}
