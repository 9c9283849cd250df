/** The NetWorker summary and its monthly report: two groupings of the same records, one nested by domain and
    policy, one in rows by domain, policy and workflow. */
module Report {
  import opened Basics
  import opened Dict

  datatype Job = Job(domain: string, policy: string, workflow: string, source: string, status: string)

  datatype Workflow = Workflow(domain: string, policy: string, name: string, source: string)

  datatype Backup = Backup(domain: string, policy: string, workflow: string, source: string, bytes: Option<int>)

  datatype Client = Client(domain: string, name: string)

  datatype RowKey = RowKey(domain: string, policy: string, workflow: string)

  datatype Row = Row(key: RowKey, source: string, bytes: int, success: nat, failed: nat, running: nat, workflows: nat,
                     clients: nat)

  const BLANK := Row(RowKey("unmapped", "unknown", ""), "", 0, 0, 0, 0, 0, 0)

  type Rows = seq<Entry<RowKey, Row>>

  function PolicyOf(policy: string): string {
    if policy == "" then "unknown" else policy
  }

  /** What one record contributes to its row. */
  datatype Change = CountWorkflow | AddBytes(bytes: int) | CountJob(status: string)

  datatype Mention = Mention(key: RowKey, source: string, change: Change)

  function OfWorkflow(w: Workflow): Mention {
    Mention(RowKey(w.domain, PolicyOf(w.policy), w.name), w.source, CountWorkflow)
  }

  function Size(b: Backup): int {
    if b.bytes.Some? then b.bytes.value else 0
  }

  function OfBackup(b: Backup): Mention {
    Mention(RowKey(b.domain, PolicyOf(b.policy), b.workflow), b.source, AddBytes(Size(b)))
  }

  function OfJob(j: Job): Mention {
    Mention(RowKey(j.domain, PolicyOf(j.policy), j.workflow), j.source, CountJob(j.status))
  }

  function RowAt(rows: Rows, key: RowKey): Row {
    match Lookup(rows, key)
    case Some(row) => row
    case None => BLANK
  }

  function Changed(row: Row, m: Mention): Row {
    var named := row.(key := m.key, source := m.source);
    match m.change
    case CountWorkflow => named.(workflows := row.workflows + 1)
    case AddBytes(bytes) => named.(bytes := row.bytes + bytes)
    case CountJob(status) =>
      if status == "success" then named.(success := row.success + 1)
      else if status == "failed" then named.(failed := row.failed + 1)
      else if status == "running" then named.(running := row.running + 1)
      else named
  }

  /** One mention: its row is made if need be, and changed. */
  function Mentioned(rows: Rows, m: Mention): Rows {
    Put(rows, m.key, Changed(RowAt(rows, m.key), m))
  }

  function RowsAfter(rows: Rows, mentions: seq<Mention>): Rows {
    if mentions == [] then rows
    else Mentioned(RowsAfter(rows, mentions[..|mentions| - 1]), mentions[|mentions| - 1])
  }

  /** The rows of the mentions, in the order of first mention. */
  function RowsOf(mentions: seq<Mention>): Rows {
    RowsAfter([], mentions)
  }

  lemma {:induction false} RowsAfterBoth(rows: Rows, a: seq<Mention>, b: seq<Mention>)
    ensures RowsAfter(rows, a + b) == RowsAfter(RowsAfter(rows, a), b)
  {
    if b == [] {
      assert a + b == a;
    } else {
      assert (a + b)[..|a + b| - 1] == a + b[..|b| - 1];
      RowsAfterBoth(rows, a, b[..|b| - 1]);
    }
  }

  lemma RowsAfterNext(rows: Rows, mentions: seq<Mention>, i: nat)
    requires i < |mentions|
    ensures RowsAfter(rows, mentions[..i + 1]) == Mentioned(RowsAfter(rows, mentions[..i]), mentions[i])
  {
    assert mentions[..i + 1][..i] == mentions[..i];
  }

  function OfWorkflows(workflows: seq<Workflow>): seq<Mention> {
    seq(|workflows|, i requires 0 <= i < |workflows| => OfWorkflow(workflows[i]))
  }

  function OfBackups(backups: seq<Backup>): seq<Mention> {
    seq(|backups|, i requires 0 <= i < |backups| => OfBackup(backups[i]))
  }

  function OfJobs(jobs: seq<Job>): seq<Mention> {
    seq(|jobs|, i requires 0 <= i < |jobs| => OfJob(jobs[i]))
  }

  function Mentions(jobs: seq<Job>, workflows: seq<Workflow>, backups: seq<Backup>): seq<Mention> {
    OfWorkflows(workflows) + OfBackups(backups) + OfJobs(jobs)
  }

  function ClientNames(clients: seq<Client>, domain: string): set<string> {
    set c | c in clients && c.domain == domain && c.name != "" :: c.name
  }

  function Finished(rows: Rows, clients: seq<Client>): Rows {
    seq(|rows|, i requires 0 <= i < |rows| =>
          Entry(rows[i].key, rows[i].value.(clients := |ClientNames(clients, rows[i].value.key.domain)|)))
  }

  function ReportOf(jobs: seq<Job>, clients: seq<Client>, workflows: seq<Workflow>, backups: seq<Backup>): Rows {
    Finished(RowsOf(Mentions(jobs, workflows, backups)), clients)
  }

  method GroupClients(clients: seq<Client>) returns (byDomain: map<string, set<string>>)
    ensures forall domain :: (if domain in byDomain then byDomain[domain] else {}) == ClientNames(clients, domain)
  {
    byDomain := map[];
    for i := 0 to |clients|
      invariant forall domain ::
                  (if domain in byDomain then byDomain[domain] else {}) == ClientNames(clients[..i], domain)
    {
      var c := clients[i];
      ghost var before := byDomain;
      assert clients[..i + 1] == clients[..i] + [c];
      if c.name != "" {
        var names := if c.domain in byDomain then byDomain[c.domain] else {};
        byDomain := byDomain[c.domain := names + {c.name}];
      }
      forall domain
        ensures (if domain in byDomain then byDomain[domain] else {}) == ClientNames(clients[..i + 1], domain)
      {
        OneMoreClient(clients[..i], c, domain);
      }
    }
    assert clients[..|clients|] == clients;
  }

  lemma OneMoreClient(clients: seq<Client>, c: Client, domain: string)
    ensures ClientNames(clients + [c], domain)
         == ClientNames(clients, domain) + if c.domain == domain && c.name != "" then {c.name} else {}
  {}

  method AddWorkflows(given: Rows, workflows: seq<Workflow>) returns (rows: Rows)
    ensures rows == RowsAfter(given, OfWorkflows(workflows))
  {
    rows := given;
    ghost var mentions := OfWorkflows(workflows);
    for i := 0 to |workflows|
      invariant rows == RowsAfter(given, mentions[..i])
    {
      RowsAfterNext(given, mentions, i);
      rows := AddWorkflow(rows, workflows[i]);
    }
    assert mentions[..|workflows|] == mentions;
  }

  method AddWorkflow(given: Rows, w: Workflow) returns (rows: Rows)
    ensures rows == Mentioned(given, OfWorkflow(w))
  {
    var key := RowKey(w.domain, if w.policy == "" then "unknown" else w.policy, w.name);
    var row := RowAt(given, key);
    rows := Put(given, key, row.(key := key, source := w.source, workflows := row.workflows + 1));
  }

  method AddBackups(given: Rows, backups: seq<Backup>) returns (rows: Rows)
    ensures rows == RowsAfter(given, OfBackups(backups))
  {
    rows := given;
    ghost var mentions := OfBackups(backups);
    for i := 0 to |backups|
      invariant rows == RowsAfter(given, mentions[..i])
    {
      RowsAfterNext(given, mentions, i);
      rows := AddBackup(rows, backups[i]);
    }
    assert mentions[..|backups|] == mentions;
  }

  method AddBackup(given: Rows, b: Backup) returns (rows: Rows)
    ensures rows == Mentioned(given, OfBackup(b))
  {
    var key := RowKey(b.domain, if b.policy == "" then "unknown" else b.policy, b.workflow);
    var row := RowAt(given, key);
    rows := Put(given, key, row.(key := key, source := b.source, bytes := row.bytes + Size(b)));
  }

  method AddJobs(given: Rows, jobs: seq<Job>) returns (rows: Rows)
    ensures rows == RowsAfter(given, OfJobs(jobs))
  {
    rows := given;
    ghost var mentions := OfJobs(jobs);
    for i := 0 to |jobs|
      invariant rows == RowsAfter(given, mentions[..i])
    {
      RowsAfterNext(given, mentions, i);
      rows := AddJob(rows, jobs[i]);
    }
    assert mentions[..|jobs|] == mentions;
  }

  method AddJob(given: Rows, j: Job) returns (rows: Rows)
    ensures rows == Mentioned(given, OfJob(j))
  {
    var key := RowKey(j.domain, if j.policy == "" then "unknown" else j.policy, j.workflow);
    var row := CountedJob(RowAt(given, key), key, j);
    rows := Put(given, key, row);
  }

  method CountedJob(given: Row, key: RowKey, j: Job) returns (row: Row)
    requires key == OfJob(j).key
    ensures row == Changed(given, OfJob(j))
  {
    row := given.(key := key, source := j.source);
    if j.status == "success" {
      row := row.(success := row.success + 1);
    } else if j.status == "failed" {
      row := row.(failed := row.failed + 1);
    } else if j.status == "running" {
      row := row.(running := row.running + 1);
    }
  }

  method BuildMonthlyReport(jobs: seq<Job>, clients: seq<Client>, workflows: seq<Workflow>, backups: seq<Backup>)
    returns (report: Rows)
    ensures report == ReportOf(jobs, clients, workflows, backups)
  {
    var rows := AddWorkflows([], workflows);
    rows := AddBackups(rows, backups);
    rows := AddJobs(rows, jobs);
    RowsAfterBoth([], OfWorkflows(workflows), OfBackups(backups));
    RowsAfterBoth([], OfWorkflows(workflows) + OfBackups(backups), OfJobs(jobs));
    report := CountClients(rows, clients);
  }

  method CountClients(rows: Rows, clients: seq<Client>) returns (report: Rows)
    ensures report == Finished(rows, clients)
  {
    var byDomain := GroupClients(clients);
    report := [];
    for i := 0 to |rows|
      invariant report == Finished(rows, clients)[..i]
    {
      var row := rows[i].value;
      var names := if row.key.domain in byDomain then byDomain[row.key.domain] else {};
      report := report + [Entry(rows[i].key, row.(clients := |names|))];
    }
  }

  // ---- Each row is the sum of its records -------------------------------------------------------

  datatype Measure = Bytes | Success | Failed | Running | Workflows

  function Measured(row: Row, m: Measure): int {
    match m
    case Bytes => row.bytes
    case Success => row.success
    case Failed => row.failed
    case Running => row.running
    case Workflows => row.workflows
  }

  function Worth(c: Change, m: Measure): int {
    match c
    case CountWorkflow => if m == Workflows then 1 else 0
    case AddBytes(bytes) => if m == Bytes then bytes else 0
    case CountJob(status) =>
      if (m == Success && status == "success") || (m == Failed && status == "failed") || (m == Running
                                                                                          && status == "running") then 1
      else 0
  }

  /** Which records are summed: all of them, those of a policy in a domain, or those of one row. */
  datatype Scope = Everything | AnyDomain(name: string) | OfPolicy(domain: string,
                                                                   policy: string) | OfRow(key: RowKey) {
    predicate Covers(k: RowKey) {
      match this
      case Everything => true
      case AnyDomain(p) => k.policy == p
      case OfPolicy(d, p) => k.domain == d && k.policy == p
      case OfRow(r) => k == r
    }
  }

  function WorthOf(mentions: seq<Mention>, scope: Scope, m: Measure): int {
    if mentions == [] then 0
    else
      var last := mentions[|mentions| - 1];
      WorthOf(mentions[..|mentions| - 1], scope, m) + if scope.Covers(last.key) then Worth(last.change, m) else 0
  }

  function Total(rows: Rows, scope: Scope, m: Measure): int {
    if rows == [] then 0
    else (if scope.Covers(rows[0].key) then Measured(rows[0].value, m) else 0) + Total(rows[1..], scope, m)
  }

  lemma {:induction false} TotalAfterPut(rows: Rows, key: RowKey, row: Row, scope: Scope, m: Measure)
    ensures Total(Put(rows, key, row), scope, m)
         == Total(rows, scope, m) + if scope.Covers(key) then Measured(row, m) - Measured(RowAt(rows, key), m) else 0
  {
    PutFromFirst(rows, key, row);
    if rows != [] && rows[0].key != key {
      assert Put(rows, key, row)[1..] == Put(rows[1..], key, row);
      TotalAfterPut(rows[1..], key, row, scope, m);
    }
  }

  lemma ChangedByWorth(row: Row, mention: Mention, m: Measure)
    ensures Measured(Changed(row, mention), m) == Measured(row, m) + Worth(mention.change, m)
  {}

  /** Whatever is summed, the rows hold what the records are worth: nothing is lost or counted twice. */
  lemma {:induction false} RowsConserve(mentions: seq<Mention>, scope: Scope, m: Measure)
    ensures Total(RowsOf(mentions), scope, m) == WorthOf(mentions, scope, m)
  {
    if mentions != [] {
      var before, last := mentions[..|mentions| - 1], mentions[|mentions| - 1];
      RowsConserve(before, scope, m);
      var row := RowAt(RowsOf(before), last.key);
      TotalAfterPut(RowsOf(before), last.key, Changed(row, last), scope, m);
      ChangedByWorth(row, last, m);
    }
  }

  lemma {:induction false} FinishingKeepsTotals(rows: Rows, clients: seq<Client>, scope: Scope, m: Measure)
    ensures Total(Finished(rows, clients), scope, m) == Total(rows, scope, m)
  {
    if rows != [] {
      assert Finished(rows, clients)[1..] == Finished(rows[1..], clients);
      FinishingKeepsTotals(rows[1..], clients, scope, m);
    }
  }

  /** Each row stands under its own key, no key has two rows, and the keys are those of the records. */
  lemma {:induction false} RowsAreKeyed(mentions: seq<Mention>)
    ensures Distinct(RowsOf(mentions))
    ensures forall e | e in RowsOf(mentions) :: e.value.key == e.key
    ensures forall key :: Lookup(RowsOf(mentions), key).Some? <==> exists x :: x in mentions && x.key == key
  {
    if mentions != [] {
      var before, last := mentions[..|mentions| - 1], mentions[|mentions| - 1];
      assert mentions == before + [last];
      RowsAreKeyed(before);
      var row := Changed(RowAt(RowsOf(before), last.key), last);
      PutKeepsDistinct(RowsOf(before), last.key, row);
      forall key ensures Lookup(RowsOf(mentions), key).Some? <==> exists x :: x in mentions && x.key == key {
        LookupAfterPut(RowsOf(before), last.key, row, key);
        if key == last.key {
          assert last in mentions;
        }
      }
    }
  }

  // ---- The summary ----------------------------------------------------------------------------

  datatype PolicyKey = PolicyKey(domain: string, policy: string)

  type Counter<K> = seq<Entry<K, nat>>

  function Count<K(==)>(c: Counter<K>, k: K): nat {
    match Lookup(c, k)
    case Some(n) => n
    case None => 0
  }

  function Occurrences<K(==)>(keys: seq<K>, k: K): nat {
    if keys == [] then 0
    else Occurrences(keys[..|keys| - 1], k) + if keys[|keys| - 1] == k then 1 else 0
  }

  /** `Counter(...)` */
  method Tally<K(==)>(keys: seq<K>) returns (counter: Counter<K>)
    ensures Distinct(counter)
    ensures forall k: K :: Lookup(counter, k) == if Occurrences(keys, k) > 0 then Some(Occurrences(keys, k)) else None
  {
    counter := [];
    for i := 0 to |keys|
      invariant Distinct(counter)
      invariant forall k: K ::
                  Lookup(counter, k) == if Occurrences(keys[..i], k) > 0 then Some(Occurrences(keys[..i], k)) else None
    {
      assert keys[..i + 1][..i] == keys[..i];
      PutKeepsDistinct(counter, keys[i], Count(counter, keys[i]) + 1);
      forall k: K ensures Lookup(Put(counter, keys[i], Count(counter, keys[i]) + 1), k)
                    == if k == keys[i] then Some(Count(counter, keys[i]) + 1) else Lookup(counter, k) {
        LookupAfterPut(counter, keys[i], Count(counter, keys[i]) + 1, k);
      }
      counter := Put(counter, keys[i], Count(counter, keys[i]) + 1);
    }
    assert keys[..|keys|] == keys;
  }

  type Nested = map<string, map<string, nat>>

  function NestedCount(n: Nested, k: PolicyKey): Option<nat> {
    if k.domain in n && k.policy in n[k.domain] then Some(n[k.domain][k.policy]) else None
  }

  /** `_nested_counts`: the same counts, by domain first. */
  method Nest(counter: Counter<PolicyKey>) returns (nested: Nested)
    requires Distinct(counter)
    ensures forall k :: NestedCount(nested, k) == Lookup(counter, k)
    ensures forall d | d in nested :: nested[d] != map[]
  {
    nested := map[];
    for i := 0 to |counter|
      invariant forall k :: NestedCount(nested, k) == Lookup(counter[..i], k)
      invariant forall d | d in nested :: nested[d] != map[]
    {
      var k, n := counter[i].key, counter[i].value;
      ghost var before := nested;
      var policies := if k.domain in nested then nested[k.domain] else map[];
      nested := nested[k.domain := policies[k.policy := n]];
      assert k.policy in nested[k.domain];
      forall other ensures NestedCount(nested, other) == Lookup(counter[..i + 1], other) {
        OneMoreEntry(counter, i, other);
        assert NestedCount(nested, other) == if other == k then Some(n) else NestedCount(before, other);
      }
    }
    assert counter[..|counter|] == counter;
  }

  lemma OneMoreEntry(counter: Counter<PolicyKey>, i: nat, k: PolicyKey)
    requires Distinct(counter) && i < |counter|
    ensures Lookup(counter[..i + 1], k) == if k == counter[i].key then Some(counter[i].value)
            else Lookup(counter[..i], k)
  {
    var longer, shorter := counter[..i + 1], counter[..i];
    assert Distinct(longer) && Distinct(shorter);
    assert longer[i] == counter[i];
    LookupIsUnique(longer, counter[i]);
    if k != counter[i].key && Lookup(shorter, k).Some? {
      var e := Entry(k, Lookup(shorter, k).value);
      var j :| 0 <= j < |shorter| && shorter[j] == e;
      assert longer[j] == e;
      LookupIsUnique(longer, e);
    }
  }

  function JobKeys(jobs: seq<Job>, status: string): seq<PolicyKey> {
    if jobs == [] then []
    else
      var before, last := JobKeys(jobs[..|jobs| - 1], status), jobs[|jobs| - 1];
      if last.status == status then before + [PolicyKey(last.domain, PolicyOf(last.policy))] else before
  }

  /** The same keys, whatever the domain. */
  function Policies(keys: seq<PolicyKey>): seq<string> {
    seq(|keys|, i requires 0 <= i < |keys| => keys[i].policy)
  }

  function Failures(jobs: seq<Job>): seq<Job> {
    if jobs == [] then []
    else
      var before, last := Failures(jobs[..|jobs| - 1]), jobs[|jobs| - 1];
      if last.status == "failed" then before + [last] else before
  }

  function WorkflowKeys(workflows: seq<Workflow>): seq<PolicyKey> {
    seq(|workflows|, i requires 0 <= i < |workflows| => PolicyKey(workflows[i].domain, PolicyOf(workflows[i].policy)))
  }

  function TotalBytes(backups: seq<Backup>): int {
    if backups == [] then 0 else TotalBytes(backups[..|backups| - 1]) + Size(backups[|backups| - 1])
  }

  datatype Summary = Summary(
    jobCount: nat, clientCount: nat, policyCount: nat, workflowCount: nat, backupCount: nat, totalBytes: int,
    successByPolicy: Counter<string>, failedByPolicy: Counter<string>, runningByPolicy: Counter<string>,
    workflowsByPolicy: Counter<string>,
    success: Nested, failed: Nested, running: Nested, workflows: Nested, recentFailed: seq<Job>)

  method JobCounts(jobs: seq<Job>, status: string) returns (byPolicy: Counter<string>, nested: Nested)
    ensures Counts(nested, JobKeys(jobs, status)) && CountsAlone(byPolicy, Policies(JobKeys(jobs, status)))
  {
    var keys: seq<PolicyKey> := [];
    for i := 0 to |jobs|
      invariant keys == JobKeys(jobs[..i], status)
    {
      assert jobs[..i + 1][..i] == jobs[..i];
      if jobs[i].status == status {
        keys := keys + [PolicyKey(jobs[i].domain, PolicyOf(jobs[i].policy))];
      }
    }
    assert jobs[..|jobs|] == jobs;
    var counter := Tally(keys);
    nested := Nest(counter);
    byPolicy := Tally(Policies(keys));
  }

  ghost predicate CountsAlone(counter: Counter<string>, policies: seq<string>) {
    forall p :: Lookup(counter, p) == if Occurrences(policies, p) > 0 then Some(Occurrences(policies, p)) else None
  }

  ghost predicate Counts(nested: Nested, keys: seq<PolicyKey>) {
    forall k :: NestedCount(nested, k) == if Occurrences(keys, k) > 0 then Some(Occurrences(keys, k)) else None
  }

  ghost predicate Summarizes(s: Summary, jobs: seq<Job>, clients: seq<Client>, policies: seq<string>,
                             workflows: seq<Workflow>, backups: seq<Backup>) {
    && s.jobCount == |jobs|
    && s.clientCount == |set c | c in clients && c.name != "" :: c.name|
    && s.policyCount == |set p | p in policies|
    && s.workflowCount == |set w | w in workflows :: (w.policy, w.name)|
    && s.backupCount == |backups|
    && s.totalBytes == TotalBytes(backups)
    && Counts(s.success, JobKeys(jobs, "success"))
    && Counts(s.failed, JobKeys(jobs, "failed"))
    && Counts(s.running, JobKeys(jobs, "running"))
    && Counts(s.workflows, WorkflowKeys(workflows))
    && CountsAlone(s.successByPolicy, Policies(JobKeys(jobs, "success")))
    && CountsAlone(s.failedByPolicy, Policies(JobKeys(jobs, "failed")))
    && CountsAlone(s.runningByPolicy, Policies(JobKeys(jobs, "running")))
    && CountsAlone(s.workflowsByPolicy, Policies(WorkflowKeys(workflows)))
    && s.recentFailed == First(Failures(jobs), 20)
  }

  function First(jobs: seq<Job>, n: nat): seq<Job> {
    if |jobs| <= n then jobs else jobs[..n]
  }

  method FailedJobs(jobs: seq<Job>) returns (failed: seq<Job>)
    ensures failed == Failures(jobs)
  {
    failed := [];
    for i := 0 to |jobs|
      invariant failed == Failures(jobs[..i])
    {
      assert jobs[..i + 1][..i] == jobs[..i];
      if jobs[i].status == "failed" {
        failed := failed + [jobs[i]];
      }
    }
    assert jobs[..|jobs|] == jobs;
  }

  method SumBytes(backups: seq<Backup>) returns (total: int)
    ensures total == TotalBytes(backups)
  {
    total := 0;
    for i := 0 to |backups|
      invariant total == TotalBytes(backups[..i])
    {
      assert backups[..i + 1][..i] == backups[..i];
      total := total + Size(backups[i]);
    }
    assert backups[..|backups|] == backups;
  }

  /** `policies` are the names of the policies. */
  method BuildSummary(jobs: seq<Job>, clients: seq<Client>, policies: seq<string>, workflows: seq<Workflow>,
                      backups: seq<Backup>)
    returns (summary: Summary)
    ensures Summarizes(summary, jobs, clients, policies, workflows, backups)
  {
    var successAlone, success := JobCounts(jobs, "success");
    var failedAlone, failed := JobCounts(jobs, "failed");
    var runningAlone, running := JobCounts(jobs, "running");
    var counter := Tally(WorkflowKeys(workflows));
    var nested := Nest(counter);
    var alone := Tally(Policies(WorkflowKeys(workflows)));
    var total := SumBytes(backups);
    var failures := FailedJobs(jobs);
    summary := Summary(|jobs|, |set c | c in clients && c.name != "" :: c.name|, |set p | p in policies|,
                       |set w | w in workflows :: (w.policy, w.name)|, |backups|, total,
                       successAlone, failedAlone, runningAlone, alone, success, failed, running, nested,
                       First(failures, 20));
  }

  // ---- Summary and report agree ---------------------------------------------------------------

  lemma WorthOfMore(mentions: seq<Mention>, x: Mention, scope: Scope, m: Measure)
    ensures WorthOf(mentions + [x], scope, m) == WorthOf(mentions, scope, m) + if scope.Covers(x.key) then
              Worth(x.change, m) else 0
  {
    assert (mentions + [x])[..|mentions + [x]| - 1] == mentions;
  }

  function StatusMeasure(status: string): Measure
    requires status in {"success", "failed", "running"}
  {
    if status == "success" then Success else if status == "failed" then Failed else Running
  }

  lemma MentionsOfLastJob(jobs: seq<Job>, workflows: seq<Workflow>, backups: seq<Backup>)
    requires jobs != []
    ensures Mentions(jobs, workflows, backups)
         == Mentions(jobs[..|jobs| - 1], workflows, backups) + [OfJob(jobs[|jobs| - 1])]
  {
    assert OfJobs(jobs) == OfJobs(jobs[..|jobs| - 1]) + [OfJob(jobs[|jobs| - 1])];
  }

  lemma MentionsOfLastBackup(workflows: seq<Workflow>, backups: seq<Backup>)
    requires backups != []
    ensures Mentions([], workflows, backups)
         == Mentions([], workflows, backups[..|backups| - 1]) + [OfBackup(backups[|backups| - 1])]
  {
    assert OfBackups(backups) == OfBackups(backups[..|backups| - 1]) + [OfBackup(backups[|backups| - 1])];
    assert OfJobs([]) == [];
  }

  lemma MentionsOfLastWorkflow(workflows: seq<Workflow>)
    requires workflows != []
    ensures Mentions([], workflows, [])
         == Mentions([], workflows[..|workflows| - 1], []) + [OfWorkflow(workflows[|workflows| - 1])]
  {
    assert OfWorkflows(workflows) == OfWorkflows(workflows[..|workflows| - 1])
           + [OfWorkflow(workflows[|workflows| - 1])];
    assert OfJobs([]) == [] && OfBackups([]) == [];
  }

  /** What a list of jobs adds to the worth of the mentions before it. */
  lemma {:induction false} JobsAreWorth(jobs: seq<Job>, workflows: seq<Workflow>, backups: seq<Backup>, scope: Scope,
                                        m: Measure)
    ensures WorthOf(Mentions(jobs, workflows, backups), scope, m)
         == WorthOf(Mentions([], workflows, backups), scope, m) + JobWorth(jobs, scope, m)
  {
    if jobs != [] {
      var before, last := jobs[..|jobs| - 1], jobs[|jobs| - 1];
      JobsAreWorth(before, workflows, backups, scope, m);
      MentionsOfLastJob(jobs, workflows, backups);
      WorthOfMore(Mentions(before, workflows, backups), OfJob(last), scope, m);
    }
  }

  function JobWorth(jobs: seq<Job>, scope: Scope, m: Measure): int {
    if jobs == [] then 0
    else
      var last := OfJob(jobs[|jobs| - 1]);
      JobWorth(jobs[..|jobs| - 1], scope, m) + if scope.Covers(last.key) then Worth(last.change, m) else 0
  }

  lemma OccurrencesOfMore<K>(keys: seq<K>, x: K, k: K)
    ensures Occurrences(keys + [x], k) == Occurrences(keys, k) + if x == k then 1 else 0
  {
    assert (keys + [x])[..|keys + [x]| - 1] == keys;
  }

  lemma {:induction false} JobWorthIsOccurrences(jobs: seq<Job>, k: PolicyKey, status: string)
    requires status in {"success", "failed", "running"}
    ensures JobWorth(jobs, OfPolicy(k.domain, k.policy), StatusMeasure(status)) == Occurrences(JobKeys(jobs, status), k)
  {
    if jobs != [] {
      var before, last := jobs[..|jobs| - 1], jobs[|jobs| - 1];
      JobWorthIsOccurrences(before, k, status);
      JobKeysOfMore(jobs, k, status);
      JobIsWorth(last, status);
    }
  }

  lemma JobKeysOfMore(jobs: seq<Job>, k: PolicyKey, status: string)
    requires jobs != []
    ensures var before, last := jobs[..|jobs| - 1], jobs[|jobs| - 1];
            Occurrences(JobKeys(jobs, status), k)
            == Occurrences(JobKeys(before, status), k)
               + if last.status == status && PolicyKey(last.domain, PolicyOf(last.policy)) == k then 1 else 0
  {
    var before, last := jobs[..|jobs| - 1], jobs[|jobs| - 1];
    OccurrencesOfMore(JobKeys(before, status), PolicyKey(last.domain, PolicyOf(last.policy)), k);
  }

  lemma JobIsWorth(j: Job, status: string)
    requires status in {"success", "failed", "running"}
    ensures Worth(OfJob(j).change, StatusMeasure(status)) == if j.status == status then 1 else 0
  {}

  lemma {:induction false} JobsWeighNothingElse(jobs: seq<Job>, scope: Scope, m: Measure)
    requires m == Bytes || m == Workflows
    ensures JobWorth(jobs, scope, m) == 0
  {
    if jobs != [] {
      JobsWeighNothingElse(jobs[..|jobs| - 1], scope, m);
    }
  }

  lemma {:induction false} BackupsAreWorth(workflows: seq<Workflow>, backups: seq<Backup>, scope: Scope, m: Measure)
    requires m == Bytes ==> scope == Everything
    ensures WorthOf(Mentions([], workflows, backups), scope, m)
         == WorthOf(Mentions([], workflows, []), scope, m) + if m == Bytes then TotalBytes(backups) else 0
  {
    if backups != [] {
      var before, last := backups[..|backups| - 1], backups[|backups| - 1];
      BackupsAreWorth(workflows, before, scope, m);
      MentionsOfLastBackup(workflows, backups);
      WorthOfMore(Mentions([], workflows, before), OfBackup(last), scope, m);
    }
  }

  lemma {:induction false} WorkflowsAreWorth(workflows: seq<Workflow>, k: PolicyKey, m: Measure)
    ensures WorthOf(Mentions([], workflows, []), OfPolicy(k.domain, k.policy), m)
         == if m == Workflows then Occurrences(WorkflowKeys(workflows), k) else 0
    ensures WorthOf(Mentions([], workflows, []), Everything, m) == if m == Workflows then |workflows| else 0
  {
    if workflows != [] {
      var before, last := workflows[..|workflows| - 1], workflows[|workflows| - 1];
      WorkflowsAreWorth(before, k, m);
      MentionsOfLastWorkflow(workflows);
      WorthOfMore(Mentions([], before, []), OfWorkflow(last), OfPolicy(k.domain, k.policy), m);
      WorthOfMore(Mentions([], before, []), OfWorkflow(last), Everything, m);
      assert WorkflowKeys(workflows)[..|workflows| - 1] == WorkflowKeys(before);
    }
  }

  function NestedOf(s: Summary, m: Measure): Nested {
    match m
    case Success => s.success
    case Failed => s.failed
    case Running => s.running
    case Workflows => s.workflows
    case Bytes => map[]
  }

  lemma ReportIsWorth(jobs: seq<Job>, clients: seq<Client>, workflows: seq<Workflow>, backups: seq<Backup>,
                      scope: Scope, m: Measure)
    ensures Total(ReportOf(jobs, clients, workflows, backups), scope, m)
         == WorthOf(Mentions([], workflows, backups), scope, m) + JobWorth(jobs, scope, m)
  {
    RowsConserve(Mentions(jobs, workflows, backups), scope, m);
    FinishingKeepsTotals(RowsOf(Mentions(jobs, workflows, backups)), clients, scope, m);
    JobsAreWorth(jobs, workflows, backups, scope, m);
  }

  /** For each domain and policy, the rows of all its workflows add up to the summary's nested counts. */
  lemma RowsAddUpToSummary(s: Summary, jobs: seq<Job>, clients: seq<Client>, policies: seq<string>,
                           workflows: seq<Workflow>, backups: seq<Backup>, k: PolicyKey, m: Measure)
    requires Summarizes(s, jobs, clients, policies, workflows, backups) && m != Bytes
    ensures Total(ReportOf(jobs, clients, workflows, backups), OfPolicy(k.domain, k.policy), m)
         == match NestedCount(NestedOf(s, m), k) case Some(n) => n case None => 0
  {
    var scope := OfPolicy(k.domain, k.policy);
    ReportIsWorth(jobs, clients, workflows, backups, scope, m);
    BackupsAreWorth(workflows, backups, scope, m);
    WorkflowsAreWorth(workflows, k, m);
    match m
    case Success => JobWorthIsOccurrences(jobs, k, "success");
    case Failed => JobWorthIsOccurrences(jobs, k, "failed");
    case Running => JobWorthIsOccurrences(jobs, k, "running");
    case Workflows => JobsWeighNothingElse(jobs, scope, m);
  }

  /** All rows together hold all the backup bytes, and every workflow once. */
  lemma RowsHoldAllBytes(s: Summary, jobs: seq<Job>, clients: seq<Client>, policies: seq<string>,
                         workflows: seq<Workflow>, backups: seq<Backup>)
    requires Summarizes(s, jobs, clients, policies, workflows, backups)
    ensures Total(ReportOf(jobs, clients, workflows, backups), Everything, Bytes) == s.totalBytes
    ensures Total(ReportOf(jobs, clients, workflows, backups), Everything, Workflows) == |workflows|
  {
    forall m | m == Bytes || m == Workflows
      ensures Total(ReportOf(jobs, clients, workflows, backups), Everything, m)
           == if m == Bytes then TotalBytes(backups) else |workflows|
    {
      ReportIsWorth(jobs, clients, workflows, backups, Everything, m);
      BackupsAreWorth(workflows, backups, Everything, m);
      WorkflowsAreWorth(workflows, PolicyKey("", ""), m);
      JobsWeighNothingElse(jobs, Everything, m);
    }
  }

  lemma PoliciesOfMore(keys: seq<PolicyKey>, x: PolicyKey, p: string)
    ensures Occurrences(Policies(keys + [x]), p) == Occurrences(Policies(keys), p) + if x.policy == p then 1 else 0
  {
    assert Policies(keys + [x]) == Policies(keys) + [x.policy];
    OccurrencesOfMore(Policies(keys), x.policy, p);
  }

  lemma {:induction false} JobWorthByPolicy(jobs: seq<Job>, p: string, status: string)
    requires status in {"success", "failed", "running"}
    ensures JobWorth(jobs, AnyDomain(p), StatusMeasure(status)) == Occurrences(Policies(JobKeys(jobs, status)), p)
  {
    if jobs != [] {
      var before, last := jobs[..|jobs| - 1], jobs[|jobs| - 1];
      JobWorthByPolicy(before, p, status);
      PoliciesOfMore(JobKeys(before, status), PolicyKey(last.domain, PolicyOf(last.policy)), p);
      JobIsWorth(last, status);
    }
  }

  lemma {:induction false} WorkflowsByPolicyAreWorth(workflows: seq<Workflow>, p: string, m: Measure)
    ensures WorthOf(Mentions([], workflows, []), AnyDomain(p), m)
         == if m == Workflows then Occurrences(Policies(WorkflowKeys(workflows)), p) else 0
  {
    if workflows != [] {
      var before, last := workflows[..|workflows| - 1], workflows[|workflows| - 1];
      WorkflowsByPolicyAreWorth(before, p, m);
      MentionsOfLastWorkflow(workflows);
      WorthOfMore(Mentions([], before, []), OfWorkflow(last), AnyDomain(p), m);
      assert WorkflowKeys(workflows) == WorkflowKeys(before) + [PolicyKey(last.domain, PolicyOf(last.policy))];
      PoliciesOfMore(WorkflowKeys(before), PolicyKey(last.domain, PolicyOf(last.policy)), p);
    }
  }

  function AloneOf(s: Summary, m: Measure): Counter<string> {
    match m
    case Success => s.successByPolicy
    case Failed => s.failedByPolicy
    case Running => s.runningByPolicy
    case Workflows => s.workflowsByPolicy
    case Bytes => []
  }

  /** For each policy, its rows in all domains add up to the summary's counts by policy alone. */
  lemma RowsAddUpToPolicies(s: Summary, jobs: seq<Job>, clients: seq<Client>, policies: seq<string>,
                            workflows: seq<Workflow>, backups: seq<Backup>, p: string, m: Measure)
    requires Summarizes(s, jobs, clients, policies, workflows, backups) && m != Bytes
    ensures Total(ReportOf(jobs, clients, workflows, backups), AnyDomain(p), m) == Count(AloneOf(s, m), p)
  {
    var scope := AnyDomain(p);
    ReportIsWorth(jobs, clients, workflows, backups, scope, m);
    BackupsAreWorth(workflows, backups, scope, m);
    WorkflowsByPolicyAreWorth(workflows, p, m);
    match m
    case Success => JobWorthByPolicy(jobs, p, "success");
    case Failed => JobWorthByPolicy(jobs, p, "failed");
    case Running => JobWorthByPolicy(jobs, p, "running");
    case Workflows => JobsWeighNothingElse(jobs, scope, m);
  }

  // ---- Rows in their records' own terms ---------------------------------------------------------------

  /** The record belongs to the row: no policy counts as unknown. */
  predicate Belongs(domain: string, policy: string, workflow: string, key: RowKey) {
    && domain == key.domain && workflow == key.workflow
    && (policy == key.policy || (policy == "" && key.policy == "unknown"))
  }

  /** The jobs of a row that ended, or run, in this status. */
  function JobsOfRow(jobs: seq<Job>, key: RowKey, status: string): set<nat> {
    set i: nat | i < |jobs| && Belongs(jobs[i].domain, jobs[i].policy, jobs[i].workflow, key)
      && jobs[i].status == status
  }

  function WorkflowsOfRow(workflows: seq<Workflow>, key: RowKey): set<nat> {
    set i: nat | i < |workflows| && Belongs(workflows[i].domain, workflows[i].policy, workflows[i].name, key)
  }

  function BytesOfRow(backups: seq<Backup>, key: RowKey): int {
    if backups == [] then 0
    else
      var last := backups[|backups| - 1];
      BytesOfRow(backups[..|backups| - 1], key)
      + if Belongs(last.domain, last.policy, last.workflow, key) && last.bytes.Some? then last.bytes.value else 0
  }

  lemma {:induction false} JobsOfRowAreWorth(jobs: seq<Job>, key: RowKey, status: string)
    requires key.policy != "" && status in {"success", "failed", "running"}
    ensures JobWorth(jobs, OfRow(key), StatusMeasure(status)) == |JobsOfRow(jobs, key, status)|
  {
    if jobs != [] {
      var n := |jobs| - 1;
      JobsOfRowAreWorth(jobs[..n], key, status);
      JobIsWorth(jobs[n], status);
      OneMoreJob(jobs, key, status);
      assert OfRow(key).Covers(OfJob(jobs[n]).key) <==>
             Belongs(jobs[n].domain, jobs[n].policy, jobs[n].workflow, key);
    }
  }

  lemma OneMoreJob(jobs: seq<Job>, key: RowKey, status: string)
    requires jobs != []
    ensures var n := |jobs| - 1; var last := jobs[n];
            |JobsOfRow(jobs, key, status)|
            == |JobsOfRow(jobs[..n], key, status)|
               + if Belongs(last.domain, last.policy, last.workflow, key) && last.status == status then 1 else 0
  {
    var n := |jobs| - 1;
    var one: set<nat> :=
      if Belongs(jobs[n].domain, jobs[n].policy, jobs[n].workflow, key) && jobs[n].status == status then {n} else {};
    assert JobsOfRow(jobs, key, status) == JobsOfRow(jobs[..n], key, status) + one;
  }

  lemma {:induction false} WorkflowsOfRowAreWorth(workflows: seq<Workflow>, key: RowKey, m: Measure)
    requires key.policy != ""
    ensures WorthOf(Mentions([], workflows, []), OfRow(key), m)
         == if m == Workflows then |WorkflowsOfRow(workflows, key)| else 0
  {
    if workflows != [] {
      var n := |workflows| - 1;
      WorkflowsOfRowAreWorth(workflows[..n], key, m);
      MentionsOfLastWorkflow(workflows);
      WorthOfMore(Mentions([], workflows[..n], []), OfWorkflow(workflows[n]), OfRow(key), m);
      var one: set<nat> :=
        if Belongs(workflows[n].domain, workflows[n].policy, workflows[n].name, key) then {n} else {};
      assert WorkflowsOfRow(workflows, key) == WorkflowsOfRow(workflows[..n], key) + one;
    }
  }

  lemma {:induction false} BackupsOfRowAreWorth(workflows: seq<Workflow>, backups: seq<Backup>, key: RowKey, m: Measure)
    requires key.policy != ""
    ensures WorthOf(Mentions([], workflows, backups), OfRow(key), m)
         == WorthOf(Mentions([], workflows, []), OfRow(key), m) + if m == Bytes then BytesOfRow(backups, key) else 0
  {
    if backups != [] {
      var n := |backups| - 1;
      BackupsOfRowAreWorth(workflows, backups[..n], key, m);
      MentionsOfLastBackup(workflows, backups);
      WorthOfMore(Mentions([], workflows, backups[..n]), OfBackup(backups[n]), OfRow(key), m);
    }
  }

  lemma {:induction false} TotalOfRow(rows: Rows, key: RowKey, m: Measure)
    requires Distinct(rows)
    ensures Total(rows, OfRow(key), m) == match Lookup(rows, key) case Some(row) => Measured(row, m) case None => 0
  {
    if rows != [] {
      TotalOfRow(rows[1..], key, m);
      if rows[0].key == key {
        assert Lookup(rows[1..], key).None?;
      } else {
        assert Lookup(rows, key) == Lookup(rows[1..], key);
      }
    }
  }

  lemma ReportIsKeyed(jobs: seq<Job>, clients: seq<Client>, workflows: seq<Workflow>, backups: seq<Backup>)
    ensures Distinct(ReportOf(jobs, clients, workflows, backups))
  {
    RowsAreKeyed(Mentions(jobs, workflows, backups));
  }

  lemma FinishedRowCountsClients(rows: Rows, clients: seq<Client>, key: RowKey)
    requires Lookup(Finished(rows, clients), key).Some? && forall e | e in rows :: e.value.key == e.key
    ensures Lookup(Finished(rows, clients), key).value.clients == |ClientNames(clients, key.domain)|
  {
    var found := Entry(key, Lookup(Finished(rows, clients), key).value);
    assert found in Finished(rows, clients);
    var i :| 0 <= i < |rows| && Finished(rows, clients)[i] == found;
    assert found.value.clients == |ClientNames(clients, rows[i].value.key.domain)|;
  }

  /** A row counts the jobs of its domain, policy and workflow by status, their workflows, and the bytes of their
      backups; and it counts the distinct named clients of its domain. */
  lemma RowsCountExactly(jobs: seq<Job>, clients: seq<Client>, workflows: seq<Workflow>, backups: seq<Backup>,
                         key: RowKey)
    requires key.policy != "" && Lookup(ReportOf(jobs, clients, workflows, backups), key).Some?
    ensures var row := Lookup(ReportOf(jobs, clients, workflows, backups), key).value;
            && row.success == |JobsOfRow(jobs, key, "success")| && row.failed == |JobsOfRow(jobs, key, "failed")|
            && row.running == |JobsOfRow(jobs, key, "running")| && row.workflows == |WorkflowsOfRow(workflows, key)|
            && row.bytes == BytesOfRow(backups, key)
            && row.clients == |set c | c in clients && c.domain == key.domain && c.name != "" :: c.name|
  {
    forall m: Measure
      ensures Measured(Lookup(ReportOf(jobs, clients, workflows, backups), key).value, m)
           == (if m == Workflows then |WorkflowsOfRow(workflows, key)|
               else if m == Bytes then BytesOfRow(backups, key) else 0)
              + JobWorth(jobs, OfRow(key), m)
    {
      ReportIsKeyed(jobs, clients, workflows, backups);
      TotalOfRow(ReportOf(jobs, clients, workflows, backups), key, m);
      ReportIsWorth(jobs, clients, workflows, backups, OfRow(key), m);
      BackupsOfRowAreWorth(workflows, backups, key, m);
      WorkflowsOfRowAreWorth(workflows, key, m);
    }
    RowsAreKeyed(Mentions(jobs, workflows, backups));
    FinishedRowCountsClients(RowsOf(Mentions(jobs, workflows, backups)), clients, key);
    JobsOfRowAreWorth(jobs, key, "success");
    JobsOfRowAreWorth(jobs, key, "failed");
    JobsOfRowAreWorth(jobs, key, "running");
    JobsWeighNothingElse(jobs, OfRow(key), Bytes);
    JobsWeighNothingElse(jobs, OfRow(key), Workflows);
    assert Measured(Lookup(ReportOf(jobs, clients, workflows, backups), key).value, Success)
        == JobWorth(jobs, OfRow(key), StatusMeasure("success"));
    assert Measured(Lookup(ReportOf(jobs, clients, workflows, backups), key).value, Failed)
        == JobWorth(jobs, OfRow(key), StatusMeasure("failed"));
    assert Measured(Lookup(ReportOf(jobs, clients, workflows, backups), key).value, Running)
        == JobWorth(jobs, OfRow(key), StatusMeasure("running"));
    assert Measured(Lookup(ReportOf(jobs, clients, workflows, backups), key).value, Bytes) == BytesOfRow(backups, key);
    assert Measured(Lookup(ReportOf(jobs, clients, workflows, backups), key).value, Workflows)
        == |WorkflowsOfRow(workflows, key)|;
  }

  /** The last record under a key names the row's source. */
  lemma {:induction false} RowsNameLastSource(mentions: seq<Mention>, k: nat)
    requires k < |mentions| && forall j :: k < j < |mentions| ==> mentions[j].key != mentions[k].key
    ensures Lookup(RowsOf(mentions), mentions[k].key).Some?
    ensures Lookup(RowsOf(mentions), mentions[k].key).value.source == mentions[k].source
  {
    var before, last := mentions[..|mentions| - 1], mentions[|mentions| - 1];
    RowsAreKeyed(before);
    LookupAfterPut(RowsOf(before), last.key, Changed(RowAt(RowsOf(before), last.key), last), mentions[k].key);
    if k < |mentions| - 1 {
      RowsNameLastSource(before, k);
    }
  }

  /** The first key was mentioned before any mention of the second. */
  ghost predicate MentionedBefore(mentions: seq<Mention>, a: RowKey, b: RowKey) {
    exists m :: 0 <= m < |mentions| && mentions[m].key == a && forall n :: 0 <= n <= m ==> mentions[n].key != b
  }

  lemma StillMentionedBefore(before: seq<Mention>, last: Mention, a: RowKey, b: RowKey)
    requires MentionedBefore(before, a, b)
    ensures MentionedBefore(before + [last], a, b)
  {
    var m :| 0 <= m < |before| && before[m].key == a && forall n :: 0 <= n <= m ==> before[n].key != b;
    assert (before + [last])[m].key == a;
  }

  /** A key not mentioned so far comes after those that were. */
  lemma NewIsMentionedLast(before: seq<Mention>, last: Mention, a: RowKey)
    requires (exists x :: x in before && x.key == a) && forall x | x in before :: x.key != last.key
    ensures MentionedBefore(before + [last], a, last.key)
  {
    var x :| x in before && x.key == a;
    var m :| 0 <= m < |before| && before[m] == x;
    assert (before + [last])[m].key == a;
  }

  /** Rows stand in the order in which their keys were first mentioned. */
  lemma {:induction false} RowsStandInOrder(mentions: seq<Mention>, i: nat, j: nat)
    requires i < j < |RowsOf(mentions)|
    ensures MentionedBefore(mentions, RowsOf(mentions)[i].key, RowsOf(mentions)[j].key)
  {
    var before, last := mentions[..|mentions| - 1], mentions[|mentions| - 1];
    assert mentions == before + [last];
    var rows := RowsOf(before);
    RowsAreKeyed(before);
    PutKeepsOthers(rows, last.key, Changed(RowAt(rows, last.key), last));
    if j < |rows| {
      RowsStandInOrder(before, i, j);
      StillMentionedBefore(before, last, rows[i].key, rows[j].key);
    } else {
      LookupIsUnique(rows, rows[i]);
      NewIsMentionedLast(before, last, rows[i].key);
    }
  }

  /** Filing keeps the keys where they are; a new one stands at the end. */
  lemma PutKeepsOthers(rows: Rows, key: RowKey, row: Row)
    ensures forall i :: 0 <= i < |rows| ==> Put(rows, key, row)[i].key == rows[i].key
    ensures |Put(rows, key, row)| > |rows| ==> Lookup(rows, key).None? && Put(rows, key, row)[|rows|].key == key
  {}

  /** The positions are those of the failed jobs, in order. */
  ghost predicate Picks(jobs: seq<Job>, failed: seq<Job>, at: seq<nat>) {
    && |at| == |failed|
    && (forall i :: 0 <= i < |at| ==> at[i] < |jobs| && jobs[at[i]] == failed[i])
    && (forall i, j :: 0 <= i < j < |at| ==> at[i] < at[j])
    && forall n: nat :: n < |jobs| ==> (n in at <==> jobs[n].status == "failed")
  }

  lemma PicksOneMore(jobs: seq<Job>, last: Job, failed: seq<Job>, at: seq<nat>)
    requires Picks(jobs, failed, at)
    ensures last.status == "failed" ==> Picks(jobs + [last], failed + [last], at + [|jobs|])
    ensures last.status != "failed" ==> Picks(jobs + [last], failed, at)
  {
    var all := jobs + [last];
    assert |jobs| !in at;
    assert forall n: nat :: n < |jobs| ==> all[n] == jobs[n];
    if last.status == "failed" {
      forall n: nat | n < |all| ensures n in at + [|jobs|] <==> all[n].status == "failed" {}
    }
  }

  /** The failures are all the jobs that failed, once each and in order; `at` says where they stand. */
  lemma {:induction false} FailuresInOrder(jobs: seq<Job>) returns (at: seq<nat>)
    ensures Picks(jobs, Failures(jobs), at)
  {
    at := [];
    if jobs != [] {
      var before, last := jobs[..|jobs| - 1], jobs[|jobs| - 1];
      assert jobs == before + [last];
      at := FailuresInOrder(before);
      PicksOneMore(before, last, Failures(before), at);
      at := if last.status == "failed" then at + [|before|] else at;
    }
  }
}
