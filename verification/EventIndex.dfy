/** Backup and job-run documents of one collector: stable ids, routing by month, and what the index holds after
    overlapping collections have delivered the same events again and again. */
module EventIndex {
  import opened Basics
  import opened Text
  import Schedule

  /** Month text ("%Y-%m"), ISO text and SHA-256 hex digest, as the platform gives them. */
  datatype Platform = Platform(month: int -> string, iso: int -> string, digest: string -> string)

  datatype Backup = Backup(
    backupId: string, client: string, saveSet: string, name: string,
    completion: Option<int>, saveTime: Option<int>, bytes: Option<int>, domain: string, details: string)

  /** The text of an id, none for an absent one, and whether it came as a string or an integer. */
  datatype Identifier = Identifier(text: string, plain: bool)

  datatype Job = Job(
    jobId: Identifier, root: Identifier, source: string, kind: string, start: Option<int>, end: Option<int>,
    statusNormalized: string, status: string, domain: string, details: string)

  /** An item of a payload list: a record, or something that is not a dictionary. */
  datatype Item<T> = NotARecord | Record(value: T)

  datatype Collection = Collection(collector: string, collectedAt: int, backups: seq<Item<Backup>>,
                                   jobs: seq<Item<Job>>)

  datatype Document =
    | BackupDocument(backup: Backup, identitySource: string, eventTime: int, observedAt: int)
    | JobRunDocument(job: Job, eventTime: int, outcome: string, duration: Option<int>, workflowRun: string,
                     observedAt: int)
  {
    function Bytes(): int {
      if BackupDocument? && backup.bytes.Some? then backup.bytes.value else 0
    }
  }

  datatype Address = Address(index: string, id: string)

  datatype Action = Action(address: Address, document: Document)

  function Either<T>(a: Option<T>, b: Option<T>): Option<T> {
    if a.Some? then a else b
  }

  function StripDots(s: string): (r: string)
    ensures r != "" ==> r[|r| - 1] != '.'
  {
    if s != "" && s[|s| - 1] == '.' then StripDots(s[..|s| - 1]) else s
  }

  // ---- Identity -----------------------------------------------------------------------------

  const FALLBACK := "fallback:"

  function ClientName(b: Backup): string {
    StripDots(Lower(Strip(b.client)))
  }

  function SaveSet(b: Backup): string {
    if Strip(b.saveSet) != "" then Strip(b.saveSet) else Strip(b.name)
  }

  function Joined(client: string, saveSet: string, completion: string): string {
    client + "\0" + saveSet + "\0" + completion
  }

  /** The id of a backup's document, or nothing for a backup that cannot be told from others. */
  function BackupIdentity(p: Platform, b: Backup): string {
    if Strip(b.backupId) != "" then Strip(b.backupId)
    else if ClientName(b) == "" || SaveSet(b) == "" || b.completion.None? then ""
    else FALLBACK + p.digest(Joined(ClientName(b), SaveSet(b), p.iso(b.completion.value)))
  }

  function EventTime(b: Backup): Option<int> {
    Either(b.completion, b.saveTime)
  }

  function IdentitySource(b: Backup): string {
    if Strip(b.backupId) != "" then "backup_id" else "client_save_set_completion_time"
  }

  function RunId(j: Job): string {
    Strip(j.jobId.text)
  }

  /** Whole seconds from start to end, where both are known and in order. */
  function Duration(j: Job): Option<int> {
    if j.start.Some? && j.end.Some? && j.start.value <= j.end.value then
      Some((j.end.value - j.start.value) / Schedule.SECOND)
    else None
  }

  /** The workflow run a job belongs to: its own id for a workflow, the root's for an action or a save. */
  function WorkflowRunKey(j: Job): string {
    var source, kind := Lower(Strip(j.source)), Lower(Strip(j.kind));
    if source == "" || ':' in source || exists c | c in source :: IsSpace(c) then ""
    else if kind == "workflow job" then RunKey(source, j.jobId)
    else if kind == "backup action job" || kind == "save job" then RunKey(source, j.root)
    else ""
  }

  function RunKey(source: string, id: Identifier): string {
    var identity := Strip(id.text);
    if !id.plain || identity == "" || !AllDigits(identity) || (forall c | c in identity :: c == '0') then ""
    else source + ":" + identity
  }

  function Outcome(j: Job): string {
    if Strip(j.statusNormalized) != "" then Lower(Strip(j.statusNormalized))
    else if Strip(j.status) != "" then Lower(Strip(j.status))
    else "unknown"
  }

  function JobEventTime(j: Job): Option<int> {
    if Outcome(j) == "running" then j.start else Either(j.end, j.start)
  }

  // ---- Routing ------------------------------------------------------------------------------

  function SecurityDomain(domain: string): (d: string)
    ensures d in {"core", "chnl", "info", "unmapped"}
  {
    var normalized := Lower(Strip(domain));
    if normalized == "core" || normalized == "chnl" || normalized == "info" then normalized else "unmapped"
  }

  predicate IsMonth(s: string) {
    && |s| == 7 && AllDigits(s[..4]) && s[4] == '-' && AllDigits(s[5..])
    && ((s[5] == '0' && s[6] != '0') || (s[5] == '1' && '0' <= s[6] <= '2'))
  }

  function DocumentMonth(month: string, fallback: string): string {
    if IsMonth(month) then month else fallback
  }

  function IndexName(domain: string, kind: string, month: string): string {
    "nw-" + SecurityDomain(domain) + "-" + kind + "-" + month
  }

  function BackupAction(p: Platform, c: Collection, item: Item<Backup>): Option<Action> {
    if item.NotARecord? then None
    else
      var b := item.value;
      var id, at := BackupIdentity(p, b), EventTime(b);
      if id == "" || at.None? then None
      else Some(Action(Address(IndexName(b.domain, "backup", DocumentMonth(p.month(at.value), p.month(c.collectedAt))),
                               c.collector + ":backup:" + id),
                       BackupDocument(b, IdentitySource(b), at.value, c.collectedAt)))
  }

  function JobAction(p: Platform, c: Collection, item: Item<Job>): Option<Action> {
    if item.NotARecord? then None
    else
      var j := item.value;
      var id, at := RunId(j), JobEventTime(j);
      if id == "" || at.None? then None
      else
        var from := Either(j.start, at).value;
        Some(Action(Address(IndexName(j.domain, "job-run", DocumentMonth(p.month(from), p.month(c.collectedAt))),
                            c.collector + ":job:" + id),
                    JobRunDocument(j, at.value, Outcome(j), Duration(j), WorkflowRunKey(j), c.collectedAt)))
  }

  function BackupActions(p: Platform, c: Collection, items: seq<Item<Backup>>): seq<Action> {
    if items == [] then []
    else
      var before, last := BackupActions(p, c, items[..|items| - 1]), BackupAction(p, c, items[|items| - 1]);
      if last.Some? then before + [last.value] else before
  }

  function JobActions(p: Platform, c: Collection, items: seq<Item<Job>>): seq<Action> {
    if items == [] then []
    else
      var before, last := JobActions(p, c, items[..|items| - 1]), JobAction(p, c, items[|items| - 1]);
      if last.Some? then before + [last.value] else before
  }

  function ActionsOf(p: Platform, c: Collection): seq<Action> {
    BackupActions(p, c, c.backups) + JobActions(p, c, c.jobs)
  }

  method EmitBackups(p: Platform, c: Collection) returns (actions: seq<Action>)
    ensures actions == BackupActions(p, c, c.backups)
  {
    actions := [];
    var i := 0;
    while i < |c.backups|
      invariant 0 <= i <= |c.backups| && actions == BackupActions(p, c, c.backups[..i])
    {
      var item := c.backups[i];
      assert c.backups[..i + 1][..i] == c.backups[..i];
      i := i + 1;
      if item.NotARecord? {
        continue;
      }
      var b := item.value;
      var at := EventTime(b);
      var id := BackupIdentity(p, b);
      if id == "" || at.None? {
        continue;
      }
      var month := DocumentMonth(p.month(at.value), p.month(c.collectedAt));
      actions := actions + [Action(Address(IndexName(b.domain, "backup", month), c.collector + ":backup:" + id),
                                   BackupDocument(b, IdentitySource(b), at.value, c.collectedAt))];
    }
    assert c.backups[..i] == c.backups;
  }

  method EmitJobRuns(p: Platform, c: Collection) returns (actions: seq<Action>)
    ensures actions == JobActions(p, c, c.jobs)
  {
    actions := [];
    var i := 0;
    while i < |c.jobs|
      invariant 0 <= i <= |c.jobs| && actions == JobActions(p, c, c.jobs[..i])
    {
      var item := c.jobs[i];
      assert c.jobs[..i + 1][..i] == c.jobs[..i];
      i := i + 1;
      if item.NotARecord? {
        continue;
      }
      var j := item.value;
      var id := RunId(j);
      var at := JobEventTime(j);
      if id == "" || at.None? {
        continue;
      }
      var month := DocumentMonth(p.month(if j.start.Some? then j.start.value else at.value), p.month(c.collectedAt));
      actions := actions + [Action(Address(IndexName(j.domain, "job-run", month), c.collector + ":job:" + id),
                                   JobRunDocument(j, at.value, Outcome(j), Duration(j), WorkflowRunKey(j),
                                                  c.collectedAt))];
    }
    assert c.jobs[..i] == c.jobs;
  }

  // ---- Identities are exact -------------------------------------------------------------------

  lemma {:induction false} FirstPartIsDetermined(a: string, b: string, c: string, d: string, separator: char)
    requires separator !in a && separator !in c && a + [separator] + b == c + [separator] + d
    ensures a == c && b == d
  {
    var whole, other := a + [separator] + b, c + [separator] + d;
    assert whole[0] == (if a == "" then separator else a[0]) && other[0] == (if c == "" then separator else c[0]);
    if a != "" && c != "" {
      assert whole[1..] == a[1..] + [separator] + b && other[1..] == c[1..] + [separator] + d;
      FirstPartIsDetermined(a[1..], b, c[1..], d, separator);
    } else {
      assert whole[1..] == b && other[1..] == d;
    }
  }

  lemma JoinedIsInjective(client: string, saveSet: string, at: string, client': string, saveSet': string, at': string)
    requires '\0' !in client && '\0' !in client' && '\0' !in saveSet && '\0' !in saveSet'
    requires Joined(client, saveSet, at) == Joined(client', saveSet', at')
    ensures client == client' && saveSet == saveSet' && at == at'
  {
    var separator := ['\0'];
    assert Joined(client, saveSet, at) == client + separator + (saveSet + separator + at);
    assert Joined(client', saveSet', at') == client' + separator + (saveSet' + separator + at');
    FirstPartIsDetermined(client, saveSet + separator + at, client', saveSet' + separator + at', '\0');
    FirstPartIsDetermined(saveSet, at, saveSet', at', '\0');
  }

  ghost predicate Injective<A(!new), B(!new)>(f: A -> B) {
    forall a, b :: f(a) == f(b) ==> a == b
  }

  /** The text a fallback id is the digest of. */
  function FallbackText(p: Platform, b: Backup): string
    requires b.completion.Some?
  {
    Joined(ClientName(b), SaveSet(b), p.iso(b.completion.value))
  }

  predicate HasApiId(b: Backup) {
    Strip(b.backupId) != ""
  }

  /** Two identifiable backups share a document id exactly when they have the same API id, or have none and join to
      the same text, or the API id of one spells the fallback id of the other. */
  lemma BackupIdentityIsExact(p: Platform, a: Backup, b: Backup)
    requires Injective(p.digest)
    requires BackupIdentity(p, a) != "" && BackupIdentity(p, b) != ""
    ensures BackupIdentity(p, a) == BackupIdentity(p, b) <==>
            if HasApiId(a) && HasApiId(b) then Strip(a.backupId) == Strip(b.backupId)
            else if HasApiId(a) then Strip(a.backupId) == FALLBACK + p.digest(FallbackText(p, b))
            else if HasApiId(b) then Strip(b.backupId) == FALLBACK + p.digest(FallbackText(p, a))
            else FallbackText(p, a) == FallbackText(p, b)
  {
    if !HasApiId(a) && !HasApiId(b) {
      PrefixCancels(FALLBACK, p.digest(FallbackText(p, a)), p.digest(FallbackText(p, b)));
    }
  }

  /** The id by which a job names its workflow run: its own for a workflow, else the root's. */
  function WorkflowRunId(j: Job): string {
    if Lower(Strip(j.kind)) == "workflow job" then Strip(j.jobId.text) else Strip(j.root.text)
  }

  /** Jobs that name a workflow run name the same one exactly when source and run id agree. */
  lemma WorkflowRunKeyIsExact(a: Job, b: Job)
    requires WorkflowRunKey(a) != "" && WorkflowRunKey(b) != ""
    ensures WorkflowRunKey(a) == WorkflowRunKey(b) <==>
            Lower(Strip(a.source)) == Lower(Strip(b.source)) && WorkflowRunId(a) == WorkflowRunId(b)
  {
    if WorkflowRunKey(a) == WorkflowRunKey(b) {
      FirstPartIsDetermined(Lower(Strip(a.source)), WorkflowRunId(a), Lower(Strip(b.source)), WorkflowRunId(b), ':');
    }
  }

  /** No backup id of the API's own looks like a digest, and names hold no separator. */
  predicate Ordinary(b: Backup) {
    !(FALLBACK <= Strip(b.backupId)) && '\0' !in ClientName(b) && '\0' !in SaveSet(b)
  }

  /** Ordinary backups share a document id exactly when they have the same API id, or both have none and agree on
      client, save set and completion. */
  lemma OrdinaryIdentityIsExact(p: Platform, a: Backup, b: Backup)
    requires Injective(p.digest) && Injective(p.iso) && Ordinary(a) && Ordinary(b)
    requires BackupIdentity(p, a) != "" && BackupIdentity(p, b) != ""
    ensures BackupIdentity(p, a) == BackupIdentity(p, b) <==>
            Strip(a.backupId) == Strip(b.backupId)
            && (Strip(a.backupId) == "" ==>
                 ClientName(a) == ClientName(b) && SaveSet(a) == SaveSet(b) && a.completion == b.completion)
  {
    BackupIdentityIsExact(p, a, b);
    if !HasApiId(a) && !HasApiId(b) && FallbackText(p, a) == FallbackText(p, b) {
      JoinedIsInjective(ClientName(a), SaveSet(a), p.iso(a.completion.value),
                        ClientName(b), SaveSet(b), p.iso(b.completion.value));
    }
  }

  /** An API id may spell the fallback id of another backup. */
  lemma ApiIdCanSpellFallback(p: Platform, b: Backup)
    requires !HasApiId(b) && BackupIdentity(p, b) != "" && Stripped(BackupIdentity(p, b))
    ensures var a := b.(backupId := BackupIdentity(p, b)); HasApiId(a) && BackupIdentity(p, a) == BackupIdentity(p, b)
  {
    StripKeeps(BackupIdentity(p, b));
  }

  /** A separator inside a name lets two different pairs of client and save set join to one text. */
  lemma SeparatorsCanCollide(p: Platform, b: Backup, at: int)
    requires !HasApiId(b) && b.completion == Some(at)
    ensures var x, y := b.(client := "x\0y", saveSet := "z"), b.(client := "x", saveSet := "y\0z");
            ClientName(x) != ClientName(y) && BackupIdentity(p, x) != "" && BackupIdentity(p, x) == BackupIdentity(p, y)
  {
    var x, y := b.(client := "x\0y", saveSet := "z"), b.(client := "x", saveSet := "y\0z");
    StripKeeps("x\0y");
    StripKeeps("x");
    StripKeeps("z");
    StripKeeps("y\0z");
    assert Lower("x\0y") == "x\0y" && Lower("x") == "x";
    assert ClientName(x) == "x\0y" && ClientName(y) == "x";
    assert FallbackText(p, x) == FallbackText(p, y);
  }

  // ---- What the index holds -------------------------------------------------------------------

  /** Bulk indexing: each action replaces what was at its address. */
  function Indexed(actions: seq<Action>): map<Address, Document> {
    if actions == [] then map[]
    else
      var last := actions[|actions| - 1];
      Indexed(actions[..|actions| - 1])[last.address := last.document]
  }

  predicate IsLastAt(actions: seq<Action>, k: nat, a: Address) {
    && k < |actions| && actions[k].address == a
    && forall j :: k < j < |actions| ==> actions[j].address != a
  }

  lemma {:induction false} IndexedIsLastWrite(actions: seq<Action>, a: Address)
    ensures a in Indexed(actions) <==> exists k :: 0 <= k < |actions| && actions[k].address == a
    ensures forall k: nat :: IsLastAt(actions, k, a) ==>
              a in Indexed(actions) && Indexed(actions)[a] == actions[k].document
  {
    if actions != [] {
      IndexedIsLastWrite(actions[..|actions| - 1], a);
      forall k: nat | IsLastAt(actions, k, a)
        ensures a in Indexed(actions) && Indexed(actions)[a] == actions[k].document
      {
        if k < |actions| - 1 {
          assert IsLastAt(actions[..|actions| - 1], k, a);
        }
      }
    }
  }

  /** The documents the index holds for one event. */
  function Holding(actions: seq<Action>, id: string): set<Address> {
    set a | a in Indexed(actions) && a.id == id
  }

  ghost predicate Delivered(actions: seq<Action>, id: string) {
    exists k :: 0 <= k < |actions| && actions[k].address.id == id
  }

  ghost predicate OneRoute(actions: seq<Action>, id: string) {
    forall j, k | 0 <= j < |actions| && 0 <= k < |actions|
                  && actions[j].address.id == id && actions[k].address.id == id ::
      actions[j].address == actions[k].address
  }

  predicate IsLastVersion(actions: seq<Action>, k: nat, id: string) {
    && k < |actions| && actions[k].address.id == id
    && forall j :: k < j < |actions| ==> actions[j].address.id != id
  }

  lemma {:induction false} LastVersionExists(actions: seq<Action>, id: string) returns (k: nat)
    requires Delivered(actions, id)
    ensures IsLastVersion(actions, k, id)
  {
    var last := |actions| - 1;
    if actions[last].address.id == id {
      k := last;
    } else {
      k := LastVersionExists(actions[..last], id);
    }
  }

  lemma SoleMember<T>(s: set<T>, x: T, y: T)
    requires |s| == 1 && x in s && y in s
    ensures x == y
  {
    assert |s - {x}| == 0;
    assert y !in s - {x};
  }

  /** However often an event is delivered, the index holds its last version; and it holds one document for it
      exactly when all its versions went to the same index. */
  lemma OneDocumentExactly(actions: seq<Action>, id: string, k: nat)
    requires IsLastVersion(actions, k, id)
    ensures actions[k].address in Holding(actions, id)
    ensures Indexed(actions)[actions[k].address] == actions[k].document
    ensures |Holding(actions, id)| == 1 <==> OneRoute(actions, id)
  {
    var here := actions[k].address;
    assert IsLastAt(actions, k, here);
    IndexedIsLastWrite(actions, here);
    if OneRoute(actions, id) {
      forall a | a in Holding(actions, id) ensures a == here {
        IndexedIsLastWrite(actions, a);
      }
      assert Holding(actions, id) == {here};
    }
    if |Holding(actions, id)| == 1 {
      forall j | 0 <= j < |actions| && actions[j].address.id == id ensures actions[j].address == here {
        IndexedIsLastWrite(actions, actions[j].address);
        SoleMember(Holding(actions, id), actions[j].address, here);
      }
    }
  }

  // ---- Sums ---------------------------------------------------------------------------------

  ghost function SumOver<T>(s: set<T>, weight: T -> int): int {
    if s == {} then 0
    else
      var x :| x in s;
      weight(x) + SumOver(s - {x}, weight)
  }

  lemma {:induction false} SumWithout<T>(s: set<T>, weight: T -> int, x: T)
    requires x in s
    ensures SumOver(s, weight) == weight(x) + SumOver(s - {x}, weight)
  {
    var y :| y in s && SumOver(s, weight) == weight(y) + SumOver(s - {y}, weight);
    if y != x {
      SumWithout(s - {y}, weight, x);
      SumWithout(s - {x}, weight, y);
      assert s - {y} - {x} == s - {x} - {y};
    }
  }

  /** Sums over two sets that correspond one to one are equal. */
  lemma {:induction false} SumOverCorresponding<A, B>(s: set<A>, weight: A -> int, t: set<B>, other: B -> int,
                                                      f: map<A, B>)
    requires f.Keys == s && f.Values == t && forall a, a' | a in s && a' in s && f[a] == f[a'] :: a == a'
    requires forall a | a in s :: weight(a) == other(f[a])
    ensures SumOver(s, weight) == SumOver(t, other)
  {
    if s == {} {
      assert t == {};
    } else {
      var a :| a in s;
      var rest := map x | x in s - {a} :: f[x];
      assert rest.Values == t - {f[a]} by {
        forall b | b in t - {f[a]} ensures b in rest.Values {
          var x :| x in s && f[x] == b;
          assert rest[x] == b;
        }
      }
      SumOverCorresponding(s - {a}, weight, t - {f[a]}, other, rest);
      SumWithout(s, weight, a);
      SumWithout(t, other, f[a]);
    }
  }

  function Ids(actions: seq<Action>): set<string> {
    set x | x in actions :: x.address.id
  }

  /** The size in an event's last version. */
  ghost function LastBytes(actions: seq<Action>, id: string): int {
    if Delivered(actions, id) then
      LastVersionIsOne(actions, id);
      var k: nat :| IsLastVersion(actions, k, id);
      actions[k].document.Bytes()
    else 0
  }

  lemma LastVersionIsOne(actions: seq<Action>, id: string)
    requires Delivered(actions, id)
    ensures exists k: nat :: IsLastVersion(actions, k, id)
  {
    var k := LastVersionExists(actions, id);
  }

  lemma LastBytesAt(actions: seq<Action>, id: string, k: nat)
    requires IsLastVersion(actions, k, id)
    ensures LastBytes(actions, id) == actions[k].document.Bytes()
  {
    assert Delivered(actions, id);
    LastVersionIsOne(actions, id);
    var j: nat :| IsLastVersion(actions, j, id) && LastBytes(actions, id) == actions[j].document.Bytes();
    assert j == k;
  }

  lemma HeldOnce(actions: seq<Action>, a: Address)
    requires a in Indexed(actions) && OneRoute(actions, a.id)
    ensures Indexed(actions)[a].Bytes() == LastBytes(actions, a.id)
    ensures Delivered(actions, a.id)
    ensures forall b | b in Indexed(actions) && b.id == a.id :: b == a
  {
    IndexedIsLastWrite(actions, a);
    var k := LastVersionExists(actions, a.id);
    LastBytesAt(actions, a.id, k);
    assert actions[k].address == a;
    OneDocumentExactly(actions, a.id, k);
    forall b | b in Indexed(actions) && b.id == a.id ensures b == a {
      IndexedIsLastWrite(actions, b);
    }
  }

  function BytesAt(held: map<Address, Document>, a: Address): int {
    if a in held then held[a].Bytes() else 0
  }

  lemma HeldIdsAreDelivered(actions: seq<Action>)
    ensures (map a | a in Indexed(actions) :: a.id).Values == Ids(actions)
  {
    var f := map a | a in Indexed(actions) :: a.id;
    forall id | id in f.Values ensures id in Ids(actions) {
      var a :| a in f && f[a] == id;
      IndexedIsLastWrite(actions, a);
      var k :| 0 <= k < |actions| && actions[k].address == a;
      assert actions[k] in actions;
    }
    forall id | id in Ids(actions) ensures id in f.Values {
      var x :| x in actions && x.address.id == id;
      IndexedIsLastWrite(actions, x.address);
      assert f[x.address] == id;
    }
  }

  /** When no event changes its route, the bytes in the index are those of the distinct events, each counted
      once, in its last version. */
  lemma BytesCountOnce(actions: seq<Action>)
    requires forall id | id in Ids(actions) :: OneRoute(actions, id)
    ensures SumOver(Indexed(actions).Keys, a => BytesAt(Indexed(actions), a))
         == SumOver(Ids(actions), id => LastBytes(actions, id))
  {
    var held := Indexed(actions);
    var f := map a | a in held :: a.id;
    HeldIdsAreDelivered(actions);
    forall a | a in held
      ensures BytesAt(held, a) == LastBytes(actions, f[a]) && forall b | b in held && f[b] == f[a] :: b == a
    {
      assert f[a] in f.Values;
      HeldOnce(actions, a);
    }
    SumOverCorresponding(held.Keys, a => BytesAt(held, a), Ids(actions), id => LastBytes(actions, id), f);
  }

  // ---- Overlapping collections ----------------------------------------------------------------

  function AllActions(p: Platform, collections: seq<Collection>): seq<Action> {
    if collections == [] then []
    else AllActions(p, collections[..|collections| - 1]) + ActionsOf(p, collections[|collections| - 1])
  }

  ghost predicate FromBackup(p: Platform, collections: seq<Collection>, x: Action, c: Collection, item: Item<Backup>) {
    c in collections && item in c.backups && BackupAction(p, c, item) == Some(x)
  }

  ghost predicate FromJob(p: Platform, collections: seq<Collection>, x: Action, c: Collection, item: Item<Job>) {
    c in collections && item in c.jobs && JobAction(p, c, item) == Some(x)
  }

  lemma {:induction false} BackupActionsAreExact(p: Platform, c: Collection, items: seq<Item<Backup>>, x: Action)
    ensures x in BackupActions(p, c, items) <==> exists item :: item in items && BackupAction(p, c, item) == Some(x)
  {
    if items != [] {
      var before, last := items[..|items| - 1], items[|items| - 1];
      assert items == before + [last];
      BackupActionsAreExact(p, c, before, x);
    }
  }

  lemma {:induction false} JobActionsAreExact(p: Platform, c: Collection, items: seq<Item<Job>>, x: Action)
    ensures x in JobActions(p, c, items) <==> exists item :: item in items && JobAction(p, c, item) == Some(x)
  {
    if items != [] {
      var before, last := items[..|items| - 1], items[|items| - 1];
      assert items == before + [last];
      JobActionsAreExact(p, c, before, x);
    }
  }

  /** Each record that has an identity and an event time gives one action, and nothing else gives any. */
  lemma {:induction false} ActionsAreExact(p: Platform, collections: seq<Collection>, x: Action)
    ensures x in AllActions(p, collections) <==>
            || (exists c, item :: FromBackup(p, collections, x, c, item))
            || (exists c, item :: FromJob(p, collections, x, c, item))
  {
    if collections != [] {
      var before, last := collections[..|collections| - 1], collections[|collections| - 1];
      assert collections == before + [last];
      ActionsAreExact(p, before, x);
      BackupActionsAreExact(p, last, last.backups, x);
      JobActionsAreExact(p, last, last.jobs, x);
      if x in AllActions(p, collections) {
        ActionHasOrigin(p, before, last, x);
      }
      if c, item :| FromBackup(p, collections, x, c, item) {
        assert c == last || FromBackup(p, before, x, c, item);
      }
      if c, item :| FromJob(p, collections, x, c, item) {
        assert c == last || FromJob(p, before, x, c, item);
      }
    }
  }

  lemma ActionHasOrigin(p: Platform, before: seq<Collection>, last: Collection, x: Action)
    requires (exists c, item :: FromBackup(p, before, x, c, item)) || (exists c, item :: FromJob(p, before, x, c, item))
          || (exists item :: item in last.backups && BackupAction(p, last, item) == Some(x))
          || (exists item :: item in last.jobs && JobAction(p, last, item) == Some(x))
    ensures (exists c, item :: FromBackup(p, before + [last], x, c, item))
         || (exists c, item :: FromJob(p, before + [last], x, c, item))
  {
    if item :| item in last.backups && BackupAction(p, last, item) == Some(x) {
      assert FromBackup(p, before + [last], x, last, item);
    } else if item :| item in last.jobs && JobAction(p, last, item) == Some(x) {
      assert FromJob(p, before + [last], x, last, item);
    } else if c, item :| FromBackup(p, before, x, c, item) {
      assert FromBackup(p, before + [last], x, c, item);
    } else {
      var c, item :| FromJob(p, before, x, c, item);
      assert FromJob(p, before + [last], x, c, item);
    }
  }

  lemma IndexNameIsExact(domain: string, domain': string, kind: string, month: string, month': string)
    ensures IndexName(domain, kind, month) == IndexName(domain', kind, month') <==>
            SecurityDomain(domain) == SecurityDomain(domain') && month == month'
  {
    var d, d' := SecurityDomain(domain), SecurityDomain(domain');
    var x, y := IndexName(domain, kind, month), IndexName(domain', kind, month');
    assert x[3..3 + |d|] == d && y[3..3 + |d'|] == d';
    assert x[3] == d[0] && x[4] == d[1] && y[3] == d'[0] && y[4] == d'[1];
    assert x[3 + |d| + 1 + |kind| + 1..] == month && y[3 + |d'| + 1 + |kind| + 1..] == month';
  }

  lemma PrefixCancels(prefix: string, a: string, b: string)
    ensures prefix + a == prefix + b <==> a == b
  {
    assert (prefix + a)[|prefix|..] == a && (prefix + b)[|prefix|..] == b;
  }

  /** Two deliveries of a backup share their document exactly when the identity, the domain and the month of
      the event time agree. */
  lemma BackupAddressIsExact(p: Platform, c: Collection, d: Collection, a: Item<Backup>, b: Item<Backup>)
    requires c.collector == d.collector && BackupAction(p, c, a).Some? && BackupAction(p, d, b).Some?
    ensures var x, y := BackupAction(p, c, a).value.address, BackupAction(p, d, b).value.address;
            && (x.id == y.id <==> BackupIdentity(p, a.value) == BackupIdentity(p, b.value))
            && (x.index == y.index <==>
                 SecurityDomain(a.value.domain) == SecurityDomain(b.value.domain)
                 && DocumentMonth(p.month(EventTime(a.value).value), p.month(c.collectedAt))
                    == DocumentMonth(p.month(EventTime(b.value).value), p.month(d.collectedAt)))
  {
    PrefixCancels(c.collector + ":backup:", BackupIdentity(p, a.value), BackupIdentity(p, b.value));
    IndexNameIsExact(a.value.domain, b.value.domain, "backup",
                     DocumentMonth(p.month(EventTime(a.value).value), p.month(c.collectedAt)),
                     DocumentMonth(p.month(EventTime(b.value).value), p.month(d.collectedAt)));
  }

  function RunMonth(p: Platform, c: Collection, j: Job): string
    requires JobEventTime(j).Some?
  {
    DocumentMonth(p.month(Either(j.start, JobEventTime(j)).value), p.month(c.collectedAt))
  }

  /** Two deliveries of a job share their document exactly when the id, the domain and the month of the start
      agree, or of the end where no start is known. */
  lemma JobAddressIsExact(p: Platform, c: Collection, d: Collection, a: Item<Job>, b: Item<Job>)
    requires c.collector == d.collector && JobAction(p, c, a).Some? && JobAction(p, d, b).Some?
    ensures var x, y := JobAction(p, c, a).value.address, JobAction(p, d, b).value.address;
            && (x.id == y.id <==> RunId(a.value) == RunId(b.value))
            && (x.index == y.index <==>
                 SecurityDomain(a.value.domain) == SecurityDomain(b.value.domain)
                 && RunMonth(p, c, a.value) == RunMonth(p, d, b.value))
  {
    PrefixCancels(c.collector + ":job:", RunId(a.value), RunId(b.value));
    IndexNameIsExact(a.value.domain, b.value.domain, "job-run", RunMonth(p, c, a.value), RunMonth(p, d, b.value));
  }

  lemma KindsAreApart(collector: string, a: string, b: string)
    ensures collector + ":backup:" + a != collector + ":job:" + b
  {
    assert (collector + ":backup:" + a)[|collector| + 1] == 'b';
    assert (collector + ":job:" + b)[|collector| + 1] == 'j';
  }

  /** Deliveries of a backup agree on domain and event time. */
  ghost predicate BackupsAreFixed(p: Platform, collections: seq<Collection>) {
    forall c, d, a, b | c in collections && d in collections && a in c.backups && b in d.backups
        && BackupAction(p, c, a).Some? && BackupAction(p, d, b).Some?
        && BackupIdentity(p, a.value) == BackupIdentity(p, b.value) ::
      SecurityDomain(a.value.domain) == SecurityDomain(b.value.domain) && EventTime(a.value) == EventTime(b.value)
  }

  /** Deliveries of a job agree on domain and start. */
  ghost predicate JobsAreFixed(p: Platform, collections: seq<Collection>) {
    forall c, d, a, b | c in collections && d in collections && a in c.jobs && b in d.jobs
        && JobAction(p, c, a).Some? && JobAction(p, d, b).Some? && RunId(a.value) == RunId(b.value) ::
      SecurityDomain(a.value.domain) == SecurityDomain(b.value.domain)
      && a.value.start.Some? && a.value.start == b.value.start
  }

  ghost predicate OneCollector(collections: seq<Collection>) {
    forall c, d | c in collections && d in collections :: c.collector == d.collector
  }

  lemma FixedBackupsShareAddress(p: Platform, cs: seq<Collection>, x: Action, y: Action,
                                 c: Collection, a: Item<Backup>, d: Collection, b: Item<Backup>)
    requires OneCollector(cs) && (forall t :: IsMonth(p.month(t))) && BackupsAreFixed(p, cs)
    requires FromBackup(p, cs, x, c, a) && FromBackup(p, cs, y, d, b) && x.address.id == y.address.id
    ensures x.address == y.address
  {
    BackupAddressIsExact(p, c, d, a, b);
    assert EventTime(a.value) == EventTime(b.value);
    var at: int := EventTime(a.value).value;
    assert IsMonth(p.month(at));
  }

  lemma FixedJobsShareAddress(p: Platform, cs: seq<Collection>, x: Action, y: Action,
                              c: Collection, a: Item<Job>, d: Collection, b: Item<Job>)
    requires OneCollector(cs) && (forall t :: IsMonth(p.month(t))) && JobsAreFixed(p, cs)
    requires FromJob(p, cs, x, c, a) && FromJob(p, cs, y, d, b) && x.address.id == y.address.id
    ensures x.address == y.address
  {
    JobAddressIsExact(p, c, d, a, b);
  }

  lemma BackupIsNoJob(p: Platform, cs: seq<Collection>, x: Action, y: Action,
                      c: Collection, a: Item<Backup>, d: Collection, b: Item<Job>)
    requires OneCollector(cs) && FromBackup(p, cs, x, c, a) && FromJob(p, cs, y, d, b)
    ensures x.address.id != y.address.id
  {
    KindsAreApart(c.collector, BackupIdentity(p, a.value), RunId(b.value));
  }

  lemma FixedEventsShareAddress(p: Platform, cs: seq<Collection>, x: Action, y: Action)
    requires OneCollector(cs) && (forall t :: IsMonth(p.month(t))) && BackupsAreFixed(p, cs) && JobsAreFixed(p, cs)
    requires x in AllActions(p, cs) && y in AllActions(p, cs) && x.address.id == y.address.id
    ensures x.address == y.address
  {
    ActionsAreExact(p, cs, x);
    ActionsAreExact(p, cs, y);
    if c, a :| FromBackup(p, cs, x, c, a) {
      if d, b :| FromJob(p, cs, y, d, b) {
        BackupIsNoJob(p, cs, x, y, c, a, d, b);
      } else {
        var d, b :| FromBackup(p, cs, y, d, b);
        FixedBackupsShareAddress(p, cs, x, y, c, a, d, b);
      }
    } else {
      var c, a :| FromJob(p, cs, x, c, a);
      if d, b :| FromBackup(p, cs, y, d, b) {
        BackupIsNoJob(p, cs, y, x, d, b, c, a);
      } else {
        var d, b :| FromJob(p, cs, y, d, b);
        FixedJobsShareAddress(p, cs, x, y, c, a, d, b);
      }
    }
  }

  /** Overlapping collections have the effect of delivering each event once: one document per event, holding
      its last version, and each backup's bytes counted once. */
  lemma OverlapIsHarmless(p: Platform, collections: seq<Collection>)
    requires OneCollector(collections) && forall t :: IsMonth(p.month(t))
    requires BackupsAreFixed(p, collections) && JobsAreFixed(p, collections)
    ensures var actions := AllActions(p, collections);
            && (forall k: nat, id :: IsLastVersion(actions, k, id) ==>
                 Holding(actions, id) == {actions[k].address}
                 && Indexed(actions)[actions[k].address] == actions[k].document)
            && SumOver(Indexed(actions).Keys, a => BytesAt(Indexed(actions), a))
               == SumOver(Ids(actions), id => LastBytes(actions, id))
  {
    var actions := AllActions(p, collections);
    forall id ensures OneRoute(actions, id) {
      forall j, k | 0 <= j < |actions| && 0 <= k < |actions|
                       && actions[j].address.id == id && actions[k].address.id == id
        ensures actions[j].address == actions[k].address
      {
        FixedEventsShareAddress(p, collections, actions[j], actions[k]);
      }
    }
    forall k: nat, id | IsLastVersion(actions, k, id)
      ensures Holding(actions, id) == {actions[k].address}
              && Indexed(actions)[actions[k].address] == actions[k].document
    {
      OneDocumentExactly(actions, id, k);
      SoleAddress(actions, id, k);
    }
    BytesCountOnce(actions);
  }

  lemma SoleAddress(actions: seq<Action>, id: string, k: nat)
    requires IsLastVersion(actions, k, id) && OneRoute(actions, id)
    ensures Holding(actions, id) == {actions[k].address}
  {
    OneDocumentExactly(actions, id, k);
    forall a | a in Holding(actions, id) ensures a == actions[k].address {
      SoleMember(Holding(actions, id), a, actions[k].address);
    }
  }

  /** The collection delivers the item as a version of the backup with this identity. */
  ghost predicate DeliversBackup(p: Platform, cs: seq<Collection>, identity: string, c: Collection,
                                 item: Item<Backup>) {
    c in cs && item in c.backups && BackupAction(p, c, item).Some? && BackupIdentity(p, item.value) == identity
  }

  /** Where a delivered backup belongs: its domain and the month of its event time. */
  function BackupRoute(p: Platform, c: Collection, b: Backup): (string, string)
    requires EventTime(b).Some?
  {
    (SecurityDomain(b.domain), DocumentMonth(p.month(EventTime(b).value), p.month(c.collectedAt)))
  }

  /** All deliveries of the backup agree on the domain and the month of the event time. */
  ghost predicate BackupKeepsRoute(p: Platform, cs: seq<Collection>, identity: string) {
    forall c, a, d, b | DeliversBackup(p, cs, identity, c, a) && DeliversBackup(p, cs, identity, d, b) ::
      BackupRoute(p, c, a.value) == BackupRoute(p, d, b.value)
  }

  ghost predicate DeliversJob(p: Platform, cs: seq<Collection>, id: string, c: Collection, item: Item<Job>) {
    c in cs && item in c.jobs && JobAction(p, c, item).Some? && RunId(item.value) == id
  }

  function JobRoute(p: Platform, c: Collection, j: Job): (string, string)
    requires JobEventTime(j).Some?
  {
    (SecurityDomain(j.domain), RunMonth(p, c, j))
  }

  /** All deliveries of the job agree on the domain and the month of the start, or of the end without one. */
  ghost predicate JobKeepsRoute(p: Platform, cs: seq<Collection>, id: string) {
    forall c, a, d, b | DeliversJob(p, cs, id, c, a) && DeliversJob(p, cs, id, d, b) ::
      JobRoute(p, c, a.value) == JobRoute(p, d, b.value)
  }

  ghost predicate AllFrom(collector: string, cs: seq<Collection>) {
    forall c | c in cs :: c.collector == collector
  }

  lemma IndexOfAction(actions: seq<Action>, x: Action) returns (k: nat)
    requires x in actions
    ensures k < |actions| && actions[k] == x
  {
    k :| 0 <= k < |actions| && actions[k] == x;
  }

  /** A version of the backup is what an action under its id was made from. */
  lemma BackupIsDelivered(p: Platform, cs: seq<Collection>, collector: string, identity: string, x: Action)
    returns (c: Collection, item: Item<Backup>)
    requires AllFrom(collector, cs) && x in AllActions(p, cs) && x.address.id == collector + ":backup:" + identity
    ensures FromBackup(p, cs, x, c, item) && DeliversBackup(p, cs, identity, c, item)
  {
    ActionsAreExact(p, cs, x);
    if d, b :| FromJob(p, cs, x, d, b) {
      KindsAreApart(collector, identity, RunId(b.value));
    }
    c, item :| FromBackup(p, cs, x, c, item);
    PrefixCancels(collector + ":backup:", BackupIdentity(p, item.value), identity);
  }

  lemma JobIsDelivered(p: Platform, cs: seq<Collection>, collector: string, id: string, x: Action)
    returns (c: Collection, item: Item<Job>)
    requires AllFrom(collector, cs) && x in AllActions(p, cs) && x.address.id == collector + ":job:" + id
    ensures FromJob(p, cs, x, c, item) && DeliversJob(p, cs, id, c, item)
  {
    ActionsAreExact(p, cs, x);
    if d, b :| FromBackup(p, cs, x, d, b) {
      KindsAreApart(collector, BackupIdentity(p, b.value), id);
    }
    c, item :| FromJob(p, cs, x, c, item);
    PrefixCancels(collector + ":job:", RunId(item.value), id);
  }

  lemma BackupVersionsShareAddress(p: Platform, cs: seq<Collection>, collector: string, identity: string, x: Action,
                                   y: Action)
    requires AllFrom(collector, cs) && BackupKeepsRoute(p, cs, identity) && x in AllActions(p, cs)
             && y in AllActions(p, cs)
    requires x.address.id == collector + ":backup:" + identity && y.address.id == collector + ":backup:" + identity
    ensures x.address == y.address
  {
    var c, a := BackupIsDelivered(p, cs, collector, identity, x);
    var d, b := BackupIsDelivered(p, cs, collector, identity, y);
    assert BackupRoute(p, c, a.value) == BackupRoute(p, d, b.value);
    BackupAddressIsExact(p, c, d, a, b);
  }

  lemma BackupKeepsOneRoute(p: Platform, cs: seq<Collection>, collector: string, identity: string)
    requires AllFrom(collector, cs) && BackupKeepsRoute(p, cs, identity)
    ensures OneRoute(AllActions(p, cs), collector + ":backup:" + identity)
  {
    var actions, id := AllActions(p, cs), collector + ":backup:" + identity;
    forall j, k | 0 <= j < |actions| && 0 <= k < |actions| && actions[j].address.id == id && actions[k].address.id == id
      ensures actions[j].address == actions[k].address
    {
      BackupVersionsShareAddress(p, cs, collector, identity, actions[j], actions[k]);
    }
  }

  lemma BackupRouteIsOne(p: Platform, cs: seq<Collection>, collector: string, identity: string)
    requires AllFrom(collector, cs)
    ensures OneRoute(AllActions(p, cs), collector + ":backup:" + identity) <==> BackupKeepsRoute(p, cs, identity)
  {
    if BackupKeepsRoute(p, cs, identity) {
      BackupKeepsOneRoute(p, cs, collector, identity);
    }
    if OneRoute(AllActions(p, cs), collector + ":backup:" + identity) {
      forall c, a, d, b | DeliversBackup(p, cs, identity, c, a) && DeliversBackup(p, cs, identity, d, b)
        ensures BackupRoute(p, c, a.value) == BackupRoute(p, d, b.value)
      {
        DeliveredBackupsShareIndex(p, cs, collector, identity, c, a, d, b);
      }
    }
  }

  lemma DeliveredBackupsShareIndex(p: Platform, cs: seq<Collection>, collector: string, identity: string,
                                   c: Collection, a: Item<Backup>, d: Collection, b: Item<Backup>)
    requires AllFrom(collector, cs) && OneRoute(AllActions(p, cs), collector + ":backup:" + identity)
    requires DeliversBackup(p, cs, identity, c, a) && DeliversBackup(p, cs, identity, d, b)
    ensures BackupRoute(p, c, a.value) == BackupRoute(p, d, b.value)
  {
    var x, y := BackupAction(p, c, a).value, BackupAction(p, d, b).value;
    assert FromBackup(p, cs, x, c, a) && FromBackup(p, cs, y, d, b);
    ActionsAreExact(p, cs, x);
    ActionsAreExact(p, cs, y);
    var j := IndexOfAction(AllActions(p, cs), x);
    var k := IndexOfAction(AllActions(p, cs), y);
    assert x.address == y.address;
    BackupAddressIsExact(p, c, d, a, b);
  }

  lemma JobVersionsShareAddress(p: Platform, cs: seq<Collection>, collector: string, jobId: string, x: Action,
                                y: Action)
    requires AllFrom(collector, cs) && JobKeepsRoute(p, cs, jobId) && x in AllActions(p, cs) && y in AllActions(p, cs)
    requires x.address.id == collector + ":job:" + jobId && y.address.id == collector + ":job:" + jobId
    ensures x.address == y.address
  {
    var c, a := JobIsDelivered(p, cs, collector, jobId, x);
    var d, b := JobIsDelivered(p, cs, collector, jobId, y);
    assert JobRoute(p, c, a.value) == JobRoute(p, d, b.value);
    JobAddressIsExact(p, c, d, a, b);
  }

  lemma JobKeepsOneRoute(p: Platform, cs: seq<Collection>, collector: string, jobId: string)
    requires AllFrom(collector, cs) && JobKeepsRoute(p, cs, jobId)
    ensures OneRoute(AllActions(p, cs), collector + ":job:" + jobId)
  {
    var actions, id := AllActions(p, cs), collector + ":job:" + jobId;
    forall j, k | 0 <= j < |actions| && 0 <= k < |actions| && actions[j].address.id == id && actions[k].address.id == id
      ensures actions[j].address == actions[k].address
    {
      JobVersionsShareAddress(p, cs, collector, jobId, actions[j], actions[k]);
    }
  }

  lemma JobRouteIsOne(p: Platform, cs: seq<Collection>, collector: string, jobId: string)
    requires AllFrom(collector, cs)
    ensures OneRoute(AllActions(p, cs), collector + ":job:" + jobId) <==> JobKeepsRoute(p, cs, jobId)
  {
    if JobKeepsRoute(p, cs, jobId) {
      JobKeepsOneRoute(p, cs, collector, jobId);
    }
    if OneRoute(AllActions(p, cs), collector + ":job:" + jobId) {
      forall c, a, d, b | DeliversJob(p, cs, jobId, c, a) && DeliversJob(p, cs, jobId, d, b)
        ensures JobRoute(p, c, a.value) == JobRoute(p, d, b.value)
      {
        DeliveredJobsShareIndex(p, cs, collector, jobId, c, a, d, b);
      }
    }
  }

  lemma DeliveredJobsShareIndex(p: Platform, cs: seq<Collection>, collector: string, jobId: string,
                                c: Collection, a: Item<Job>, d: Collection, b: Item<Job>)
    requires AllFrom(collector, cs) && OneRoute(AllActions(p, cs), collector + ":job:" + jobId)
    requires DeliversJob(p, cs, jobId, c, a) && DeliversJob(p, cs, jobId, d, b)
    ensures JobRoute(p, c, a.value) == JobRoute(p, d, b.value)
  {
    var x, y := JobAction(p, c, a).value, JobAction(p, d, b).value;
    assert FromJob(p, cs, x, c, a) && FromJob(p, cs, y, d, b);
    ActionsAreExact(p, cs, x);
    ActionsAreExact(p, cs, y);
    var j := IndexOfAction(AllActions(p, cs), x);
    var k := IndexOfAction(AllActions(p, cs), y);
    assert x.address == y.address;
    JobAddressIsExact(p, c, d, a, b);
  }

  /** Over any collections of one collector, a delivered backup has exactly one document if and only if all its
      deliveries agree on the domain and on the month of the event time. */
  lemma BackupIsHeldOnceExactly(p: Platform, cs: seq<Collection>, collector: string, identity: string,
                                c: Collection, item: Item<Backup>)
    requires AllFrom(collector, cs) && DeliversBackup(p, cs, identity, c, item)
    ensures |Holding(AllActions(p, cs), collector + ":backup:" + identity)| == 1 <==> BackupKeepsRoute(p, cs, identity)
  {
    var actions, id, x := AllActions(p, cs), collector + ":backup:" + identity, BackupAction(p, c, item).value;
    assert FromBackup(p, cs, x, c, item);
    ActionsAreExact(p, cs, x);
    var j := IndexOfAction(actions, x);
    var k := LastVersionExists(actions, id);
    OneDocumentExactly(actions, id, k);
    BackupRouteIsOne(p, cs, collector, identity);
  }

  /** Likewise for a job: if and only if its deliveries agree on the domain and on the month of the run. */
  lemma JobIsHeldOnceExactly(p: Platform, cs: seq<Collection>, collector: string, jobId: string,
                             c: Collection, item: Item<Job>)
    requires AllFrom(collector, cs) && DeliversJob(p, cs, jobId, c, item)
    ensures |Holding(AllActions(p, cs), collector + ":job:" + jobId)| == 1 <==> JobKeepsRoute(p, cs, jobId)
  {
    var actions, id, x := AllActions(p, cs), collector + ":job:" + jobId, JobAction(p, c, item).value;
    assert FromJob(p, cs, x, c, item);
    ActionsAreExact(p, cs, x);
    var j := IndexOfAction(actions, x);
    var k := LastVersionExists(actions, id);
    OneDocumentExactly(actions, id, k);
    JobRouteIsOne(p, cs, collector, jobId);
  }

  lemma LoneBackup(p: Platform, c: Collection, item: Item<Backup>)
    requires c.backups == [item] && c.jobs == [] && BackupAction(p, c, item).Some?
    ensures ActionsOf(p, c) == [BackupAction(p, c, item).value]
  {
    assert c.backups[..|c.backups| - 1] == [];
    assert BackupActions(p, c, []) == [];
    assert BackupActions(p, c, c.backups) == [] + [BackupAction(p, c, item).value];
  }

  /** A backup first seen by its save time, and completed in another month, is held twice. */
  lemma LateCompletionIsHeldTwice(p: Platform, collector: string, b: Backup, saved: int, completed: int)
    requires forall t :: IsMonth(p.month(t))
    requires p.month(saved) != p.month(completed) && Strip(b.backupId) != ""
    requires b.saveTime == Some(saved) && b.completion == None
    ensures var first := Collection(collector, saved, [Record(b)], []);
            var second := Collection(collector, completed, [Record(b.(completion := Some(completed)))], []);
            |Holding(AllActions(p, [first, second]), collector + ":backup:" + Strip(b.backupId))| != 1
  {
    var first := Collection(collector, saved, [Record(b)], []);
    var second := Collection(collector, completed, [Record(b.(completion := Some(completed)))], []);
    var id := collector + ":backup:" + Strip(b.backupId);
    var actions := AllActions(p, [first, second]);
    var x, y := BackupAction(p, first, first.backups[0]).value, BackupAction(p, second, second.backups[0]).value;
    BackupAddressIsExact(p, first, second, first.backups[0], second.backups[0]);
    LoneBackup(p, first, first.backups[0]);
    LoneBackup(p, second, second.backups[0]);
    assert [first, second][..1] == [first] && [first][..0] == [];
    assert AllActions(p, [first]) == [] + [x];
    assert actions == [x] + [y];
    assert IsLastVersion(actions, 1, id);
    OneDocumentExactly(actions, id, 1);
    assert actions[0].address != actions[1].address;
  }

  // ---- Documents in their records' own terms ---------------------------------------------------------

  /** The index of a domain: one of the three named, whatever their case, or the common one for all others. */
  lemma IndexOfDomain(domain: string, kind: string, month: string)
    ensures IndexName(domain, kind, month)
         == (if Lower(Strip(domain)) == "core" then "nw-core-"
             else if Lower(Strip(domain)) == "chnl" then "nw-chnl-"
             else if Lower(Strip(domain)) == "info" then "nw-info-"
             else "nw-unmapped-") + kind + "-" + month
  {
    assert "nw-" + "core" + "-" == "nw-core-" && "nw-" + "chnl" + "-" == "nw-chnl-";
    assert "nw-" + "info" + "-" == "nw-info-" && "nw-" + "unmapped" + "-" == "nw-unmapped-";
  }

  /** A month is used where it reads as a year and a month of it, else that of the collection. */
  lemma MonthsUsed(month: string, fallback: string)
    ensures DocumentMonth(month, fallback) == month || DocumentMonth(month, fallback) == fallback
    ensures (exists year, number ::
               month == year + "-" + number && |year| == 4 && AllDigits(year) && number in MONTHS) ==>
              DocumentMonth(month, fallback) == month
    ensures DocumentMonth(month, fallback) != fallback ==>
              exists year, number :: month == year + "-" + number && |year| == 4 && AllDigits(year) && number in MONTHS
  {
    if year, number :| month == year + "-" + number && |year| == 4 && AllDigits(year) && number in MONTHS {
      assert month[..4] == year && month[5..] == number && month[4] == '-';
      assert month[5] == number[0] && month[6] == number[1];
    }
    if IsMonth(month) {
      assert month == month[..4] + "-" + month[5..];
      assert month[5..] == [month[5], month[6]];
      MonthNumbers(month[5], month[6]);
    }
  }

  const MONTHS := {"01", "02", "03", "04", "05", "06", "07", "08", "09", "10", "11", "12"}

  lemma MonthNumbers(a: char, b: char)
    requires (a == '0' && '1' <= b <= '9') || (a == '1' && '0' <= b <= '2')
    ensures [a, b] in MONTHS
  {
    assert a == '0' ==> b in {'1', '2', '3', '4', '5', '6', '7', '8', '9'};
    assert a == '1' ==> b in {'0', '1', '2'};
  }

  /** The client's name as compared: no white space around it, no capitals, no dot at its end. */
  lemma {:induction false} ClientsCompare(b: Backup)
    ensures exists dots :: OnlyDots(dots) && ClientName(b) + dots == Lower(Strip(b.client))
    ensures ClientName(b) != "" ==> ClientName(b)[|ClientName(b)| - 1] != '.'
  {
    var dots := DotsStripped(Lower(Strip(b.client)));
  }

  predicate OnlyDots(s: string) {
    forall c | c in s :: c == '.'
  }

  lemma {:induction false} DotsStripped(s: string) returns (dots: string)
    ensures OnlyDots(dots) && StripDots(s) + dots == s
  {
    if s != "" && s[|s| - 1] == '.' {
      var fewer := DotsStripped(s[..|s| - 1]);
      dots := fewer + ".";
      assert s == s[..|s| - 1] + ".";
    } else {
      dots := "";
    }
  }

  /** The identity of a backup: its own id, or the digest of client, save set (or name) and completion, where it has
      all three; its time is that of completion, or of saving before that. */
  lemma BackupIsIdentified(p: Platform, b: Backup)
    ensures BackupIdentity(p, b) == Strip(b.backupId) || (Strip(b.backupId) == "" && BackupIdentity(p, b) != "")
    ensures Strip(b.backupId) == "" ==>
              (BackupIdentity(p, b) == "" <==>
                 || StripDots(Lower(Strip(b.client))) == "" || b.completion.None?
                 || (Strip(b.saveSet) == "" && Strip(b.name) == ""))
    ensures Strip(b.backupId) == "" && BackupIdentity(p, b) != "" ==>
              BackupIdentity(p, b) == "fallback:" + p.digest(
                StripDots(Lower(Strip(b.client))) + "\0" + (if Strip(b.saveSet) != "" then Strip(b.saveSet)
                                                             else Strip(b.name))
                + "\0" + p.iso(b.completion.value))
    ensures EventTime(b) == (if b.completion.Some? then b.completion else b.saveTime)
  {}

  /** The outcome of a run as it is named: the normalized status, or the raw one, or unknown. */
  predicate IsOutcome(j: Job, outcome: string) {
    || (Strip(j.statusNormalized) != "" && outcome == Lower(Strip(j.statusNormalized)))
    || (Strip(j.statusNormalized) == "" && Strip(j.status) != "" && outcome == Lower(Strip(j.status)))
    || (Strip(j.statusNormalized) == "" && Strip(j.status) == "" && outcome == "unknown")
  }

  /** A job run is dated by its start while it runs and by its end, if known, afterwards; but filed under the month of
      its start, if known. Its duration is in whole seconds, where it does not run backwards. */
  lemma JobRunIsDated(p: Platform, c: Collection, item: Item<Job>)
    requires item.Record?
    ensures var j := item.value;
            var dated := if IsOutcome(j, "running") then j.start else if j.end.Some? then j.end else j.start;
            if Strip(j.jobId.text) == "" || dated.None? then JobAction(p, c, item).None?
            else
              && JobAction(p, c, item).Some?
              && var x := JobAction(p, c, item).value;
                 && x.document.JobRunDocument? && x.document.job == j && x.document.observedAt == c.collectedAt
                 && x.document.eventTime == dated.value && IsOutcome(j, x.document.outcome)
                 && (x.document.duration.Some? <==> j.start.Some? && j.end.Some? && j.start.value <= j.end.value)
                 && (x.document.duration.Some? ==>
                       x.document.duration.value * 1_000_000 <= j.end.value - j.start.value
                       < (x.document.duration.value + 1) * 1_000_000)
                 && x.address.id == c.collector + ":job:" + Strip(j.jobId.text)
                 && x.address.index
                    == IndexName(j.domain, "job-run",
                                 DocumentMonth(p.month(if j.start.Some? then j.start.value else dated.value),
                                               p.month(c.collectedAt)))
  {}

  /** A backup that can be told from others and dated is filed under the month of its completion, or of saving. */
  lemma BackupIsDated(p: Platform, c: Collection, item: Item<Backup>)
    requires item.Record?
    ensures var b := item.value;
            var dated := if b.completion.Some? then b.completion else b.saveTime;
            if BackupIdentity(p, b) == "" || dated.None? then BackupAction(p, c, item).None?
            else
              && BackupAction(p, c, item).Some?
              && var x := BackupAction(p, c, item).value;
                 && x.document.BackupDocument? && x.document.backup == b && x.document.observedAt == c.collectedAt
                 && x.document.eventTime == dated.value
                 && (x.document.identitySource == "backup_id" <==> Strip(b.backupId) != "")
                 && x.address.id == c.collector + ":backup:" + BackupIdentity(p, b)
                 && x.address.index
                    == IndexName(b.domain, "backup", DocumentMonth(p.month(dated.value), p.month(c.collectedAt)))
  {}

  /** A job names a workflow run exactly when its source is one plain word, its type is one of the three, and the id
      that type looks to, its own or its root's, is a positive number in digits. */
  lemma WorkflowRunsAreNamed(j: Job)
    ensures WorkflowRunKey(j) != "" <==>
            && IsPlainWord(Lower(Strip(j.source)))
            && ((Lower(Strip(j.kind)) == "workflow job" && IsPositiveNumber(j.jobId))
                || (Lower(Strip(j.kind)) in ["backup action job", "save job"] && IsPositiveNumber(j.root)))
    ensures WorkflowRunKey(j) != "" ==> WorkflowRunKey(j) == Lower(Strip(j.source)) + ":" + WorkflowRunId(j)
  {}

  predicate IsPlainWord(s: string) {
    s != "" && ':' !in s && forall c | c in s :: !IsSpace(c)
  }

  predicate IsPositiveNumber(id: Identifier) {
    id.plain && Strip(id.text) != "" && AllDigits(Strip(id.text)) && exists c | c in Strip(id.text) :: c != '0'
  }
}
