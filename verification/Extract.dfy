/** From one RAW hit to evidence, issues and sources whose collection is incomplete. */
module Extract {
  import opened Basics
  import opened Json
  import opened Text
  import opened Normalize
  import opened Models

  const ACTION_ID := "*policy action jobid"
  const POLICY := "*policy name"
  const WORKFLOW := "*policy workflow name"
  const GROUP := "group"

  datatype Extraction = Extraction(evidence: seq<Evidence>, issues: seq<Issue>, incomplete: set<Source>)

  /** What becomes of one backup entry: evidence, or an issue. */
  datatype Outcome = Filed(evidence: Evidence) | Rejected(issue: Issue)

  /** Attribute values by key, in order, with the faults met on the way. */
  datatype Gathered = Gathered(values: map<string, seq<string>>, faults: set<string>)

  predicate Keyed(a: Value) {
    a.Object? && a.Get("key").Str? && Strip(a.Get("key").text) != ""
  }

  predicate Valued(items: Value) {
    items.List? && items.items != [] && forall v | v in items.items :: v.Str? && Strip(v.text) != ""
  }

  function Texts(items: seq<Value>): (r: seq<string>)
    requires forall v | v in items :: v.Str?
    ensures |r| == |items|
  {
    seq(|items|, i requires 0 <= i < |items| => items[i].text)
  }

  function ValuesUnder(values: map<string, seq<string>>, key: string): seq<string> {
    if key in values then values[key] else []
  }

  function Gather(attributes: seq<Value>): Gathered {
    if attributes == [] then Gathered(map[], {})
    else
      var before, a := Gather(attributes[..|attributes| - 1]), attributes[|attributes| - 1];
      if !Keyed(a) then before.(faults := before.faults + {"invalid_attribute_key"})
      else if !Valued(a.Get("values")) then before.(faults := before.faults + {"invalid_attribute_values"})
      else
        var key := a.Get("key").text;
        before.(values := before.values[key := ValuesUnder(before.values, key) + Texts(a.Get("values").items)])
  }

  function ReadAttribute(a: Value): Attribute
    requires Keyed(a) && Valued(a.Get("values"))
  {
    Attribute(a.Get("key").text, Texts(a.Get("values").items))
  }

  /** The values are all the same one. */
  predicate Single(values: seq<string>) {
    values != [] && forall v | v in values :: v == values[0]
  }

  function DimensionFaults(values: map<string, seq<string>>, key: string): set<string> {
    if key !in values then {"missing_attribute:" + key}
    else if !Single(values[key]) then {"multiple_attribute_values:" + key}
    else {}
  }

  function GatherFrom(backup: Value): Gathered
    requires backup.Object?
  {
    var attributes := backup.Get("attributes");
    if attributes.List? && attributes.items != [] then Gather(attributes.items)
    else Gathered(map[], {"missing_or_invalid_attributes"})
  }

  function ActionIdOf(values: map<string, seq<string>>): (r: Option<string>)
    ensures r.Some? ==> IsPositiveId(r.value)
  {
    var ids := ValuesUnder(values, ACTION_ID);
    if Single(ids) then PositiveId(Str(ids[0])) else None
  }

  function BackupFaults(g: Gathered): set<string> {
    g.faults
    + (if ActionIdOf(g.values).None? then {"missing_multiple_or_invalid_action_id"} else {})
    + DimensionFaults(g.values, POLICY)
    + DimensionFaults(g.values, WORKFLOW)
    + DimensionFaults(g.values, GROUP)
  }

  lemma {:induction false} FaultlessAttributesAreRead(attributes: seq<Value>)
    requires Gather(attributes).faults == {}
    ensures forall a | a in attributes :: Keyed(a) && Valued(a.Get("values"))
  {
    if attributes != [] {
      FaultlessAttributesAreRead(attributes[..|attributes| - 1]);
    }
  }

  function ReadTime(clock: Clock, v: Value): ReportedTime {
    ReportedTime(v, ApiTimestamp(clock, v))
  }

  function BackupId(backup: Value): Option<string>
    requires backup.Object?
  {
    var id := backup.Get("id");
    if id.Str? && Strip(id.text) != "" then Some(Strip(id.text)) else None
  }

  /** The names of a faultless entry are normalized; a name that cannot be is one more rejection. */
  function NamedOutcome(backup: Value, g: Gathered, source: Source, reference: Reference, observedAt: Option<int>,
                        clock: Clock): Outcome
    requires backup.Object? && g == GatherFrom(backup) && BackupFaults(g) == {}
  {
    FaultlessEntryIsReadable(backup);
    var actionId := ActionIdOf(g.values);
    var policy := NormalizeName(Str(g.values[POLICY][0]), true);
    var workflow := NormalizeName(Str(g.values[WORKFLOW][0]), true);
    var group := NormalizeName(Str(g.values[GROUP][0]), false);
    if policy.Err? then Rejected(Issue({policy.error}, Some(source), actionId, Some(reference)))
    else if workflow.Err? then Rejected(Issue({workflow.error}, Some(source), actionId, Some(reference)))
    else if group.Err? then Rejected(Issue({group.error}, Some(source), actionId, Some(reference)))
    else
      var items := backup.Get("attributes").items;
      var backupId := BackupId(backup);
      Filed(Evidence(source, actionId.value, backupId, policy.value, workflow.value, group.value,
                     seq(|items|, i requires 0 <= i < |items| => ReadAttribute(items[i])),
                     reference.(backupId := backupId), observedAt,
                     ReadTime(clock, backup.Get("saveTime")), ReadTime(clock, backup.Get("completionTime"))))
  }

  /** An entry without faults has an action id, one value per dimension and readable attributes. */
  lemma FaultlessEntryIsReadable(backup: Value)
    requires backup.Object? && BackupFaults(GatherFrom(backup)) == {}
    ensures var g := GatherFrom(backup);
            && ActionIdOf(g.values).Some?
            && (forall key | key in [POLICY, WORKFLOW, GROUP] :: key in g.values && Single(g.values[key]))
            && backup.Get("attributes").List?
            && (forall a | a in backup.Get("attributes").items :: Keyed(a) && Valued(a.Get("values")))
  {
    var g := GatherFrom(backup);
    var faults := BackupFaults(g);
    assert g.faults <= faults;
    assert ActionIdOf(g.values).None? ==> "missing_multiple_or_invalid_action_id" in faults;
    forall key | key in [POLICY, WORKFLOW, GROUP]
      ensures key in g.values && Single(g.values[key])
    {
      assert DimensionFaults(g.values, key) <= faults;
      assert key !in g.values ==> "missing_attribute:" + key in DimensionFaults(g.values, key);
      assert key in g.values && !Single(g.values[key]) ==>
          "multiple_attribute_values:" + key in DimensionFaults(g.values, key);
    }
    assert "missing_or_invalid_attributes" !in g.faults;
    FaultlessAttributesAreRead(backup.Get("attributes").items);
  }

  function OutcomeOf(backup: Value, source: Source, reference: Reference, observedAt: Option<int>,
                     clock: Clock): Outcome
  {
    if !backup.Object? then Rejected(Issue({"invalid_backup"}, Some(source), None, Some(reference)))
    else
      var g := GatherFrom(backup);
      if BackupFaults(g) != {} then
        Rejected(Issue(BackupFaults(g), Some(source), ActionIdOf(g.values), Some(reference)))
      else NamedOutcome(backup, g, source, reference, observedAt, clock)
  }

  function Append(x: Extraction, o: Outcome): Extraction {
    match o
    case Filed(e) => x.(evidence := x.evidence + [e])
    case Rejected(i) =>
      x.(issues := x.issues + [i],
         incomplete := x.incomplete + if i.actionId.None? && i.source.Some? then {i.source.value} else {})
  }

  function ExtractEntries(entries: seq<Value>, source: Source, reference: Reference, observedAt: Option<int>,
                          clock: Clock, head: Extraction): Extraction
  {
    if entries == [] then head
    else
      var last := |entries| - 1;
      Append(ExtractEntries(entries[..last], source, reference, observedAt, clock, head),
             OutcomeOf(entries[last], source, reference.(position := Some(last)), observedAt, clock))
  }

  predicate PartialCollection(document: Value, payload: Value)
    requires document.Object? && payload.Object?
  {
    || document.Get("ok") == Bool(false)
    || payload.Get("collection_status") in [Str("partial"), Str("error")]
    || payload.Get("endpoint_errors").Truthy()
  }

  /** The backup list: `raw.backups`, or the list nested once more under the same name. */
  function Response(payload: Value): Value
    requires payload.Object?
  {
    var raw := payload.Get("raw");
    var response := if raw.Object? then raw.Get("backups") else Null;
    if response.Object? then response.Get("backups") else response
  }

  function Head(document: Value, payload: Value, source: Source, reference: Reference): Extraction
    requires document.Object? && payload.Object?
  {
    if PartialCollection(document, payload) then
      Extraction([], [Issue({"partial_collection"}, Some(source), None, Some(reference))], {source})
    else Extraction([], [], {})
  }

  function Unattributed(fault: string): Extraction {
    Extraction([], [Issue({fault}, None, None, None)], {})
  }

  function ExtractionOf(hit: Value, clock: Clock): Extraction {
    match Unwrap(hit)
    case Err(e) => Unattributed(e)
    case Ok((document, reference)) =>
      match SourceOf(document, true)
      case Err(e) => Unattributed(e)
      case Ok(source) =>
        var payload := document.Get("payload");
        if !payload.Object? then
          Extraction([], [Issue({"invalid_payload"}, Some(source), None, Some(reference))], {source})
        else
          var head := Head(document, payload, source, reference);
          var response := Response(payload);
          if !response.List? then
            Append(head, Rejected(Issue({"invalid_backup_response"}, Some(source), None, Some(reference))))
          else
            ExtractEntries(response.items, source, reference.(rawDocumentId := document.Get("raw_document_id")),
                           Timestamp(clock, document.Get("@timestamp")), clock, head)
  }

  method GatherAttributes(attributes: seq<Value>) returns (g: Gathered)
    ensures g == Gather(attributes)
  {
    var values: map<string, seq<string>>, faults: set<string> := map[], {};
    for i := 0 to |attributes|
      invariant Gathered(values, faults) == Gather(attributes[..i])
    {
      var a := attributes[i];
      assert attributes[..i + 1][..i] == attributes[..i];
      if !Keyed(a) {
        faults := faults + {"invalid_attribute_key"};
      } else if !Valued(a.Get("values")) {
        faults := faults + {"invalid_attribute_values"};
      } else {
        var key := a.Get("key").text;
        values := values[key := ValuesUnder(values, key) + Texts(a.Get("values").items)];
      }
    }
    assert attributes[..|attributes|] == attributes;
    g := Gathered(values, faults);
  }

  method GatherBackup(backup: Value) returns (g: Gathered)
    requires backup.Object?
    ensures g == GatherFrom(backup)
  {
    var attributes := backup.Get("attributes");
    if !attributes.List? || attributes.items == [] {
      g := Gathered(map[], {"missing_or_invalid_attributes"});
    } else {
      g := GatherAttributes(attributes.items);
    }
  }

  method CheckGathered(g: Gathered) returns (errors: set<string>)
    ensures errors == BackupFaults(g)
  {
    errors := g.faults;
    if ActionIdOf(g.values).None? {
      errors := errors + {"missing_multiple_or_invalid_action_id"};
    }
    errors := errors + DimensionFaults(g.values, POLICY);
    errors := errors + DimensionFaults(g.values, WORKFLOW);
    errors := errors + DimensionFaults(g.values, GROUP);
  }

  method ExtractBackup(backup: Value, source: Source, reference: Reference, observedAt: Option<int>,
                       clock: Clock, result: Extraction)
    returns (x: Extraction)
    ensures x == Append(result, OutcomeOf(backup, source, reference, observedAt, clock))
  {
    x := result;
    if !backup.Object? {
      x := x.(issues := x.issues + [Issue({"invalid_backup"}, Some(source), None, Some(reference))],
              incomplete := x.incomplete + {source});
      return;
    }
    var g := GatherBackup(backup);
    var actionId := ActionIdOf(g.values);
    var errors := CheckGathered(g);
    if errors != {} {
      x := x.(issues := x.issues + [Issue(errors, Some(source), actionId, Some(reference))]);
      if actionId.None? {
        x := x.(incomplete := x.incomplete + {source});
      }
      return;
    }
    x := Append(x, NamedOutcome(backup, g, source, reference, observedAt, clock));
  }

  method ExtractBackups(entries: seq<Value>, source: Source, reference: Reference, observedAt: Option<int>,
                        clock: Clock, head: Extraction)
    returns (x: Extraction)
    ensures x == ExtractEntries(entries, source, reference, observedAt, clock, head)
  {
    x := head;
    for position := 0 to |entries|
      invariant x == ExtractEntries(entries[..position], source, reference, observedAt, clock, head)
    {
      assert entries[..position + 1][..position] == entries[..position];
      x := ExtractBackup(entries[position], source, reference.(position := Some(position)), observedAt, clock, x);
    }
    assert entries[..|entries|] == entries;
  }

  method ExtractRaw(hit: Value, clock: Clock) returns (x: Extraction)
    ensures x == ExtractionOf(hit, clock)
  {
    x := Extraction([], [], {});
    var unwrapped := Unwrap(hit);
    if unwrapped.Err? {
      return Unattributed(unwrapped.error);
    }
    var (document, reference) := unwrapped.value;
    var named := SourceOf(document, true);
    if named.Err? {
      return Unattributed(named.error);
    }
    var source, payload := named.value, document.Get("payload");
    if !payload.Object? {
      x := x.(issues := [Issue({"invalid_payload"}, Some(source), None, Some(reference))], incomplete := {source});
      return;
    }
    if PartialCollection(document, payload) {
      x := x.(issues := [Issue({"partial_collection"}, Some(source), None, Some(reference))], incomplete := {source});
    }
    var response := Response(payload);
    if !response.List? {
      x := x.(issues := x.issues + [Issue({"invalid_backup_response"}, Some(source), None, Some(reference))],
              incomplete := x.incomplete + {source});
      return;
    }
    x := ExtractBackups(response.items, source, reference.(rawDocumentId := document.Get("raw_document_id")),
                        Timestamp(clock, document.Get("@timestamp")), clock, x);
  }

  // ---- What extraction promises -------------------------------------------------------------

  /** Where an outcome says it came from. */
  function PositionOf(o: Outcome): Option<nat> {
    match o
    case Filed(e) => e.reference.position
    case Rejected(i) => if i.reference.Some? then i.reference.value.position else None
  }

  lemma NamedOutcomeIsAttributed(backup: Value, g: Gathered, source: Source, reference: Reference,
                                 observedAt: Option<int>, clock: Clock)
    requires backup.Object? && g == GatherFrom(backup) && BackupFaults(g) == {}
    ensures var o := NamedOutcome(backup, g, source, reference, observedAt, clock);
            && PositionOf(o) == reference.position
            && (o.Filed? ==> Sound(o.evidence) && o.evidence.source == source && o.evidence.observedAt == observedAt)
            && (o.Rejected? ==> o.issue.source == Some(source) && o.issue.actionId.Some?
                                && IsPositiveId(o.issue.actionId.value))
  {
    FaultlessEntryIsReadable(backup);
    NameKeepsOriginal(g.values[POLICY][0], true);
    NameKeepsOriginal(g.values[WORKFLOW][0], true);
    NameKeepsOriginal(g.values[GROUP][0], false);
  }

  lemma NameKeepsOriginal(s: string, strip: bool)
    ensures NormalizeName(Str(s), strip).Ok? ==>
              NormalizeName(Str(NormalizeName(Str(s), strip).value.original), strip) == NormalizeName(Str(s), strip)
  {
    if NormalizeName(Str(s), strip).Ok? {
      NormalizedNameIsPublishable(Str(s), strip);
    }
  }

  function ReadableActionId(backup: Value): Option<string> {
    if backup.Object? then ActionIdOf(GatherFrom(backup).values) else None
  }

  /** Evidence is canonical and carries its source, place and observation time; a rejection is
      attributed to the source, and to the action exactly when its id could be read. */
  lemma OutcomeIsAttributed(backup: Value, source: Source, reference: Reference, observedAt: Option<int>, clock: Clock)
    ensures var o := OutcomeOf(backup, source, reference, observedAt, clock);
            && PositionOf(o) == reference.position
            && (o.Filed? ==> Sound(o.evidence) && o.evidence.source == source && o.evidence.observedAt == observedAt)
            && (o.Rejected? ==> o.issue.source == Some(source))
            && (o.Rejected? ==> o.issue.actionId == ReadableActionId(backup))
  {
    if backup.Object? && BackupFaults(GatherFrom(backup)) == {} {
      NamedOutcomeIsAttributed(backup, GatherFrom(backup), source, reference, observedAt, clock);
      NamedRejectionNamesAction(backup, source, reference, observedAt, clock);
    }
  }

  lemma NamedRejectionNamesAction(backup: Value, source: Source, reference: Reference, observedAt: Option<int>,
                                  clock: Clock)
    requires backup.Object? && BackupFaults(GatherFrom(backup)) == {}
    ensures var o := NamedOutcome(backup, GatherFrom(backup), source, reference, observedAt, clock);
            o.Rejected? ==> o.issue.actionId == ActionIdOf(GatherFrom(backup).values)
  {}

  /** Evidence at a position of the response, and issues at it. */
  ghost predicate HasEvidenceAt(x: Extraction, p: nat) {
    exists e :: e in x.evidence && e.reference.position == Some(p)
  }

  ghost predicate HasIssueAt(x: Extraction, p: nat) {
    exists i :: i in x.issues && i.reference.Some? && i.reference.value.position == Some(p)
  }

  /** Every backup entry of a readable response becomes exactly one evidence or one issue. */
  lemma {:induction false} EveryEntryIsAccountedFor(
    entries: seq<Value>, source: Source, reference: Reference, observedAt: Option<int>, clock: Clock, head: Extraction)
    requires head.evidence == []
    requires forall i | i in head.issues :: i.reference.Some? && i.reference.value.position.None?
    ensures var x := ExtractEntries(entries, source, reference, observedAt, clock, head);
            && |x.evidence| + |x.issues| == |head.issues| + |entries|
            && (forall p: nat :: p < |entries| ==> (HasEvidenceAt(x, p) <==> !HasIssueAt(x, p)))
            && (forall p: nat :: p >= |entries| ==> !HasEvidenceAt(x, p) && !HasIssueAt(x, p))
  {
    if entries != [] {
      var last := |entries| - 1;
      EveryEntryIsAccountedFor(entries[..last], source, reference, observedAt, clock, head);
      var before := ExtractEntries(entries[..last], source, reference, observedAt, clock, head);
      var ref := reference.(position := Some(last));
      var o := OutcomeOf(entries[last], source, ref, observedAt, clock);
      OutcomeIsAttributed(entries[last], source, ref, observedAt, clock);
      AppendShowsPlace(before, o, last);
    }
  }

  lemma AppendShowsPlace(x: Extraction, o: Outcome, place: nat)
    requires PositionOf(o) == Some(place)
    ensures var y := Append(x, o);
            && |y.evidence| + |y.issues| == |x.evidence| + |x.issues| + 1
            && (forall p: nat :: HasEvidenceAt(y, p) <==> HasEvidenceAt(x, p) || (o.Filed? && p == place))
            && (forall p: nat :: HasIssueAt(y, p) <==> HasIssueAt(x, p) || (o.Rejected? && p == place))
  {
    var y := Append(x, o);
    forall p: nat
      ensures HasEvidenceAt(y, p) <==> HasEvidenceAt(x, p) || (o.Filed? && p == place)
      ensures HasIssueAt(y, p) <==> HasIssueAt(x, p) || (o.Rejected? && p == place)
    {
      if HasEvidenceAt(x, p) {
        var e :| e in x.evidence && e.reference.position == Some(p);
        assert e in y.evidence;
      }
      if HasIssueAt(x, p) {
        var i :| i in x.issues && i.reference.Some? && i.reference.value.position == Some(p);
        assert i in y.issues;
      }
      if o.Filed? {
        assert o.evidence in y.evidence;
      } else {
        assert o.issue in y.issues;
      }
    }
  }

  /** Findings of one hit stay with that hit's source; only an unreadable source leaves one unattributed. */
  ghost predicate AttributedTo(x: Extraction, source: Source) {
    && (forall e | e in x.evidence :: Sound(e) && e.source == source)
    && (forall i | i in x.issues :: i.source == Some(source))
    && (forall i | i in x.issues && i.actionId.Some? :: IsPositiveId(i.actionId.value))
    && (forall i | i in x.issues && i.actionId.None? :: source in x.incomplete)
    && x.incomplete <= {source}
  }

  lemma AppendStaysAttributed(x: Extraction, o: Outcome, source: Source)
    requires AttributedTo(x, source)
    requires o.Filed? ==> Sound(o.evidence) && o.evidence.source == source
    requires o.Rejected? ==> o.issue.source == Some(source)
    requires o.Rejected? && o.issue.actionId.Some? ==> IsPositiveId(o.issue.actionId.value)
    ensures AttributedTo(Append(x, o), source)
  {}

  lemma {:induction false} EntriesStayAttributed(
    entries: seq<Value>, source: Source, reference: Reference, observedAt: Option<int>, clock: Clock, head: Extraction)
    requires AttributedTo(head, source)
    ensures AttributedTo(ExtractEntries(entries, source, reference, observedAt, clock, head), source)
  {
    if entries != [] {
      var last := |entries| - 1;
      EntriesStayAttributed(entries[..last], source, reference, observedAt, clock, head);
      OutcomeIsAttributed(entries[last], source, reference.(position := Some(last)), observedAt, clock);
      AppendStaysAttributed(ExtractEntries(entries[..last], source, reference, observedAt, clock, head),
                            OutcomeOf(entries[last], source, reference.(position := Some(last)), observedAt, clock),
                            source);
    }
  }

  /** The source a RAW hit names, when it names one. */
  function HitSource(hit: Value): Option<Source> {
    match Unwrap(hit)
    case Err(_) => None
    case Ok((document, _)) =>
      match SourceOf(document, true)
      case Err(_) => None
      case Ok(source) => Some(source)
  }

  /** A hit with a source stays within it; a hit without one yields a single unattributed issue. */
  lemma ExtractionIsAttributed(hit: Value, clock: Clock)
    ensures var x, source := ExtractionOf(hit, clock), HitSource(hit);
            if source.Some? then AttributedTo(x, source.value)
            else x.evidence == [] && x.incomplete == {} && |x.issues| == 1 && x.issues[0].source.None?
                 && x.issues[0].actionId.None?
  {
    if HitSource(hit).Some? {
      var (document, reference) := Unwrap(hit).value;
      var source, payload := HitSource(hit).value, document.Get("payload");
      if payload.Object? && Response(payload).List? {
        EntriesStayAttributed(Response(payload).items, source,
                              reference.(rawDocumentId := document.Get("raw_document_id")),
                              Timestamp(clock, document.Get("@timestamp")), clock,
                              Head(document, payload, source, reference));
      }
    }
  }

  // ---- Hits in their own terms --------------------------------------------------------------------

  /** The hit is a document of the source with a payload. */
  predicate IsRawOf(hit: Value, source: Source, document: Value, payload: Value) {
    && Unwrap(hit).Ok? && document == Unwrap(hit).value.0
    && document.Object? && SourceOf(document, true) == Ok(source)
    && payload == document.Get("payload") && payload.Object?
  }

  /** The hit itself says that its collection was not complete. */
  predicate ReportsPartial(document: Value, payload: Value)
    requires document.Object? && payload.Object?
  {
    || (document.Get("ok").Bool? && !document.Get("ok").flag)
    || (payload.Get("collection_status").Str?
        && (payload.Get("collection_status").text == "partial" || payload.Get("collection_status").text == "error"))
    || payload.Get("endpoint_errors").Truthy()
  }

  /** The entries stand under `raw.backups`, or once more under `backups` in there. */
  predicate HasEntries(payload: Value, entries: seq<Value>)
    requires payload.Object?
  {
    && payload.Get("raw").Object?
    && var backups := payload.Get("raw").Get("backups");
       backups == List(entries) || (backups.Object? && backups.Get("backups") == List(entries))
  }

  lemma HasEntriesExactly(payload: Value, entries: seq<Value>)
    requires payload.Object?
    ensures HasEntries(payload, entries) <==> Response(payload) == List(entries)
  {}

  lemma ReportsPartialExactly(document: Value, payload: Value)
    requires document.Object? && payload.Object?
    ensures ReportsPartial(document, payload) <==> PartialCollection(document, payload)
  {}

  lemma {:induction false} EntriesKeepHead(
    entries: seq<Value>, source: Source, reference: Reference, observedAt: Option<int>, clock: Clock, head: Extraction)
    ensures var x := ExtractEntries(entries, source, reference, observedAt, clock, head);
            head.incomplete <= x.incomplete && forall i | i in head.issues :: i in x.issues
  {
    if entries != [] {
      EntriesKeepHead(entries[..|entries| - 1], source, reference, observedAt, clock, head);
    }
  }

  /** A hit that reports a partial collection leaves a finding without an action, and its source incomplete. */
  lemma PartialHitsAreNoted(hit: Value, source: Source, document: Value, payload: Value, clock: Clock)
    requires IsRawOf(hit, source, document, payload) && ReportsPartial(document, payload)
    ensures source in ExtractionOf(hit, clock).incomplete
    ensures exists i :: i in ExtractionOf(hit, clock).issues
              && i.faults == {"partial_collection"} && i.source == Some(source) && i.actionId.None?
  {
    ReportsPartialExactly(document, payload);
    var reference := Unwrap(hit).value.1;
    var head := Head(document, payload, source, reference);
    var issue := Issue({"partial_collection"}, Some(source), None, Some(reference));
    assert issue in head.issues && source in head.incomplete;
    if Response(payload).List? {
      EntriesKeepHead(Response(payload).items, source, reference.(rawDocumentId := document.Get("raw_document_id")),
                      Timestamp(clock, document.Get("@timestamp")), clock, head);
    }
    assert issue in ExtractionOf(hit, clock).issues;
  }

  /** An entry that cannot be told to belong to any action. */
  predicate Nameless(entry: Value) {
    ReadableActionId(entry).None?
  }

  lemma {:induction false} EntriesIncompleteExactly(
    entries: seq<Value>, source: Source, reference: Reference, observedAt: Option<int>, clock: Clock, head: Extraction)
    ensures source in ExtractEntries(entries, source, reference, observedAt, clock, head).incomplete <==>
            source in head.incomplete || exists e :: e in entries && Nameless(e)
  {
    if entries != [] {
      var last := |entries| - 1;
      assert entries == entries[..last] + [entries[last]];
      EntriesIncompleteExactly(entries[..last], source, reference, observedAt, clock, head);
      NamelessMatters(ExtractEntries(entries[..last], source, reference, observedAt, clock, head),
                      entries[last], source, reference.(position := Some(last)), observedAt, clock);
    }
  }

  lemma NamelessMatters(x: Extraction, entry: Value, source: Source, reference: Reference, observedAt: Option<int>,
                        clock: Clock)
    ensures source in Append(x, OutcomeOf(entry, source, reference, observedAt, clock)).incomplete <==>
            source in x.incomplete || Nameless(entry)
  {
    OutcomeIsAttributed(entry, source, reference, observedAt, clock);
    NamelessIsRejected(entry, source, reference, observedAt, clock);
  }

  lemma NamelessIsRejected(entry: Value, source: Source, reference: Reference, observedAt: Option<int>, clock: Clock)
    ensures Nameless(entry) ==> OutcomeOf(entry, source, reference, observedAt, clock).Rejected?
  {
    if entry.Object? && Nameless(entry) {
      assert "missing_multiple_or_invalid_action_id" in BackupFaults(GatherFrom(entry));
    }
  }

  /** A hit leaves its source incomplete exactly when it reports so, has no list of entries, or has an entry that
      names no action. */
  lemma IncompleteExactly(hit: Value, source: Source, document: Value, payload: Value, clock: Clock)
    requires IsRawOf(hit, source, document, payload)
    ensures source in ExtractionOf(hit, clock).incomplete <==>
            || ReportsPartial(document, payload)
            || (forall entries :: !HasEntries(payload, entries))
            || exists entries, e :: HasEntries(payload, entries) && e in entries && Nameless(e)
  {
    ReportsPartialExactly(document, payload);
    forall entries ensures HasEntries(payload, entries) <==> Response(payload) == List(entries) {
      HasEntriesExactly(payload, entries);
    }
    var reference := Unwrap(hit).value.1;
    var head := Head(document, payload, source, reference);
    if Response(payload).List? {
      assert HasEntries(payload, Response(payload).items);
      EntriesIncompleteExactly(Response(payload).items, source,
                               reference.(rawDocumentId := document.Get("raw_document_id")),
                               Timestamp(clock, document.Get("@timestamp")), clock, head);
    }
  }

  /** A hit with entries gives evidence from them alone: each shows the hit and the position it was read at. */
  lemma {:induction false} EvidenceShowsItsEntry(
    entries: seq<Value>, source: Source, reference: Reference, observedAt: Option<int>, clock: Clock,
    head: Extraction, e: Evidence)
    requires e in ExtractEntries(entries, source, reference, observedAt, clock, head).evidence && e !in head.evidence
    ensures exists p: nat :: p < |entries|
              && OutcomeOf(entries[p], source, reference.(position := Some(p)), observedAt, clock) == Filed(e)
  {
    if entries != [] {
      var last := |entries| - 1;
      if e in ExtractEntries(entries[..last], source, reference, observedAt, clock, head).evidence {
        EvidenceShowsItsEntry(entries[..last], source, reference, observedAt, clock, head, e);
        var p: nat :| p < last
          && OutcomeOf(entries[..last][p], source, reference.(position := Some(p)), observedAt, clock) == Filed(e);
        assert entries[..last][p] == entries[p];
      } else {
        assert OutcomeOf(entries[last], source, reference.(position := Some(last)), observedAt, clock) == Filed(e);
      }
    }
  }

  /** Evidence says where it was read: the hit's index and id, the document's own id and the entry's position. */
  lemma EvidenceShowsItsPlace(hit: Value, source: Source, document: Value, payload: Value, entries: seq<Value>,
                              clock: Clock, e: Evidence)
    requires IsRawOf(hit, source, document, payload) && HasEntries(payload, entries)
    requires e in ExtractionOf(hit, clock).evidence
    ensures exists p: nat :: p < |entries|
              && e.reference.position == Some(p)
              && e.reference.index == hit.Get("_index") && e.reference.id == hit.Get("_id")
              && e.reference.rawDocumentId == document.Get("raw_document_id")
              && OutcomeOf(entries[p], source, e.reference.(backupId := None),
                           Timestamp(clock, document.Get("@timestamp")), clock)
                 == Filed(e)
  {
    HasEntriesExactly(payload, entries);
    var reference := Unwrap(hit).value.1.(rawDocumentId := document.Get("raw_document_id"));
    var observedAt := Timestamp(clock, document.Get("@timestamp"));
    var head := Head(document, payload, source, Unwrap(hit).value.1);
    EvidenceShowsItsEntry(entries, source, reference, observedAt, clock, head, e);
    var p: nat :| p < |entries|
      && OutcomeOf(entries[p], source, reference.(position := Some(p)), observedAt, clock) == Filed(e);
    FiledKeepsReference(entries[p], source, reference.(position := Some(p)), observedAt, clock, e);
  }

  lemma FiledKeepsReference(entry: Value, source: Source, reference: Reference, observedAt: Option<int>, clock: Clock,
                            e: Evidence)
    requires OutcomeOf(entry, source, reference, observedAt, clock) == Filed(e) && reference.backupId.None?
    ensures e.reference.(backupId := None) == reference && e.reference.backupId == e.backupId
  {
    NamedKeepsReference(entry, GatherFrom(entry), source, reference, observedAt, clock, e);
  }

  lemma NamedKeepsReference(entry: Value, g: Gathered, source: Source, reference: Reference, observedAt: Option<int>,
                            clock: Clock, e: Evidence)
    requires entry.Object? && g == GatherFrom(entry) && BackupFaults(g) == {}
    requires NamedOutcome(entry, g, source, reference, observedAt, clock) == Filed(e)
    ensures e.reference == reference.(backupId := e.backupId)
  {}

  // ---- Entries in their own terms -----------------------------------------------------------------

  /** The attribute has a key and a list of values, none blank. */
  predicate IsReadable(a: Value) {
    && a.Object? && a.Get("key").Str? && Strip(a.Get("key").text) != ""
    && a.Get("values").List? && a.Get("values").items != []
    && forall v | v in a.Get("values").items :: v.Str? && Strip(v.text) != ""
  }

  /** Some attribute gives the value under the key. */
  ghost predicate Says(attributes: seq<Value>, key: string, value: string) {
    exists a :: a in attributes && a.Object? && a.Get("key") == Str(key) && a.Get("values").List?
      && Str(value) in a.Get("values").items
  }

  /** The attributes give this value under the key, and no other. */
  ghost predicate SaysOnly(attributes: seq<Value>, key: string, value: string) {
    Says(attributes, key, value) && forall other | Says(attributes, key, other) :: other == value
  }

  lemma TextsHold(items: seq<Value>, value: string)
    requires forall v | v in items :: v.Str?
    ensures value in Texts(items) <==> Str(value) in items
  {
    if Str(value) in items {
      var i :| 0 <= i < |items| && items[i] == Str(value);
      assert Texts(items)[i] == value;
    }
    if value in Texts(items) {
      var i :| 0 <= i < |items| && Texts(items)[i] == value;
      assert items[i] in items && items[i] == Str(value);
    }
  }

  lemma {:induction false} GatheredExactly(attributes: seq<Value>, key: string, value: string)
    ensures Gather(attributes).faults == {} <==> forall a | a in attributes :: IsReadable(a)
    ensures Gather(attributes).faults == {} ==>
              (value in ValuesUnder(Gather(attributes).values, key) <==> Says(attributes, key, value))
              && (key in Gather(attributes).values <==> ValuesUnder(Gather(attributes).values, key) != [])
  {
    if attributes != [] {
      var before, last := attributes[..|attributes| - 1], attributes[|attributes| - 1];
      assert attributes == before + [last];
      GatheredExactly(before, key, value);
      if IsReadable(last) {
        TextsHold(last.Get("values").items, value);
        SaysOfMore(before, last, key, value);
      }
    }
  }

  lemma SaysOfMore(before: seq<Value>, last: Value, key: string, value: string)
    ensures Says(before + [last], key, value) <==>
            || Says(before, key, value)
            || (last.Object? && last.Get("key") == Str(key) && last.Get("values").List?
                && Str(value) in last.Get("values").items)
  {
    assert last in before + [last];
  }

  /** The values gathered under a key are all one and the same exactly when the attributes say only that. */
  lemma SingleExactly(attributes: seq<Value>, key: string, value: string)
    requires Gather(attributes).faults == {}
    ensures var values := ValuesUnder(Gather(attributes).values, key);
            SaysOnly(attributes, key, value) <==> Single(values) && values[0] == value
  {
    var values := ValuesUnder(Gather(attributes).values, key);
    forall v ensures v in values <==> Says(attributes, key, v) {
      GatheredExactly(attributes, key, v);
    }
    if values != [] {
      assert values[0] in values;
    }
  }

  /** The entry gives, each under its key and without contradiction, an action id and three names that normalize. */
  ghost predicate IsBackupOf(entry: Value, id: string, policy: string, workflow: string, group: string) {
    && entry.Object? && entry.Get("attributes").List? && entry.Get("attributes").items != []
    && var attributes := entry.Get("attributes").items;
       && (forall a | a in attributes :: IsReadable(a))
       && SaysOnly(attributes, "*policy action jobid", id) && PositiveId(Str(id)).Some?
       && SaysOnly(attributes, "*policy name", policy) && NormalizeName(Str(policy), true).Ok?
       && SaysOnly(attributes, "*policy workflow name", workflow) && NormalizeName(Str(workflow), true).Ok?
       && SaysOnly(attributes, "group", group) && NormalizeName(Str(group), false).Ok?
  }

  ghost predicate IsBackup(entry: Value) {
    exists id, policy, workflow, group :: IsBackupOf(entry, id, policy, workflow, group)
  }

  lemma DimensionExactly(attributes: seq<Value>, key: string)
    requires Gather(attributes).faults == {}
    ensures DimensionFaults(Gather(attributes).values, key) == {} <==> exists value :: SaysOnly(attributes, key, value)
    ensures forall value :: SaysOnly(attributes, key, value) ==>
              key in Gather(attributes).values && Single(Gather(attributes).values[key])
                && Gather(attributes).values[key][0] == value
  {
    var values := ValuesUnder(Gather(attributes).values, key);
    GatheredExactly(attributes, key, "");
    forall value ensures SaysOnly(attributes, key, value) <==> Single(values) && values[0] == value {
      SingleExactly(attributes, key, value);
    }
    if DimensionFaults(Gather(attributes).values, key) == {} {
      assert key !in Gather(attributes).values ==>
               "missing_attribute:" + key in DimensionFaults(Gather(attributes).values, key);
      assert SaysOnly(attributes, key, values[0]);
    }
  }

  lemma ActionIdExactly(attributes: seq<Value>)
    requires Gather(attributes).faults == {}
    ensures ActionIdOf(Gather(attributes).values).Some? <==>
            exists id :: SaysOnly(attributes, ACTION_ID, id) && PositiveId(Str(id)).Some?
    ensures forall id :: SaysOnly(attributes, ACTION_ID, id) ==>
              ActionIdOf(Gather(attributes).values) == PositiveId(Str(id))
  {
    var values := ValuesUnder(Gather(attributes).values, ACTION_ID);
    forall id ensures SaysOnly(attributes, ACTION_ID, id) <==> Single(values) && values[0] == id {
      SingleExactly(attributes, ACTION_ID, id);
    }
  }

  lemma NoFaultsInParts(g: Gathered)
    ensures BackupFaults(g) == {} <==>
            && g.faults == {} && ActionIdOf(g.values).Some? && DimensionFaults(g.values, POLICY) == {}
            && DimensionFaults(g.values, WORKFLOW) == {} && DimensionFaults(g.values, GROUP) == {}
  {
    assert ActionIdOf(g.values).None? ==> "missing_multiple_or_invalid_action_id" in BackupFaults(g);
    assert g.faults <= BackupFaults(g) && DimensionFaults(g.values, POLICY) <= BackupFaults(g);
    assert DimensionFaults(g.values, WORKFLOW) <= BackupFaults(g)
           && DimensionFaults(g.values, GROUP) <= BackupFaults(g);
  }

  /** What the gathering of a list finds faultless. */
  lemma FaultlessExactly(attributes: seq<Value>)
    ensures BackupFaults(Gather(attributes)) == {} <==>
            && (forall a | a in attributes :: IsReadable(a))
            && (exists id :: SaysOnly(attributes, ACTION_ID, id) && PositiveId(Str(id)).Some?)
            && (exists policy :: SaysOnly(attributes, POLICY, policy))
            && (exists workflow :: SaysOnly(attributes, WORKFLOW, workflow))
            && (exists group :: SaysOnly(attributes, GROUP, group))
  {
    NoFaultsInParts(Gather(attributes));
    GatheredExactly(attributes, "", "");
    if Gather(attributes).faults == {} {
      ActionIdExactly(attributes);
      DimensionExactly(attributes, POLICY);
      DimensionExactly(attributes, WORKFLOW);
      DimensionExactly(attributes, GROUP);
    }
  }

  /** The names of a faultless entry, as its attributes say them. */
  lemma NamedExactly(entry: Value, id: string, policy: string, workflow: string, group: string)
    requires entry.Object? && entry.Get("attributes").List? && entry.Get("attributes").items != []
    requires var attributes := entry.Get("attributes").items;
             && BackupFaults(Gather(attributes)) == {}
             && SaysOnly(attributes, ACTION_ID, id) && SaysOnly(attributes, POLICY, policy)
             && SaysOnly(attributes, WORKFLOW, workflow) && SaysOnly(attributes, GROUP, group)
    ensures var g := GatherFrom(entry);
            && BackupFaults(g) == {} && ActionIdOf(g.values) == PositiveId(Str(id)) && PositiveId(Str(id)).Some?
            && POLICY in g.values && g.values[POLICY] != [] && g.values[POLICY][0] == policy
            && WORKFLOW in g.values && g.values[WORKFLOW] != [] && g.values[WORKFLOW][0] == workflow
            && GROUP in g.values && g.values[GROUP] != [] && g.values[GROUP][0] == group
  {
    var attributes := entry.Get("attributes").items;
    NoFaultsInParts(Gather(attributes));
    ActionIdExactly(attributes);
    DimensionExactly(attributes, POLICY);
    DimensionExactly(attributes, WORKFLOW);
    DimensionExactly(attributes, GROUP);
  }

  /** An entry that gives an action id and three names becomes evidence of that action under those names, with its
      attributes in order, its id and its times. */
  lemma BackupsAreFiled(entry: Value, source: Source, reference: Reference, observedAt: Option<int>, clock: Clock,
                        id: string, policy: string, workflow: string, group: string)
    requires IsBackupOf(entry, id, policy, workflow, group)
    ensures var o := OutcomeOf(entry, source, reference, observedAt, clock);
            && o.Filed?
            && o.evidence.source == source && Some(o.evidence.actionId) == PositiveId(Str(id))
            && Ok(o.evidence.policy) == NormalizeName(Str(policy), true)
            && Ok(o.evidence.workflow) == NormalizeName(Str(workflow), true)
            && Ok(o.evidence.group) == NormalizeName(Str(group), false)
            && o.evidence.backupId == (if entry.Get("id").Str? && Strip(entry.Get("id").text) != ""
                                       then Some(Strip(entry.Get("id").text)) else None)
            && o.evidence.saveTime == ReportedTime(entry.Get("saveTime"), ApiTimestamp(clock, entry.Get("saveTime")))
            && o.evidence.completionTime == ReportedTime(entry.Get("completionTime"),
                                                         ApiTimestamp(clock, entry.Get("completionTime")))
            && o.evidence.observedAt == observedAt
  {
    FaultlessExactly(entry.Get("attributes").items);
    NamedExactly(entry, id, policy, workflow, group);
    NamedIsFiled(entry, GatherFrom(entry), source, reference, observedAt, clock, policy, workflow, group);
    TimesAndIdAreShown(entry, clock);
  }

  lemma NamedIsFiled(entry: Value, g: Gathered, source: Source, reference: Reference, observedAt: Option<int>,
                     clock: Clock, policy: string, workflow: string, group: string)
    requires entry.Object? && g == GatherFrom(entry) && BackupFaults(g) == {}
    requires POLICY in g.values && g.values[POLICY] != [] && g.values[POLICY][0] == policy
    requires WORKFLOW in g.values && g.values[WORKFLOW] != [] && g.values[WORKFLOW][0] == workflow
    requires GROUP in g.values && g.values[GROUP] != [] && g.values[GROUP][0] == group
    requires NormalizeName(Str(policy), true).Ok? && NormalizeName(Str(workflow), true).Ok?
    requires NormalizeName(Str(group), false).Ok?
    ensures var o := OutcomeOf(entry, source, reference, observedAt, clock);
            && o.Filed? && o.evidence.source == source && Some(o.evidence.actionId) == ActionIdOf(g.values)
            && Ok(o.evidence.policy) == NormalizeName(Str(policy), true)
            && Ok(o.evidence.workflow) == NormalizeName(Str(workflow), true)
            && Ok(o.evidence.group) == NormalizeName(Str(group), false)
            && o.evidence.backupId == BackupId(entry) && o.evidence.observedAt == observedAt
            && o.evidence.saveTime == ReadTime(clock, entry.Get("saveTime"))
            && o.evidence.completionTime == ReadTime(clock, entry.Get("completionTime"))
  {
    FaultlessEntryIsReadable(entry);
  }

  lemma TimesAndIdAreShown(entry: Value, clock: Clock)
    requires entry.Object?
    ensures BackupId(entry) == (if entry.Get("id").Str? && Strip(entry.Get("id").text) != ""
                                then Some(Strip(entry.Get("id").text)) else None)
    ensures forall key :: ReadTime(clock, entry.Get(key))
                       == ReportedTime(entry.Get(key), ApiTimestamp(clock, entry.Get(key)))
  {}

  /** An entry becomes evidence exactly when it gives an action id and three names without contradiction. */
  lemma FiledExactly(entry: Value, source: Source, reference: Reference, observedAt: Option<int>, clock: Clock)
    ensures OutcomeOf(entry, source, reference, observedAt, clock).Filed? <==> IsBackup(entry)
  {
    if id, policy, workflow, group :| IsBackupOf(entry, id, policy, workflow, group) {
      BackupsAreFiled(entry, source, reference, observedAt, clock, id, policy, workflow, group);
    }
    if OutcomeOf(entry, source, reference, observedAt, clock).Filed? {
      FiledIsBackup(entry, source, reference, observedAt, clock);
    }
  }

  lemma FiledIsBackup(entry: Value, source: Source, reference: Reference, observedAt: Option<int>, clock: Clock)
    requires OutcomeOf(entry, source, reference, observedAt, clock).Filed?
    ensures IsBackup(entry)
  {
    var attributes := entry.Get("attributes");
    NoFaultsInParts(GatherFrom(entry));
    assert "missing_or_invalid_attributes" !in GatherFrom(entry).faults;
    FaultlessExactly(attributes.items);
    var id :| SaysOnly(attributes.items, ACTION_ID, id) && PositiveId(Str(id)).Some?;
    var policy :| SaysOnly(attributes.items, POLICY, policy);
    var workflow :| SaysOnly(attributes.items, WORKFLOW, workflow);
    var group :| SaysOnly(attributes.items, GROUP, group);
    NamedExactly(entry, id, policy, workflow, group);
    assert IsBackupOf(entry, id, policy, workflow, group);
  }

  /** The attributes of evidence are those of its entry, in order. */
  lemma FiledKeepsAttributes(entry: Value, source: Source, reference: Reference, observedAt: Option<int>, clock: Clock,
                             e: Evidence)
    requires OutcomeOf(entry, source, reference, observedAt, clock) == Filed(e)
    ensures entry.Object? && entry.Get("attributes").List? && |e.attributes| == |entry.Get("attributes").items|
    ensures forall n :: 0 <= n < |e.attributes| ==>
              var a := entry.Get("attributes").items[n];
              && IsReadable(a) && a.Get("key") == Str(e.attributes[n].key)
              && |a.Get("values").items| == |e.attributes[n].values|
              && forall m :: 0 <= m < |e.attributes[n].values| ==>
                   a.Get("values").items[m] == Str(e.attributes[n].values[m])
  {
    FiledHasAttributes(entry, source, reference, observedAt, clock, e);
    var items := entry.Get("attributes").items;
    forall n | 0 <= n < |items| ensures AttributeIsShown(items[n]) {
      assert items[n] in items;
      ReadAttributeShows(items[n]);
    }
  }

  lemma FiledHasAttributes(entry: Value, source: Source, reference: Reference, observedAt: Option<int>, clock: Clock,
                           e: Evidence)
    requires OutcomeOf(entry, source, reference, observedAt, clock) == Filed(e)
    ensures entry.Object? && entry.Get("attributes").List? && |e.attributes| == |entry.Get("attributes").items|
    ensures forall a | a in entry.Get("attributes").items :: Keyed(a) && Valued(a.Get("values"))
    ensures forall n :: 0 <= n < |e.attributes| ==>
              e.attributes[n] == ReadAttribute(entry.Get("attributes").items[n])
  {
    FaultlessEntryIsReadable(entry);
  }

  ghost predicate AttributeIsShown(a: Value) {
    && IsReadable(a) && Keyed(a) && Valued(a.Get("values"))
    && a.Get("key") == Str(ReadAttribute(a).key) && |a.Get("values").items| == |ReadAttribute(a).values|
    && forall m :: 0 <= m < |ReadAttribute(a).values| ==> a.Get("values").items[m] == Str(ReadAttribute(a).values[m])
  }

  lemma ReadAttributeShows(a: Value)
    requires Keyed(a) && Valued(a.Get("values"))
    ensures AttributeIsShown(a)
  {
    forall m | 0 <= m < |a.Get("values").items| ensures a.Get("values").items[m].Str? {
      assert a.Get("values").items[m] in a.Get("values").items;
    }
  }

  lemma {:induction false} FiledEntriesLeaveNoIssue(
    entries: seq<Value>, source: Source, reference: Reference, observedAt: Option<int>, clock: Clock, head: Extraction)
    requires forall e | e in entries :: IsBackup(e)
    ensures var x := ExtractEntries(entries, source, reference, observedAt, clock, head);
            x.issues == head.issues && |x.evidence| == |head.evidence| + |entries|
  {
    if entries != [] {
      var last := |entries| - 1;
      assert entries == entries[..last] + [entries[last]];
      FiledEntriesLeaveNoIssue(entries[..last], source, reference, observedAt, clock, head);
      assert IsBackup(entries[last]);
      FiledExactly(entries[last], source, reference.(position := Some(last)), observedAt, clock);
    }
  }

  /** A hit that reports a complete collection and whose entries are all backups leaves no finding, one evidence for
      each entry, and its source complete. */
  lemma CompleteHitsAreClean(hit: Value, source: Source, document: Value, payload: Value, entries: seq<Value>,
                             clock: Clock)
    requires IsRawOf(hit, source, document, payload)
    requires !ReportsPartial(document, payload) && HasEntries(payload, entries)
    requires forall e | e in entries :: IsBackup(e)
    ensures var x := ExtractionOf(hit, clock);
            x.issues == [] && |x.evidence| == |entries| && source !in x.incomplete
  {
    ReportsPartialExactly(document, payload);
    HasEntriesExactly(payload, entries);
    FiledEntriesLeaveNoIssue(entries, source, Unwrap(hit).value.1.(rawDocumentId := document.Get("raw_document_id")),
                             Timestamp(clock, document.Get("@timestamp")), clock, Extraction([], [], {}));
    BackupsLeaveSourceComplete(entries, source, Unwrap(hit).value.1.(rawDocumentId := document.Get("raw_document_id")),
                               Timestamp(clock, document.Get("@timestamp")), clock);
  }

  lemma BackupsLeaveSourceComplete(entries: seq<Value>, source: Source, reference: Reference, observedAt: Option<int>,
                                   clock: Clock)
    requires forall e | e in entries :: IsBackup(e)
    ensures source !in ExtractEntries(entries, source, reference, observedAt, clock, Extraction([], [], {})).incomplete
  {
    EntriesIncompleteExactly(entries, source, reference, observedAt, clock, Extraction([], [], {}));
    forall e | e in entries ensures !Nameless(e) {
      FiledExactly(e, source, reference, observedAt, clock);
      NamelessIsRejected(e, source, reference, observedAt, clock);
    }
  }
}
