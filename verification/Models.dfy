/** Value objects shared by extraction, validation and aggregation. */
module Models {
  import opened Basics
  import opened Json
  import opened Text
  import opened Normalize

  datatype Source = Core | Chnl | Info

  /** One action run: the source that reported it and its canonical job id. */
  datatype Key = Key(source: Source, id: string)

  /** How foreign time text is read: ISO text with a zone, and the backup API's seconds,
      milliseconds or ISO text. Both give UTC microseconds, or nothing. */
  datatype Clock = Clock(iso: string -> Option<int>, api: Value -> Option<int>)

  function Timestamp(clock: Clock, v: Value): Option<int> {
    if v.Str? then clock.iso(v.text) else None
  }

  function ApiTimestamp(clock: Clock, v: Value): Option<int> {
    if v.Bool? then None else clock.api(v)
  }

  function SourceText(s: Source): string {
    match s
    case Core => "core"
    case Chnl => "chnl"
    case Info => "info"
  }

  /** The lookup document id of an action run. */
  function KeyText(k: Key): string {
    SourceText(k.source) + ":" + k.id
  }

  lemma KeyTextInjective(a: Key, b: Key)
    requires KeyText(a) == KeyText(b)
    ensures a == b
  {
    assert KeyText(a)[..4] == SourceText(a.source) && KeyText(b)[..4] == SourceText(b.source);
    assert KeyText(a)[5..] == a.id && KeyText(b)[5..] == b.id;
    assert SourceText(a.source)[1] == SourceText(b.source)[1];
  }

  function ValidateSource(v: Value): Option<Source> {
    var text := if v.Str? then Lower(Strip(v.text)) else "";
    if text == "core" then Some(Core)
    else if text == "chnl" then Some(Chnl)
    else if text == "info" then Some(Info)
    else None
  }

  predicate IsPositiveId(s: string) {
    s != "" && '1' <= s[0] <= '9' && AllDigits(s)
  }

  /** The canonical spelling of a positive id, or nothing. Leading zeroes are refused, not dropped. */
  function PositiveId(v: Value): (r: Option<string>)
    ensures r.Some? ==> IsPositiveId(r.value)
  {
    if v.Str? || v.Int? then
      var text := Strip(if v.Str? then v.text else Decimal(v.n));
      if IsPositiveId(text) then Some(text) else None
    else None
  }

  /** Exactly the positive integers are ids, and a number and its decimal text are one id. */
  lemma IntegerIds(n: int)
    ensures PositiveId(Int(n)) == PositiveId(Str(Decimal(n)))
    ensures PositiveId(Int(n)) == if n > 0 then Some(Decimal(n)) else None
  {
    StripKeeps(Decimal(n));
  }

  datatype Reference = Reference(
    index: Value, id: Value, rawDocumentId: Value, position: Option<nat>, backupId: Option<string>)
  {
    predicate Locatable() {
      rawDocumentId.Truthy() || (index.Truthy() && id.Truthy())
    }
  }

  /** A finding about malformed input, with whatever could still be attributed. */
  datatype Issue = Issue(
    faults: set<string>, source: Option<Source>, actionId: Option<string>, reference: Option<Reference>)

  datatype Attribute = Attribute(key: string, values: seq<string>)

  /** A time as the API sent it, with what `api_timestamp` reads from it. */
  datatype ReportedTime = ReportedTime(raw: Value, at: Option<int>)

  /** Policy, workflow and group of one relationship. */
  datatype Candidate = Candidate(policy: string, workflow: string, group: string)

  datatype Evidence = Evidence(
    source: Source, actionId: string, backupId: Option<string>,
    policy: Name, workflow: Name, group: Name,
    attributes: seq<Attribute>, reference: Reference, observedAt: Option<int>,
    saveTime: ReportedTime, completionTime: ReportedTime)
  {
    function Normalized(): Candidate {
      Candidate(policy.normalized, workflow.normalized, group.normalized)
    }

    function Original(): Candidate {
      Candidate(policy.original, workflow.original, group.original)
    }

    function ActionKey(): Key {
      Key(source, actionId)
    }
  }

  /** Evidence as extraction produces it: a canonical id, and names that normalization gives. */
  predicate Sound(e: Evidence) {
    && IsPositiveId(e.actionId)
    && NormalizeName(Str(e.policy.original), true) == Ok(e.policy)
    && NormalizeName(Str(e.workflow.original), true) == Ok(e.workflow)
    && NormalizeName(Str(e.group.original), false) == Ok(e.group)
  }

  lemma SoundNamesAreDetermined(a: Evidence, b: Evidence)
    requires Sound(a) && Sound(b) && a.Original() == b.Original()
    ensures a.Normalized() == b.Normalized()
  {}

  lemma SoundNamesAreNonEmpty(e: Evidence)
    requires Sound(e)
    ensures e.policy.normalized != "" && e.workflow.normalized != "" && e.group.normalized != ""
  {
    NormalizedNameIsPublishable(Str(e.policy.original), true);
    NormalizedNameIsPublishable(Str(e.workflow.original), true);
    NormalizedNameIsPublishable(Str(e.group.original), false);
  }

  /** The set of values seen under each attribute key. */
  function AttributeValues(attributes: seq<Attribute>): map<string, set<string>> {
    if attributes == [] then map[]
    else
      var before, last := AttributeValues(attributes[..|attributes| - 1]), attributes[|attributes| - 1];
      before[last.key := (if last.key in before then before[last.key] else {}) + (set v | v in last.values)]
  }

  lemma {:induction false} AttributeValuesAre(attributes: seq<Attribute>, key: string)
    ensures key in AttributeValues(attributes) <==> exists a :: a in attributes && a.key == key
    ensures key in AttributeValues(attributes) ==> forall v ::
              v in AttributeValues(attributes)[key] <==> exists a :: a in attributes && a.key == key && v in a.values
  {
    if attributes != [] {
      var before, last := attributes[..|attributes| - 1], attributes[|attributes| - 1];
      assert attributes == before + [last];
      AttributeValuesAre(before, key);
    }
  }

  /** Neither the order of attributes nor their repetition makes another revision. */
  lemma AttributeOrderIsIrrelevant(a: seq<Attribute>, b: seq<Attribute>)
    requires forall x :: x in a <==> x in b
    ensures AttributeValues(a) == AttributeValues(b)
  {
    var left, right := AttributeValues(a), AttributeValues(b);
    forall key
      ensures key in left <==> key in right
      ensures key in left && key in right ==> left[key] == right[key]
    {
      AttributeValuesAre(a, key);
      AttributeValuesAre(b, key);
    }
  }

  /** What makes two observations of a backup the same revision. The digest of a value stands for
      the value; evidence without an id is kept apart by its reference. */
  datatype Fingerprint = Fingerprint(
    id: Option<string>, action: string, original: Candidate, attributes: map<string, set<string>>,
    saveTime: ReportedTime, completionTime: ReportedTime, anonymous: Option<Reference>)

  function FingerprintOf(e: Evidence): Fingerprint {
    Fingerprint(e.backupId, e.actionId, e.Original(), AttributeValues(e.attributes),
                e.saveTime, e.completionTime, if e.backupId.None? then Some(e.reference) else None)
  }

  /** An action-scoped attestation of completeness. */
  datatype Coverage = Coverage(
    source: Source, actionId: string, start: Option<int>, end: Option<int>,
    jobsComplete: bool, backupsComplete: bool, partial: bool, queryWindowGap: bool,
    suffixReviewed: bool, proofReference: string)
  {
    predicate CompleteFor(from: Option<int>, to: Option<int>) {
      && start.Some? && end.Some? && from.Some? && to.Some?
      && jobsComplete && backupsComplete && !partial && !queryWindowGap
      && Strip(proofReference) != ""
      && start.value <= from.value <= to.value <= end.value
    }
  }

  /** `unwrap`: the document inside a search hit, and where it came from. */
  function Unwrap(hit: Value): Result<(Value, Reference), string> {
    if !hit.Object? then Err("invalid_source_document")
    else
      var document := if "_source" in hit.fields then hit.fields["_source"] else hit;
      if !document.Object? then Err("invalid_source_document")
      else Ok((document, Reference(hit.Get("_index"), hit.Get("_id"), Null, None, None)))
  }

  /** `source_of`: every source named must be valid and they must agree. */
  function SourceOf(document: Value, raw: bool): Result<Source, string>
    requires document.Object?
  {
    var payload := document.Get("payload").AsObject();
    var nested := (if raw then payload.Get("summary") else payload).AsObject();
    var outer, inner := document.Get("source_networker"), nested.Get("source_networker");
    if (outer != Null && ValidateSource(outer).None?) || (inner != Null && ValidateSource(inner).None?) then
      Err("unsupported_source_networker")
    else if outer == Null && inner == Null then Err("missing_or_conflicting_source_networker")
    else if outer == Null then Ok(ValidateSource(inner).value)
    else if inner == Null || ValidateSource(inner) == ValidateSource(outer) then Ok(ValidateSource(outer).value)
    else Err("missing_or_conflicting_source_networker")
  }

  // ---- Sources, ids and revisions in their own terms ---------------------------------------------

  /** The sources there are, and the lookup ids they make. */
  lemma SourcesRead(key: Key)
    ensures KeyText(key)
         == (if key.source == Core then "core:" else if key.source == Chnl then "chnl:" else "info:") + key.id
    ensures forall v: Value, s | ValidateSource(v) == Some(s) :: v.Str? && Lower(Strip(v.text)) == SourceText(s)
    ensures forall v: Value | v.Str? && Lower(Strip(v.text)) in ["core", "chnl", "info"] :: ValidateSource(v).Some?
  {}

  /** Case and surrounding white space of a source do not matter. */
  lemma SourcesIgnoreCase()
    ensures ValidateSource(Str(" CHNL\n")) == Some(Chnl) && ValidateSource(Str("Info")) == Some(Info)
    ensures ValidateSource(Str("cOrE")) == Some(Core) && ValidateSource(Str("core2")) == None
  {
    SourceInCapitals();
    SourceCapitalized();
    StripKeeps("core2");
    assert |Lower("core2")| == 5;
  }

  lemma SourceInCapitals()
    ensures ValidateSource(Str(" CHNL\n")) == Some(Chnl)
  {
    StripPadding(" ", "CHNL", "\n");
    assert " CHNL\n" == " " + "CHNL" + "\n";
    assert Lower("CHNL") == "chnl";
  }

  lemma SourceCapitalized()
    ensures ValidateSource(Str("Info")) == Some(Info) && ValidateSource(Str("cOrE")) == Some(Core)
  {
    StripKeeps("Info");
    StripKeeps("cOrE");
    assert Lower("Info") == "info" && Lower("cOrE") == "core";
  }

  /** A document has a source exactly when it names one, outside or inside its payload, and every name it gives
      is of that source. */
  lemma SourceIsNamed(document: Value, raw: bool, s: Source)
    requires document.Object?
    ensures var payload := document.Get("payload").AsObject();
            var nested := (if raw then payload.Get("summary") else payload).AsObject();
            var names := [document.Get("source_networker"), nested.Get("source_networker")];
            SourceOf(document, raw) == Ok(s) <==>
              (exists name :: name in names && name != Null) && forall name | name in names && name != Null ::
                ValidateSource(name) == Some(s)
  {
    var payload := document.Get("payload").AsObject();
    var nested := (if raw then payload.Get("summary") else payload).AsObject();
    var names := [document.Get("source_networker"), nested.Get("source_networker")];
    assert names[0] in names && names[1] in names;
  }

  /** The document is what stands under `_source`, or the hit itself. */
  lemma UnwrapExactly(hit: Value)
    ensures var found := if hit.Object? && "_source" in hit.fields then hit.fields["_source"] else hit;
            if found.Object? && hit.Object? then
              Unwrap(hit).Ok? && Unwrap(hit).value.0 == found
              && Unwrap(hit).value.1.index == hit.Get("_index") && Unwrap(hit).value.1.id == hit.Get("_id")
            else Unwrap(hit).Err?
  {}

  /** The attributes give the value under the key. */
  ghost predicate Gives(attributes: seq<Attribute>, key: string, value: string) {
    exists a :: a in attributes && a.key == key && value in a.values
  }

  ghost predicate GivesKey(attributes: seq<Attribute>, key: string) {
    exists a :: a in attributes && a.key == key
  }

  ghost predicate SameAttributes(a: seq<Attribute>, b: seq<Attribute>) {
    && (forall key :: GivesKey(a, key) <==> GivesKey(b, key))
    && (forall key, value :: Gives(a, key, value) <==> Gives(b, key, value))
  }

  lemma ValuesAreGiven(a: seq<Attribute>, key: string, v: string)
    ensures key in AttributeValues(a) <==> GivesKey(a, key)
    ensures Gives(a, key, v) <==> key in AttributeValues(a) && v in AttributeValues(a)[key]
  {
    AttributeValuesAre(a, key);
  }

  lemma SameAttributesExactly(a: seq<Attribute>, b: seq<Attribute>)
    ensures AttributeValues(a) == AttributeValues(b) <==> SameAttributes(a, b)
  {
    if AttributeValues(a) == AttributeValues(b) {
      SameValuesSameAttributes(a, b);
    }
    if SameAttributes(a, b) {
      SameAttributesSameValues(a, b);
    }
  }

  lemma SameValuesSameAttributes(a: seq<Attribute>, b: seq<Attribute>)
    requires AttributeValues(a) == AttributeValues(b)
    ensures SameAttributes(a, b)
  {
    forall key ensures GivesKey(a, key) <==> GivesKey(b, key) {
      ValuesAreGiven(a, key, "");
      ValuesAreGiven(b, key, "");
    }
    forall key, v ensures Gives(a, key, v) <==> Gives(b, key, v) {
      ValuesAreGiven(a, key, v);
      ValuesAreGiven(b, key, v);
    }
  }

  lemma SameAttributesSameValues(a: seq<Attribute>, b: seq<Attribute>)
    requires SameAttributes(a, b)
    ensures AttributeValues(a) == AttributeValues(b)
  {
    forall key ensures key in AttributeValues(a) <==> key in AttributeValues(b) {
      ValuesAreGiven(a, key, "");
      ValuesAreGiven(b, key, "");
    }
    forall key | key in AttributeValues(a) ensures AttributeValues(a)[key] == AttributeValues(b)[key] {
      ValuesAreGiven(a, key, "");
      ValuesAreGiven(b, key, "");
      forall v ensures v in AttributeValues(a)[key] <==> v in AttributeValues(b)[key] {
        ValuesAreGiven(a, key, v);
        ValuesAreGiven(b, key, v);
      }
    }
  }

  /** Two backups with ids are one revision exactly when id, action, names, attribute values and reported times agree;
      source, observation and place do not matter. */
  lemma SameRevisionExactly(a: Evidence, b: Evidence)
    requires a.backupId.Some? && b.backupId.Some?
    ensures FingerprintOf(a) == FingerprintOf(b) <==>
            && a.backupId == b.backupId && a.actionId == b.actionId
            && a.policy.original == b.policy.original && a.workflow.original == b.workflow.original
            && a.group.original == b.group.original
            && SameAttributes(a.attributes, b.attributes)
            && a.saveTime == b.saveTime && a.completionTime == b.completionTime
  {
    SameAttributesExactly(a.attributes, b.attributes);
  }

  /** Without ids the place where it was read is part of the revision. */
  lemma AnonymousRevisions(a: Evidence, b: Evidence)
    requires a.backupId.None? && b.backupId.None? && FingerprintOf(a) == FingerprintOf(b)
    ensures a.reference == b.reference
  {}
}
