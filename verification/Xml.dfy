/** XML turned into nested dictionaries, and the recursive search for a key in them. */
module Xml {
  import opened Basics
  import opened Text
  import opened Dict

  datatype Element = Element(tag: string, text: string, children: seq<Element>)

  /** What the conversion makes: text, a dictionary in insertion order, or a list of repeated siblings. */
  datatype Obj = Leaf(text: string) | List(items: seq<Obj>) | Dictionary(fields: seq<Entry<string, Obj>>)

  /** The tag without its namespace: what follows the last closing brace. */
  function LocalTag(tag: string): (local: string)
    ensures '}' !in local
    ensures |local| <= |tag| && tag[|tag| - |local|..] == local
    ensures local == tag || tag[|tag| - |local| - 1] == '}'
  {
    if '}' in tag then
      assert tag == [tag[0]] + tag[1..];
      LocalTag(tag[1..])
    else tag
  }

  function ValueOf(e: Element): Obj
    decreases e
  {
    if e.children == [] then Leaf(Strip(e.text)) else Dictionary(Grouped(e.children))
  }

  function Converted(e: Element): Obj {
    Dictionary([Entry(LocalTag(e.tag), ValueOf(e))])
  }

  /** A repeated key collects its values in a list. */
  function Collected(data: seq<Entry<string, Obj>>, key: string, value: Obj): seq<Entry<string, Obj>> {
    var held := Lookup(data, key);
    Put(data, key, if held.None? then value
                   else if held.value.List? then List(held.value.items + [value])
                   else List([held.value, value]))
  }

  function Grouped(children: seq<Element>): seq<Entry<string, Obj>>
    decreases children
  {
    if children == [] then []
    else
      var last := children[|children| - 1];
      Collected(Grouped(children[..|children| - 1]), LocalTag(last.tag), ValueOf(last))
  }

  function AsList(v: Obj): seq<Obj> {
    if v.List? then v.items else [v]
  }

  function FindValues(v: Obj, key: string): seq<Obj>
    decreases v
  {
    match v
    case Leaf(_) => []
    case List(items) => FindInItems(items, key)
    case Dictionary(fields) => FindInFields(fields, key)
  }

  function FindInItems(items: seq<Obj>, key: string): seq<Obj>
    decreases items
  {
    if items == [] then [] else FindValues(items[0], key) + FindInItems(items[1..], key)
  }

  function FindInField(field: Entry<string, Obj>, key: string): seq<Obj>
    decreases field
  {
    (if Lower(field.key) == Lower(key) then AsList(field.value) else []) + FindValues(field.value, key)
  }

  function FindInFields(fields: seq<Entry<string, Obj>>, key: string): seq<Obj>
    decreases fields
  {
    if fields == [] then [] else FindInField(fields[0], key) + FindInFields(fields[1..], key)
  }

  // ---- As the code does it --------------------------------------------------------------------

  method XmlToObj(e: Element) returns (key: string, value: Obj)
    ensures key == LocalTag(e.tag) && value == ValueOf(e)
    decreases e
  {
    key := LocalTag(e.tag);
    if e.children == [] {
      return key, Leaf(Strip(e.text));
    }
    var data: seq<Entry<string, Obj>> := [];
    for i := 0 to |e.children|
      invariant data == Grouped(e.children[..i])
    {
      GroupedNext(e.children, i);
      var childKey, childValue := XmlToObj(e.children[i]);
      data := Collect(data, childKey, childValue);
    }
    assert e.children[..|e.children|] == e.children;
    value := Dictionary(data);
  }

  lemma GroupedNext(children: seq<Element>, i: nat)
    requires i < |children|
    ensures Grouped(children[..i + 1])
         == Collected(Grouped(children[..i]), LocalTag(children[i].tag), ValueOf(children[i]))
  {
    assert children[..i + 1][..i] == children[..i];
  }

  method Collect(data: seq<Entry<string, Obj>>, key: string, value: Obj) returns (after: seq<Entry<string, Obj>>)
    ensures after == Collected(data, key, value)
  {
    after := data;
    if Lookup(after, key).Some? {
      if !Lookup(after, key).value.List? {
        assert [Lookup(data, key).value] + [value] == [Lookup(data, key).value, value];
        PutTwice(after, key, List([Lookup(after, key).value]), List([Lookup(after, key).value, value]));
        after := Put(after, key, List([Lookup(after, key).value]));
      }
      after := Put(after, key, List(Lookup(after, key).value.items + [value]));
    } else {
      after := Put(after, key, value);
    }
  }

  lemma {:induction false} FindInItemsSplits(a: seq<Obj>, b: seq<Obj>, key: string)
    ensures FindInItems(a + b, key) == FindInItems(a, key) + FindInItems(b, key)
  {
    if a == [] {
      assert a + b == b;
    } else {
      assert (a + b)[1..] == a[1..] + b;
      FindInItemsSplits(a[1..], b, key);
    }
  }

  lemma {:induction false} FindInFieldsSplits(a: seq<Entry<string, Obj>>, b: seq<Entry<string, Obj>>, key: string)
    ensures FindInFields(a + b, key) == FindInFields(a, key) + FindInFields(b, key)
  {
    if a == [] {
      assert a + b == b;
    } else {
      assert (a + b)[1..] == a[1..] + b;
      FindInFieldsSplits(a[1..], b, key);
    }
  }

  method Search(value: Obj, key: string) returns (matches: seq<Obj>)
    ensures matches == FindValues(value, key)
    decreases value
  {
    matches := [];
    if value.Dictionary? {
      for i := 0 to |value.fields|
        invariant matches == FindInFields(value.fields[..i], key)
      {
        var entry := value.fields[i];
        assert value.fields[..i + 1] == value.fields[..i] + [entry];
        FindInFieldsSplits(value.fields[..i], [entry], key);
        if Lower(entry.key) == Lower(key) {
          matches := matches + AsList(entry.value);
        }
        var inner := Search(entry.value, key);
        matches := matches + inner;
      }
      assert value.fields[..|value.fields|] == value.fields;
    } else if value.List? {
      for i := 0 to |value.items|
        invariant matches == FindInItems(value.items[..i], key)
      {
        assert value.items[..i + 1] == value.items[..i] + [value.items[i]];
        FindInItemsSplits(value.items[..i], [value.items[i]], key);
        var inner := Search(value.items[i], key);
        matches := matches + inner;
      }
      assert value.items[..|value.items|] == value.items;
    }
  }

  // ---- The search counts elements -------------------------------------------------------------

  /** The converted value of each matching element, the element itself first, then its descendants. */
  function MatchingValues(e: Element, key: string): seq<Obj>
    decreases e
  {
    (if Lower(LocalTag(e.tag)) == Lower(key) then [ValueOf(e)] else []) + MatchingAmong(e.children, key)
  }

  function MatchingAmong(children: seq<Element>, key: string): seq<Obj>
    decreases children
  {
    if children == [] then []
    else MatchingAmong(children[..|children| - 1], key) + MatchingValues(children[|children| - 1], key)
  }

  /** What one dictionary entry gives to a search. */
  function Given(name: string, v: Obj, key: string): multiset<Obj> {
    (if Lower(name) == Lower(key) then multiset(AsList(v)) else multiset{}) + multiset(FindValues(v, key))
  }

  lemma PutTwice(data: seq<Entry<string, Obj>>, name: string, v: Obj, w: Obj)
    ensures Put(Put(data, name, v), name, w) == Put(data, name, w) && Lookup(Put(data, name, v), name) == Some(v)
  {
    assert Position(Put(data, name, v), name) == Position(data, name) by {
      PositionAfterPut(data, name, v);
    }
  }

  lemma {:induction false} PositionAfterPut(data: seq<Entry<string, Obj>>, name: string, v: Obj)
    ensures Position(Put(data, name, v), name) == Position(data, name)
  {
    PutFromFirst(data, name, v);
    if data != [] && data[0].key != name {
      PositionAfterPut(data[1..], name, v);
      assert Put(data, name, v)[1..] == Put(data[1..], name, v);
    }
  }

  lemma FirstField(e: Entry<string, Obj>, rest: seq<Entry<string, Obj>>, key: string)
    ensures multiset(FindInFields([e] + rest, key)) == Given(e.key, e.value, key) + multiset(FindInFields(rest, key))
  {
    assert ([e] + rest)[1..] == rest;
  }

  /** Filing a value that gives `more` than the one before under its key gives the search that much more. */
  lemma {:induction false} PutGives(data: seq<Entry<string, Obj>>, name: string, v: Obj, key: string,
                                    more: multiset<Obj>)
    requires match Lookup(data, name)
             case None => Given(name, v, key) == more
             case Some(held) => Given(name, v, key) == Given(name, held, key) + more
    ensures multiset(FindInFields(Put(data, name, v), key)) == multiset(FindInFields(data, key)) + more
  {
    PutFromFirst(data, name, v);
    if data == [] {
      LoneField(Entry(name, v), key);
    } else if data[0].key == name {
      PutAtHeadGives(data, name, v, key, more);
    } else {
      PutGives(data[1..], name, v, key, more);
      PutBehindHeadGives(data, name, v, key, more);
    }
  }

  lemma PutAtHeadGives(data: seq<Entry<string, Obj>>, name: string, v: Obj, key: string, more: multiset<Obj>)
    requires data != [] && data[0].key == name && Given(name, v, key) == Given(name, data[0].value, key) + more
    ensures multiset(FindInFields(Put(data, name, v), key)) == multiset(FindInFields(data, key)) + more
  {
    PutFromFirst(data, name, v);
    FieldsFromFirst(data, key);
    FirstField(Entry(name, v), data[1..], key);
  }

  lemma PutBehindHeadGives(data: seq<Entry<string, Obj>>, name: string, v: Obj, key: string, more: multiset<Obj>)
    requires data != [] && data[0].key != name
    requires multiset(FindInFields(Put(data[1..], name, v), key)) == multiset(FindInFields(data[1..], key)) + more
    ensures multiset(FindInFields(Put(data, name, v), key)) == multiset(FindInFields(data, key)) + more
  {
    PutFromFirst(data, name, v);
    FieldsFromFirst(data, key);
    FirstField(data[0], Put(data[1..], name, v), key);
  }

  lemma FieldsFromFirst(data: seq<Entry<string, Obj>>, key: string)
    requires data != []
    ensures multiset(FindInFields(data, key))
         == Given(data[0].key, data[0].value, key) + multiset(FindInFields(data[1..], key))
  {
    assert data == [data[0]] + data[1..];
    FirstField(data[0], data[1..], key);
  }

  lemma LoneField(e: Entry<string, Obj>, key: string)
    ensures multiset(FindInFields([e], key)) == Given(e.key, e.value, key)
  {
    FirstField(e, [], key);
    assert [e] + [] == [e] && FindInFields([], key) == [];
  }

  lemma ListGives(name: string, items: seq<Obj>, v: Obj, key: string)
    requires !v.List?
    ensures Given(name, List(items + [v]), key) == Given(name, List(items), key) + Given(name, v, key)
  {
    FindInItemsSplits(items, [v], key);
    LoneItem(v, key);
    assert multiset(items + [v]) == multiset(items) + multiset([v]);
  }

  lemma LoneItem(v: Obj, key: string)
    ensures FindInItems([v], key) == FindValues(v, key)
  {
    assert [v][1..] == [] && FindInItems([], key) == [];
  }

  lemma SingletonGives(name: string, v: Obj, key: string)
    requires !v.List?
    ensures Given(name, List([v]), key) == Given(name, v, key)
  {
    LoneItem(v, key);
  }

  /** Grouping repeated siblings changes nothing for the search. */
  lemma CollectedGives(data: seq<Entry<string, Obj>>, name: string, v: Obj, key: string)
    requires !v.List?
    ensures multiset(FindInFields(Collected(data, name, v), key))
         == multiset(FindInFields(data, key)) + Given(name, v, key)
  {
    var held := Lookup(data, name);
    if held.None? {
      PutGives(data, name, v, key, Given(name, v, key));
    } else if held.value.List? {
      ListGives(name, held.value.items, v, key);
      PutGives(data, name, List(held.value.items + [v]), key, Given(name, v, key));
    } else {
      ListGives(name, [held.value], v, key);
      SingletonGives(name, held.value, key);
      assert [held.value, v] == [held.value] + [v];
      PutGives(data, name, List([held.value, v]), key, Given(name, v, key));
    }
  }

  lemma {:induction false} GroupedGives(children: seq<Element>, key: string)
    ensures multiset(FindInFields(Grouped(children), key)) == multiset(MatchingAmong(children, key))
    decreases children
  {
    if children != [] {
      var before, last := children[..|children| - 1], children[|children| - 1];
      GroupedGives(before, key);
      ElementGives(last, key);
      CollectedGives(Grouped(before), LocalTag(last.tag), ValueOf(last), key);
    }
  }

  lemma {:induction false} ElementGives(e: Element, key: string)
    ensures Given(LocalTag(e.tag), ValueOf(e), key) == multiset(MatchingValues(e, key))
    decreases e
  {
    if e.children != [] {
      GroupedGives(e.children, key);
    }
  }

  /** The search finds each element whose local tag matches, once and with its converted value, however deep
      it lies and however its siblings were grouped. */
  lemma SearchCountsElements(root: Element, key: string)
    ensures multiset(FindValues(Converted(root), key)) == multiset(MatchingValues(root, key))
  {
    ElementGives(root, key);
    LoneField(Entry(LocalTag(root.tag), ValueOf(root)), key);
    SearchesFields([Entry(LocalTag(root.tag), ValueOf(root))], key);
  }

  lemma SearchesFields(fields: seq<Entry<string, Obj>>, key: string)
    ensures FindValues(Dictionary(fields), key) == FindInFields(fields, key)
  {}

  // ---- Slots in segments ----------------------------------------------------------------------

  function IntOf(v: Option<Obj>, parse: string -> Option<int>): Option<int> {
    if v.Some? && v.value.Leaf? then parse(Strip(v.value.text)) else None
  }

  /** A segment counts as many slots as its size says, or one; a segment of text only counts none. */
  function Slots(v: Obj, parse: string -> Option<int>): int {
    if !v.Dictionary? then 0
    else
      var size := IntOf(Lookup(v.fields, "size"), parse);
      if size.Some? then size.value else 1
  }

  function SlotSum(values: seq<Obj>, parse: string -> Option<int>): int {
    if values == [] then 0 else Slots(values[0], parse) + SlotSum(values[1..], parse)
  }

  method SegmentSlotCount(payload: Obj, parse: string -> Option<int>) returns (total: int)
    ensures total == SlotSum(FindValues(payload, "segment"), parse)
  {
    var segments := Search(payload, "segment");
    total := 0;
    for i := 0 to |segments|
      invariant total + SlotSum(segments[i..], parse) == SlotSum(segments, parse)
    {
      assert segments[i..][1..] == segments[i + 1..];
      if segments[i].Dictionary? {
        var size := IntOf(Lookup(segments[i].fields, "size"), parse);
        total := total + if size.Some? then size.value else 1;
      }
    }
  }

  lemma {:induction false} SlotSumWithout(values: seq<Obj>, i: nat, parse: string -> Option<int>)
    requires i < |values|
    ensures SlotSum(values, parse) == Slots(values[i], parse) + SlotSum(values[..i] + values[i + 1..], parse)
  {
    if i == 0 {
      assert values[..0] + values[1..] == values[1..];
    } else {
      SlotSumWithout(values[1..], i - 1, parse);
      assert (values[..i] + values[i + 1..])[1..] == values[1..][..i - 1] + values[1..][i..];
    }
  }

  lemma SameWithout(a: seq<Obj>, b: seq<Obj>, i: nat)
    requires multiset(a) == multiset(b) && a != [] && i < |b| && b[i] == a[0]
    ensures multiset(a[1..]) == multiset(b[..i] + b[i + 1..])
  {
    assert a == [a[0]] + a[1..];
    assert b == b[..i] + [b[i]] + b[i + 1..];
    assert multiset(b) == multiset(b[..i]) + multiset{b[i]} + multiset(b[i + 1..]);
    assert multiset(a) - multiset{a[0]} == multiset(a[1..]);
    assert multiset(b) - multiset{b[i]} == multiset(b[..i] + b[i + 1..]);
  }

  lemma {:induction false} SlotSumOfSame(a: seq<Obj>, b: seq<Obj>, parse: string -> Option<int>)
    requires multiset(a) == multiset(b)
    ensures SlotSum(a, parse) == SlotSum(b, parse)
  {
    if a == [] {
      assert |b| == |multiset(b)| == 0;
    } else {
      assert a[0] in multiset(b);
      var i :| 0 <= i < |b| && b[i] == a[0];
      SlotSumWithout(b, i, parse);
      SameWithout(a, b, i);
      SlotSumOfSame(a[1..], b[..i] + b[i + 1..], parse);
    }
  }

  /** The slot count is that of the document's segment elements, wherever they are. */
  lemma SlotsAreThoseOfSegments(root: Element, parse: string -> Option<int>)
    ensures SlotSum(FindValues(Converted(root), "segment"), parse) == SlotSum(MatchingValues(root, "segment"), parse)
  {
    SearchCountsElements(root, "segment");
    SlotSumOfSame(FindValues(Converted(root), "segment"), MatchingValues(root, "segment"), parse);
  }

  // ---- Objects in their elements' own terms -------------------------------------------------------------

  /** The values of the children with the tag, in order. */
  function ValuesTagged(children: seq<Element>, tag: string): seq<Obj> {
    if children == [] then []
    else
      var before, last := ValuesTagged(children[..|children| - 1], tag), children[|children| - 1];
      if LocalTag(last.tag) == tag then before + [ValueOf(last)] else before
  }

  /** One child with a tag stands for itself, several are listed in order. */
  function Grouping(values: seq<Obj>): Option<Obj> {
    if values == [] then None else if |values| == 1 then Some(values[0]) else Some(List(values))
  }

  lemma {:induction false} ValuesTaggedAreNoLists(children: seq<Element>, tag: string)
    ensures forall v | v in ValuesTagged(children, tag) :: !v.List?
  {
    if children != [] {
      ValuesTaggedAreNoLists(children[..|children| - 1], tag);
    }
  }

  lemma CollectedGroups(data: seq<Entry<string, Obj>>, name: string, v: Obj, values: seq<Obj>)
    requires Distinct(data) && Lookup(data, name) == Grouping(values) && forall w | w in values :: !w.List?
    ensures Distinct(Collected(data, name, v)) && Lookup(Collected(data, name, v), name) == Grouping(values + [v])
    ensures forall other | other != name :: Lookup(Collected(data, name, v), other) == Lookup(data, other)
  {
    var after := if values == [] then v else List(values + [v]);
    if |values| == 1 {
      assert values[0] in values && values + [v] == [values[0], v];
    }
    assert Collected(data, name, v) == Put(data, name, after);
    PutKeepsDistinct(data, name, after);
    forall other
      ensures Lookup(Put(data, name, after), other) == if other == name then Some(after) else Lookup(data, other)
    {
      LookupAfterPut(data, name, after, other);
    }
  }

  lemma {:induction false} GroupedExactly(children: seq<Element>, tag: string)
    ensures Distinct(Grouped(children)) && Lookup(Grouped(children), tag) == Grouping(ValuesTagged(children, tag))
  {
    if children != [] {
      var before, last := children[..|children| - 1], children[|children| - 1];
      GroupedExactly(before, tag);
      GroupedExactly(before, LocalTag(last.tag));
      ValuesTaggedAreNoLists(before, LocalTag(last.tag));
      CollectedGroups(Grouped(before), LocalTag(last.tag), ValueOf(last), ValuesTagged(before, LocalTag(last.tag)));
    }
  }

  /** An element without children becomes its text, stripped; one with children a dictionary in which each tag has its
      child's value, or the list of its children's values in order. */
  lemma ElementsConvert(e: Element, tag: string)
    ensures e.children == [] ==> ValueOf(e) == Leaf(Strip(e.text))
    ensures e.children != [] ==>
              && ValueOf(e).Dictionary? && Distinct(ValueOf(e).fields)
              && Lookup(ValueOf(e).fields, tag) == Grouping(ValuesTagged(e.children, tag))
  {
    GroupedExactly(e.children, tag);
  }

  /** A segment without children has no slots; one with a single size, if that is text that reads as a number, has that
      many; any other has one. */
  lemma SegmentsHaveSlots(e: Element, parse: string -> Option<int>)
    ensures var sizes := ValuesTagged(e.children, "size");
            Slots(ValueOf(e), parse)
            == if e.children == [] then 0
               else if |sizes| == 1 && sizes[0].Leaf? && parse(Strip(sizes[0].text)).Some?
               then parse(Strip(sizes[0].text)).value
               else 1
  {
    ElementsConvert(e, "size");
  }

  /** The same letter, small or capital. */
  predicate SameLetter(a: char, b: char) {
    a == b || ('A' <= a <= 'Z' && b as int == a as int + 32) || ('A' <= b <= 'Z' && a as int == b as int + 32)
  }

  lemma LowersAgree(a: char, b: char)
    ensures LowerChar(a) == LowerChar(b) <==> SameLetter(a, b)
  {}

  lemma LowerExactly(a: string, b: string)
    ensures Lower(a) == Lower(b) <==> |a| == |b| && forall i :: 0 <= i < |a| ==> SameLetter(a[i], b[i])
  {
    if |a| == |b| {
      forall i | 0 <= i < |a| ensures Lower(a)[i] == Lower(b)[i] <==> SameLetter(a[i], b[i]) {
        LowersAgree(a[i], b[i]);
      }
    }
  }

  /** An element without children is found exactly when its name, after any namespace, is the key up to case. */
  lemma SearchIgnoresCase(namespace: string, name: string, text: string, key: string)
    requires '}' !in name
    ensures var found := if |name| == |key| && forall i :: 0 <= i < |name| ==> SameLetter(name[i], key[i])
                         then [Leaf(Strip(text))] else [];
            && MatchingValues(Element(name, text, []), key) == found
            && MatchingValues(Element(namespace + "}" + name, text, []), key) == found
  {
    LocalTagOfNamespace(namespace, name);
    LowerExactly(name, key);
    LeafMatches(Element(name, text, []), key);
    LeafMatches(Element(namespace + "}" + name, text, []), key);
  }

  lemma LeafMatches(e: Element, key: string)
    requires e.children == []
    ensures MatchingValues(e, key) == if Lower(LocalTag(e.tag)) == Lower(key) then [Leaf(Strip(e.text))] else []
  {}

  lemma {:induction false} LocalTagOfNamespace(namespace: string, local: string)
    requires '}' !in local
    ensures LocalTag(namespace + "}" + local) == local
  {
    var tag := namespace + "}" + local;
    assert tag[|namespace|] == '}';
    if namespace == "" {
      assert tag[1..] == local;
    } else {
      assert tag[1..] == namespace[1..] + "}" + local;
      LocalTagOfNamespace(namespace[1..], local);
    }
  }
}
