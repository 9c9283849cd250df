/** Failure-compatible datatypes, text helpers and the insertion-ordered dictionary
    that the other modules share. */
module Basics {
  datatype Option<+T> = None | Some(value: T)

  datatype Result<+T, +E> = Ok(value: T) | Err(error: E)
}

/** The text operations the repository relies on. White space and case are the ASCII ones. */
module Text {
  predicate IsSpace(c: char) {
    c == ' ' || c == '\t' || c == '\n' || c == '\r' || c == 11 as char || c == 12 as char
  }

  predicate IsDigit(c: char) {
    '0' <= c <= '9'
  }

  predicate AllSpace(s: string) {
    forall i :: 0 <= i < |s| ==> IsSpace(s[i])
  }

  predicate AllDigits(s: string) {
    forall i :: 0 <= i < |s| ==> IsDigit(s[i])
  }

  /** Text that `strip` leaves alone. */
  predicate Stripped(s: string) {
    s != "" ==> !IsSpace(s[0]) && !IsSpace(s[|s| - 1])
  }

  function StripLeft(s: string): (r: string)
    ensures r != "" ==> !IsSpace(r[0])
  {
    if s != "" && IsSpace(s[0]) then StripLeft(s[1..]) else s
  }

  function StripRight(s: string): (r: string)
    ensures r != "" ==> !IsSpace(r[|r| - 1])
    ensures r == "" || (s != "" && r[0] == s[0])
  {
    if s != "" && IsSpace(s[|s| - 1]) then StripRight(s[..|s| - 1]) else s
  }

  lemma {:induction false} StripLeftSplits(s: string) returns (pad: string)
    ensures AllSpace(pad) && s == pad + StripLeft(s)
  {
    if s != "" && IsSpace(s[0]) {
      var rest := StripLeftSplits(s[1..]);
      pad := [s[0]] + rest;
    } else {
      pad := "";
    }
  }

  lemma {:induction false} StripRightSplits(s: string) returns (pad: string)
    ensures AllSpace(pad) && s == StripRight(s) + pad
  {
    if s != "" && IsSpace(s[|s| - 1]) {
      var rest := StripRightSplits(s[..|s| - 1]);
      pad := rest + [s[|s| - 1]];
    } else {
      pad := "";
    }
  }

  lemma StripSplits(s: string) returns (before: string, after: string)
    ensures AllSpace(before) && AllSpace(after) && s == before + Strip(s) + after
  {
    before := StripLeftSplits(s);
    after := StripRightSplits(StripLeft(s));
  }

  function Strip(s: string): (r: string)
    ensures Stripped(r)
  {
    StripRight(StripLeft(s))
  }

  lemma StripKeeps(s: string)
    requires Stripped(s)
    ensures Strip(s) == s
  {}

  lemma {:induction false} StripLeftPadding(pad: string, s: string)
    requires AllSpace(pad)
    requires s != "" ==> !IsSpace(s[0])
    ensures StripLeft(pad + s) == s
  {
    if pad == "" {
      assert pad + s == s;
    } else {
      assert (pad + s)[1..] == pad[1..] + s;
      StripLeftPadding(pad[1..], s);
    }
  }

  lemma {:induction false} StripRightPadding(s: string, pad: string)
    requires AllSpace(pad)
    requires s != "" ==> !IsSpace(s[|s| - 1])
    ensures StripRight(s + pad) == s
  {
    if pad == "" {
      assert s + pad == s;
    } else {
      assert (s + pad)[..|s + pad| - 1] == s + pad[..|pad| - 1];
      StripRightPadding(s, pad[..|pad| - 1]);
    }
  }

  lemma StripPadding(before: string, s: string, after: string)
    requires AllSpace(before) && AllSpace(after)
    requires s != "" && Stripped(s)
    ensures Strip(before + s + after) == s
  {
    assert before + s + after == before + (s + after);
    StripLeftPadding(before, s + after);
    StripRightPadding(s, after);
  }

  function LowerChar(c: char): char {
    if 'A' <= c <= 'Z' then (c as int + 32) as char else c
  }

  function Lower(s: string): (r: string)
    ensures |r| == |s|
  {
    seq(|s|, i requires 0 <= i < |s| => LowerChar(s[i]))
  }

  /** Lexicographic order on text, strictly below. */
  predicate Below(a: string, b: string)
    decreases |a|
  {
    b != "" && (a == "" || a[0] < b[0] || (a[0] == b[0] && Below(a[1..], b[1..])))
  }

  lemma {:induction false} BelowTotal(a: string, b: string)
    ensures Below(a, b) || Below(b, a) || a == b
    decreases |a|
  {
    if a != "" && b != "" && a[0] == b[0] {
      BelowTotal(a[1..], b[1..]);
      assert a == [a[0]] + a[1..] && b == [b[0]] + b[1..];
    }
  }

  lemma {:induction false} BelowTransitive(a: string, b: string, c: string)
    requires Below(a, b) && Below(b, c)
    ensures Below(a, c)
    decreases |a|
  {
    if a != "" && a[0] == b[0] && b[0] == c[0] {
      BelowTransitive(a[1..], b[1..], c[1..]);
    }
  }

  lemma {:induction false} BelowIrreflexive(a: string)
    ensures !Below(a, a)
    decreases |a|
  {
    if a != "" {
      BelowIrreflexive(a[1..]);
    }
  }

  /** Decimal text of an integer, as `str` writes it. */
  function DecimalOfNat(n: nat): (r: string)
    ensures r != "" && AllDigits(r) && Stripped(r)
    ensures r[0] == '0' <==> n == 0
  {
    if n < 10 then ['0' + n as char] else DecimalOfNat(n / 10) + ['0' + (n % 10) as char]
  }

  function Decimal(n: int): (r: string)
    ensures r != "" && Stripped(r)
    ensures n >= 0 ==> AllDigits(r) && (r[0] == '0' <==> n == 0)
    ensures n < 0 ==> r[0] == '-'
  {
    if n < 0 then "-" + DecimalOfNat(-n) else DecimalOfNat(n)
  }
}

/** A dictionary that remembers insertion order: replacing a value keeps its place. */
module Dict {
  import opened Basics

  datatype Entry<K, V> = Entry(key: K, value: V)

  ghost predicate Distinct<K, V>(d: seq<Entry<K, V>>) {
    forall i, j :: 0 <= i < j < |d| ==> d[i].key != d[j].key
  }

  /** Where `k` is filed, or the length of the dictionary when it is absent. */
  function Position<K(==), V>(d: seq<Entry<K, V>>, k: K): (p: nat)
    ensures p <= |d|
    ensures p < |d| ==> d[p].key == k
    ensures forall i :: 0 <= i < p ==> d[i].key != k
  {
    if d == [] then 0 else if d[0].key == k then 0 else 1 + Position(d[1..], k)
  }

  function Lookup<K(==), V>(d: seq<Entry<K, V>>, k: K): (v: Option<V>)
    ensures v.None? <==> forall i :: 0 <= i < |d| ==> d[i].key != k
    ensures v.Some? ==> Entry(k, v.value) in d
  {
    var p := Position(d, k);
    if p < |d| then Some(d[p].value) else None
  }

  function Put<K(==), V>(d: seq<Entry<K, V>>, k: K, v: V): (r: seq<Entry<K, V>>)
    ensures |d| <= |r| <= |d| + 1
    ensures Entry(k, v) in r
  {
    var p := Position(d, k);
    if p < |d| then
      assert d[p := Entry(k, v)][p] == Entry(k, v);
      d[p := Entry(k, v)]
    else
      assert (d + [Entry(k, v)])[|d|] == Entry(k, v);
      d + [Entry(k, v)]
  }

  function Values<K, V>(d: seq<Entry<K, V>>): (r: seq<V>)
    ensures |r| == |d|
  {
    seq(|d|, i requires 0 <= i < |d| => d[i].value)
  }

  /** Filing, entry by entry from the first. */
  lemma PutFromFirst<K, V>(d: seq<Entry<K, V>>, k: K, v: V)
    ensures d == [] ==> Put(d, k, v) == [Entry(k, v)] && Lookup(d, k).None?
    ensures d != [] && d[0].key == k ==> Put(d, k, v) == [Entry(k, v)] + d[1..] && Lookup(d, k) == Some(d[0].value)
    ensures d != [] && d[0].key != k ==> Put(d, k, v) == [d[0]] + Put(d[1..], k, v) && Lookup(d, k) == Lookup(d[1..], k)
  {}

  lemma PutKeepsDistinct<K, V>(d: seq<Entry<K, V>>, k: K, v: V)
    requires Distinct(d)
    ensures Distinct(Put(d, k, v))
  {}

  lemma LookupIsUnique<K, V>(d: seq<Entry<K, V>>, e: Entry<K, V>)
    requires Distinct(d) && e in d
    ensures Lookup(d, e.key) == Some(e.value)
  {
    var i :| 0 <= i < |d| && d[i] == e;
    var p := Position(d, e.key);
    assert d[p].key == d[i].key;
  }

  /** Filing under one key is seen by that key only. */
  lemma LookupAfterPut<K, V>(d: seq<Entry<K, V>>, k: K, v: V, other: K)
    requires Distinct(d)
    ensures Lookup(Put(d, k, v), other) == if other == k then Some(v) else Lookup(d, other)
  {
    var r := Put(d, k, v);
    PutKeepsDistinct(d, k, v);
    if other == k {
      LookupIsUnique(r, Entry(k, v));
    } else {
      match Lookup(d, other)
      case Some(w) =>
        var i :| 0 <= i < |d| && d[i] == Entry(other, w);
        assert r[i] == d[i];
        LookupIsUnique(r, Entry(other, w));
      case None =>
        forall i | 0 <= i < |r| ensures r[i].key != other {}
    }
  }
}

/** JSON documents as the read transport delivers them. */
module Json {
  datatype Value =
    | Null
    | Bool(flag: bool)
    | Int(n: int)
    | Real(r: real)
    | Str(text: string)
    | List(items: seq<Value>)
    | Object(fields: map<string, Value>)
  {
    /** `dict.get`: a missing field reads as null. */
    function Get(name: string): Value
      requires Object?
    {
      if name in fields then fields[name] else Null
    }

    /** `value if isinstance(value, dict) else {}` */
    function AsObject(): (v: Value)
      ensures v.Object?
    {
      if Object? then this else Object(map[])
    }

    predicate Truthy() {
      match this
      case Null => false
      case Bool(b) => b
      case Int(n) => n != 0
      case Real(r) => r != 0.0
      case Str(s) => s != ""
      case List(l) => l != []
      case Object(f) => f != map[]
    }
  }
}
