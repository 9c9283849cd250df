/** Naming rules: the trailing ASCII numeric suffix of a policy or workflow name. */
module Normalize {
  import opened Basics
  import opened Json
  import opened Text

  /** A name as observed, what is compared, and the suffix taken off. */
  datatype Name = Name(original: string, normalized: string, suffix: Option<string>)

  function LastColon(s: string): (p: nat)
    ensures p <= |s|
    ensures p < |s| ==> s[p] == ':'
    ensures forall i :: (if p < |s| then p else -1) < i < |s| ==> s[i] != ':'
  {
    if s == "" then 0
    else if s[|s| - 1] == ':' then |s| - 1
    else
      var p := LastColon(s[..|s| - 1]);
      if p < |s| - 1 then p else |s|
  }

  /** What the suffix pattern accepts: name, colon, spaces, digits, spaces. A dot matches no newline. */
  ghost predicate Matches(text: string, name: string, digits: string) {
    && name != "" && '\n' !in name
    && digits != "" && AllDigits(digits)
    && exists gap, tail :: AllSpace(gap) && AllSpace(tail) && text == name + ":" + gap + digits + tail
  }

  function SplitSuffix(text: string): Option<(string, string)> {
    var c := LastColon(text);
    if c == 0 || c == |text| || '\n' in text[..c] then None
    else
      var digits := Strip(text[c + 1..]);
      if digits == "" || !AllDigits(digits) then None else Some((text[..c], digits))
  }

  /** A colon and digits with no name in front. */
  predicate BareSuffix(text: string) {
    && text != "" && text[0] == ':'
    && var digits := StripLeft(text[1..]);
       digits != "" && AllDigits(digits)
  }

  function NormalizeName(value: Value, stripSuffix: bool): (r: Result<Name, string>) {
    if !value.Str? || Strip(value.text) == "" then Err("empty_or_invalid_name")
    else
      var text := Strip(value.text);
      if stripSuffix && BareSuffix(text) then Err("empty_name_before_suffix")
      else if stripSuffix && SplitSuffix(text).Some? then
        var (left, digits) := SplitSuffix(text).value;
        var name := Strip(left);
        if name == "" then Err("empty_name_before_suffix")
        else Ok(Name(value.text, name, Some(digits)))
      else Ok(Name(value.text, text, None))
  }

  lemma LastColonUnique(s: string, p: nat)
    requires p < |s| && s[p] == ':'
    requires forall i :: p < i < |s| ==> s[i] != ':'
    ensures LastColon(s) == p
  {}

  lemma DigitsAreStripped(digits: string)
    requires AllDigits(digits)
    ensures Stripped(digits)
  {
    if digits != "" {
      assert IsDigit(digits[0]) && IsDigit(digits[|digits| - 1]);
    }
  }

  lemma MatchIsFound(text: string, name: string, gap: string, digits: string, tail: string)
    requires name != "" && '\n' !in name && digits != "" && AllDigits(digits)
    requires AllSpace(gap) && AllSpace(tail) && text == name + ":" + gap + digits + tail
    ensures SplitSuffix(text) == Some((name, digits))
  {
    var rest := gap + digits + tail;
    assert text == name + ":" + rest;
    forall i | |name| < i < |text| ensures text[i] != ':' {
      var k := i - |name| - 1;
      assert text[i] == rest[k];
      assert k < |gap| ==> IsSpace(gap[k]);
      assert |gap| <= k < |gap| + |digits| ==> IsDigit(digits[k - |gap|]);
      assert |gap| + |digits| <= k ==> IsSpace(tail[k - |gap| - |digits|]);
    }
    LastColonUnique(text, |name|);
    assert text[..|name|] == name && text[|name| + 1..] == rest;
    DigitsAreStripped(digits);
    StripPadding(gap, digits, tail);
  }

  /** The pattern and the last colon agree: at most one split exists, and it is the one found. */
  lemma SuffixSplitIsExact(text: string, name: string, digits: string)
    ensures Matches(text, name, digits) <==> SplitSuffix(text) == Some((name, digits))
  {
    if Matches(text, name, digits) {
      var gap, tail :| AllSpace(gap) && AllSpace(tail) && text == name + ":" + gap + digits + tail;
      MatchIsFound(text, name, gap, digits, tail);
    }
    if SplitSuffix(text) == Some((name, digits)) {
      SplitMatches(text, name, digits);
    }
  }

  lemma SplitMatches(text: string, name: string, digits: string)
    requires SplitSuffix(text) == Some((name, digits))
    ensures Matches(text, name, digits)
  {
    var c := LastColon(text);
    var rest := text[c + 1..];
    var gap, tail := StripSplits(rest);
    assert text == name + ":" + rest;
    PartsJoin(name, gap, digits, tail);
  }

  lemma PartsJoin(name: string, gap: string, digits: string, tail: string)
    ensures name + ":" + (gap + digits + tail) == name + ":" + gap + digits + tail
  {}

  lemma BareSuffixHasOneColon(text: string)
    requires BareSuffix(text)
    ensures ':' !in text[1..]
  {
    var digits := StripLeft(text[1..]);
    var gap := StripLeftSplits(text[1..]);
    forall i | 0 <= i < |text[1..]| ensures text[1..][i] != ':' {
      assert (gap + digits)[i] == if i < |gap| then gap[i] else digits[i - |gap|];
    }
  }

  /** Whatever the name contains, appending a suffix and normalizing gives the name back. */
  lemma SuffixRoundTrip(name: string, gap: string, digits: string, before: string, after: string)
    requires name != "" && Stripped(name) && '\n' !in name
    requires digits != "" && AllDigits(digits)
    requires AllSpace(gap) && AllSpace(before) && AllSpace(after)
    ensures var written := before + (name + ":" + gap + digits) + after;
            NormalizeName(Str(written), true) == Ok(Name(written, name, Some(digits)))
  {
    var text := name + ":" + gap + digits;
    SuffixedIsStripped(name, gap, digits);
    StripPadding(before, text, after);
    assert text == name + ":" + gap + digits + "";
    MatchIsFound(text, name, gap, digits, "");
    StripKeeps(name);
    SuffixedIsNotBare(name, gap, digits);
  }

  lemma SuffixedIsStripped(name: string, gap: string, digits: string)
    requires name != "" && Stripped(name) && digits != "" && AllDigits(digits)
    ensures Stripped(name + ":" + gap + digits)
  {
    var text := name + ":" + gap + digits;
    assert text[0] == name[0] && text[|text| - 1] == digits[|digits| - 1];
    assert IsDigit(digits[|digits| - 1]);
  }

  lemma SuffixedIsNotBare(name: string, gap: string, digits: string)
    requires name != ""
    ensures !BareSuffix(name + ":" + gap + digits)
  {
    var text := name + ":" + gap + digits;
    assert text[1..][|name| - 1] == ':';
    if BareSuffix(text) {
      BareSuffixHasOneColon(text);
    }
  }

  /** An accepted name is never empty or padded, and loses text only to an exact suffix match. */
  lemma NormalizedNameIsPublishable(value: Value, stripSuffix: bool)
    ensures var r := NormalizeName(value, stripSuffix);
            r.Ok? ==>
              && value == Str(r.value.original)
              && r.value.normalized != "" && Stripped(r.value.normalized)
              && (r.value.suffix.None? ==> r.value.normalized == Strip(r.value.original))
              && (r.value.suffix.Some? <==>
                  stripSuffix && exists left, digits :: Matches(Strip(r.value.original), left, digits))
              && (r.value.suffix.Some? ==> exists left ::
                  Matches(Strip(r.value.original), left, r.value.suffix.value) && r.value.normalized == Strip(left))
  {
    var r := NormalizeName(value, stripSuffix);
    if r.Ok? {
      var text := Strip(value.text);
      if r.value.suffix.Some? {
        var (left, digits) := SplitSuffix(text).value;
        SuffixSplitIsExact(text, left, digits);
      } else if stripSuffix {
        forall left, digits ensures !Matches(text, left, digits) {
          SuffixSplitIsExact(text, left, digits);
        }
      }
    }
  }

  /** A name is refused exactly when it is no text, is blank, is nothing but a suffix, or is blank before its suffix. */
  lemma RefusedNamesExactly(value: Value, stripSuffix: bool)
    ensures NormalizeName(value, stripSuffix).Err? <==>
            || !value.Str? || Strip(value.text) == ""
            || (stripSuffix && exists gap, digits :: IsBareSuffix(Strip(value.text), gap, digits))
            || (stripSuffix && exists left, digits :: Matches(Strip(value.text), left, digits) && Strip(left) == "")
  {
    if value.Str? && Strip(value.text) != "" {
      var text := Strip(value.text);
      BareSuffixExactly(text);
      forall left, digits ensures Matches(text, left, digits) <==> SplitSuffix(text) == Some((left, digits)) {
        SuffixSplitIsExact(text, left, digits);
      }
    }
  }

  ghost predicate IsBareSuffix(text: string, gap: string, digits: string) {
    text == ":" + gap + digits && AllSpace(gap) && digits != "" && AllDigits(digits)
  }

  lemma BareSuffixExactly(text: string)
    ensures BareSuffix(text) <==> exists gap, digits :: IsBareSuffix(text, gap, digits)
  {
    if BareSuffix(text) {
      var gap := StripLeftSplits(text[1..]);
      assert text == ":" + text[1..];
      assert IsBareSuffix(text, gap, StripLeft(text[1..]));
    }
    if gap, digits :| IsBareSuffix(text, gap, digits) {
      assert text[1..] == gap + digits;
      DigitsAreStripped(digits);
      StripLeftPadding(gap, digits);
    }
  }
}
