/** What the redactor does, with its keywords, its marker and its delimiters spelled out. */
module Keywords {
  import opened Text
  import opened Redactor
  import opened Redaction
  import opened Secrecy
  import opened Schemes
  import opened Credentials
  import opened ShownValues
  import opened CarriedCredentials

  /** The seven keywords. */
  predicate IsKeyword(kw: string) {
    || kw == "password=" || kw == "secret=" || kw == "token=" || kw == "api_key=" || kw == "apikey="
    || kw == "bearer " || kw == "basic "
  }

  /** The eight characters that end a value. */
  predicate EndsValue(c: char) {
    c == ' ' || c == '"' || c == '\'' || c == '\n' || c == '\r' || c == '\t' || c == ';' || c == '&'
  }

  predicate IsValue(v: string) {
    forall i :: 0 <= i < |v| ==> !EndsValue(v[i])
  }

  predicate IsRest(rest: string) {
    rest == "" || EndsValue(rest[0])
  }

  /** The marker stands at `at`, and then the text is over or a value ends. */
  predicate MarkedAt(text: string, at: nat) {
    && at + 14 <= |text| && text[at..at + 14] == "***REDACTED***"
    && (at + 14 == |text| || EndsValue(text[at + 14]))
  }

  /** What a keyword is logged as. */
  function Canonical(kw: string): string {
    if kw == "bearer " then "Bearer " else if kw == "basic " then "Basic " else kw
  }

  /** The place of a keyword in the list of the redactor. */
  function Index(kw: string): nat {
    if kw == "password=" then 0 else if kw == "secret=" then 1 else if kw == "token=" then 2
    else if kw == "api_key=" then 3 else if kw == "apikey=" then 4 else if kw == "bearer " then 5 else 6
  }

  lemma {:induction false} ListedKey(kw: string)
    requires IsKeyword(kw)
    ensures Index(kw) < |PATTERNS| && PATTERNS[Index(kw)].key == kw
  {
  }

  lemma {:induction false} ListedReplacement(kw: string)
    requires IsKeyword(kw)
    ensures PATTERNS[Index(kw)].replacement == Canonical(kw) + MARKER
  {
  }

  lemma {:induction false} MarkerText()
    ensures MARKER == "***REDACTED***" && |MARKER| == 14
  {
  }

  lemma {:induction false} SameDelimiters(c: char)
    ensures EndsValue(c) <==> IsDelimiter(c)
  {
  }

  lemma {:induction false} RedactedIsMarked(text: string, p: Pattern, i: nat)
    requires Shape(p) && RedactedAt(text, p, i)
    ensures MarkedAt(text, i + |p.key|)
  {
    MarkerText();
    var at := i + |p.key|;
    forall k | 0 <= k < 14
      ensures text[at + k] == MARKER[k]
    {
      assert text[i + (|p.key| + k)] == p.replacement[|p.key| + k];
    }
    assert text[at..at + 14] == MARKER;
    if at + 14 < |text| {
      SameDelimiters(text[at + 14]);
      assert text[i + |p.replacement|..][0] == text[at + 14];
    }
  }

  /**
   * For every message: wherever one of the seven keywords stands in the lower-cased output, the marker
   * follows, and then the end or a character that ends a value.
   */
  lemma {:induction false} KeywordsAreMarked(s: string, kw: string, i: nat)
    requires IsKeyword(kw)
    requires i + |kw| <= |Sanitized(s)| && Lower(Sanitized(s))[i..i + |kw|] == kw
    ensures MarkedAt(Sanitized(s), i + |kw|)
  {
    var out, k := Sanitized(s), Index(kw);
    ListedKey(kw);
    PatternShaped(k);
    SanitizedIsClean(s);
    SlicedKey(out, kw, i);
    assert Clean(out, PATTERNS[k]);
    RedactedIsMarked(out, PATTERNS[k], i);
  }

  lemma {:induction false} SlicedKey(out: string, kw: string, i: nat)
    requires i + |kw| <= |out| && Lower(out)[i..i + |kw|] == kw
    ensures KeyAt(out, kw, i)
  {
    forall k | 0 <= k < |kw|
      ensures LowerChar(out[i + k]) == kw[k]
    {
      assert Lower(out)[i + k] == Lower(out)[i..i + |kw|][k];
    }
  }

  lemma {:induction false} SpelledKey(c: string, kw: string)
    requires Lower(c) == kw
    ensures |c| == |kw| && KeyAt(c, kw, 0)
  {
    assert Lower(c)[0..|kw|] == kw;
    SlicedKey(c, kw, 0);
  }

  lemma {:induction false} ValueWords(v: string, rest: string)
    requires IsValue(v) && IsRest(rest)
    ensures NoDelimiter(v) && Delimited(rest)
  {
    forall i | 0 <= i < |v|
      ensures !IsDelimiter(v[i])
    {
      SameDelimiters(v[i]);
    }
    if rest != "" {
      SameDelimiters(rest[0]);
    }
  }

  lemma {:induction false} SpelledScheme(c: string, k: nat)
    requires IsScheme(c, k)
    ensures Live(c[..|c| - 1], k)
  {
    SchemesAnnounce();
    SchemeEnds("", c, "", "", k);
    var s := c[..|c| - 1];
    forall i | 0 <= i < |s|
      ensures !IsDelimiter(s[i]) && s[i] != '='
    {
      KeyChar(c, PATTERNS[k].key, 0, i);
    }
    NoEqualsIsBare(s);
    assert LastDelimiter(s) == 0 && s[0..] == s;
    assert s + " " == c;
  }

  /** The keyword stands in the text at `i`, in any case. */
  predicate StandsAt(v: string, kw: string, i: nat) {
    i + |kw| <= |v| && Lower(v)[i..i + |kw|] == kw
  }

  /** None of the five `name=` keywords stands in the value. */
  ghost predicate HoldsNoName(v: string) {
    forall kw, i: nat :: IsKeyword(kw) && kw[|kw| - 1] == '=' ==> !StandsAt(v, kw, i)
  }

  /** The value ends in a "bearer" that takes the word after the space for its own value. */
  ghost predicate TakesNext(v: string, rest: string) {
    && rest != "" && rest[0] == ' '
    && |v| >= 6 && StandsAt(v, "bearer", |v| - 6)
    && HoldsNoName(v)
  }

  lemma {:induction false} NamesSpelled(v: string)
    ensures Bare(" " + v, NAMED) <==> HoldsNoName(v)
  {
    SchemesAnnounce();
    var w := " " + v;
    if HoldsNoName(v) {
      forall k, i | 0 <= k < |NAMED| && 0 <= i <= |w|
        ensures !KeyAt(w, NAMED[k].key, i)
      {
        NamedKey(k);
        if KeyAt(w, NAMED[k].key, i) {
          KeyStands(v, NAMED[k].key, i);
        }
      }
    }
    if Bare(w, NAMED) {
      forall kw, i: nat | IsKeyword(kw) && kw[|kw| - 1] == '='
        ensures !StandsAt(v, kw, i)
      {
        ListedKey(kw);
        assert NAMED[Index(kw)] == PATTERNS[Index(kw)];
        if StandsAt(v, kw, i) {
          StandsKey(v, kw, i);
        }
      }
    }
  }

  lemma {:induction false} NamedKey(k: nat)
    requires k < |NAMED|
    ensures IsKeyword(NAMED[k].key) && NAMED[k].key[0] != ' ' && NAMED[k].key[|NAMED[k].key| - 1] == '='
  {
  }

  lemma {:induction false} KeyStands(v: string, kw: string, i: nat)
    requires kw != "" && kw[0] != ' ' && KeyAt(" " + v, kw, i)
    ensures i > 0 && StandsAt(v, kw, i - 1)
  {
    var w := " " + v;
    assert LowerChar(w[i + 0]) == kw[0];
    forall k | 0 <= k < |kw|
      ensures Lower(v)[i - 1 + k] == kw[k]
    {
      assert LowerChar(w[i + k]) == kw[k];
      assert w[i + k] == v[i - 1 + k];
    }
  }

  lemma {:induction false} StandsKey(v: string, kw: string, i: nat)
    requires StandsAt(v, kw, i)
    ensures KeyAt(" " + v, kw, i + 1)
  {
    SlicedKey(v, kw, i);
    var w := " " + v;
    forall k | 0 <= k < |kw|
      ensures LowerChar(w[i + 1 + k]) == kw[k]
    {
      assert w[i + 1 + k] == v[i + k];
    }
  }

  /** A word after a space ends in a keyword when the keyword's letters stand at its end. */
  lemma {:induction false} EndSpelled(v: string, p: Pattern, name: string)
    requires Announces(p) && p.key == name + " "
    ensures EndsIn(" " + v, p) <==> |v| >= |name| && StandsAt(v, name, |v| - |name|)
  {
    var t := " " + v + " ";
    if EndsIn(" " + v, p) {
      StartsInside(" " + v, p);
      forall k | 0 <= k < |name|
        ensures Lower(v)[|v| - |name| + k] == name[k]
      {
        assert LowerChar(t[|v| + 1 - |name| + k]) == p.key[k];
        assert t[|v| + 1 - |name| + k] == v[|v| - |name| + k];
      }
    }
    if |v| >= |name| && StandsAt(v, name, |v| - |name|) {
      SlicedKey(v, name, |v| - |name|);
      forall k | 0 <= k < |p.key|
        ensures LowerChar(t[|v| + 1 - |name| + k]) == p.key[k]
      {
        if k < |name| {
          assert t[|v| + 1 - |name| + k] == v[|v| - |name| + k];
        }
      }
    }
  }

  lemma {:induction false} BearerSpelled(v: string)
    ensures EndsIn(" " + v, BEARER) <==> |v| >= 6 && StandsAt(v, "bearer", |v| - 6)
  {
    SchemesAnnounce();
    ListedKey("bearer ");
    EndSpelled(v, BEARER, "bearer");
  }

  lemma {:induction false} CarriesSpelled(v: string, rest: string)
    ensures Carries(v, rest) <==> TakesNext(v, rest)
  {
    NamesSpelled(v);
    BearerSpelled(v);
  }

  lemma {:induction false} MarkerSpelled(rest: string)
    requires rest != "" && rest[0] == ' '
    ensures GoesOnRedacted(rest) <==> MarkedAt(rest, 1)
  {
    MarkerText();
    MarkerShape();
    var end := ValueEnd(rest, 1);
    if GoesOnRedacted(rest) {
      assert end == 15;
      if end < |rest| {
        SameDelimiters(rest[end]);
      }
    }
    if MarkedAt(rest, 1) {
      assert forall k :: 0 <= k < 14 ==> rest[1 + k] == rest[1..15][k];
      if 15 < |rest| {
        SameDelimiters(rest[15]);
      }
    }
  }

  /** A keyword, in any case, and no value: the rest is logged as it would be alone. */
  lemma {:induction false} KeywordAlone(kw: string, c: string, rest: string)
    requires IsKeyword(kw) && Lower(c) == kw && Delimited(rest)
    ensures Sanitized(c + rest) == PATTERNS[Index(kw)].replacement + Sanitized(rest)
  {
    SpelledKey(c, kw);
    ListedKey(kw);
    PatternsShaped();
    LoneKeyAt(c, PATTERNS, Index(kw));
    PatternShaped(Index(kw));
    KeyChar(c, kw, 0, |c| - 1);
    LiveEnds(c);
    SanitizedConcat(c, rest);
  }

  /**
   * A message that begins with one of the seven keywords, in any case, and a value: keyword and value are
   * logged as the keyword and the marker, and the rest as it would be alone. The one exception is a value
   * after "basic " that ends in a "bearer" which takes the word after it, unless that is the marker.
   */
  lemma {:induction false} ValuesAreReplaced(kw: string, c: string, v: string, rest: string)
    requires IsKeyword(kw) && Lower(c) == kw && IsValue(v) && IsRest(rest)
    ensures Sanitized(c + v + rest) == Canonical(kw) + "***REDACTED***" + Sanitized(rest)
       <==> !(kw == "basic " && TakesNext(v, rest)) || MarkedAt(rest, 1)
  {
    ValueWords(v, rest);
    KeywordAlone(kw, c, rest);
    ListedReplacement(kw);
    MarkerText();
    ValueIsForgotten(kw, c, v, rest);
  }

  lemma {:induction false} ValueIsForgotten(kw: string, c: string, v: string, rest: string)
    requires IsKeyword(kw) && Lower(c) == kw && NoDelimiter(v) && Delimited(rest)
    ensures Sanitized(c + v + rest) == Sanitized(c + rest)
       <==> !(kw == "basic " && TakesNext(v, rest)) || MarkedAt(rest, 1)
  {
    var k := Index(kw);
    SpelledKey(c, kw);
    ListedKey(kw);
    assert "" + c + v + rest == c + v + rest && "" + c + "" + rest == c + rest;
    if k < ASSIGNMENTS {
      NamedValuesDoNotShow("", c, v, "", rest, k);
    } else if k == ASSIGNMENTS {
      SpelledScheme(c, k);
      assert "" + c[..|c| - 1] == c[..|c| - 1];
      SchemeValuesDoNotShow("", c, v, "", rest, k);
    } else {
      BasicValueIsForgotten(c, v, rest);
    }
  }

  lemma {:induction false} BasicValueIsForgotten(c: string, v: string, rest: string)
    requires Lower(c) == "basic " && NoDelimiter(v) && Delimited(rest)
    ensures Sanitized(c + v + rest) == Sanitized(c + rest) <==> !TakesNext(v, rest) || MarkedAt(rest, 1)
  {
    var s := BasicSplits(c, v, rest);
    assert s + (" " + "" + rest) == c + rest;
    BasicValuesHiddenExactly(s, v, "", rest);
    CarriesSpelled(v, rest);
    CarriesSpelled("", rest);
    if rest != "" && rest[0] == ' ' {
      MarkerSpelled(rest);
    }
  }

  lemma {:induction false} BasicSplits(c: string, v: string, rest: string) returns (s: string)
    requires Lower(c) == "basic "
    ensures LiveBasic(s) && c == s + " " && c + v + rest == s + (" " + v + rest)
  {
    SpelledKey(c, "basic ");
    ListedKey("basic ");
    SpelledScheme(c, 6);
    KeyChar(c, "basic ", 0, 5);
    s := c[..|c| - 1];
  }

  /** The exception: two markers are logged, one for the value and one for the word it takes. */
  lemma {:induction false} BasicTakesNext(c: string, v: string, x: string, rest: string)
    requires Lower(c) == "basic " && IsValue(v) && IsValue(x) && IsRest(rest) && TakesNext(v, " " + x + rest)
    ensures Sanitized(c + v + (" " + x + rest)) == "Basic ***REDACTED*** ***REDACTED***" + Sanitized(rest)
  {
    ValueWords(v, rest);
    ValueWords(x, rest);
    TwoMarkers(c, v, x, rest);
    ListedReplacement("basic ");
    MarkerText();
    TwoMarkersText(Sanitized(rest));
  }

  lemma {:induction false} TwoMarkersText(t: string)
    ensures "Basic " + "***REDACTED***" + (" " + "***REDACTED***" + t) == "Basic ***REDACTED*** ***REDACTED***" + t
  {
    assert "Basic " + "***REDACTED***" + (" " + "***REDACTED***") == "Basic ***REDACTED*** ***REDACTED***";
  }

  lemma {:induction false} TwoMarkers(c: string, v: string, x: string, rest: string)
    requires Lower(c) == "basic " && NoDelimiter(v) && NoDelimiter(x) && Delimited(rest)
    requires TakesNext(v, " " + x + rest)
    ensures Sanitized(c + v + (" " + x + rest)) == PATTERNS[6].replacement + (" " + MARKER + Sanitized(rest))
  {
    var s := BasicSplits(c, v, " " + x + rest);
    CarriesSpelled(v, " " + x + rest);
    BasicCarries(s, v, x, rest);
    BasicStem(c, s);
  }

  lemma {:induction false} BasicStem(c: string, s: string)
    requires Lower(c) == "basic " && LiveBasic(s) && c == s + " "
    ensures Stem(Unborne(s), BASIC) == "" && BASIC.replacement == PATTERNS[6].replacement
  {
    SchemesAnnounce();
    BasicHides(s, "", "");
    assert s + (" " + "" + "") == c + "";
    KeywordAlone("basic ", c, "");
  }
}
