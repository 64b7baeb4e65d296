/** What the redactor guarantees for every message. */
module Redaction {
  import opened Text
  import opened Redactor

  /** A keyword ends in '=' or ' ', and neither these, nor a delimiter, nor '*' occurs before its end. */
  predicate KeyShape(key: string) {
    && |key| >= 2
    && IsTerminator(key[|key| - 1])
    && forall k :: 0 <= k < |key| - 1 ==> IsInner(key[k])
  }

  predicate IsTerminator(c: char) {
    c == '=' || c == ' '
  }

  predicate IsInner(c: char) {
    !IsTerminator(c) && !IsDelimiter(c) && c != '*'
  }

  /** The replacement is the keyword, in some case, and the marker. */
  predicate Shape(p: Pattern) {
    && KeyShape(p.key)
    && |p.replacement| == |p.key| + |MARKER|
    && KeyAt(p.replacement, p.key, 0)
    && OccursAt(p.replacement, MARKER, |p.key|)
  }

  /** No keyword of the list ends another one. */
  predicate Apart(p: Pattern, q: Pattern) {
    |p.key| <= |q.key| ==> !OccursAt(q.key, p.key, |q.key| - |p.key|)
  }

  predicate AllShaped(ps: seq<Pattern>) {
    && (forall i :: 0 <= i < |ps| ==> Shape(ps[i]))
    && forall i, j :: 0 <= i < |ps| && 0 <= j < |ps| && i != j ==> Apart(ps[i], ps[j])
  }

  /** `p`'s replacement stands at `i`, and a delimiter or the end of the message follows it. */
  predicate RedactedAt(s: string, p: Pattern, i: nat) {
    && OccursAt(s, p.replacement, i)
    && Delimited(s[i + |p.replacement|..])
  }

  /** Every occurrence of the keyword, in any case, is redacted. */
  ghost predicate Clean(s: string, p: Pattern) {
    forall i: nat :: KeyAt(s, p.key, i) ==> RedactedAt(s, p, i)
  }

  lemma MarkerShape()
    ensures |MARKER| == 14 && MARKER[0] == '*' && MARKER[13] == '*'
    ensures forall k :: 0 <= k < |MARKER| ==> !IsTerminator(LowerChar(MARKER[k])) && !IsDelimiter(MARKER[k])
  {
  }

  lemma DelimiterHasNoCase(c: char)
    ensures IsDelimiter(LowerChar(c)) <==> IsDelimiter(c)
  {
  }

  lemma {:induction false} KeyChar(s: string, key: string, i: nat, x: nat)
    requires KeyShape(key) && KeyAt(s, key, i) && i <= x < i + |key|
    ensures
      if x == i + |key| - 1 then IsTerminator(LowerChar(s[x]))
      else IsInner(LowerChar(s[x])) && !IsDelimiter(s[x])
  {
    assert LowerChar(s[i + (x - i)]) == key[x - i];
    DelimiterHasNoCase(s[x]);
  }

  lemma {:induction false} MarkerChar(s: string, m: nat, x: nat)
    requires OccursAt(s, MARKER, m) && m <= x < m + |MARKER|
    ensures !IsTerminator(LowerChar(s[x]))
    ensures x == m + |MARKER| - 1 ==> s[x] == '*'
  {
    MarkerShape();
    assert s[m + (x - m)] == MARKER[x - m];
  }

  /** A keyword never overlaps a marker. */
  lemma {:induction false} KeyMissesMarker(s: string, key: string, i: nat, m: nat)
    requires KeyShape(key) && KeyAt(s, key, i) && OccursAt(s, MARKER, m)
    ensures i + |key| <= m || i >= m + |MARKER|
  {
    var last, star := i + |key| - 1, m + |MARKER| - 1;
    if m <= last <= star {
      KeyChar(s, key, i, last);
      MarkerChar(s, m, last);
    } else if last > star >= i {
      KeyChar(s, key, i, star);
      MarkerChar(s, m, star);
    }
  }

  lemma {:induction false} KeyShift(h: string, t: string, key: string, i: nat)
    ensures KeyAt(h + t, key, |h| + i) <==> KeyAt(t, key, i)
  {
  }

  lemma {:induction false} RedactedShift(h: string, t: string, p: Pattern, i: nat)
    ensures RedactedAt(h + t, p, |h| + i) <==> RedactedAt(t, p, i)
  {
    if i + |p.replacement| <= |t| {
      assert (h + t)[|h| + i + |p.replacement|..] == t[i + |p.replacement|..];
    }
  }

  /** Splicing a replacement in creates no occurrence: each lies wholly before the marker or after it. */
  lemma {:induction false} KeyInSplice(b: string, p: Pattern, t: string, key: string, j: nat)
    requires Shape(p) && KeyShape(key)
    requires KeyAt(b + p.replacement + t, key, j)
    ensures
      || j + |key| <= |b| + |p.key|
      || (j >= |b| + |p.replacement| && KeyAt(t, key, j - |b| - |p.replacement|))
  {
    var out := b + p.replacement + t;
    assert OccursAt(out, MARKER, |b| + |p.key|) by {
      forall k | 0 <= k < |MARKER|
        ensures out[|b| + |p.key| + k] == MARKER[k]
      {
        assert p.replacement[|p.key| + k] == MARKER[k];
      }
    }
    KeyMissesMarker(out, key, j, |b| + |p.key|);
    if j >= |b| + |p.replacement| {
      KeyShift(b + p.replacement, t, key, j - |b| - |p.replacement|);
    }
  }

  /** The part of a splice up to the marker differs from the message only in case. */
  lemma {:induction false} KeyBeforeMarker(
    s: string, p: Pattern, b: string, c: string, v: string, a: string, t: string, key: string, j: nat)
    requires Shape(p) && Splits(s, p, b, c, v, a)
    requires j + |key| <= |b| + |p.key|
    ensures KeyAt(b + p.replacement + t, key, j) <==> KeyAt(s, key, j)
  {
    var out := b + p.replacement + t;
    forall x | 0 <= x < |b| + |p.key|
      ensures LowerChar(out[x]) == LowerChar(s[x])
    {
      if x >= |b| {
        assert LowerChar(s[|b| + (x - |b|)]) == p.key[x - |b|];
        assert LowerChar(p.replacement[0 + (x - |b|)]) == p.key[x - |b|];
      }
    }
  }

  lemma {:induction false} PassStaysDelimited(s: string, p: Pattern)
    requires Shape(p)
    requires Delimited(s)
    ensures Delimited(Pass(s, p))
  {
    if FindKey(s, p.key, 0) <= |s| {
      var b, c, v, a := GetSplit(s, p);
      PassSplits(s, p, b, c, v, a);
      KeyChar(s, p.key, |b|, |b|);
    }
  }

  /** After its pass, every occurrence of a keyword is redacted. */
  lemma {:induction false} PassCleans(s: string, p: Pattern)
    requires Shape(p)
    ensures Clean(Pass(s, p), p)
    decreases |s|
  {
    if FindKey(s, p.key, 0) > |s| {
      assert forall i: nat :: !KeyAt(s, p.key, i);
    } else {
      var b, c, v, a := GetSplit(s, p);
      PassSplits(s, p, b, c, v, a);
      PassCleans(a, p);
      PassStaysDelimited(a, p);
      SpliceCleans(s, p, b, c, v, a, Pass(a, p));
    }
  }

  lemma {:induction false} SpliceCleans(s: string, p: Pattern, b: string, c: string, v: string, a: string, t: string)
    requires Shape(p) && Splits(s, p, b, c, v, a)
    requires Clean(t, p) && Delimited(t)
    ensures Clean(b + p.replacement + t, p)
  {
    forall j: nat | KeyAt(b + p.replacement + t, p.key, j)
      ensures RedactedAt(b + p.replacement + t, p, j)
    {
      KeyInSplice(b, p, t, p.key, j);
      if j + |p.key| <= |b| + |p.key| {
        KeyBeforeMarker(s, p, b, c, v, a, t, p.key, j);
        assert j == |b|;
        SpliceRedacts(b, p, t);
      } else {
        RedactedShift(b + p.replacement, t, p, j - |b| - |p.replacement|);
      }
    }
  }

  lemma {:induction false} SpliceRedacts(b: string, p: Pattern, t: string)
    requires Delimited(t)
    ensures RedactedAt(b + p.replacement + t, p, |b|)
  {
    assert (b + p.replacement + t)[|b| + |p.replacement|..] == t;
  }

  /** A later pass keeps what an earlier one established. */
  lemma {:induction false} PassPreserves(s: string, p: Pattern, q: Pattern)
    requires Shape(p) && Shape(q) && Apart(p, q) && Apart(q, p)
    requires Clean(s, q)
    ensures Clean(Pass(s, p), q)
    decreases |s|
  {
    if FindKey(s, p.key, 0) <= |s| {
      var b, c, v, a := GetSplit(s, p);
      PassSplits(s, p, b, c, v, a);
      CleanSuffix(b + c + v, a, q);
      PassPreserves(a, p, q);
      SplicePreserves(s, p, q, b, c, v, a, Pass(a, p));
    }
  }

  lemma {:induction false} SplicePreserves(
    s: string, p: Pattern, q: Pattern, b: string, c: string, v: string, a: string, t: string)
    requires Shape(p) && Shape(q) && Apart(p, q) && Apart(q, p)
    requires Splits(s, p, b, c, v, a)
    requires Clean(s, q) && Clean(t, q)
    ensures Clean(b + p.replacement + t, q)
  {
    forall j: nat | KeyAt(b + p.replacement + t, q.key, j)
      ensures RedactedAt(b + p.replacement + t, q, j)
    {
      KeyInSplice(b, p, t, q.key, j);
      if j + |q.key| <= |b| + |p.key| {
        KeyBeforeMarker(s, p, b, c, v, a, t, q.key, j);
        RedactedBefore(s, p, q, b, c, v, a, j);
        RedactedKept(s, p, q, b, c, v, a, t, j);
      } else {
        RedactedShift(b + p.replacement, t, q, j - |b| - |p.replacement|);
      }
    }
  }

  lemma {:induction false} CleanSuffix(h: string, t: string, p: Pattern)
    requires Clean(h + t, p)
    ensures Clean(t, p)
  {
    forall i: nat | KeyAt(t, p.key, i)
      ensures RedactedAt(t, p, i)
    {
      KeyShift(h, t, p.key, i);
      RedactedShift(h, t, p, i);
    }
  }

  /** An already redacted keyword that starts before `p`'s next occurrence ends, with its marker, before it. */
  lemma {:induction false} RedactedBefore(
    s: string, p: Pattern, q: Pattern, b: string, c: string, v: string, a: string, j: nat)
    requires Shape(p) && Shape(q) && Apart(p, q) && Apart(q, p)
    requires Splits(s, p, b, c, v, a)
    requires KeyAt(s, q.key, j) && j + |q.key| <= |b| + |p.key|
    requires RedactedAt(s, q, j)
    ensures j + |q.replacement| < |b|
  {
    assert OccursAt(s, MARKER, j + |q.key|) by {
      forall k | 0 <= k < |MARKER|
        ensures s[j + |q.key| + k] == MARKER[k]
      {
        assert q.replacement[|q.key| + k] == MARKER[k];
        assert s[j + (|q.key| + k)] == q.replacement[|q.key| + k];
      }
    }
    KeyMissesMarker(s, p.key, |b|, j + |q.key|);
    if |b| + |p.key| == j + |q.key| {
      SameEnd(s, p.key, q.key, |b|, j);
    } else {
      KeyChar(s, p.key, |b|, |b|);
      var end := j + |q.replacement|;
      assert end < |s| && s[end..][0] == s[end];
    }
  }

  /** Two keywords that end at the same place: the shorter one ends the longer one. */
  lemma {:induction false} SameEnd(s: string, k1: string, k2: string, i: nat, j: nat)
    requires KeyAt(s, k1, i) && KeyAt(s, k2, j)
    requires i + |k1| == j + |k2|
    ensures |k1| <= |k2| ==> OccursAt(k2, k1, |k2| - |k1|)
    ensures |k2| <= |k1| ==> OccursAt(k1, k2, |k1| - |k2|)
  {
    if |k1| <= |k2| {
      forall k | 0 <= k < |k1|
        ensures k2[|k2| - |k1| + k] == k1[k]
      {
        assert LowerChar(s[i + k]) == k1[k];
        assert LowerChar(s[j + (|k2| - |k1| + k)]) == k2[|k2| - |k1| + k];
      }
    }
    if |k2| <= |k1| {
      forall k | 0 <= k < |k2|
        ensures k1[|k1| - |k2| + k] == k2[k]
      {
        assert LowerChar(s[j + k]) == k2[k];
        assert LowerChar(s[i + (|k1| - |k2| + k)]) == k1[|k1| - |k2| + k];
      }
    }
  }

  lemma {:induction false} RedactedKept(
    s: string, p: Pattern, q: Pattern, b: string, c: string, v: string, a: string, t: string, j: nat)
    requires Splits(s, p, b, c, v, a)
    requires RedactedAt(s, q, j) && j + |q.replacement| < |b|
    ensures RedactedAt(b + p.replacement + t, q, j)
  {
    var out := b + p.replacement + t;
    var end := j + |q.replacement|;
    forall k | 0 <= k < |q.replacement|
      ensures out[j + k] == q.replacement[k]
    {
      assert s[j + k] == q.replacement[k] && s[j + k] == b[j + k];
    }
    assert out[end..][0] == b[end] && s[end..][0] == b[end];
  }

  /** A pass leaves a message alone when the keyword is already redacted everywhere. */
  lemma {:induction false} PassKeepsClean(s: string, p: Pattern)
    requires Shape(p)
    requires Clean(s, p)
    ensures Pass(s, p) == s
    decreases |s|
  {
    if FindKey(s, p.key, 0) <= |s| {
      var b, c, v, a := GetSplit(s, p);
      PassSplits(s, p, b, c, v, a);
      RedactedSplit(s, p, b, c, v, a);
      CleanSuffix(b + c + v, a, p);
      PassKeepsClean(a, p);
    }
  }

  /** The value of a redacted keyword is the marker. */
  lemma {:induction false} RedactedSplit(s: string, p: Pattern, b: string, c: string, v: string, a: string)
    requires Shape(p) && Splits(s, p, b, c, v, a)
    requires RedactedAt(s, p, |b|)
    ensures b + p.replacement + a == s
  {
    MarkerShape();
    var end := |b| + |p.replacement|;
    var head := b + c;
    assert s == head + s[|head|..end] + s[end..];
    assert NoDelimiter(s[|head|..end]) by {
      forall k | 0 <= k < |MARKER|
        ensures s[|head|..end][k] == MARKER[k]
      {
        assert p.replacement[|p.key| + k] == MARKER[k];
        assert s[|b| + (|p.key| + k)] == p.replacement[|p.key| + k];
      }
    }
    ValueEndIs(head, s[|head|..end], s[end..]);
    ValueEndIs(head, v, a);
    assert |head + v| == end;
    assert s[end..] == a;
    assert s[|b|..end] == p.replacement;
  }

  /** Every listed keyword is redacted wherever it occurs. */
  ghost predicate AllClean(s: string, ps: seq<Pattern>) {
    forall k :: 0 <= k < |ps| ==> Clean(s, ps[k])
  }

  lemma {:induction false} PassesClean(s: string, done: seq<Pattern>, ps: seq<Pattern>)
    requires AllShaped(done + ps) && AllShaped(ps)
    requires AllClean(s, done)
    ensures AllClean(Passes(s, ps), done + ps)
    decreases |ps|
  {
    var all := done + ps;
    assert forall k :: 0 <= k < |ps| ==> ps[k] == all[|done| + k];
    assert forall k :: 0 <= k < |done| ==> done[k] == all[k];
    if ps == [] {
      assert all == done;
    } else {
      var p := ps[0];
      assert p == all[|done|];
      PassCleans(s, p);
      forall k | 0 <= k < |done|
        ensures Clean(Pass(s, p), done[k])
      {
        assert Apart(all[k], all[|done|]) && Apart(all[|done|], all[k]);
        PassPreserves(s, p, done[k]);
      }
      assert done + [p] + ps[1..] == all;
      PassesClean(Pass(s, p), done + [p], ps[1..]);
    }
  }

  lemma {:induction false} PassesKeepClean(s: string, ps: seq<Pattern>)
    requires AllShaped(ps)
    requires AllClean(s, ps)
    ensures Passes(s, ps) == s
    decreases |ps|
  {
    if ps != [] {
      PassKeepsClean(s, ps[0]);
      assert forall k :: 0 <= k < |ps[1..]| ==> ps[1..][k] == ps[k + 1];
      PassesKeepClean(s, ps[1..]);
    }
  }

  lemma {:induction false} PatternsShaped()
    ensures AllShaped(PATTERNS)
  {
    forall i | 0 <= i < |PATTERNS|
      ensures Shape(PATTERNS[i])
    {
      PatternShaped(i);
    }
    forall i, j | 0 <= i < |PATTERNS| && 0 <= j < |PATTERNS| && i != j
      ensures Apart(PATTERNS[i], PATTERNS[j])
    {
      PatternsApart(i, j);
    }
  }

  lemma {:induction false} PatternShaped(i: nat)
    requires i < |PATTERNS|
    ensures Shape(PATTERNS[i])
  {
    ShapedAssignments();
    ShapedApiKeys();
    ShapedSchemes();
  }

  lemma {:induction false} ShapedAssignments()
    ensures Shape(Pattern("password=", "password=" + MARKER))
    ensures Shape(Pattern("secret=", "secret=" + MARKER))
    ensures Shape(Pattern("token=", "token=" + MARKER))
  {
    Shaped("password=", "password=");
    Shaped("secret=", "secret=");
    Shaped("token=", "token=");
  }

  lemma {:induction false} ShapedApiKeys()
    ensures Shape(Pattern("api_key=", "api_key=" + MARKER))
    ensures Shape(Pattern("apikey=", "apikey=" + MARKER))
  {
    Shaped("api_key=", "api_key=");
    Shaped("apikey=", "apikey=");
  }

  lemma {:induction false} ShapedSchemes()
    ensures Shape(Pattern("bearer ", "Bearer " + MARKER))
    ensures Shape(Pattern("basic ", "Basic " + MARKER))
  {
    Shaped("bearer ", "Bearer ");
    Shaped("basic ", "Basic ");
  }

  lemma {:induction false} Shaped(key: string, canonical: string)
    requires KeyShape(key)
    requires |canonical| == |key| && KeyAt(canonical, key, 0)
    ensures Shape(Pattern(key, canonical + MARKER))
  {
  }

  /** The last two characters already tell the keywords apart, but for the two that end in "key=". */
  lemma {:induction false} PatternsApart(i: nat, j: nat)
    requires i < |PATTERNS| && j < |PATTERNS| && i != j
    ensures Apart(PATTERNS[i], PATTERNS[j])
  {
    var p, q := PATTERNS[i].key, PATTERNS[j].key;
    KeySignature(i);
    KeySignature(j);
    SignaturesDiffer(i, j);
    if |p| <= |q| && OccursAt(q, p, |q| - |p|) {
      EndsAlike(q, p);
    }
  }

  /** The characters of each keyword that stand second and fifth from its end. */
  const SECOND := ['d', 't', 'n', 'y', 'y', 'r', 'c']
  const FIFTH := ['w', 'c', 'o', '_', 'i', 'a', 'a']

  lemma {:induction false} KeySignature(i: nat)
    requires i < |PATTERNS|
    ensures
      var key := PATTERNS[i].key;
      |key| >= 5 && key[|key| - 2] == SECOND[i] && key[|key| - 5] == FIFTH[i]
  {
  }

  lemma {:induction false} SignaturesDiffer(i: nat, j: nat)
    requires i < 7 && j < 7 && i != j
    ensures SECOND[i] != SECOND[j] || FIFTH[i] != FIFTH[j]
  {
  }

  lemma {:induction false} EndsAlike(q: string, p: string)
    requires 5 <= |p| <= |q| && OccursAt(q, p, |q| - |p|)
    ensures q[|q| - 2] == p[|p| - 2] && q[|q| - 5] == p[|p| - 5]
  {
    assert q[|q| - |p| + (|p| - 2)] == p[|p| - 2];
    assert q[|q| - |p| + (|p| - 5)] == p[|p| - 5];
  }

  /**
   * For every message, each occurrence of each of the seven keywords in the output, in any
   * case, is followed by the marker and then by a delimiter or the end.
   */
  lemma {:induction false} SanitizedIsClean(s: string)
    ensures AllClean(Sanitized(s), PATTERNS)
  {
    PatternsShaped();
    assert [] + PATTERNS == PATTERNS;
    PassesClean(s, [], PATTERNS);
  }

  /** The messages the redactor leaves alone are exactly the clean ones. */
  lemma {:induction false} FixedPointsAreClean(s: string)
    ensures Sanitized(s) == s <==> AllClean(s, PATTERNS)
  {
    SanitizedIsClean(s);
    PatternsShaped();
    if AllClean(s, PATTERNS) {
      PassesKeepClean(s, PATTERNS);
    }
  }

  /** Redacting a redacted message changes nothing. */
  lemma {:induction false} SanitizedIsIdempotent(s: string)
    ensures Sanitized(Sanitized(s)) == Sanitized(s)
  {
    SanitizedIsClean(s);
    FixedPointsAreClean(Sanitized(s));
  }

  /** The delimiters of a message, in order. */
  function Delimiters(s: string): string {
    if s == "" then ""
    else (if IsDelimiter(s[0]) then [s[0]] else []) + Delimiters(s[1..])
  }

  lemma {:induction false} DelimitersConcat(a: string, b: string)
    ensures Delimiters(a + b) == Delimiters(a) + Delimiters(b)
  {
    if a == "" {
      assert a + b == b;
    } else {
      assert (a + b)[1..] == a[1..] + b && (a + b)[0] == a[0];
      DelimitersConcat(a[1..], b);
      var d := if IsDelimiter(a[0]) then [a[0]] else [];
      assert d + (Delimiters(a[1..]) + Delimiters(b)) == d + Delimiters(a[1..]) + Delimiters(b);
    }
  }

  lemma {:induction false} NoDelimiters(s: string)
    requires NoDelimiter(s)
    ensures Delimiters(s) == ""
  {
    if s != "" {
      NoDelimiters(s[1..]);
    }
  }

  lemma {:induction false} DelimitersIgnoreCase(a: string, b: string)
    requires |a| == |b| && forall i :: 0 <= i < |a| ==> LowerChar(a[i]) == LowerChar(b[i])
    ensures Delimiters(a) == Delimiters(b)
  {
    if a != "" {
      DelimiterHasNoCase(a[0]);
      DelimiterHasNoCase(b[0]);
      DelimitersIgnoreCase(a[1..], b[1..]);
    }
  }

  lemma {:induction false} ReplacementDelimiters(p: Pattern, c: string)
    requires Shape(p) && |c| == |p.key| && KeyAt(c, p.key, 0)
    ensures Delimiters(p.replacement) == Delimiters(c)
  {
    var canonical := p.replacement[..|p.key|];
    ReplacementParts(p);
    SameKeySameCase(p.key, canonical, c);
    DelimitersIgnoreCase(canonical, c);
    DelimitersConcat(canonical, MARKER);
    MarkerShape();
    NoDelimiters(MARKER);
    assert Delimiters(canonical) + "" == Delimiters(canonical);
  }

  lemma {:induction false} ReplacementParts(p: Pattern)
    requires Shape(p)
    ensures p.replacement == p.replacement[..|p.key|] + MARKER
    ensures KeyAt(p.replacement[..|p.key|], p.key, 0)
  {
    assert forall k :: 0 <= k < |MARKER| ==> p.replacement[|p.key| + k] == MARKER[k];
  }

  lemma {:induction false} SameKeySameCase(key: string, a: string, b: string)
    requires |a| == |b| == |key| && KeyAt(a, key, 0) && KeyAt(b, key, 0)
    ensures forall i :: 0 <= i < |a| ==> LowerChar(a[i]) == LowerChar(b[i])
  {
    forall i | 0 <= i < |a|
      ensures LowerChar(a[i]) == LowerChar(b[i])
    {
      assert LowerChar(a[0 + i]) == key[i] && LowerChar(b[0 + i]) == key[i];
    }
  }

  lemma {:induction false} SpliceDelimiters(b: string, c: string, v: string, a: string, mid: string, t: string)
    requires Delimiters(mid) == Delimiters(c) && NoDelimiter(v) && Delimiters(t) == Delimiters(a)
    ensures Delimiters(b + mid + t) == Delimiters(b + c + v + a)
  {
    DelimitersConcat(b + c + v, a);
    DelimitersConcat(b + c, v);
    DelimitersConcat(b, c);
    NoDelimiters(v);
    DelimitersConcat(b + mid, t);
    DelimitersConcat(b, mid);
  }

  lemma {:induction false} PassKeepsDelimiters(s: string, p: Pattern)
    requires Shape(p)
    ensures Delimiters(Pass(s, p)) == Delimiters(s)
    decreases |s|
  {
    if FindKey(s, p.key, 0) <= |s| {
      var b, c, v, a := GetSplit(s, p);
      PassSplits(s, p, b, c, v, a);
      PassKeepsDelimiters(a, p);
      KeyAlone(s, p.key, b, c, v, a);
      ReplacementDelimiters(p, c);
      SpliceDelimiters(b, c, v, a, p.replacement, Pass(a, p));
    }
  }

  lemma {:induction false} KeyAlone(s: string, key: string, b: string, c: string, v: string, a: string)
    requires KeyAt(s, key, |b|) && |c| == |key| && s == b + c + v + a
    ensures KeyAt(c, key, 0)
  {
    assert forall k :: 0 <= k < |key| ==> s[|b| + k] == c[k];
  }

  lemma {:induction false} PassesKeepDelimiters(s: string, ps: seq<Pattern>)
    requires AllShaped(ps)
    ensures Delimiters(Passes(s, ps)) == Delimiters(s)
    decreases |ps|
  {
    if ps != [] {
      PassKeepsDelimiters(s, ps[0]);
      assert forall k :: 0 <= k < |ps[1..]| ==> ps[1..][k] == ps[k + 1];
      PassesKeepDelimiters(Pass(s, ps[0]), ps[1..]);
    }
  }

  /** Redaction loses and adds no delimiter: the words of the message stay where they were. */
  lemma {:induction false} SanitizedKeepsDelimiters(s: string)
    ensures Delimiters(Sanitized(s)) == Delimiters(s)
  {
    PatternsShaped();
    PassesKeepDelimiters(s, PATTERNS);
  }
}
