/**
 * What the output of the redactor may depend on: for the five keywords that end in '=', not on
 * the value that follows them.
 */
module Secrecy {
  import opened Text
  import opened Redactor
  import opened Redaction

  /** A keyword of the form `name=`: no delimiter occurs in it. */
  predicate Assigns(p: Pattern) {
    Shape(p) && p.key[|p.key| - 1] == '='
  }

  predicate AllAssign(ps: seq<Pattern>) {
    forall i :: 0 <= i < |ps| ==> Assigns(ps[i])
  }

  lemma {:induction false} KeyHasNoDelimiter(s: string, p: Pattern, i: nat, x: nat)
    requires Assigns(p) && KeyAt(s, p.key, i) && i <= x < i + |p.key|
    ensures !IsDelimiter(s[x])
  {
    assert LowerChar(s[i + (x - i)]) == p.key[x - i];
    DelimiterHasNoCase(s[x]);
  }

  /** What ends a keyword: '=' or a space. */
  function Terminator(p: Pattern): char
    requires p.key != ""
  {
    p.key[|p.key| - 1]
  }

  /** The text ends in the keyword, in any case, but for the keyword's last character. */
  predicate EndsIn(a: string, p: Pattern)
    requires p.key != ""
  {
    KeyAt(a + [Terminator(p)], p.key, |a| + 1 - |p.key|)
  }

  /** A keyword that ends in a space. */
  predicate Announces(p: Pattern) {
    Shape(p) && Terminator(p) == ' '
  }

  /** The pass over `a` leaves a keyword unfinished at its end: one more character completes it. */
  predicate Open(a: string, p: Pattern)
    requires p.key != ""
  {
    Pass(a + [Terminator(p)], p) != Pass(a, p) + [Terminator(p)]
  }

  /** What the pass makes of `a` before the unfinished keyword. */
  function Stem(a: string, p: Pattern): string
    requires p.key != ""
  {
    var out := Pass(a, p);
    if |out| + 1 >= |p.key| then out[..|out| + 1 - |p.key|] else ""
  }

  predicate Joins(a: string, t: string, p: Pattern)
    requires p.key != ""
  {
    t != "" && t[0] == Terminator(p) && Open(a, p)
  }

  /** No occurrence crosses the start of a delimited rest, unless it is the one left open. */
  lemma {:induction false} NoStraddle(a: string, t: string, p: Pattern, j: nat)
    requires Shape(p) && Delimited(t) && KeyAt(a + t, p.key, j)
    requires t != "" && t[0] == Terminator(p) ==> !EndsIn(a, p)
    ensures j + |p.key| <= |a| || j >= |a|
  {
    if j < |a| < j + |p.key| {
      assert (a + t)[|a|] == t[0];
      KeyChar(a + t, p.key, j, |a|);
      EndsHere(a, t, p, j);
    }
  }

  lemma {:induction false} EndsHere(a: string, t: string, p: Pattern, j: nat)
    requires p.key != "" && KeyAt(a + t, p.key, j) && j + |p.key| == |a| + 1 && t != ""
    ensures LowerChar(t[0]) == Terminator(p)
    ensures t[0] == Terminator(p) ==> EndsIn(a, p)
  {
    assert LowerChar((a + t)[j + (|p.key| - 1)]) == Terminator(p);
    if t[0] == Terminator(p) {
      forall k | 0 <= k < |p.key|
        ensures LowerChar((a + [Terminator(p)])[j + k]) == p.key[k]
      {
        assert LowerChar((a + t)[j + k]) == p.key[k];
      }
    }
  }

  lemma {:induction false} KeyInPrefix(a: string, t: string, key: string, i: nat)
    requires i + |key| <= |a|
    ensures KeyAt(a + t, key, i) <==> KeyAt(a, key, i)
  {
    assert forall x :: 0 <= x < |a| ==> (a + t)[x] == a[x];
  }

  /** A pass works on both sides of a delimiter separately, unless the delimiter completes a keyword. */
  lemma {:induction false} PassConcat(a: string, t: string, p: Pattern)
    requires Shape(p) && Delimited(t) && !Joins(a, t, p)
    ensures Pass(a + t, p) == Pass(a, p) + Pass(t, p)
    decreases |a|
  {
    if FindKey(a, p.key, 0) <= |a| {
      var b, c, v, rest := GetSplit(a, p);
      if t != "" && t[0] == Terminator(p) {
        OpenSplits(a, p, b, c, v, rest);
      }
      PassConcat(rest, t, p);
      PassInside(a, t, p, b, c, v, rest);
    } else {
      if t != "" && t[0] == Terminator(p) {
        OpenHere(a, p);
      }
      PassQuiet(a, t, p);
    }
  }

  lemma {:induction false} PassQuiet(a: string, t: string, p: Pattern)
    requires Quiet(a, t, p)
    ensures Pass(a + t, p) == a + Pass(t, p) && Pass(a, p) == a
  {
    if FindKey(t, p.key, 0) <= |t| {
      PassAfter(a, t, p);
    } else {
      NoKeyInConcat(a, t, p);
    }
  }

  /** The last keyword that is left open is left open by what follows a value. */
  lemma {:induction false} OpenSplits(s: string, p: Pattern, b: string, c: string, v: string, a: string)
    requires Announces(p) && Splits(s, p, b, c, v, a)
    ensures Open(s, p) == Open(a, p)
  {
    PassSplits(s, p, b, c, v, a);
    SplitExtends(s, " ", p, b, c, v, a);
    PassSplits(s + " ", p, b, c, v, a + " ");
    SameAfter(b + p.replacement, Pass(a + " ", p), Pass(a, p), " ");
  }

  lemma {:induction false} SameAfter(h: string, x: string, y: string, z: string)
    ensures h + x == h + y + z <==> x == y + z
  {
    assert h + y + z == h + (y + z);
    assert (h + x)[|h|..] == x && (h + (y + z))[|h|..] == y + z;
  }

  /** Without an occurrence in it, a text leaves a keyword open exactly when it ends in it. */
  lemma {:induction false} OpenHere(a: string, p: Pattern)
    requires Announces(p) && FindKey(a, p.key, 0) > |a|
    ensures Open(a, p) == EndsIn(a, p)
  {
    if EndsIn(a, p) {
      PassCompleted(a, "", "", p);
      assert a + (" " + "" + "") == a + " ";
      assert |Pass(a + " ", p)| > |a| + 1;
    } else {
      NoKeyInConcat(a, " ", p);
    }
  }

  /** A text that ends in a keyword, followed by the space, a value and more. */
  lemma {:induction false} CompletedSplits(a: string, v: string, r: string, p: Pattern)
    requires Announces(p) && EndsIn(a, p) && FindKey(a, p.key, 0) > |a| && NoDelimiter(v) && Delimited(r)
    ensures
      var n := |a| + 1 - |p.key|;
      Splits(a + (" " + v + r), p, a[..n], a[n..] + " ", v, r)
  {
    var n, t := |a| + 1 - |p.key|, " " + v + r;
    assert a[..n] + (a[n..] + " ") + v + r == a + t;
    assert a + t == a + " " + (v + r);
    KeyInPrefix(a + " ", v + r, p.key, n);
    forall i | 0 <= i < n
      ensures !KeyAt(a + t, p.key, i)
    {
      KeyInPrefix(a, t, p.key, i);
    }
  }

  lemma {:induction false} PassCompleted(a: string, v: string, r: string, p: Pattern)
    requires Announces(p) && EndsIn(a, p) && FindKey(a, p.key, 0) > |a| && NoDelimiter(v) && Delimited(r)
    ensures |a| + 1 >= |p.key|
    ensures Pass(a + (" " + v + r), p) == a[..|a| + 1 - |p.key|] + p.replacement + Pass(r, p)
  {
    var n := |a| + 1 - |p.key|;
    CompletedSplits(a, v, r, p);
    PassSplits(a + (" " + v + r), p, a[..n], a[n..] + " ", v, r);
  }

  lemma {:induction false} PassInside(
    a: string, t: string, p: Pattern, b: string, c: string, v: string, rest: string)
    requires Shape(p) && Delimited(t) && Splits(a, p, b, c, v, rest)
    requires Pass(rest + t, p) == Pass(rest, p) + Pass(t, p)
    ensures Pass(a + t, p) == Pass(a, p) + Pass(t, p)
  {
    PassSplits(a, p, b, c, v, rest);
    SplitExtends(a, t, p, b, c, v, rest);
    PassSplits(a + t, p, b, c, v, rest + t);
    Reassociate(b + p.replacement, Pass(rest, p), Pass(t, p));
  }

  lemma {:induction false} Reassociate(a: string, b: string, c: string)
    ensures a + (b + c) == a + b + c
  {
  }

  /** Nothing is found in `a`, and nothing is left open where `t` begins. */
  predicate Quiet(a: string, t: string, p: Pattern) {
    && Shape(p) && Delimited(t) && FindKey(a, p.key, 0) > |a|
    && (t != "" && t[0] == Terminator(p) ==> !EndsIn(a, p))
  }

  lemma {:induction false} PassAfter(a: string, t: string, p: Pattern)
    requires Quiet(a, t, p) && FindKey(t, p.key, 0) <= |t|
    ensures Pass(a + t, p) == a + Pass(t, p)
  {
    var b, c, v, rest := GetSplit(t, p);
    SplitShifts(a, t, p, b, c, v, rest);
    PassSplits(t, p, b, c, v, rest);
    PassSplits(a + t, p, a + b, c, v, rest);
    Associate(a, b, p.replacement, Pass(rest, p));
  }

  lemma {:induction false} SplitExtends(
    a: string, t: string, p: Pattern, b: string, c: string, v: string, rest: string)
    requires Splits(a, p, b, c, v, rest) && Delimited(t)
    ensures Splits(a + t, p, b, c, v, rest + t)
  {
    assert b + c + v + (rest + t) == a + t;
    forall i | 0 <= i <= |b|
      ensures KeyAt(a + t, p.key, i) <==> KeyAt(a, p.key, i)
    {
      KeyInPrefix(a, t, p.key, i);
    }
  }

  lemma {:induction false} SplitShifts(
    a: string, t: string, p: Pattern, b: string, c: string, v: string, rest: string)
    requires Quiet(a, t, p) && Splits(t, p, b, c, v, rest)
    ensures Splits(a + t, p, a + b, c, v, rest)
  {
    assert a + b + c + v + rest == a + t;
    KeyShift(a, t, p.key, |b|);
    forall i | 0 <= i < |a + b|
      ensures !KeyAt(a + t, p.key, i)
    {
      NoKeyAt(a, t, p, i);
    }
  }

  lemma {:induction false} NoKeyAt(a: string, t: string, p: Pattern, i: nat)
    requires Quiet(a, t, p)
    requires i < |a| || !KeyAt(t, p.key, i - |a|)
    ensures !KeyAt(a + t, p.key, i)
  {
    if i >= |a| {
      KeyShift(a, t, p.key, i - |a|);
    } else if KeyAt(a + t, p.key, i) {
      NoStraddle(a, t, p, i);
      KeyInPrefix(a, t, p.key, i);
    }
  }

  lemma {:induction false} NoKeyInConcat(a: string, t: string, p: Pattern)
    requires Quiet(a, t, p) && FindKey(t, p.key, 0) > |t|
    ensures FindKey(a + t, p.key, 0) > |a + t|
  {
    var i := FindKey(a + t, p.key, 0);
    if i <= |a + t| {
      NoKeyAt(a, t, p, i);
    }
  }

  lemma {:induction false} PassesConcat(a: string, t: string, ps: seq<Pattern>)
    requires AllAssign(ps) && Delimited(t)
    ensures Passes(a + t, ps) == Passes(a, ps) + Passes(t, ps)
    ensures Delimited(Passes(t, ps))
    decreases |ps|
  {
    if ps != [] {
      PassConcat(a, t, ps[0]);
      PassStaysDelimited(t, ps[0]);
      PassesConcat(Pass(a, ps[0]), Pass(t, ps[0]), ps[1..]);
    }
  }

  /** One pass over one word, cut where the keyword's value begins. */
  lemma {:induction false} PassWord(s: string, p: Pattern, i: nat)
    requires Assigns(p) && i == FindKey(s, p.key, 0) <= |s|
    requires NoDelimiter(s[i + |p.key|..])
    ensures Pass(s, p) == s[..i] + p.replacement
  {
    var b, c, v := s[..i], s[i..i + |p.key|], s[i + |p.key|..];
    assert s == b + c + v + "";
    PassSplits(s, p, b, c, v, "");
    assert Pass("", p) == "";
  }

  /** No occurrence of another keyword reaches into `c` or across its end, where `c` is a keyword. */
  lemma {:induction false} NoOverlap(g: string, c: string, v: string, p: Pattern, q: Pattern, j: nat)
    requires Assigns(p) && Assigns(q)
    requires |c| == |p.key| && KeyAt(c, p.key, 0)
    requires KeyAt(g + c + v, q.key, j)
    ensures j + |q.key| <= |g + c| || j >= |g + c|
  {
    var s, last := g + c + v, |g + c| - 1;
    KeyChar(c, p.key, 0, |c| - 1);
    assert s[last] == c[|c| - 1];
    if j <= last < j + |q.key| - 1 {
      KeyChar(s, q.key, j, last);
    }
  }

  /** A keyword `c` and what stands before it in its word. */
  predicate InWord(g: string, c: string, p: Pattern) {
    && (forall i :: 1 <= i < |g| ==> !IsDelimiter(g[i]))
    && |c| == |p.key| && KeyAt(c, p.key, 0)
  }

  /** A keyword found up to the end of `c` cuts the word there: what follows does not matter. */
  lemma {:induction false} CutBefore(g: string, c: string, v: string, p: Pattern, q: Pattern, i: nat)
    requires Assigns(p) && Assigns(q) && InWord(g, c, p) && NoDelimiter(v)
    requires i == FindKey(g + c, q.key, 0) <= |g + c|
    ensures Pass(g + c + v, q) == (g + c)[..i] + q.replacement
  {
    var s := g + c + v;
    assert FindKey(s, q.key, 0) == i by {
      forall j | 0 <= j <= i
        ensures KeyAt(s, q.key, j) <==> KeyAt(g + c, q.key, j)
      {
        KeyInPrefix(g + c, v, q.key, j);
      }
    }
    assert NoDelimiter(s[i + |q.key|..]) by {
      forall x | i + |q.key| <= x < |s|
        ensures !IsDelimiter(s[x])
      {
        CharInWord(g, c, v, p, x);
      }
    }
    PassWord(s, q, i);
    assert s[..i] == (g + c)[..i];
  }

  lemma {:induction false} CharInWord(g: string, c: string, v: string, p: Pattern, x: nat)
    requires Assigns(p) && InWord(g, c, p) && NoDelimiter(v)
    requires 1 <= x < |g + c + v|
    ensures !IsDelimiter((g + c + v)[x])
  {
    if |g| <= x < |g + c| {
      KeyHasNoDelimiter(c, p, 0, x - |g|);
    }
  }

  /** Otherwise the pass only changes what follows `c`. */
  lemma {:induction false} CutAfter(g: string, c: string, v: string, p: Pattern, q: Pattern) returns (w: string)
    requires Assigns(p) && Assigns(q) && InWord(g, c, p) && NoDelimiter(v)
    requires FindKey(g + c, q.key, 0) > |g + c|
    ensures Pass(g + c + v, q) == g + c + w && NoDelimiter(w)
  {
    var i := FindKey(g + c + v, q.key, 0);
    if i > |g + c + v| {
      w := v;
    } else {
      FoundAfter(g, c, v, p, q, i);
      w := CutValue(g + c, v, q, i - |g + c|);
    }
  }

  lemma {:induction false} FoundAfter(g: string, c: string, v: string, p: Pattern, q: Pattern, i: nat)
    requires Assigns(p) && Assigns(q) && InWord(g, c, p)
    requires FindKey(g + c, q.key, 0) > |g + c| && KeyAt(g + c + v, q.key, i)
    ensures i >= |g + c|
  {
    NoOverlap(g, c, v, p, q, i);
    if i < |g + c| {
      KeyInPrefix(g + c, v, q.key, i);
    }
  }

  lemma {:induction false} CutValue(h: string, v: string, q: Pattern, at: nat) returns (w: string)
    requires Assigns(q) && NoDelimiter(v) && |h| + at == FindKey(h + v, q.key, 0) <= |h + v|
    ensures Pass(h + v, q) == h + w && NoDelimiter(w)
  {
    var s, i := h + v, |h| + at;
    SliceAfter(h, v, at, at + |q.key|);
    PassWord(s, q, i);
    ReplacementHasNoDelimiter(q);
    w := v[..at] + q.replacement;
    Reassociate(h, v[..at], q.replacement);
  }

  lemma {:induction false} SliceAfter(h: string, v: string, i: nat, j: nat)
    requires i <= j <= |v|
    ensures (h + v)[..|h| + i] == h + v[..i] && (h + v)[|h| + j..] == v[j..]
  {
  }

  lemma {:induction false} ReplacementHasNoDelimiter(p: Pattern)
    requires Assigns(p)
    ensures NoDelimiter(p.replacement)
  {
    MarkerShape();
    forall x | 0 <= x < |p.replacement|
      ensures !IsDelimiter(p.replacement[x])
    {
      if x < |p.key| {
        KeyHasNoDelimiter(p.replacement, p, 0, x);
      } else {
        assert p.replacement[|p.key| + (x - |p.key|)] == MARKER[x - |p.key|];
      }
    }
  }

  /** Within a word, the passes forget what follows a keyword of theirs. */
  lemma {:induction false} WordForgets(g: string, c: string, v: string, w: string, ps: seq<Pattern>, k: nat)
    requires AllAssign(ps) && k < |ps| && InWord(g, c, ps[k])
    requires NoDelimiter(v) && NoDelimiter(w)
    ensures Passes(g + c + v, ps) == Passes(g + c + w, ps)
    decreases |ps|
  {
    var p, q := ps[k], ps[0];
    var i := FindKey(g + c, q.key, 0);
    if i <= |g + c| {
      CutBefore(g, c, v, p, q, i);
      CutBefore(g, c, w, p, q, i);
    } else {
      if k == 0 {
        KeyShift(g, c, p.key, 0);
      }
      var v' := CutAfter(g, c, v, p, q);
      var w' := CutAfter(g, c, w, p, q);
      WordForgets(g, c, v', w', ps[1..], k - 1);
    }
  }

  /** The last delimiter of `s`, or 0. */
  function LastDelimiter(s: string): (m: nat)
    ensures m <= |s|
    ensures forall i :: m < i < |s| ==> !IsDelimiter(s[i])
    ensures m == 0 || (m < |s| && IsDelimiter(s[m]))
  {
    if s == "" then 0
    else if IsDelimiter(s[|s| - 1]) then |s| - 1
    else LastDelimiter(s[..|s| - 1])
  }

  lemma {:induction false} PassesForget(
    pre: string, c: string, v: string, w: string, post: string, ps: seq<Pattern>, k: nat)
    requires AllAssign(ps) && k < |ps|
    requires |c| == |ps[k].key| && KeyAt(c, ps[k].key, 0)
    requires NoDelimiter(v) && NoDelimiter(w) && Delimited(post)
    ensures Passes(pre + c + v + post, ps) == Passes(pre + c + w + post, ps)
  {
    var m := LastDelimiter(pre);
    WordForgets(pre[m..], c, v, w, ps, k);
    AroundWord(pre[..m], pre[m..], c, v, post, ps);
    AroundWord(pre[..m], pre[m..], c, w, post, ps);
    Halves(pre, m);
  }

  lemma {:induction false} Halves(s: string, m: nat)
    requires m <= |s|
    ensures s[..m] + s[m..] == s
  {
  }

  lemma {:induction false} AroundWord(h: string, g: string, c: string, v: string, post: string, ps: seq<Pattern>)
    requires AllAssign(ps) && Delimited(post)
    requires h == "" || (g != "" && IsDelimiter(g[0]))
    ensures Passes(h + g + c + v + post, ps) == Passes(h, ps) + Passes(g + c + v, ps) + Passes(post, ps)
  {
    var word := g + c + v;
    PassesConcat(h + word, post, ps);
    assert h + g + c + v == h + word;
    if h == "" {
      PassesConcat("", "", ps);
      assert h + word == word;
      PassesOfNothing(ps);
      assert "" + Passes(word, ps) == Passes(word, ps);
    } else {
      PassesConcat(h, word, ps);
    }
  }

  lemma {:induction false} PassesOfNothing(ps: seq<Pattern>)
    requires AllAssign(ps)
    ensures Passes("", ps) == ""
    decreases |ps|
  {
    if ps != [] {
      PassesOfNothing(ps[1..]);
    }
  }

  lemma {:induction false} PassesAppend(s: string, ps: seq<Pattern>, qs: seq<Pattern>)
    requires AllShaped(ps + qs) && AllShaped(ps) && AllShaped(qs)
    ensures Passes(s, ps + qs) == Passes(Passes(s, ps), qs)
    decreases |ps|
  {
    if ps == [] {
      assert ps + qs == qs;
    } else {
      assert (ps + qs)[1..] == ps[1..] + qs;
      PassesAppend(Pass(s, ps[0]), ps[1..], qs);
    }
  }

  /** How many of the keywords have the form `name=`; they come first. */
  const ASSIGNMENTS := 5

  lemma {:induction false} AssignmentsFirst()
    ensures AllAssign(PATTERNS[..ASSIGNMENTS])
    ensures AllShaped(PATTERNS) && AllShaped(PATTERNS[..ASSIGNMENTS]) && AllShaped(PATTERNS[ASSIGNMENTS..])
  {
    PatternsShaped();
  }

  /**
   * Two messages that differ only in the value after an occurrence of one of the five `name=`
   * keywords, in any case and anywhere, are logged identically.
   */
  lemma {:induction false} NamedValuesDoNotShow(pre: string, c: string, v: string, w: string, post: string, k: nat)
    requires k < ASSIGNMENTS
    requires |c| == |PATTERNS[k].key| && KeyAt(c, PATTERNS[k].key, 0)
    requires NoDelimiter(v) && NoDelimiter(w) && Delimited(post)
    ensures Sanitized(pre + c + v + post) == Sanitized(pre + c + w + post)
  {
    var first, last := PATTERNS[..ASSIGNMENTS], PATTERNS[ASSIGNMENTS..];
    AssignmentsFirst();
    assert first[k] == PATTERNS[k] && first + last == PATTERNS;
    PassesForget(pre, c, v, w, post, first, k);
    PassesAppend(pre + c + v + post, first, last);
    PassesAppend(pre + c + w + post, first, last);
  }
}
