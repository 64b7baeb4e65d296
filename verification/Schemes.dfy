/**
 * The two keywords that end in a space, "bearer " and "basic ": how one pass for such a keyword works
 * word by word, and what the passes for the `name=` keywords leave of a word.
 */
module Schemes {
  import opened Text
  import opened Redactor
  import opened Redaction
  import opened Secrecy

  /** An open keyword ends the text. */
  lemma {:induction false} OpenEnds(a: string, p: Pattern)
    requires Announces(p) && Open(a, p)
    ensures EndsIn(a, p)
    decreases |a|
  {
    if FindKey(a, p.key, 0) <= |a| {
      var b, c, v, rest := GetSplit(a, p);
      OpenSplits(a, p, b, c, v, rest);
      OpenEnds(rest, p);
      EndsInSuffix(b + c + v, rest, p);
    } else {
      OpenHere(a, p);
    }
  }

  lemma {:induction false} EndsInSuffix(h: string, t: string, p: Pattern)
    requires p.key != "" && EndsIn(t, p)
    ensures EndsIn(h + t, p)
  {
    assert h + t + [Terminator(p)] == h + (t + [Terminator(p)]);
    KeyShift(h, t + [Terminator(p)], p.key, |t| + 1 - |p.key|);
  }

  /** A text that ends in a marker, or in nothing, leaves no keyword open. */
  lemma {:induction false} StarIsNotOpen(a: string, p: Pattern)
    requires Announces(p) && (a == "" || a[|a| - 1] == '*')
    ensures !EndsIn(a, p) && !Open(a, p)
  {
    if EndsIn(a, p) {
      KeyChar(a + [Terminator(p)], p.key, |a| + 1 - |p.key|, |a| - 1);
    }
    if Open(a, p) {
      OpenEnds(a, p);
    }
  }

  /** A space completes an open keyword: the word after it is replaced, whatever it is. */
  lemma {:induction false} PassOpen(a: string, v: string, r: string, p: Pattern)
    requires Announces(p) && Open(a, p) && NoDelimiter(v) && Delimited(r)
    ensures Pass(a + (" " + v + r), p) == Stem(a, p) + p.replacement + Pass(r, p)
    decreases |a|
  {
    if FindKey(a, p.key, 0) <= |a| {
      var b, c, x, rest := GetSplit(a, p);
      OpenSplits(a, p, b, c, x, rest);
      PassOpen(rest, v, r, p);
      PassOpenInside(a, " " + v + r, p, b, c, x, rest, Pass(r, p));
    } else {
      OpenHere(a, p);
      PassCompleted(a, v, r, p);
    }
  }

  lemma {:induction false} StemSplits(s: string, p: Pattern, b: string, c: string, v: string, a: string)
    requires Announces(p) && Splits(s, p, b, c, v, a) && Open(a, p)
    ensures Stem(s, p) == b + p.replacement + Stem(a, p)
  {
    PassSplits(s, p, b, c, v, a);
    OpenIsLong(a, p);
    CutTail(b + p.replacement, Pass(a, p), |p.key| - 1);
  }

  lemma {:induction false} CutTail(h: string, x: string, n: nat)
    requires n <= |x|
    ensures (h + x)[..|h + x| - n] == h + x[..|x| - n]
  {
  }

  lemma {:induction false} OpenIsLong(a: string, p: Pattern)
    requires Announces(p) && Open(a, p)
    ensures |Pass(a, p)| + 1 >= |p.key|
  {
    if FindKey(a, p.key, 0) <= |a| {
      var b, c, v, rest := GetSplit(a, p);
      PassSplits(a, p, b, c, v, rest);
    } else {
      OpenHere(a, p);
    }
  }

  lemma {:induction false} PassOpenInside(
    a: string, t: string, p: Pattern, b: string, c: string, x: string, rest: string, out: string)
    requires Announces(p) && Delimited(t) && Splits(a, p, b, c, x, rest) && Open(rest, p)
    requires Pass(rest + t, p) == Stem(rest, p) + p.replacement + out
    ensures Pass(a + t, p) == Stem(a, p) + p.replacement + out
  {
    StemSplits(a, p, b, c, x, rest);
    SplitExtends(a, t, p, b, c, x, rest);
    PassSplits(a + t, p, b, c, x, rest + t);
    Four(b + p.replacement, Stem(rest, p), p.replacement, out);
  }

  lemma {:induction false} Four(a: string, b: string, c: string, d: string)
    ensures a + (b + c + d) == a + b + c + d
  {
  }

  /** A word with the delimiter before it, if any. */
  predicate IsWord(w: string) {
    forall i :: 1 <= i < |w| ==> !IsDelimiter(w[i])
  }

  lemma {:induction false} SchemeHasSpace(w: string, p: Pattern, i: nat)
    requires Announces(p) && KeyAt(w, p.key, i)
    ensures IsDelimiter(w[i + |p.key| - 1])
  {
    assert LowerChar(w[i + (|p.key| - 1)]) == ' ';
    DelimiterHasNoCase(w[i + |p.key| - 1]);
  }

  /** A word alone holds no keyword that ends in a space. */
  lemma {:induction false} WordHasNoScheme(w: string, p: Pattern)
    requires Announces(p) && IsWord(w)
    ensures FindKey(w, p.key, 0) > |w| && Pass(w, p) == w
    ensures Open(w, p) == EndsIn(w, p)
  {
    var i := FindKey(w, p.key, 0);
    if i <= |w| {
      SchemeHasSpace(w, p, i);
    }
    OpenHere(w, p);
  }

  /** Two words side by side: the second one is all that can end in a keyword. */
  lemma {:induction false} EndsInWord(a: string, w: string, p: Pattern)
    requires Shape(p) && IsWord(w) && w != "" && IsDelimiter(w[0])
    ensures EndsIn(a + w, p) <==> EndsIn(w, p)
  {
    if EndsIn(w, p) {
      EndsInSuffix(a, w, p);
    }
    if EndsIn(a + w, p) {
      EndsInLast(a, w, p);
    }
  }

  lemma {:induction false} EndsInLast(a: string, w: string, p: Pattern)
    requires Shape(p) && w != "" && IsDelimiter(w[0]) && EndsIn(a + w, p)
    ensures EndsIn(w, p)
  {
    var t := w + [Terminator(p)];
    var n := |a + w| + 1 - |p.key|;
    assert a + w + [Terminator(p)] == a + t;
    assert (a + t)[|a|] == w[0];
    if n <= |a| {
      KeyChar(a + t, p.key, n, |a|);
    }
    KeyShift(a, t, p.key, n - |a|);
  }

  /** After another word, a word leaves a keyword open if it ends in it and is not itself a value. */
  lemma {:induction false} OpenWord(a: string, w: string, p: Pattern)
    requires Announces(p) && IsWord(w) && w != "" && IsDelimiter(w[0])
    ensures Open(a + w, p) <==> !Joins(a, w, p) && EndsIn(w, p)
    decreases |a|
  {
    if FindKey(a, p.key, 0) <= |a| {
      var b, c, v, rest := GetSplit(a, p);
      OpenSplits(a, p, b, c, v, rest);
      SplitExtends(a, w, p, b, c, v, rest);
      OpenSplits(a + w, p, b, c, v, rest + w);
      OpenWord(rest, w, p);
    } else {
      OpenHere(a, p);
      if Joins(a, w, p) {
        ValueLeavesNothingOpen(a, w, p);
      } else {
        WordHasNoScheme(w, p);
        NoKeyInConcat(a, w, p);
        OpenHere(a + w, p);
        EndsInWord(a, w, p);
      }
    }
  }

  lemma {:induction false} ValueLeavesNothingOpen(a: string, w: string, p: Pattern)
    requires Announces(p) && IsWord(w) && w != "" && w[0] == ' ' && EndsIn(a, p) && FindKey(a, p.key, 0) > |a|
    ensures !Open(a + w, p)
  {
    var n := |a| + 1 - |p.key|;
    assert w == " " + w[1..] + "";
    CompletedSplits(a, w[1..], "", p);
    OpenSplits(a + w, p, a[..n], a[n..] + " ", w[1..], "");
    StarIsNotOpen("", p);
  }

  /** No keyword of the list stands in the word. */
  predicate Bare(w: string, ps: seq<Pattern>) {
    forall k, i :: 0 <= k < |ps| && 0 <= i <= |w| ==> !KeyAt(w, ps[k].key, i)
  }

  predicate EndsInStar(w: string) {
    w != "" && w[|w| - 1] == '*'
  }

  predicate HasEquals(w: string) {
    exists i :: 0 <= i < |w| && w[i] == '='
  }

  /** What a pass for a `name=` keyword leaves of a word: all of it, or a part, a keyword and a marker. */
  lemma {:induction false} WordPass(w: string, p: Pattern)
    requires Assigns(p) && IsWord(w)
    ensures IsWord(Pass(w, p))
    ensures FindKey(w, p.key, 0) > |w| ==> Pass(w, p) == w
    ensures FindKey(w, p.key, 0) <= |w| ==> EndsInStar(Pass(w, p)) && HasEquals(Pass(w, p))
  {
    var i := FindKey(w, p.key, 0);
    if i <= |w| {
      PassWord(w, p, i);
      ReplacementHasNoDelimiter(p);
      ReplacementEndsInStar(p);
      assert LowerChar(p.replacement[0 + (|p.key| - 1)]) == '=';
      assert Pass(w, p)[i + |p.key| - 1] == '=';
    }
  }

  lemma {:induction false} ReplacementEndsInStar(p: Pattern)
    requires Shape(p)
    ensures EndsInStar(p.replacement)
  {
    MarkerShape();
    assert p.replacement[|p.key| + 13] == MARKER[13];
  }

  lemma {:induction false} WordPasses(w: string, ps: seq<Pattern>)
    requires AllAssign(ps) && IsWord(w)
    ensures IsWord(Passes(w, ps))
    ensures Bare(w, ps) ==> Passes(w, ps) == w
    ensures !Bare(w, ps) || EndsInStar(w) ==> EndsInStar(Passes(w, ps))
    ensures !Bare(w, ps) || HasEquals(w) ==> HasEquals(Passes(w, ps))
    decreases |ps|
  {
    if ps != [] {
      var rest := ps[1..];
      WordPass(w, ps[0]);
      WordPasses(Pass(w, ps[0]), rest);
      assert forall k :: 0 <= k < |rest| ==> rest[k] == ps[k + 1];
      if FindKey(w, ps[0].key, 0) <= |w| {
        assert KeyAt(w, ps[0].key, FindKey(w, ps[0].key, 0));
      } else {
        BareRest(w, ps);
      }
    }
  }

  lemma {:induction false} BareRest(w: string, ps: seq<Pattern>)
    requires ps != [] && FindKey(w, ps[0].key, 0) > |w|
    ensures Bare(w, ps) <==> Bare(w, ps[1..])
  {
    var rest := ps[1..];
    if Bare(w, rest) {
      forall k, i | 0 <= k < |ps| && 0 <= i <= |w|
        ensures !KeyAt(w, ps[k].key, i)
      {
        if k > 0 {
          assert rest[k - 1] == ps[k];
        }
      }
    }
    if Bare(w, ps) {
      forall k, i | 0 <= k < |rest| && 0 <= i <= |w|
        ensures !KeyAt(w, rest[k].key, i)
      {
        assert rest[k] == ps[k + 1];
      }
    }
  }

  /** A delimiter at the start of a text stays there. */
  lemma {:induction false} PassKeepsFirst(t: string, p: Pattern)
    requires Shape(p) && t != "" && IsDelimiter(t[0])
    ensures Pass(t, p) != "" && Pass(t, p)[0] == t[0]
  {
    if FindKey(t, p.key, 0) <= |t| {
      var b, c, v, a := GetSplit(t, p);
      PassSplits(t, p, b, c, v, a);
      KeyChar(t, p.key, |b|, |b|);
    }
  }

  lemma {:induction false} PassesKeepFirst(t: string, ps: seq<Pattern>)
    requires AllAssign(ps) && t != "" && IsDelimiter(t[0])
    ensures Passes(t, ps) != "" && Passes(t, ps)[0] == t[0]
    decreases |ps|
  {
    if ps != [] {
      PassKeepsFirst(t, ps[0]);
      PassesKeepFirst(Pass(t, ps[0]), ps[1..]);
    }
  }

  /** After the `name=` passes a word ends in a keyword exactly when it did and is bare. */
  lemma {:induction false} WordEnds(w: string, ps: seq<Pattern>, p: Pattern)
    requires Announces(p) && AllAssign(ps) && IsWord(w)
    ensures IsWord(Passes(w, ps))
    ensures EndsIn(Passes(w, ps), p) <==> EndsIn(w, p) && Bare(w, ps)
  {
    WordPasses(w, ps);
    if !Bare(w, ps) {
      StarIsNotOpen(Passes(w, ps), p);
    }
  }

  /** A word after a space, and what the `name=` passes leave of it. */
  lemma {:induction false} SpacedWord(x: string, ps: seq<Pattern>) returns (y: string)
    requires AllAssign(ps) && NoDelimiter(x)
    ensures Passes(" " + x, ps) == " " + y && NoDelimiter(y)
    ensures y == x || HasEquals(" " + y)
  {
    WordPasses(" " + x, ps);
    PassesKeepFirst(" " + x, ps);
    y := Passes(" " + x, ps)[1..];
    assert Passes(" " + x, ps) == " " + y;
    assert (" " + x)[1..] == x;
  }
}
