/** What the redactor takes for no value, and so leaves in the log. */
module ShownValues {
  import opened Redactor
  import opened Redaction
  import opened Secrecy
  import opened Schemes
  import opened Credentials

  /**
   * A delimiter other than a space ends every value before it: between two such delimiters a word is
   * logged as it is exactly when it is clean, so when it holds no keyword that is not yet redacted.
   */
  lemma {:induction false} QuotedIsShownExactly(a: string, open: char, x: string, post: string)
    requires IsDelimiter(open) && open != ' ' && NoDelimiter(x)
    requires Delimited(post) && (post != "" ==> post[0] != ' ')
    ensures Sanitized(a + ([open] + x + post)) == Sanitized(a) + ([open] + x + Sanitized(post))
       <==> AllClean([open] + x, PATTERNS)
  {
    SanitizedConcat([open] + x, post);
    SanitizedConcat(a, [open] + x + post);
    FixedPointsAreClean([open] + x);
    Cancel(Sanitized(a), Sanitized([open] + x) + Sanitized(post), [open] + x + Sanitized(post));
    CancelRight(Sanitized([open] + x), [open] + x, Sanitized(post));
  }

  lemma {:induction false} CancelRight(v: string, w: string, b: string)
    ensures v + b == w + b <==> v == w
  {
    if v + b == w + b {
      assert |v| == |w| && (v + b)[..|v|] == v && (w + b)[..|w|] == w;
    }
  }

  /** A quoted password is logged, whatever it is but for a keyword of its own. */
  lemma {:induction false} QuotedPasswordShows(c: string, x: string)
    requires |c| == |PATTERNS[0].key| && KeyAt(c, PATTERNS[0].key, 0) && NoDelimiter(x) && !HasEquals(x)
    ensures Sanitized(c + (['"'] + x + ['"'])) == PATTERNS[0].replacement + (['"'] + x + ['"'])
  {
    QuotesAreKept(x);
    QuotedIsShownExactly(c, '"', x, ['"']);
    LonePassword(c);
  }

  lemma {:induction false} QuotesAreKept(x: string)
    requires NoDelimiter(x) && !HasEquals(x)
    ensures AllClean(['"'] + x, PATTERNS) && Sanitized(['"']) == ['"']
  {
    var w := ['"'] + x;
    assert forall i :: 1 <= i < |w| ==> w[i] == x[i - 1];
    NoEqualsIsBare(w);
    BareWordIsKept(w);
    FixedPointsAreClean(w);
    NoEqualsIsBare(['"']);
    BareWordIsKept(['"']);
  }

  lemma {:induction false} LonePassword(c: string)
    requires |c| == |PATTERNS[0].key| && KeyAt(c, PATTERNS[0].key, 0)
    ensures Sanitized(c) == PATTERNS[0].replacement
  {
    PatternsShaped();
    LoneKey(c, PATTERNS);
  }

  /** A first keyword alone is replaced by its first pass, and the others find nothing in the replacement. */
  lemma {:induction false} LoneKey(c: string, ps: seq<Pattern>)
    requires AllShaped(ps) && ps != [] && |c| == |ps[0].key| && KeyAt(c, ps[0].key, 0)
    ensures Passes(c, ps) == ps[0].replacement
  {
    var p, rest := ps[0], ps[1..];
    PassOfKey(c, p);
    forall k | 0 <= k < |rest|
      ensures Clean(p.replacement, rest[k])
    {
      assert rest[k] == ps[k + 1];
      ReplacementIsClean(p, rest[k]);
    }
    PassesKeepClean(p.replacement, rest);
  }

  /** A keyword alone, wherever it is in the list: earlier passes find nothing in it. */
  lemma {:induction false} LoneKeyAt(c: string, ps: seq<Pattern>, k: nat)
    requires AllShaped(ps) && k < |ps| && |c| == |ps[k].key| && KeyAt(c, ps[k].key, 0)
    ensures Passes(c, ps) == ps[k].replacement
    decreases |ps|
  {
    if k == 0 {
      LoneKey(c, ps);
    } else {
      KeyLacksOther(c, ps[k], ps[0]);
      ShapedRest(ps);
      LoneKeyAt(c, ps[1..], k - 1);
    }
  }

  lemma {:induction false} ShapedRest(ps: seq<Pattern>)
    requires AllShaped(ps) && ps != []
    ensures AllShaped(ps[1..])
  {
    var rest := ps[1..];
    assert forall i :: 0 <= i < |rest| ==> rest[i] == ps[i + 1];
  }

  lemma {:induction false} KeyLacksOther(c: string, p: Pattern, q: Pattern)
    requires Shape(p) && Shape(q) && Apart(p, q) && Apart(q, p) && |c| == |p.key| && KeyAt(c, p.key, 0)
    ensures Pass(c, q) == c
  {
    var j := FindKey(c, q.key, 0);
    if j <= |c| {
      KeyChar(c, q.key, j, j + |q.key| - 1);
      KeyChar(c, p.key, 0, j + |q.key| - 1);
      SameEnd(c, p.key, q.key, 0, j);
    }
  }

  lemma {:induction false} PassOfKey(c: string, p: Pattern)
    requires Shape(p) && |c| == |p.key| && KeyAt(c, p.key, 0)
    ensures Pass(c, p) == p.replacement
  {
    assert c == "" + c + "" + "";
    PassSplits(c, p, "", c, "", "");
    assert Pass("", p) == "" && "" + p.replacement + "" == p.replacement;
  }

  lemma {:induction false} ReplacementIsClean(p: Pattern, q: Pattern)
    requires Shape(p) && Shape(q) && Apart(p, q) && Apart(q, p)
    ensures Clean(p.replacement, q)
  {
    forall j: nat
      ensures !KeyAt(p.replacement, q.key, j)
    {
      if KeyAt(p.replacement, q.key, j) {
        KeyEndsKey(p, q, j);
        SameEnd(p.replacement, p.key, q.key, 0, j);
      }
    }
  }

  /** An occurrence in a replacement ends where the replacement's own keyword ends. */
  lemma {:induction false} KeyEndsKey(p: Pattern, q: Pattern, j: nat)
    requires Shape(p) && Shape(q) && KeyAt(p.replacement, q.key, j)
    ensures j + |q.key| == |p.key|
  {
    var last := j + |q.key| - 1;
    assert "" + p.replacement + "" == p.replacement;
    KeyInSplice("", p, "", q.key, j);
    KeyChar(p.replacement, q.key, j, last);
    KeyChar(p.replacement, p.key, 0, last);
  }

  lemma {:induction false} QuotedHunter()
    ensures Sanitized("password=\"hunter2\"") == "password=***REDACTED***\"hunter2\""
  {
    PasswordText();
    HunterText();
    QuotedPasswordShows("password=", "hunter2");
    assert "password=" + "\"hunter2\"" == "password=\"hunter2\"";
    assert "password=***REDACTED***" + "\"hunter2\"" == "password=***REDACTED***\"hunter2\"";
  }

  lemma {:induction false} PasswordText()
    ensures |"password="| == |PATTERNS[0].key| && KeyAt("password=", PATTERNS[0].key, 0)
    ensures PATTERNS[0].replacement == "password=***REDACTED***"
  {
  }

  lemma {:induction false} HunterText()
    ensures NoDelimiter("hunter2") && !HasEquals("hunter2")
    ensures ['"'] + "hunter2" + ['"'] == "\"hunter2\""
  {
  }

  /** A word that a `token=` begins, in any case, and no other keyword follows. */
  predicate IsToken(s: string) {
    && NoDelimiter(s) && KeyAt(s, NAMED[2].key, 0)
    && forall i :: 6 <= i < |s| ==> s[i] != '='
  }

  /**
   * A "Bearer" in the value of a token is taken for the value: the credential after it is shown. So
   * `token=Bearer abc` is logged with its abc.
   */
  lemma {:induction false} TokenBearerShows(s: string, v: string)
    requires IsToken(s) && Plain(v)
    ensures Sanitized(s + (" " + v)) == NAMED[2].replacement + (" " + v)
  {
    TokenWord(s);
    TokenIsNotLive(s);
    PlainIsKept(v);
    SanitizedConcat(s, " " + v);
  }

  lemma {:induction false} TokenBearerAbc()
    ensures Sanitized("token=Bearer abc") == "token=***REDACTED*** abc"
  {
    TokenBearerText();
    NoEqualsIsBare(" abc");
    TokenBearerShows("token=Bearer", "abc");
    assert "token=Bearer" + (" " + "abc") == "token=Bearer abc";
    assert "token=***REDACTED***" + (" " + "abc") == "token=***REDACTED*** abc";
  }

  lemma {:induction false} TokenBearerText()
    ensures IsToken("token=Bearer") && NAMED[2].replacement == "token=***REDACTED***"
  {
    assert NAMED[2].key == "token=";
  }

  lemma {:induction false} TokenIsNotLive(s: string)
    requires IsToken(s)
    ensures !LiveBearer(s) && !LiveBasic(s)
  {
    if s != "" {
      assert LastDelimiter(s) == 0 && s[0..] == s;
      assert KeyAt(s, NAMED[2].key, 0);
    }
  }

  lemma {:induction false} TokenWord(s: string)
    requires IsToken(s)
    ensures Sanitized(s) == NAMED[2].replacement
  {
    SchemesAnnounce();
    TokenNamed(s);
    ReplacementHasNoDelimiter(NAMED[2]);
    WordHasNoScheme(Unnamed(s), BEARER);
    WordHasNoScheme(Unnamed(s), BASIC);
    Stages(s);
  }

  lemma {:induction false} TokenNamed(s: string)
    requires AllAssign(NAMED) && IsToken(s)
    ensures Unnamed(s) == NAMED[2].replacement
  {
    var t := NAMED[2].replacement;
    KeyLengths();
    PassWord(s, NAMED[2], 0);
    assert s[..0] + t == t;
    LongKeyMisses(s, NAMED[0]);
    LongKeyMisses(s, NAMED[1]);
    TokenReplacement();
    LongKeyMisses(t, NAMED[3]);
    LongKeyMisses(t, NAMED[4]);
    FivePasses(s, NAMED, t);
  }

  lemma {:induction false} KeyLengths()
    ensures |NAMED| == 5 && |NAMED[2].key| == 6
    ensures |NAMED[0].key| > 6 && |NAMED[1].key| > 6 && |NAMED[3].key| > 6 && |NAMED[4].key| > 6
  {
  }

  lemma {:induction false} TokenReplacement()
    ensures forall i :: 6 <= i < |NAMED[2].replacement| ==> NAMED[2].replacement[i] != '='
  {
    MarkerShape();
    assert NAMED[2].replacement == "token=" + MARKER;
  }

  lemma {:induction false} LongKeyMisses(s: string, p: Pattern)
    requires Assigns(p) && |p.key| > 6 && forall i :: 6 <= i < |s| ==> s[i] != '='
    ensures Pass(s, p) == s
  {
    var i := FindKey(s, p.key, 0);
    if i <= |s| {
      EqualsSignAt(s, p, i);
    }
  }

  lemma {:induction false} FivePasses(s: string, ps: seq<Pattern>, t: string)
    requires AllAssign(ps) && |ps| == 5
    requires Pass(s, ps[0]) == s && Pass(s, ps[1]) == s && Pass(s, ps[2]) == t
    requires Pass(t, ps[3]) == t && Pass(t, ps[4]) == t
    ensures Passes(s, ps) == t
  {
    assert ps[1..][0] == ps[1] && ps[1..][1..] == ps[2..];
    assert ps[2..][0] == ps[2] && ps[2..][1..] == ps[3..];
    assert ps[3..][0] == ps[3] && ps[3..][1..] == ps[4..];
    assert ps[4..][0] == ps[4] && ps[4..][1..] == [];
    assert Passes(t, ps[4..]) == t;
    assert Passes(t, ps[3..]) == t;
    assert Passes(s, ps[2..]) == t;
    assert Passes(s, ps[1..]) == t;
  }
}
