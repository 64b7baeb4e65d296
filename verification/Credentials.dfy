/**
 * The credentials after "bearer " and "basic ": exactly when the redactor replaces them, and what
 * stands outside all values.
 */
module Credentials {
  import opened Text
  import opened Redactor
  import opened Redaction
  import opened Secrecy
  import opened Schemes

  const NAMED: seq<Pattern> := PATTERNS[..ASSIGNMENTS]
  const BEARER: Pattern := PATTERNS[5]
  const BASIC: Pattern := PATTERNS[6]

  lemma {:induction false} SchemesAnnounce()
    ensures Announces(BEARER) && Announces(BASIC) && AllAssign(NAMED)
  {
    AssignmentsFirst();
    PatternShaped(5);
    PatternShaped(6);
  }

  /** The message after the passes for the `name=` keywords, and after the one for "bearer ". */
  function Unnamed(s: string): string {
    Passes(s, NAMED)
  }

  function Unborne(s: string): string {
    Pass(Unnamed(s), BEARER)
  }

  lemma {:induction false} Stages(s: string)
    ensures Sanitized(s) == Pass(Unborne(s), BASIC)
  {
    AssignmentsFirst();
    assert NAMED + PATTERNS[ASSIGNMENTS..] == PATTERNS;
    PassesAppend(s, NAMED, PATTERNS[ASSIGNMENTS..]);
    LastTwo();
    TwoPasses(Unnamed(s), BEARER, BASIC);
  }

  lemma {:induction false} LastTwo()
    ensures PATTERNS[ASSIGNMENTS..] == [BEARER, BASIC]
  {
  }

  lemma {:induction false} TwoPasses(s: string, p: Pattern, q: Pattern)
    requires p.key != "" && q.key != ""
    ensures Passes(s, [p, q]) == Pass(Pass(s, p), q)
  {
    assert [p, q][1..] == [q] && [q][1..] == [];
    assert Passes(Pass(s, p), [q]) == Pass(Pass(s, p), q);
  }

  /**
   * The message up to a "bearer", without its space, whose pass finds it: no `name=` keyword stands
   * earlier in its word, and the word is not itself the value of such a "bearer ".
   */
  predicate LiveBearer(s: string)
    decreases |s|
  {
    s != "" &&
    var m := LastDelimiter(s);
    EndsIn(s[m..], BEARER) && Bare(s[m..], NAMED) && !(s[m] == ' ' && LiveBearer(s[..m]))
  }

  /** The same for "basic", whose word must not be the value of a "basic " or of a "bearer " either. */
  predicate LiveBasic(s: string)
    decreases |s|
  {
    s != "" &&
    var m := LastDelimiter(s);
    EndsIn(s[m..], BASIC) && Bare(s[m..], NAMED) && !(s[m] == ' ' && (LiveBearer(s[..m]) || LiveBasic(s[..m])))
  }

  /** The message is cut before its last word. */
  lemma {:induction false} CutLast(s: string, m: nat)
    requires AllAssign(NAMED) && s != "" && m == LastDelimiter(s)
    ensures IsWord(s[m..]) && s[m..] != "" && s[m..][0] == s[m]
    ensures m > 0 ==> IsDelimiter(s[m]) && Unnamed(s) == Unnamed(s[..m]) + Unnamed(s[m..])
    ensures m > 0 ==> Unnamed(s[m..]) != "" && Unnamed(s[m..])[0] == s[m]
  {
    if m > 0 {
      PassesConcat(s[..m], s[m..], NAMED);
      assert s[..m] + s[m..] == s;
      PassesKeepFirst(s[m..], NAMED);
    }
  }

  lemma {:induction false} OpenBearer(s: string)
    ensures Open(Unnamed(s), BEARER) <==> LiveBearer(s)
    decreases |s|
  {
    SchemesAnnounce();
    if s == "" {
      PassesOfNothing(NAMED);
      StarIsNotOpen("", BEARER);
    } else {
      var m := LastDelimiter(s);
      CutLast(s, m);
      OpenBearer(s[..m]);
      OpenBearerAt(s, m);
    }
  }

  lemma {:induction false} OpenBearerAt(s: string, m: nat)
    requires Announces(BEARER) && AllAssign(NAMED) && s != "" && m == LastDelimiter(s)
    requires IsWord(s[m..])
    requires m > 0 ==> IsDelimiter(s[m]) && Unnamed(s) == Unnamed(s[..m]) + Unnamed(s[m..])
    requires m > 0 ==> Unnamed(s[m..]) != "" && Unnamed(s[m..])[0] == s[m]
    requires Open(Unnamed(s[..m]), BEARER) <==> LiveBearer(s[..m])
    ensures Open(Unnamed(s), BEARER) <==> LiveBearer(s)
  {
    WordEnds(s[m..], NAMED, BEARER);
    if m == 0 {
      assert s[..m] == "" && s[m..] == s;
      WordHasNoScheme(Unnamed(s), BEARER);
    } else {
      OpenWord(Unnamed(s[..m]), Unnamed(s[m..]), BEARER);
    }
  }

  lemma {:induction false} OpenBasic(s: string)
    ensures Open(Unborne(s), BASIC) <==> LiveBasic(s)
    decreases |s|
  {
    SchemesAnnounce();
    if s == "" {
      PassesOfNothing(NAMED);
      StarIsNotOpen("", BASIC);
    } else {
      var m := LastDelimiter(s);
      CutLast(s, m);
      OpenBasic(s[..m]);
      OpenBearer(s[..m]);
      OpenBasicAt(s, m);
    }
  }

  lemma {:induction false} OpenBasicAt(s: string, m: nat)
    requires Announces(BEARER) && Announces(BASIC) && AllAssign(NAMED) && s != "" && m == LastDelimiter(s)
    requires IsWord(s[m..])
    requires m > 0 ==> IsDelimiter(s[m]) && Unnamed(s) == Unnamed(s[..m]) + Unnamed(s[m..])
    requires m > 0 ==> Unnamed(s[m..]) != "" && Unnamed(s[m..])[0] == s[m]
    requires Open(Unnamed(s[..m]), BEARER) <==> LiveBearer(s[..m])
    requires Open(Unborne(s[..m]), BASIC) <==> LiveBasic(s[..m])
    ensures Open(Unborne(s), BASIC) <==> LiveBasic(s)
  {
    var h, w := s[..m], Unnamed(s[m..]);
    WordEnds(s[m..], NAMED, BASIC);
    WordHasNoScheme(w, BEARER);
    WordHasNoScheme(w, BASIC);
    if m == 0 {
      assert s[..m] == "" && s[m..] == s;
    } else if Joins(Unnamed(h), w, BEARER) {
      ValueOpensNothing(Unnamed(h), w);
    } else {
      PassConcat(Unnamed(h), w, BEARER);
      OpenWord(Unborne(h), w, BASIC);
    }
  }

  lemma {:induction false} ValueOpensNothing(a: string, w: string)
    requires Announces(BEARER) && Announces(BASIC) && IsWord(w) && Joins(a, w, BEARER)
    ensures !Open(Pass(a + w, BEARER), BASIC)
  {
    assert w == " " + w[1..] + "";
    PassOpen(a, w[1..], "", BEARER);
    ReplacementEndsInStar(BEARER);
    assert Pass("", BEARER) == "";
    StarIsNotOpen(Pass(a + w, BEARER), BASIC);
  }

  /** A space after a text completes a keyword in it that will be found. */
  predicate Calls(s: string, t: string) {
    t != "" && t[0] == ' ' && (LiveBearer(s) || LiveBasic(s))
  }

  /** What stands after a delimiter is logged as it would be alone, unless it is a credential. */
  lemma {:induction false} SanitizedConcat(a: string, t: string)
    requires Delimited(t) && !Calls(a, t)
    ensures Sanitized(a + t) == Sanitized(a) + Sanitized(t)
  {
    SchemesAnnounce();
    OpenBearer(a);
    OpenBasic(a);
    PassesConcat(a, t, NAMED);
    SameFirst(t);
    PassConcat(Unnamed(a), Unnamed(t), BEARER);
    PassConcat(Unborne(a), Unborne(t), BASIC);
    Stages(a);
    Stages(t);
    Stages(a + t);
  }

  lemma {:induction false} SameFirst(t: string)
    requires Delimited(t)
    ensures Delimited(Unnamed(t)) && Delimited(Unborne(t))
    ensures if t == "" then Unnamed(t) == "" && Unborne(t) == ""
            else Unnamed(t) != "" && Unnamed(t)[0] == t[0] && Unborne(t) != "" && Unborne(t)[0] == t[0]
  {
    SchemesAnnounce();
    if t == "" {
      PassesOfNothing(NAMED);
      assert Pass("", BEARER) == "";
    } else {
      PassesKeepFirst(t, NAMED);
      PassKeepsFirst(Unnamed(t), BEARER);
    }
  }

  /** The `name=` passes over a space, a value and what follows it. */
  lemma {:induction false} NamedAround(s: string, v: string, post: string) returns (v': string)
    requires NoDelimiter(v) && Delimited(post)
    ensures Unnamed(s + (" " + v + post)) == Unnamed(s) + (" " + v' + Unnamed(post))
    ensures NoDelimiter(v') && Delimited(Unnamed(post))
    ensures EndsIn(" " + v', BEARER) <==> EndsIn(" " + v, BEARER) && Bare(" " + v, NAMED)
  {
    SchemesAnnounce();
    SameFirst(post);
    WordEnds(" " + v, NAMED, BEARER);
    PassesKeepFirst(" " + v, NAMED);
    v' := Unnamed(" " + v)[1..];
    assert Unnamed(" " + v) == " " + v';
    PassesConcat(s, " " + v + post, NAMED);
    PassesConcat(" " + v, post, NAMED);
  }

  /** After a live "bearer" the value is replaced, whatever it is. */
  lemma {:induction false} BearerHides(s: string, v: string, post: string)
    requires LiveBearer(s) && NoDelimiter(v) && Delimited(post)
    ensures Open(Unnamed(s), BEARER)
    ensures Unborne(s + (" " + v + post)) == Stem(Unnamed(s), BEARER) + BEARER.replacement + Unborne(post)
  {
    SchemesAnnounce();
    OpenBearer(s);
    var v' := NamedAround(s, v, post);
    PassOpen(Unnamed(s), v', Unnamed(post), BEARER);
  }

  /** The value carries a keyword of its own, "bearer", into the text after it. */
  predicate Carries(v: string, post: string) {
    EndsIn(" " + v, BEARER) && Bare(" " + v, NAMED) && post != "" && post[0] == ' '
  }

  /** After a live "basic" a value that carries nothing on is replaced, whatever it is. */
  lemma {:induction false} BasicHides(s: string, v: string, post: string)
    requires LiveBasic(s) && NoDelimiter(v) && Delimited(post) && !Carries(v, post)
    ensures Open(Unborne(s), BASIC)
    ensures Sanitized(s + (" " + v + post)) == Stem(Unborne(s), BASIC) + BASIC.replacement + Sanitized(post)
  {
    SchemesAnnounce();
    OpenBasic(s);
    var v' := NamedAround(s, v, post);
    NotBearer(s);
    SameFirst(post);
    WordHasNoScheme(" " + v', BEARER);
    PassConcat(" " + v', Unnamed(post), BEARER);
    PassConcat(Unnamed(s), " " + v' + Unnamed(post), BEARER);
    PassOpen(Unborne(s), v', Unborne(post), BASIC);
    Stages(post);
    Stages(s + (" " + v + post));
  }

  /** A text cannot end in both keywords. */
  lemma {:induction false} NotBearer(s: string)
    requires LiveBasic(s)
    ensures !LiveBearer(s) && !Open(Unnamed(s), BEARER)
  {
    OpenBearer(s);
    var w := s[LastDelimiter(s)..];
    EndsInOne(w);
  }

  lemma {:induction false} EndsInOne(w: string)
    ensures EndsIn(w, BEARER) ==> w != "" && LowerChar(w[|w| - 1]) == 'r'
    ensures EndsIn(w, BASIC) ==> w != "" && LowerChar(w[|w| - 1]) == 'c'
  {
    var s := w + " ";
    assert EndsIn(w, BEARER) ==> LowerChar(s[|s| - 7 + 5]) == BEARER.key[5];
    assert EndsIn(w, BASIC) ==> LowerChar(s[|s| - 6 + 4]) == BASIC.key[4];
  }

  /** After a live "basic", a "bearer" at the end of its value takes the next word for its own value. */
  lemma {:induction false} BasicCarries(s: string, v: string, x: string, r: string)
    requires LiveBasic(s) && NoDelimiter(v) && NoDelimiter(x) && Delimited(r) && Carries(v, " " + x + r)
    ensures Open(Unborne(s), BASIC)
    ensures Sanitized(s + (" " + v + (" " + x + r)))
         == Stem(Unborne(s), BASIC) + BASIC.replacement + (" " + MARKER + Sanitized(r))
  {
    SchemesAnnounce();
    OpenBasic(s);
    var u := CarriedOn(s, v, x, r);
    SameFirst(r);
    PassOpen(Unborne(s), u, " " + MARKER + Unborne(r), BASIC);
    MarkerPasses(Unborne(r));
    Stages(r);
    Stages(s + (" " + v + (" " + x + r)));
  }

  lemma {:induction false} CarriedOn(s: string, v: string, x: string, r: string) returns (u: string)
    requires LiveBasic(s) && NoDelimiter(v) && NoDelimiter(x) && Delimited(r) && Carries(v, " " + x + r)
    ensures Unborne(s + (" " + v + (" " + x + r))) == Unborne(s) + (" " + u + (" " + MARKER + Unborne(r)))
    ensures NoDelimiter(u)
  {
    SchemesAnnounce();
    NotBearer(s);
    var post := " " + x + r;
    var v' := NamedAround(s, v, post);
    var x' := NamedAlone(x, r);
    PassConcat(Unnamed(s), " " + v' + Unnamed(post), BEARER);
    u := CarriedValue(v', x', Unnamed(r));
  }

  lemma {:induction false} NamedAlone(x: string, r: string) returns (x': string)
    requires NoDelimiter(x) && Delimited(r)
    ensures Unnamed(" " + x + r) == " " + x' + Unnamed(r) && NoDelimiter(x') && Delimited(Unnamed(r))
  {
    SchemesAnnounce();
    x' := NamedAround("", x, r);
    PassesOfNothing(NAMED);
    assert "" + (" " + x + r) == " " + x + r;
    assert "" + (" " + x' + Unnamed(r)) == " " + x' + Unnamed(r);
  }

  lemma {:induction false} CarriedValue(v: string, x: string, r: string) returns (u: string)
    requires Announces(BEARER) && EndsIn(" " + v, BEARER) && NoDelimiter(v) && NoDelimiter(x) && Delimited(r)
    ensures Pass(" " + v + (" " + x + r), BEARER) == " " + u + (" " + MARKER + Pass(r, BEARER))
    ensures NoDelimiter(u)
  {
    PassOpenWord(v, x, r);
    SchemeNames();
    u := StemOfWord(v, BEARER, "Bearer", Pass(r, BEARER));
  }

  lemma {:induction false} PassOpenWord(v: string, x: string, r: string)
    requires Announces(BEARER) && EndsIn(" " + v, BEARER) && NoDelimiter(v) && NoDelimiter(x) && Delimited(r)
    ensures Open(" " + v, BEARER)
    ensures Pass(" " + v + (" " + x + r), BEARER) == Stem(" " + v, BEARER) + BEARER.replacement + Pass(r, BEARER)
  {
    WordHasNoScheme(" " + v, BEARER);
    PassOpen(" " + v, x, r, BEARER);
  }

  lemma {:induction false} SchemeNames()
    ensures BEARER.replacement == "Bearer" + " " + MARKER && |BEARER.key| == |"Bearer"| + 1
    ensures BASIC.replacement == "Basic" + " " + MARKER && |BASIC.key| == |"Basic"| + 1
    ensures NoDelimiter("Bearer") && NoDelimiter("Basic")
  {
  }

  /** An open keyword at the end of a word is a part of the word: with the marker it makes two words. */
  lemma {:induction false} StemOfWord(z: string, p: Pattern, name: string, tail: string) returns (y: string)
    requires Announces(p) && NoDelimiter(z) && EndsIn(" " + z, p)
    requires NoDelimiter(name) && name != "" && |p.key| == |name| + 1 && p.replacement == name + " " + MARKER
    ensures Open(" " + z, p)
    ensures Stem(" " + z, p) + p.replacement + tail == " " + y + (" " + MARKER + tail)
    ensures NoDelimiter(y) && y != "" && y[|y| - 1] == name[|name| - 1]
  {
    var n := StemLength(z, p);
    y := z[..n] + name;
    Regroup(z[..n], name, MARKER, tail);
  }

  lemma {:induction false} StemLength(z: string, p: Pattern) returns (n: nat)
    requires Announces(p) && NoDelimiter(z) && EndsIn(" " + z, p)
    ensures n <= |z| && Open(" " + z, p) && Stem(" " + z, p) == " " + z[..n]
  {
    var w := " " + z;
    WordHasNoScheme(w, p);
    StartsInside(w, p);
    n := |z| + 1 - |p.key|;
    CutWord(z, n);
  }

  lemma {:induction false} StartsInside(w: string, p: Pattern)
    requires Announces(p) && w != "" && w[0] == ' ' && EndsIn(w, p)
    ensures |w| + 1 - |p.key| >= 1
  {
    var n := |w| + 1 - |p.key|;
    KeyChar(w + [Terminator(p)], p.key, n, n);
  }

  lemma {:induction false} CutWord(z: string, n: nat)
    requires n <= |z|
    ensures (" " + z)[..n + 1] == " " + z[..n]
  {
  }

  lemma {:induction false} Regroup(a: string, name: string, marker: string, out: string)
    ensures " " + a + (name + " " + marker) + out == " " + (a + name) + (" " + marker + out)
  {
  }

  lemma {:induction false} MarkerPasses(t: string)
    requires Announces(BASIC) && Delimited(t)
    ensures Pass(" " + MARKER + t, BASIC) == " " + MARKER + Pass(t, BASIC)
  {
    MarkerShape();
    var w := " " + MARKER;
    StarIsNotOpen(w, BASIC);
    WordHasNoScheme(w, BASIC);
    PassConcat(w, t, BASIC);
  }

  /** A value that holds no keyword and does not end in the name of one. */
  predicate Plain(v: string) {
    NoDelimiter(v) && Bare(" " + v, NAMED) && !EndsIn(" " + v, BEARER) && !EndsIn(" " + v, BASIC)
  }

  lemma {:induction false} PlainIsKept(v: string)
    requires Plain(v)
    ensures Sanitized(" " + v) == " " + v
    ensures !LiveBearer(" " + v) && !LiveBasic(" " + v)
  {
    var w := " " + v;
    BareWordIsKept(w);
    assert LastDelimiter(w) == 0 && w[0..] == w;
  }

  /** A word without a `name=` keyword is logged as it is. */
  lemma {:induction false} BareWordIsKept(w: string)
    requires IsWord(w) && Bare(w, NAMED)
    ensures Sanitized(w) == w
  {
    SchemesAnnounce();
    WordPasses(w, NAMED);
    WordHasNoScheme(w, BEARER);
    WordHasNoScheme(w, BASIC);
    Stages(w);
  }

  /** A plain value that no keyword calls is logged as it is. */
  lemma {:induction false} PlainIsShown(s: string, v: string, post: string)
    requires Plain(v) && Delimited(post) && !LiveBearer(s) && !LiveBasic(s)
    ensures Sanitized(s + (" " + v + post)) == Sanitized(s) + (" " + v + Sanitized(post))
  {
    PlainIsKept(v);
    SanitizedConcat(" " + v, post);
    SanitizedConcat(s, " " + v + post);
  }

  /** The keyword at the end of `s` is found by its own pass. */
  predicate Live(s: string, k: nat) {
    if k == ASSIGNMENTS then LiveBearer(s) else LiveBasic(s)
  }

  /** An occurrence of the "bearer " or "basic " keyword. */
  predicate IsScheme(c: string, k: nat) {
    ASSIGNMENTS <= k < |PATTERNS| && |c| == |PATTERNS[k].key| && KeyAt(c, PATTERNS[k].key, 0)
  }

  lemma {:induction false} SchemeEnds(pre: string, c: string, v: string, post: string, k: nat)
    requires IsScheme(c, k)
    ensures c != "" && c == c[..|c| - 1] + " "
    ensures pre + c + v + post == pre + c[..|c| - 1] + (" " + v + post)
  {
    assert LowerChar(c[0 + (|c| - 1)]) == PATTERNS[k].key[|c| - 1] == ' ';
    assert c == c[..|c| - 1] + " ";
  }

  /**
   * Two messages that differ only in the value after a live "bearer " or "basic ", in any case and
   * anywhere, are logged identically; for "basic ", if both values carry a "bearer " on or none does.
   */
  lemma {:induction false} SchemeValuesDoNotShow(pre: string, c: string, v: string, w: string, post: string, k: nat)
    requires IsScheme(c, k) && NoDelimiter(v) && NoDelimiter(w) && Delimited(post)
    requires Live(pre + c[..|c| - 1], k)
    requires k > ASSIGNMENTS ==> (Carries(v, post) <==> Carries(w, post))
    ensures Sanitized(pre + c + v + post) == Sanitized(pre + c + w + post)
  {
    var s := pre + c[..|c| - 1];
    SchemeEnds(pre, c, v, post, k);
    SchemeEnds(pre, c, w, post, k);
    if k == ASSIGNMENTS {
      BearerHides(s, v, post);
      BearerHides(s, w, post);
      Stages(s + (" " + v + post));
      Stages(s + (" " + w + post));
    } else if Carries(v, post) {
      var x, r := FirstWord(post);
      BasicCarries(s, v, x, r);
      BasicCarries(s, w, x, r);
    } else {
      BasicHides(s, v, post);
      BasicHides(s, w, post);
    }
  }

  /** For all seven keywords: the five `name=` keywords hide their values always, the other two when live. */
  lemma {:induction false} ValuesDoNotShow(pre: string, c: string, v: string, w: string, post: string, k: nat)
    requires k < |PATTERNS| && |c| == |PATTERNS[k].key| && KeyAt(c, PATTERNS[k].key, 0)
    requires NoDelimiter(v) && NoDelimiter(w) && Delimited(post)
    requires k >= ASSIGNMENTS ==> Live(pre + c[..|c| - 1], k)
    requires k > ASSIGNMENTS ==> (Carries(v, post) <==> Carries(w, post))
    ensures Sanitized(pre + c + v + post) == Sanitized(pre + c + w + post)
  {
    if k < ASSIGNMENTS {
      NamedValuesDoNotShow(pre, c, v, w, post, k);
    } else {
      SchemeValuesDoNotShow(pre, c, v, w, post, k);
    }
  }

  lemma {:induction false} FirstWord(post: string) returns (x: string, r: string)
    requires post != "" && post[0] == ' '
    ensures post == " " + x + r && NoDelimiter(x) && Delimited(r)
  {
    var end := ValueEnd(post, 1);
    x, r := post[1..end], post[end..];
  }

  lemma {:induction false} Between(a: string, v: string, w: string, b: string)
    ensures a + (" " + v + b) == a + (" " + w + b) <==> v == w
  {
    var x, y := a + (" " + v + b), a + (" " + w + b);
    if x == y {
      assert |v| == |w|;
      assert x[|a| + 1..|a| + 1 + |v|] == v && y[|a| + 1..|a| + 1 + |w|] == w;
    }
  }

  /** Two plain values after a "bearer " or "basic " are logged identically exactly when it is live. */
  lemma {:induction false} PlainValuesHiddenExactly(pre: string, c: string, v: string, w: string, post: string, k: nat)
    requires IsScheme(c, k) && Plain(v) && Plain(w) && v != w && Delimited(post)
    ensures Sanitized(pre + c + v + post) == Sanitized(pre + c + w + post) <==> Live(pre + c[..|c| - 1], k)
  {
    var s := pre + c[..|c| - 1];
    if Live(s, k) {
      SchemeValuesDoNotShow(pre, c, v, w, post, k);
    } else {
      SchemeEnds(pre, c, v, post, k);
      SchemeEnds(pre, c, w, post, k);
      OnlyOwnScheme(pre, c, k);
      PlainIsShown(s, v, post);
      PlainIsShown(s, w, post);
      Between(Sanitized(s), v, w, Sanitized(post));
    }
  }

  lemma {:induction false} LiveEnds(s: string)
    ensures LiveBearer(s) ==> s != "" && LowerChar(s[|s| - 1]) == 'r'
    ensures LiveBasic(s) ==> s != "" && LowerChar(s[|s| - 1]) == 'c'
  {
    if s != "" {
      var w := s[LastDelimiter(s)..];
      EndsInOne(w);
      assert w[|w| - 1] == s[|s| - 1];
    }
  }

  lemma {:induction false} OnlyOwnScheme(pre: string, c: string, k: nat)
    requires IsScheme(c, k) && !Live(pre + c[..|c| - 1], k)
    ensures !LiveBearer(pre + c[..|c| - 1]) && !LiveBasic(pre + c[..|c| - 1])
  {
    var s := pre + c[..|c| - 1];
    LiveEnds(s);
    assert s[|s| - 1] == c[0 + (|c| - 2)];
    assert LowerChar(c[0 + (|c| - 2)]) == PATTERNS[k].key[|c| - 2];
  }

  lemma {:induction false} Cancel(a: string, v: string, w: string)
    ensures a + v == a + w <==> v == w
  {
    assert (a + v)[|a|..] == v && (a + w)[|a|..] == w;
  }

  lemma {:induction false} NoEqualsIsBare(w: string)
    requires forall i :: 0 <= i < |w| ==> w[i] != '='
    ensures Bare(w, NAMED)
  {
    SchemesAnnounce();
    forall k, i | 0 <= k < |NAMED| && 0 <= i <= |w|
      ensures !KeyAt(w, NAMED[k].key, i)
    {
      if KeyAt(w, NAMED[k].key, i) {
        EqualsSignAt(w, NAMED[k], i);
      }
    }
  }

  lemma {:induction false} EqualsSignAt(s: string, p: Pattern, i: nat)
    requires Assigns(p) && KeyAt(s, p.key, i)
    ensures s[i + |p.key| - 1] == '='
  {
    assert LowerChar(s[i + (|p.key| - 1)]) == '=';
  }
}
