/** Values after "basic " that end in "bearer" and so carry a keyword on into the text after them. */
module CarriedCredentials {
  import opened Redactor
  import opened Redaction
  import opened Secrecy
  import opened Schemes
  import opened Credentials

  /** Where one value carries a "bearer " on and the other does not, the word after them tells. */
  lemma {:induction false} CarriedBearerShows(s: string, v: string, w: string, x: string, r: string)
    requires LiveBasic(s) && NoDelimiter(v) && NoDelimiter(w) && NoDelimiter(x) && Delimited(r)
    requires Carries(v, " " + x + r) && !Carries(w, " " + x + r)
    ensures Sanitized(s + (" " + v + (" " + x + r))) == Sanitized(s + (" " + w + (" " + x + r))) <==> x == MARKER
  {
    BasicCarries(s, v, x, r);
    BasicHides(s, w, " " + x + r);
    Cancel(Stem(Unborne(s), BASIC) + BASIC.replacement, " " + MARKER + Sanitized(r), Sanitized(" " + x + r));
    MarkerLeadsExactly(x, r);
  }

  /** A text is logged with the marker for its first word exactly when that is its first word. */
  lemma {:induction false} MarkerLeadsExactly(x: string, r: string)
    requires NoDelimiter(x) && Delimited(r)
    ensures " " + MARKER + Sanitized(r) == Sanitized(" " + x + r) <==> x == MARKER
  {
    SanitizedIsDelimited(r);
    MarkerShape();
    if x == MARKER {
      MarkerIsKept();
      SanitizedConcat(" " + MARKER, r);
    } else {
      var y, rest := LeadWord(x, r);
      SameLead(MARKER, Sanitized(r), y, rest);
    }
  }

  lemma {:induction false} MarkerIsKept()
    ensures NoDelimiter(MARKER) && Sanitized(" " + MARKER) == " " + MARKER
    ensures !LiveBearer(" " + MARKER) && !LiveBasic(" " + MARKER)
  {
    MarkerShape();
    NoEqualsIsBare(" " + MARKER);
    BareWordIsKept(" " + MARKER);
    LiveEnds(" " + MARKER);
  }

  lemma {:induction false} SanitizedIsDelimited(r: string)
    requires Delimited(r)
    ensures Delimited(Sanitized(r))
  {
    SchemesAnnounce();
    SameFirst(r);
    Stages(r);
    PassStaysDelimited(Unborne(r), BASIC);
  }

  lemma {:induction false} SameLead(x: string, r: string, y: string, rest: string)
    requires NoDelimiter(x) && Delimited(r) && NoDelimiter(y) && Delimited(rest)
    ensures " " + x + r == " " + y + rest ==> x == y
  {
    var s, t := " " + x + r, " " + y + rest;
    assert forall i :: 0 <= i < |x| ==> s[i + 1] == x[i];
    assert forall i :: 0 <= i < |y| ==> t[i + 1] == y[i];
    assert r != "" ==> s[|x| + 1] == r[0];
    assert rest != "" ==> t[|y| + 1] == rest[0];
    assert s == t ==> |x| == |y|;
  }

  /** The first word of a logged text; it is the marker only where the marker stood. */
  lemma {:induction false} LeadWord(x: string, r: string) returns (y: string, rest: string)
    requires NoDelimiter(x) && Delimited(r)
    ensures Sanitized(" " + x + r) == " " + y + rest && NoDelimiter(y) && Delimited(rest)
    ensures y == MARKER ==> x == MARKER
  {
    if !Calls(" " + x, r) {
      y := LeadAlone(x);
      rest := Sanitized(r);
      SanitizedConcat(" " + x, r);
      SanitizedIsDelimited(r);
    } else if LiveBearer(" " + x) {
      var u, r2 := FirstWord(r);
      y, rest := LeadBearer(x, u, r2);
    } else {
      var u, r2 := FirstWord(r);
      y, rest := LeadBasic(x, u, r2);
    }
  }

  lemma {:induction false} LeadAlone(x: string) returns (y: string)
    requires NoDelimiter(x)
    ensures Sanitized(" " + x) == Unnamed(" " + x) == " " + y && NoDelimiter(y)
    ensures y == MARKER ==> x == MARKER
  {
    SchemesAnnounce();
    y := SpacedWord(x, NAMED);
    WordHasNoScheme(" " + y, BEARER);
    WordHasNoScheme(" " + y, BASIC);
    Stages(" " + x);
    MarkerHasNoEquals();
  }

  lemma {:induction false} MarkerHasNoEquals()
    ensures !HasEquals(" " + MARKER)
  {
    MarkerShape();
    assert forall i :: 1 <= i < |" " + MARKER| ==> (" " + MARKER)[i] == MARKER[i - 1];
  }

  lemma {:induction false} LeadBearer(x: string, u: string, r: string) returns (y: string, rest: string)
    requires NoDelimiter(x) && NoDelimiter(u) && Delimited(r) && LiveBearer(" " + x)
    ensures Sanitized(" " + x + (" " + u + r)) == " " + y + rest && NoDelimiter(y) && Delimited(rest) && y != MARKER
  {
    SchemesAnnounce();
    SchemeNames();
    var z := LeadAlone(x);
    OpenBearer(" " + x);
    BearerHides(" " + x, u, r);
    WordHasNoScheme(" " + z, BEARER);
    y := StemOfWord(z, BEARER, "Bearer", Unborne(r));
    rest := LeadKept(y, " " + MARKER + Unborne(r));
    Stages(" " + x + (" " + u + r));
    NotMarker(y);
  }

  lemma {:induction false} LeadKept(y: string, after: string) returns (rest: string)
    requires Announces(BASIC) && y != "" && NoDelimiter(y) && y[|y| - 1] == 'r' && Delimited(after)
    ensures Pass(" " + y + after, BASIC) == " " + y + rest && Delimited(rest)
  {
    EndsInOne(" " + y);
    WordHasNoScheme(" " + y, BASIC);
    PassConcat(" " + y, after, BASIC);
    PassStaysDelimited(after, BASIC);
    rest := Pass(after, BASIC);
  }

  lemma {:induction false} LeadBasic(x: string, u: string, r: string) returns (y: string, rest: string)
    requires NoDelimiter(x) && NoDelimiter(u) && Delimited(r) && LiveBasic(" " + x)
    ensures Sanitized(" " + x + (" " + u + r)) == " " + y + rest && NoDelimiter(y) && Delimited(rest) && y != MARKER
  {
    var z := OpenBasicWord(x);
    var tail := BasicTail(" " + x, u, r);
    SchemesAnnounce();
    SchemeNames();
    y := StemOfWord(z, BASIC, "Basic", tail);
    rest := " " + MARKER + tail;
    NotMarker(y);
  }

  lemma {:induction false} OpenBasicWord(x: string) returns (z: string)
    requires NoDelimiter(x) && LiveBasic(" " + x)
    ensures Unborne(" " + x) == " " + z && NoDelimiter(z) && EndsIn(" " + z, BASIC)
  {
    SchemesAnnounce();
    z := LeadAlone(x);
    WordHasNoScheme(" " + z, BEARER);
    OpenBasic(" " + x);
    OpenEnds(" " + z, BASIC);
  }

  lemma {:induction false} NotMarker(y: string)
    requires y != "" && y[|y| - 1] != '*'
    ensures y != MARKER
  {
    MarkerShape();
  }

  lemma {:induction false} BasicTail(s: string, u: string, r: string) returns (tail: string)
    requires LiveBasic(s) && NoDelimiter(u) && Delimited(r)
    ensures Open(Unborne(s), BASIC)
    ensures Sanitized(s + (" " + u + r)) == Stem(Unborne(s), BASIC) + BASIC.replacement + tail
  {
    if Carries(u, r) {
      var x, r2 := FirstWord(r);
      BasicCarries(s, u, x, r2);
      tail := " " + MARKER + Sanitized(r2);
    } else {
      BasicHides(s, u, r);
      tail := Sanitized(r);
    }
  }

  /** The text goes on with a space and the marker. */
  predicate GoesOnRedacted(post: string) {
    post != "" && post[0] == ' ' && post[1..ValueEnd(post, 1)] == MARKER
  }

  /**
   * Two values after a live "basic ", whatever they are, are logged identically if and only if both carry
   * a "bearer " on or none does, or the word after them is the marker already.
   */
  lemma {:induction false} BasicValuesHiddenExactly(s: string, v: string, w: string, post: string)
    requires LiveBasic(s) && NoDelimiter(v) && NoDelimiter(w) && Delimited(post)
    ensures Sanitized(s + (" " + v + post)) == Sanitized(s + (" " + w + post))
       <==> (Carries(v, post) <==> Carries(w, post)) || GoesOnRedacted(post)
  {
    if Carries(v, post) || Carries(w, post) {
      var end := ValueEnd(post, 1);
      var x, r := post[1..end], post[end..];
      assert post == " " + x + r;
      if Carries(v, post) && Carries(w, post) {
        BasicCarries(s, v, x, r);
        BasicCarries(s, w, x, r);
      } else if Carries(v, post) {
        CarriedBearerShows(s, v, w, x, r);
      } else {
        CarriedBearerShows(s, w, v, x, r);
      }
    } else {
      BasicHides(s, v, post);
      BasicHides(s, w, post);
    }
  }
}
