/**
 * The redactor that cleans an error message before it is logged: seven in-place
 * search-and-replace passes over a message and its lower-cased copy.
 */
module Redactor {
  import opened Text
  import opened Types

  /** A secret's keyword, in lower case, and the text that replaces keyword and value. */
  datatype Pattern = Pattern(key: string, replacement: string)

  const MARKER := "***REDACTED***"

  const PATTERNS: seq<Pattern> := [
    Pattern("password=", "password=" + MARKER),
    Pattern("secret=", "secret=" + MARKER),
    Pattern("token=", "token=" + MARKER),
    Pattern("api_key=", "api_key=" + MARKER),
    Pattern("apikey=", "apikey=" + MARKER),
    Pattern("bearer ", "Bearer " + MARKER),
    Pattern("basic ", "Basic " + MARKER)
  ]

  /** The characters that end a secret value. */
  predicate IsDelimiter(c: char) {
    c == ' ' || c == '"' || c == '\'' || c == '\n' || c == '\r' || c == '\t' || c == ';' || c == '&'
  }

  predicate NoDelimiter(s: string) {
    forall i :: 0 <= i < |s| ==> !IsDelimiter(s[i])
  }

  /** The index that ends the value starting at `start`. */
  function ValueEnd(msg: string, start: nat): (end: nat)
    requires start <= |msg|
    ensures start <= end <= |msg|
    ensures NoDelimiter(msg[start..end])
    ensures end == |msg| || IsDelimiter(msg[end])
    decreases |msg| - start
  {
    if start == |msg| || IsDelimiter(msg[start]) then start else ValueEnd(msg, start + 1)
  }

  method FindValueEnd(msg: string, start: nat) returns (end: nat)
    requires start <= |msg|
    ensures end == ValueEnd(msg, start)
  {
    end := start;
    while end < |msg|
      invariant start <= end <= |msg|
      invariant ValueEnd(msg, end) == ValueEnd(msg, start)
    {
      if IsDelimiter(msg[end]) {
        return;
      }
      end := end + 1;
    }
  }

  predicate OccursAt(s: string, key: string, i: int) {
    0 <= i && i + |key| <= |s| && forall k :: 0 <= k < |key| ==> s[i + k] == key[k]
  }

  /** strings.Index of `key` at or after `from`, or |s| + 1 when there is none. */
  function IndexFrom(s: string, key: string, from: nat): (r: nat)
    ensures (from <= r && r + |key| <= |s|) || r == |s| + 1
    ensures r <= |s| ==> OccursAt(s, key, r)
    ensures forall i :: from <= i < r ==> !OccursAt(s, key, i)
    decreases |s| - from
  {
    if from + |key| > |s| then |s| + 1
    else if OccursAt(s, key, from) then from
    else IndexFrom(s, key, from + 1)
  }

  /** The lower-case keyword occurs at `i`, whatever the case of `s`. */
  predicate KeyAt(s: string, key: string, i: int) {
    0 <= i && i + |key| <= |s| && forall k :: 0 <= k < |key| ==> LowerChar(s[i + k]) == key[k]
  }

  lemma {:induction false} KeyAtIsLowerOccurrence(s: string, key: string, i: int)
    ensures KeyAt(s, key, i) <==> OccursAt(Lower(s), key, i)
  {
  }

  /** The first occurrence of the keyword, or |s| + 1 when there is none. */
  function FindKey(s: string, key: string, from: nat): (r: nat)
    ensures (from <= r && r + |key| <= |s|) || r == |s| + 1
    ensures r <= |s| ==> KeyAt(s, key, r)
    ensures forall i :: from <= i < r ==> !KeyAt(s, key, i)
    decreases |s| - from
  {
    if from + |key| > |s| then |s| + 1
    else if KeyAt(s, key, from) then from
    else FindKey(s, key, from + 1)
  }

  /** One pass: every occurrence of the keyword and the value after it is replaced. */
  function Pass(s: string, p: Pattern): string
    requires p.key != ""
    decreases |s|
  {
    var i := FindKey(s, p.key, 0);
    if i > |s| then s
    else s[..i] + p.replacement + Pass(s[ValueEnd(s, i + |p.key|)..], p)
  }

  /** All passes, in order. */
  function Passes(s: string, ps: seq<Pattern>): string
    requires forall k :: 0 <= k < |ps| ==> ps[k].key != ""
    decreases |ps|
  {
    if ps == [] then s else Passes(Pass(s, ps[0]), ps[1..])
  }

  function Sanitized(s: string): string {
    Passes(s, PATTERNS)
  }

  /** The outer loop, over the patterns; no error is an empty message. */
  method Sanitize(message: Option<string>) returns (msg: string)
    ensures msg == if message.Some? then Sanitized(message.value) else ""
  {
    if message.None? {
      return "";
    }
    msg := message.value;
    var msgLower := Lower(msg);
    for k := 0 to |PATTERNS|
      invariant msgLower == Lower(msg)
      invariant Passes(msg, PATTERNS[k..]) == Sanitized(message.value)
    {
      assert PATTERNS[k..][0] == PATTERNS[k] && PATTERNS[k..][1..] == PATTERNS[k + 1..];
      msg, msgLower := SplicePattern(msg, msgLower, PATTERNS[k]);
    }
  }

  /** The message after one splice at `idx`, where the keyword occurs. */
  function SplicedAt(msg: string, idx: nat, p: Pattern): string
    requires idx + |p.key| <= |msg|
  {
    msg[..idx] + p.replacement + msg[ValueEnd(msg, idx + |p.key|)..]
  }

  /** The inner loop: message and lower-cased copy are spliced together, left to right. */
  method SplicePattern(message: string, messageLower: string, pat: Pattern) returns (msg: string, msgLower: string)
    requires pat.key != ""
    requires messageLower == Lower(message)
    ensures msg == Pass(message, pat)
    ensures msgLower == Lower(msg)
  {
    msg, msgLower := message, messageLower;
    var offset := 0;
    ghost var rest := message;
    var more := true;
    while more
      invariant !more ==> msg == Pass(message, pat)
      invariant more ==> Spliced(message, pat, msg, offset, rest)
      invariant msgLower == Lower(msg)
      decreases more, |rest|
    {
      more, msg, msgLower, offset, rest := SpliceNext(message, msg, msgLower, offset, rest, pat);
    }
  }

  /** The loop has passed over `offset` characters; the pass over the rest completes it. */
  ghost predicate Spliced(message: string, pat: Pattern, msg: string, offset: nat, rest: string)
    requires pat.key != ""
  {
    offset <= |msg| && msg[offset..] == rest && msg[..offset] + Pass(rest, pat) == Pass(message, pat)
  }

  /** One turn of the loop: it ends when no keyword is left in the rest, and splices the next one otherwise. */
  method SpliceNext(
    ghost message: string, before: string, beforeLower: string, offset: nat, ghost rest: string, pat: Pattern)
    returns (more: bool, msg: string, msgLower: string, next: nat, ghost left: string)
    requires pat.key != "" && Spliced(message, pat, before, offset, rest) && beforeLower == Lower(before)
    ensures msgLower == Lower(msg)
    ensures if more then Spliced(message, pat, msg, next, left) && |left| < |rest| else msg == Pass(message, pat)
  {
    ghost var done := before[..offset];
    assert before == done + rest;
    var idx := IndexOf(beforeLower, pat.key, offset, before, done, rest);
    if idx > |before| {
      return false, before, beforeLower, offset, rest;
    }
    ghost var done';
    done', left := LoopStep(before, done, rest, pat, idx);
    msg, msgLower := SpliceAt(before, beforeLower, idx, pat);
    next := idx + |pat.replacement|;
    assert msg[next..] == left && msg[..next] == done';
    more := true;
  }

  /** The search of the lower-cased copy from the offset on, as a search of the rest for the keyword. */
  method IndexOf(msgLower: string, key: string, offset: nat, ghost msg: string, ghost done: string, ghost rest: string)
    returns (idx: nat)
    requires msg == done + rest && msgLower == Lower(msg) && offset == |done| && key != ""
    ensures if idx <= |msg| then idx == |done| + FindKey(rest, key, 0) else FindKey(rest, key, 0) > |rest|
  {
    idx := IndexFrom(msgLower, key, offset);
    FoundInRest(msg, done, rest, key);
  }

  method SpliceAt(message: string, messageLower: string, idx: nat, pat: Pattern) returns (msg: string, msgLower: string)
    requires idx + |pat.key| <= |message| && messageLower == Lower(message)
    ensures msg == SplicedAt(message, idx, pat) && msgLower == Lower(msg)
  {
    var end := FindValueEnd(message, idx + |pat.key|);
    LowerSplice(message, idx, pat.replacement, end);
    msg := message[..idx] + pat.replacement + message[end..];
    msgLower := messageLower[..idx] + Lower(pat.replacement) + messageLower[end..];
  }

  /** One splice of the loop unfolds one step of the pass over the rest of the message. */
  lemma {:induction false} LoopStep(msg: string, done: string, rest: string, p: Pattern, idx: nat)
    returns (done': string, rest': string)
    requires p.key != ""
    requires msg == done + rest
    requires idx == |done| + FindKey(rest, p.key, 0) <= |msg|
    ensures idx + |p.key| <= |msg|
    ensures SplicedAt(msg, idx, p) == done' + rest'
    ensures |done'| == idx + |p.replacement| && |rest'| < |rest|
    ensures done' + Pass(rest', p) == done + Pass(rest, p)
  {
    var before, cased, value, after := GetSplit(rest, p);
    assert |done + before| == idx;
    CutSplice(done, rest, p, before, cased, value, after);
    CutPass(done, rest, p, before, cased, value, after);
    done', rest' := done + before + p.replacement, after;
  }

  /** What the value scan of the loop cuts out of the message. */
  lemma {:induction false} CutSplice(
    done: string, rest: string, p: Pattern, before: string, cased: string, value: string, after: string)
    requires Splits(rest, p, before, cased, value, after)
    ensures SplicedAt(done + rest, |done + before|, p) == done + before + p.replacement + after
  {
    CutShape(done, before, cased, value, after);
    ValueEndIs(done + before + cased, value, after);
  }

  lemma {:induction false} CutPass(
    done: string, rest: string, p: Pattern, before: string, cased: string, value: string, after: string)
    requires p.key != ""
    requires Splits(rest, p, before, cased, value, after)
    ensures done + Pass(rest, p) == done + before + p.replacement + Pass(after, p)
  {
    PassSplits(rest, p, before, cased, value, after);
    Associate(done, before, p.replacement, Pass(after, p));
  }

  /** Searching the lower-cased copy from the offset is searching the rest for the keyword. */
  lemma {:induction false} FoundInRest(msg: string, done: string, rest: string, key: string)
    requires msg == done + rest
    requires key != ""
    ensures
      var idx := IndexFrom(Lower(msg), key, |done|);
      var i := FindKey(rest, key, 0);
      if idx <= |msg| then idx == |done| + i else i > |rest|
  {
    var idx := IndexFrom(Lower(msg), key, |done|);
    var i := FindKey(rest, key, 0);
    if idx <= |msg| {
      KeyInRest(done, rest, key, idx - |done|);
    }
    if i <= |rest| {
      KeyInRest(done, rest, key, i);
    }
  }

  lemma {:induction false} KeyInRest(done: string, rest: string, key: string, i: nat)
    ensures OccursAt(Lower(done + rest), key, |done| + i) <==> KeyAt(rest, key, i)
  {
    KeyAtIsLowerOccurrence(done + rest, key, |done| + i);
    assert forall k :: 0 <= k < |rest| ==> (done + rest)[|done| + k] == rest[k];
  }

  lemma {:induction false} CutShape(done: string, before: string, cased: string, value: string, after: string)
    ensures
      var msg := done + (before + cased + value + after);
      && msg == done + before + cased + value + after
      && msg[..|done + before|] == done + before
      && msg[|done + before + cased + value|..] == after
  {
  }

  lemma {:induction false} Associate(a: string, b: string, c: string, d: string)
    ensures a + (b + c + d) == a + b + c + d
  {
  }

  lemma {:induction false} LowerSplice(s: string, i: nat, mid: string, j: nat)
    requires i <= j <= |s|
    ensures Lower(s[..i] + mid + s[j..]) == Lower(s)[..i] + Lower(mid) + Lower(s)[j..]
  {
  }

  /** `s` is `before`, the first occurrence of the keyword, its value and the rest. */
  predicate Splits(s: string, p: Pattern, before: string, cased: string, value: string, after: string) {
    && s == before + cased + value + after
    && |cased| == |p.key|
    && KeyAt(s, p.key, |before|)
    && (forall i :: 0 <= i < |before| ==> !KeyAt(s, p.key, i))
    && NoDelimiter(value)
    && Delimited(after)
  }

  predicate Delimited(after: string) {
    after == "" || IsDelimiter(after[0])
  }

  /** What search, value scan and slices give on a message that is split. */
  lemma {:induction false} SplitFound(
    s: string, p: Pattern, before: string, cased: string, value: string, after: string)
    requires Splits(s, p, before, cased, value, after)
    ensures FindKey(s, p.key, 0) == |before| && |before| + |p.key| <= |s|
    ensures ValueEnd(s, |before| + |p.key|) == |before + cased + value|
    ensures s[..|before|] == before && s[|before + cased + value|..] == after
  {
    ValueEndIs(before + cased, value, after);
  }

  lemma {:induction false} PassSplits(
    s: string, p: Pattern, before: string, cased: string, value: string, after: string)
    requires p.key != ""
    requires Splits(s, p, before, cased, value, after)
    ensures Pass(s, p) == before + p.replacement + Pass(after, p)
  {
    SplitFound(s, p, before, cased, value, after);
    PassUnfolds(s, p, |before|, |before + cased + value|);
  }

  /** One step of the pass, where the keyword is found at `i` and its value ends at `end`. */
  lemma {:induction false} PassUnfolds(s: string, p: Pattern, i: nat, end: nat)
    requires p.key != "" && i == FindKey(s, p.key, 0) <= |s| && end == ValueEnd(s, i + |p.key|)
    ensures Pass(s, p) == s[..i] + p.replacement + Pass(s[end..], p)
  {
  }

  lemma {:induction false} ValueEndIs(head: string, value: string, after: string)
    requires NoDelimiter(value)
    requires Delimited(after)
    ensures ValueEnd(head + value + after, |head|) == |head + value|
    decreases |value|
  {
    if value != "" {
      ValueEndIs(head + [value[0]], value[1..], after);
      assert head + [value[0]] + value[1..] == head + value;
    }
  }

  lemma {:induction false} GetSplit(s: string, p: Pattern)
    returns (before: string, cased: string, value: string, after: string)
    requires p.key != ""
    requires FindKey(s, p.key, 0) <= |s|
    ensures |before| == FindKey(s, p.key, 0)
    ensures Splits(s, p, before, cased, value, after)
  {
    var i := FindKey(s, p.key, 0);
    var end := ValueEnd(s, i + |p.key|);
    before, cased, value, after := s[..i], s[i..i + |p.key|], s[i + |p.key|..end], s[end..];
  }
}
