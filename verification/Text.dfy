/** Text helpers shared by the redactor, the connection strings and the cache keys. */
module Text {

  /** ASCII lower-casing of one character. */
  function LowerChar(c: char): char {
    if 'A' <= c <= 'Z' then (c as int + 32) as char else c
  }

  /** Each capital letter becomes the small one at its place in the alphabet, and nothing else changes. */
  lemma {:induction false} LowerAlphabet(c: char)
    ensures
      var alphabet := "abcdefghijklmnopqrstuvwxyz";
      LowerChar(c) == if 'A' <= c <= 'Z' then alphabet[c as int - 'A' as int] else c
  {
    var alphabet := "abcdefghijklmnopqrstuvwxyz";
    assert forall i :: 0 <= i < 26 ==> alphabet[i] == ('a' as int + i) as char;
  }

  /** ASCII lower-casing; it never changes a length. */
  function Lower(s: string): (r: string)
    ensures |r| == |s|
    ensures forall i {:trigger r[i]} :: 0 <= i < |s| ==> r[i] == LowerChar(s[i])
  {
    seq(|s|, i requires 0 <= i < |s| => LowerChar(s[i]))
  }

  /** Unicode lower-casing of one character, exact for those that become ASCII letters. */
  function LowerRune(c: char): char {
    if c == '\U{0130}' then 'i' else if c == '\U{212A}' then 'k' else LowerChar(c)
  }

  /** strings.ToLower, for a result that is compared with ASCII text. */
  function ToLower(s: string): (r: string)
    ensures |r| == |s|
    ensures forall i {:trigger r[i]} :: 0 <= i < |s| ==> r[i] == LowerRune(s[i])
  {
    seq(|s|, i requires 0 <= i < |s| => LowerRune(s[i]))
  }

  /** Unicode case folding of one character, exact for those that fold with an ASCII letter. */
  function FoldRune(c: char): char {
    if c == '\U{017F}' then 's' else if c == '\U{212A}' then 'k' else LowerChar(c)
  }

  /** The white space of unicode.IsSpace, which strings.Fields and strings.TrimSpace use. */
  predicate IsSpace(c: char) {
    || '\t' <= c <= '\r' || c == ' ' || c == '\U{85}' || c == '\U{A0}' || c == '\U{1680}'
    || '\U{2000}' <= c <= '\U{200A}' || c == '\U{2028}' || c == '\U{2029}' || c == '\U{202F}'
    || c == '\U{205F}' || c == '\U{3000}'
  }

  /** The code points of Unicode's White_Space property. */
  lemma {:induction false} SpaceCodes(c: char)
    ensures IsSpace(c) <==>
            || 9 <= c as int <= 13
            || 0x2000 <= c as int <= 0x200A
            || c as int in {0x20, 0x85, 0xA0, 0x1680, 0x2028, 0x2029, 0x202F, 0x205F, 0x3000}
  {
  }

  /** The number of white-space characters at the start. */
  function Blanks(s: string): (n: nat)
    ensures n <= |s| && (n == |s| || !IsSpace(s[n]))
  {
    if s != "" && IsSpace(s[0]) then 1 + Blanks(s[1..]) else 0
  }

  function TrimLeft(s: string): string {
    s[Blanks(s)..]
  }

  /** The length without the white space at the end. */
  function Kept(s: string): (n: nat)
    ensures n <= |s| && (n == 0 || !IsSpace(s[n - 1]))
  {
    if s != "" && IsSpace(s[|s| - 1]) then Kept(s[..|s| - 1]) else |s|
  }

  function TrimRight(s: string): string {
    s[..Kept(s)]
  }

  /** strings.TrimSpace */
  function TrimSpace(s: string): string {
    TrimRight(TrimLeft(s))
  }

  lemma TrimSpaceIdentity(s: string)
    requires s == "" || (!IsSpace(s[0]) && !IsSpace(s[|s| - 1]))
    ensures TrimSpace(s) == s
  {
  }

  predicate IsBlank(s: string) {
    forall i :: 0 <= i < |s| ==> IsSpace(s[i])
  }

  lemma {:induction false} BlanksAreBlank(s: string)
    ensures IsBlank(s[..Blanks(s)])
    decreases |s|
  {
    if s != "" && IsSpace(s[0]) {
      BlanksAreBlank(s[1..]);
      assert forall i :: 0 < i < Blanks(s) ==> s[..Blanks(s)][i] == s[1..][..Blanks(s[1..])][i - 1];
    }
  }

  lemma {:induction false} TrailingAreBlank(s: string)
    ensures IsBlank(s[Kept(s)..])
    decreases |s|
  {
    if s != "" && IsSpace(s[|s| - 1]) {
      var rest := s[..|s| - 1];
      TrailingAreBlank(rest);
      assert forall i :: 0 <= i < |rest| - Kept(s) ==> s[Kept(s)..][i] == rest[Kept(rest)..][i];
    }
  }

  /** Trimming takes white space, and only that, off both ends. */
  lemma {:induction false} TrimSpaceTakesBlank(s: string)
    ensures s == s[..Blanks(s)] + TrimSpace(s) + TrimLeft(s)[Kept(TrimLeft(s))..]
    ensures IsBlank(s[..Blanks(s)]) && IsBlank(TrimLeft(s)[Kept(TrimLeft(s))..])
    ensures TrimSpace(s) == "" || (!IsSpace(TrimSpace(s)[0]) && !IsSpace(TrimSpace(s)[|TrimSpace(s)| - 1]))
  {
    BlanksAreBlank(s);
    TrailingAreBlank(TrimLeft(s));
  }

  /** A decimal digit. */
  predicate IsDigit(c: char) {
    '0' <= c <= '9'
  }

  /** The digits of a natural number, as %d prints them. */
  function Digits(n: nat): (s: string)
    ensures s != ""
    ensures forall i :: 0 <= i < |s| ==> IsDigit(s[i])
  {
    var last := [(n % 10 + '0' as int) as char];
    if n < 10 then last else Digits(n / 10) + last
  }

  /** %d */
  function Decimal(n: int): (s: string)
    ensures s != ""
    ensures forall i :: 0 <= i < |s| ==> IsDigit(s[i]) || s[i] == '-'
  {
    if n < 0 then "-" + Digits(-n) else Digits(n)
  }

  /** What a run of digits denotes. */
  function Value(s: string): nat
    requires forall i :: 0 <= i < |s| ==> IsDigit(s[i])
  {
    if s == "" then 0
    else
      var last := s[|s| - 1];
      assert IsDigit(last);
      Value(s[..|s| - 1]) * 10 + (last as int - '0' as int)
  }

  lemma {:induction false} DigitsDenote(n: nat)
    ensures Value(Digits(n)) == n
  {
    var s := Digits(n);
    if n < 10 {
      assert s[..|s| - 1] == "";
    } else {
      DigitsDenote(n / 10);
      assert s[..|s| - 1] == Digits(n / 10);
    }
  }

  /** A printed number is its sign, if it is negative, and the digits of its absolute value. */
  lemma {:induction false} DecimalDenotes(n: int) returns (digits: string)
    ensures Decimal(n) == (if n < 0 then "-" else "") + digits
    ensures forall i :: 0 <= i < |digits| ==> IsDigit(digits[i])
    ensures Value(digits) == if n < 0 then -n else n
  {
    digits := Digits(if n < 0 then -n else n);
    DigitsDenote(if n < 0 then -n else n);
  }

  lemma DecimalInjective(m: int, n: int)
    requires Decimal(m) == Decimal(n)
    ensures m == n
  {
    if m < 0 {
      assert Decimal(m)[0] == '-';
    }
    if n < 0 {
      assert Decimal(n)[0] == '-';
    }
    if m < 0 {
      assert Decimal(m)[1..] == Digits(-m) && Decimal(n)[1..] == Digits(-n);
      DigitsDenote(-m);
      DigitsDenote(-n);
    } else {
      DigitsDenote(m);
      DigitsDenote(n);
    }
  }

  /** %t */
  function Boolean(b: bool): string {
    if b then "true" else "false"
  }
}
