/** Reading a printed connection string. */
module DsnRoundTrip {
  import opened Types
  import opened Text
  import opened Dsn

  predicate NoSpace(s: string) {
    forall i :: 0 <= i < |s| ==> !IsSpace(s[i])
  }

  lemma {:induction false} WordLengthConcat(a: string, b: string)
    requires NoSpace(a)
    ensures WordLength(a + b) == |a| + WordLength(b)
  {
    if a == "" {
      assert a + b == b;
    } else {
      assert (a + b)[1..] == a[1..] + b;
      WordLengthConcat(a[1..], b);
    }
  }

  lemma {:induction false} FirstWordHasNoSpace(s: string)
    ensures NoSpace(FirstWord(s))
  {
    if s != "" && !IsSpace(s[0]) {
      FirstWordHasNoSpace(s[1..]);
      assert FirstWord(s) == [s[0]] + FirstWord(s[1..]);
    }
  }

  /** Whatever two texts hold, a space between them separates their words. */
  lemma {:induction false} FieldsConcat(a: string, b: string)
    ensures Fields(a + " " + b) == Fields(a) + Fields(b)
    decreases |a|
  {
    var s := a + " " + b;
    if a == "" {
      assert s[1..] == b;
    } else if IsSpace(a[0]) {
      assert s[1..] == a[1..] + " " + b;
      FieldsConcat(a[1..], b);
    } else {
      var n := WordLength(a);
      WordEnds(a, b);
      assert s[..n] == a[..n];
      assert s[n..] == a[n..] + " " + b;
      FieldsConcat(a[n..], b);
    }
  }

  lemma {:induction false} WordEnds(a: string, b: string)
    ensures WordLength(a + " " + b) == WordLength(a)
  {
    if a != "" && !IsSpace(a[0]) {
      assert (a + " " + b)[1..] == a[1..] + " " + b;
      WordEnds(a[1..], b);
    }
  }

  /** The words of a field after the first; they would be read as assignments of their own. */
  function Strays(field: string): seq<string> {
    Fields(field[WordLength(field)..])
  }

  lemma {:induction false} KeyedFields(key: string, field: string)
    requires key != "" && NoSpace(key)
    ensures Fields(key + field) == [key + FirstWord(field)] + Strays(field)
  {
    var s, n := key + field, WordLength(field);
    WordLengthConcat(key, field);
    assert s[..|key| + n] == key + FirstWord(field);
    assert s[|key| + n..] == field[n..];
  }

  lemma {:induction false} FindConcat(a: seq<string>, b: seq<string>, key: string)
    ensures Find(a + b, key) == if Find(a, key).Some? then Find(a, key) else Find(b, key)
  {
    if a == [] {
      assert a + b == b;
    } else {
      assert (a + b)[1..] == a[1..] + b;
      FindConcat(a[1..], b, key);
    }
  }

  lemma {:induction false} EqualsAfter(key: string, rest: string)
    requires forall i :: 0 <= i < |key| ==> key[i] != '='
    ensures EqualsSign(key + "=" + rest) == |key|
  {
    if key != "" {
      assert (key + "=" + rest)[1..] == key[1..] + "=" + rest;
      EqualsAfter(key[1..], rest);
    }
  }

  predicate IsKeyword(key: string) {
    key != "" && NoSpace(key) && forall i :: 0 <= i < |key| ==> key[i] != '='
  }

  /** The word a keyword and a field print as assigns the field's first word to that keyword only. */
  lemma {:induction false} KeyedWord(key: string, word: string, wanted: string)
    requires IsKeyword(key) && NoSpace(word)
    ensures Assigned(key + "=" + word, wanted) == if EqualFold(key, wanted) then Some(word) else None
  {
    var s := key + "=" + word;
    EqualsAfter(key, word);
    assert s[..|key|] == key && s[|key| + 1..] == word;
    TrimSpaceIdentity(key);
    TrimSpaceIdentity(word);
  }

  /** What reading finds in one printed assignment. */
  lemma {:induction false} FindKeyed(key: string, field: string, wanted: string)
    requires IsKeyword(key)
    ensures Find(Fields(Setting(key, field)), wanted)
         == if EqualFold(key, wanted) then Some(FirstWord(field)) else Find(Strays(field), wanted)
  {
    KeyedFields(key + "=", field);
    FirstWordHasNoSpace(field);
    KeyedWord(key, FirstWord(field), wanted);
    var words := [key + "=" + FirstWord(field)] + Strays(field);
    assert words[1..] == Strays(field);
  }

  /** All words of the fields printed before the sslmode that would be read as assignments. */
  function AllStrays(e: Endpoint): seq<string> {
    Strays(e.host) + Strays(e.port) + Strays(e.user) + Strays(e.password) + Strays(e.dbname)
  }

  /** The sslmode that reading the printed string yields: a stray assignment wins over the declared one. */
  function ReadMode(e: Endpoint): string {
    match Find(AllStrays(e), "sslmode")
    case Some(v) => v
    case None => FirstWord(e.sslmode)
  }

  function First(a: Option<string>, b: Option<string>): Option<string> {
    if a.Some? then a else b
  }

  lemma {:induction false} FindTwo(a: string, b: string, key: string)
    ensures Find(Fields(a + " " + b), key) == First(Find(Fields(a), key), Find(Fields(b), key))
  {
    FieldsConcat(a, b);
    FindConcat(Fields(a), Fields(b), key);
  }

  lemma {:induction false} FindFive(
    a: seq<string>, b: seq<string>, c: seq<string>, d: seq<string>, e: seq<string>, key: string)
    ensures Find(a + b + c + d + e, key)
         == First(First(First(First(Find(a, key), Find(b, key)), Find(c, key)), Find(d, key)), Find(e, key))
  {
    FindConcat(a + b + c + d, e, key);
    FindConcat(a + b + c, d, key);
    FindConcat(a + b, c, key);
    FindConcat(a, b, key);
  }

  lemma {:induction false} NotTheMode()
    ensures IsKeyword("host") && !EqualFold("host", "sslmode")
    ensures IsKeyword("port") && !EqualFold("port", "sslmode")
    ensures IsKeyword("user") && !EqualFold("user", "sslmode")
    ensures IsKeyword("password") && !EqualFold("password", "sslmode")
    ensures IsKeyword("dbname") && !EqualFold("dbname", "sslmode")
    ensures IsKeyword("sslmode")
  {
  }

  /** The five assignments printed before the sslmode contribute their stray words only. */
  lemma {:induction false} FindLeading(e: Endpoint)
    ensures Find(Fields(Leading(e)), "sslmode") == Find(AllStrays(e), "sslmode")
  {
    NotTheMode();
    FindKeyed("host", e.host, "sslmode");
    FindKeyed("port", e.port, "sslmode");
    FindKeyed("user", e.user, "sslmode");
    FindKeyed("password", e.password, "sslmode");
    FindKeyed("dbname", e.dbname, "sslmode");
    FindFive(Strays(e.host), Strays(e.port), Strays(e.user), Strays(e.password), Strays(e.dbname), "sslmode");
    FindSeparated(Setting("host", e.host), Setting("port", e.port), Setting("user", e.user),
                  Setting("password", e.password), Setting("dbname", e.dbname), "sslmode");
  }

  lemma {:induction false} FindSeparated(a: string, b: string, c: string, d: string, e: string, key: string)
    ensures Find(Fields(a + " " + b + " " + c + " " + d + " " + e), key)
         == First(First(First(First(Find(Fields(a), key), Find(Fields(b), key)), Find(Fields(c), key)),
                        Find(Fields(d), key)), Find(Fields(e), key))
  {
    FindTwo(a + " " + b + " " + c + " " + d, e, key);
    FindTwo(a + " " + b + " " + c, d, key);
    FindTwo(a + " " + b, c, key);
    FindTwo(a, b, key);
  }

  /** For all fields whatsoever, what is read back from a printed connection string. */
  lemma {:induction false} PrintedMode(e: Endpoint, timeout: int)
    ensures Find(Fields(Print(e, timeout)), "sslmode") == Some(ReadMode(e))
  {
    NotTheMode();
    FindLeading(e);
    FindKeyed("sslmode", e.sslmode, "sslmode");
    FindTwo(Leading(e), Setting("sslmode", e.sslmode), "sslmode");
    FindTwo(Leading(e) + " " + Setting("sslmode", e.sslmode), Setting("connect_timeout", Decimal(timeout)), "sslmode");
  }

  predicate AllPlain(e: Endpoint) {
    NoSpace(e.host) && NoSpace(e.port) && NoSpace(e.user) && NoSpace(e.password) && NoSpace(e.dbname)
  }

  lemma {:induction false} PlainHasNoStrays(s: string)
    requires NoSpace(s)
    ensures WordLength(s) == |s| && FirstWord(s) == s && Strays(s) == []
  {
    WordLengthConcat(s, "");
    assert s + "" == s;
  }

  /**
   * Reading returns the declared sslmode exactly when that has no white space and no field printed
   * before it carries a stray assignment of another sslmode.
   */
  lemma {:induction false} ModeSurvivesExactly(e: Endpoint)
    ensures ReadMode(e) == e.sslmode
       <==> NoSpace(e.sslmode) && (Find(AllStrays(e), "sslmode").Some? ==>
             Find(AllStrays(e), "sslmode").value == e.sslmode)
  {
    FirstWordHasNoSpace(e.sslmode);
    FoundHasNoSpace(AllStrays(e), "sslmode", e);
    if NoSpace(e.sslmode) {
      PlainHasNoStrays(e.sslmode);
    }
  }

  lemma {:induction false} FieldsHaveNoSpace(s: string)
    ensures forall i :: 0 <= i < |Fields(s)| ==> NoSpace(Fields(s)[i])
    decreases |s|
  {
    if s != "" {
      if IsSpace(s[0]) {
        FieldsHaveNoSpace(s[1..]);
      } else {
        FirstWordHasNoSpace(s);
        FieldsHaveNoSpace(s[WordLength(s)..]);
      }
    }
  }

  lemma {:induction false} FoundHasNoSpace(words: seq<string>, key: string, e: Endpoint)
    requires words == AllStrays(e)
    ensures Find(words, key).Some? ==> NoSpace(Find(words, key).value)
  {
    FieldsHaveNoSpace(e.host[WordLength(e.host)..]);
    FieldsHaveNoSpace(e.port[WordLength(e.port)..]);
    FieldsHaveNoSpace(e.user[WordLength(e.user)..]);
    FieldsHaveNoSpace(e.password[WordLength(e.password)..]);
    FieldsHaveNoSpace(e.dbname[WordLength(e.dbname)..]);
    ValueHasNoSpace(words, key);
  }

  lemma {:induction false} ValueHasNoSpace(words: seq<string>, key: string)
    requires forall i :: 0 <= i < |words| ==> NoSpace(words[i])
    ensures Find(words, key).Some? ==> NoSpace(Find(words, key).value)
  {
    if words != [] {
      var eq := EqualsSign(words[0]);
      if eq > 0 {
        TrimSpaceIdentity(words[0][eq + 1..]);
      }
      ValueHasNoSpace(words[1..], key);
    }
  }

  lemma {:induction false} PrintedIsNotTrimmed(e: Endpoint, timeout: int)
    ensures TrimSpace(Print(e, timeout)) == Print(e, timeout) != "" && !IsUrl(Print(e, timeout))
  {
    var s := Print(e, timeout);
    var digits := Decimal(timeout);
    assert s[|s| - 1] == digits[|digits| - 1];
    assert s[0] == 'h' && ToLower(s)[0] == 'h';
    TrimSpaceIdentity(s);
  }

  /** The TLS posture detected from a printed connection string is that of the mode read from it. */
  lemma {:induction false} PrintedPosture(e: Endpoint, timeout: int)
    ensures DetectedTls(Print(e, timeout)) == Some(SslmodeIsTls(ReadMode(e)))
  {
    PrintedIsNotTrimmed(e, timeout);
    PrintedMode(e, timeout);
  }

  /**
   * With fields free of white space, whatever else they hold, the primary's and the replica's posture
   * is on exactly when the effective sslmode is neither empty nor "disable", in any case.
   */
  lemma {:induction false} PlainPosture(pg: Postgres)
    requires AllPlain(pg.primary) && NoSpace(pg.primary.sslmode) && AllPlain(pg.replica) && NoSpace(pg.replica.sslmode)
    ensures Find(Fields(PrimaryDsn(pg)), "sslmode") == Some(pg.primary.sslmode)
    ensures DetectedTls(PrimaryDsn(pg)) == Some(ToLower(pg.primary.sslmode) !in {"", "disable"})
    ensures
      var mode := if pg.replica.host != "" && pg.replica.sslmode != "" then pg.replica.sslmode else pg.primary.sslmode;
      && Find(Fields(ReplicaDsn(pg)), "sslmode") == Some(mode)
      && DetectedTls(ReplicaDsn(pg)) == Some(ToLower(mode) !in {"", "disable"})
  {
    PlainEndpoint(pg.primary, pg.connectTimeoutSec);
    PlainEndpoint(ReplicaEndpoint(pg), pg.connectTimeoutSec);
  }

  lemma {:induction false} PlainEndpoint(e: Endpoint, timeout: int)
    requires AllPlain(e) && NoSpace(e.sslmode)
    ensures Find(Fields(Print(e, timeout)), "sslmode") == Some(e.sslmode)
    ensures DetectedTls(Print(e, timeout)) == Some(ToLower(e.sslmode) !in {"", "disable"})
  {
    PlainHasNoStrays(e.host);
    PlainHasNoStrays(e.port);
    PlainHasNoStrays(e.user);
    PlainHasNoStrays(e.password);
    PlainHasNoStrays(e.dbname);
    PlainHasNoStrays(e.sslmode);
    assert AllStrays(e) == [];
    PrintedMode(e, timeout);
    PrintedPosture(e, timeout);
    TrimSpaceIdentity(e.sslmode);
  }

  /** A password that holds a space and an sslmode overrides the declared mode. */
  lemma {:induction false} PasswordOverridesMode(e: Endpoint, p: string, mode: string, timeout: int)
    requires NoSpace(e.host) && NoSpace(e.port) && NoSpace(e.user) && NoSpace(e.dbname)
    requires NoSpace(p) && NoSpace(mode) && e.password == p + " " + Setting("sslmode", mode)
    ensures Find(Fields(Print(e, timeout)), "sslmode") == Some(mode)
    ensures DetectedTls(Print(e, timeout)) == Some(SslmodeIsTls(mode))
  {
    PlainHasNoStrays(e.host);
    PlainHasNoStrays(e.port);
    PlainHasNoStrays(e.user);
    PlainHasNoStrays(e.dbname);
    StrayMode(p, mode);
    FindConcat(Strays(e.password), [], "sslmode");
    assert AllStrays(e) == Strays(e.password) + [];
    PrintedMode(e, timeout);
    PrintedPosture(e, timeout);
  }

  lemma {:induction false} StrayMode(p: string, mode: string)
    requires NoSpace(p) && NoSpace(mode)
    ensures Find(Strays(p + " " + Setting("sslmode", mode)), "sslmode") == Some(mode)
  {
    var setting := Setting("sslmode", mode);
    var rest := " " + setting;
    WordLengthConcat(p, rest);
    assert p + " " + setting == p + rest && (p + rest)[|p|..] == rest && rest[1..] == setting;
    FindMode(mode);
  }

  lemma {:induction false} FindMode(mode: string)
    requires NoSpace(mode)
    ensures Find(Fields(Setting("sslmode", mode)), "sslmode") == Some(mode)
  {
    NotTheMode();
    FindKeyed("sslmode", mode, "sslmode");
    PlainHasNoStrays(mode);
  }

  /** So with TLS declared as required, the password `x sslmode=disable` makes it look switched off. */
  lemma {:induction false} RequiredTlsLooksOff(e: Endpoint, timeout: int)
    requires NoSpace(e.host) && NoSpace(e.port) && NoSpace(e.user) && NoSpace(e.dbname)
    requires e.password == "x sslmode=disable" && e.sslmode == "require"
    ensures SslmodeIsTls(e.sslmode) && DetectedTls(Print(e, timeout)) == Some(false)
  {
    PasswordText();
    DisableIsOff();
    RequireIsOn();
    PasswordOverridesMode(e, "x", "disable", timeout);
  }

  lemma {:induction false} PasswordText()
    ensures "x" + " " + Setting("sslmode", "disable") == "x sslmode=disable"
  {
  }

  lemma {:induction false} DisableIsOff()
    ensures NoSpace("x") && NoSpace("disable") && !SslmodeIsTls("disable")
  {
    TrimSpaceIdentity("disable");
    assert ToLower("disable") == "disable";
  }

  lemma {:induction false} RequireIsOn()
    ensures SslmodeIsTls("require")
  {
    TrimSpaceIdentity("require");
    assert |ToLower("require")| == 7 && ToLower("require")[0] == 'r';
  }
}
