/** Reading back all seven settings of a printed connection string. */
module DsnSettings {
  import opened Types
  import opened Text
  import opened Dsn
  import opened DsnRoundTrip

  /** A keyword and the value printed for it. */
  datatype Pair = Pair(key: string, value: string)

  function Words(pairs: seq<Pair>): seq<string> {
    if pairs == [] then [] else [Setting(pairs[0].key, pairs[0].value)] + Words(pairs[1..])
  }

  /** Keywords that no two of them fold to one another, with values free of white space. */
  predicate Readable(pairs: seq<Pair>) {
    && (forall i :: 0 <= i < |pairs| ==> IsKeyword(pairs[i].key) && NoSpace(pairs[i].value))
    && forall i, j :: 0 <= i < |pairs| && 0 <= j < |pairs| && i != j ==> !EqualFold(pairs[i].key, pairs[j].key)
  }

  lemma {:induction false} FindInWords(pairs: seq<Pair>, i: nat)
    requires Readable(pairs) && i < |pairs|
    ensures Find(Words(pairs), pairs[i].key) == Some(pairs[i].value)
  {
    var rest := pairs[1..];
    KeyedWord(pairs[0].key, pairs[0].value, pairs[i].key);
    assert Words(pairs)[1..] == Words(rest);
    assert forall k :: 0 <= k < |rest| ==> rest[k] == pairs[k + 1];
    if i > 0 {
      FindInWords(rest, i - 1);
    }
  }

  lemma {:induction false} WordOfPair(key: string, value: string)
    requires IsKeyword(key) && NoSpace(value)
    ensures Fields(Setting(key, value)) == [Setting(key, value)]
  {
    KeyedFields(key + "=", value);
    PlainHasNoStrays(value);
    assert [Setting(key, value)] + [] == [Setting(key, value)];
  }

  /** The text of settings one after the other, with a space between two. */
  function Joined(pairs: seq<Pair>): string
    requires pairs != []
  {
    var first := Setting(pairs[0].key, pairs[0].value);
    if |pairs| == 1 then first else first + " " + Joined(pairs[1..])
  }

  lemma {:induction false} FieldsOfJoined(pairs: seq<Pair>)
    requires Readable(pairs) && pairs != []
    ensures Fields(Joined(pairs)) == Words(pairs)
  {
    var rest := pairs[1..];
    var first := Setting(pairs[0].key, pairs[0].value);
    WordOfPair(pairs[0].key, pairs[0].value);
    if |pairs| > 1 {
      assert forall k :: 0 <= k < |rest| ==> rest[k] == pairs[k + 1];
      FieldsOfJoined(rest);
      FieldsConcat(first, Joined(rest));
    }
  }

  /** The seven settings of a connection, in their order. */
  function Seven(
    host: string, port: string, user: string, password: string, dbname: string, sslmode: string, timeout: string)
    : seq<Pair>
  {
    [Pair("host", host), Pair("port", port), Pair("user", user), Pair("password", password)]
    + [Pair("dbname", dbname), Pair("sslmode", sslmode), Pair("connect_timeout", timeout)]
  }

  lemma {:induction false} KeysAreKeywords()
    ensures IsKeyword("host") && IsKeyword("port") && IsKeyword("user") && IsKeyword("password")
    ensures IsKeyword("dbname") && IsKeyword("sslmode") && IsKeyword("connect_timeout")
  {
  }

  /** The lengths and, for equal lengths, the first letters of the keywords tell them apart. */
  lemma {:induction false} KeysApart()
    ensures !EqualFold("host", "port") && !EqualFold("host", "user") && !EqualFold("port", "user")
    ensures !EqualFold("port", "host") && !EqualFold("user", "host") && !EqualFold("user", "port")
    ensures |"host"| == |"port"| == |"user"| == 4 && |"password"| == 8 && |"dbname"| == 6 && |"sslmode"| == 7
    ensures |"connect_timeout"| == 15
  {
    assert FoldRune("host"[0]) == 'h' && FoldRune("port"[0]) == 'p' && FoldRune("user"[0]) == 'u';
  }

  /** Keywords of these lengths are apart if the three of one length are. */
  lemma {:induction false} LengthsTellApart(p: seq<Pair>)
    requires |p| == 7 && |p[0].key| == |p[1].key| == |p[2].key| == 4
    requires |p[3].key| == 8 && |p[4].key| == 6 && |p[5].key| == 7 && |p[6].key| == 15
    requires forall i, j :: 0 <= i < 3 && 0 <= j < 3 && i != j ==> !EqualFold(p[i].key, p[j].key)
    ensures forall i, j :: 0 <= i < 7 && 0 <= j < 7 && i != j ==> !EqualFold(p[i].key, p[j].key)
  {
    forall i, j | 0 <= i < 7 && 0 <= j < 7 && i != j
      ensures !EqualFold(p[i].key, p[j].key)
    {
      if i >= 3 || j >= 3 {
        assert |p[i].key| != |p[j].key|;
      }
    }
  }

  lemma {:induction false} SevenApart(p: seq<Pair>)
    requires |p| == 7 && p[0].key == "host" && p[1].key == "port" && p[2].key == "user" && p[3].key == "password"
    requires p[4].key == "dbname" && p[5].key == "sslmode" && p[6].key == "connect_timeout"
    ensures forall i, j :: 0 <= i < 7 && 0 <= j < 7 && i != j ==> !EqualFold(p[i].key, p[j].key)
  {
    KeysApart();
    LengthsTellApart(p);
  }

  lemma {:induction false} SevenReadable(
    host: string, port: string, user: string, password: string, dbname: string, sslmode: string, timeout: string)
    requires NoSpace(host) && NoSpace(port) && NoSpace(user) && NoSpace(password) && NoSpace(dbname)
    requires NoSpace(sslmode) && NoSpace(timeout)
    ensures Readable(Seven(host, port, user, password, dbname, sslmode, timeout))
  {
    var p := Seven(host, port, user, password, dbname, sslmode, timeout);
    KeysAreKeywords();
    SevenApart(p);
  }

  lemma {:induction false} JoinSeven(a: string, b: string, c: string, d: string, e: string, f: string, g: string)
    ensures a + " " + b + " " + c + " " + d + " " + e + " " + f + " " + g
         == a + " " + (b + " " + (c + " " + (d + " " + (e + " " + (f + " " + g)))))
  {
    assert d + " " + (e + " " + (f + " " + g)) == d + " " + e + " " + f + " " + g;
    assert a + " " + (b + " " + (c + " " + (d + " " + e + " " + f + " " + g)))
        == a + " " + b + " " + c + " " + d + " " + e + " " + f + " " + g;
  }

  /** What reading finds for each of the seven keywords. */
  predicate Holds(
    dsn: string,
    host: string, port: string, user: string, password: string, dbname: string, sslmode: string, timeout: string)
  {
    && Find(Fields(dsn), "host") == Some(host) && Find(Fields(dsn), "port") == Some(port)
    && Find(Fields(dsn), "user") == Some(user) && Find(Fields(dsn), "password") == Some(password)
    && Find(Fields(dsn), "dbname") == Some(dbname) && Find(Fields(dsn), "sslmode") == Some(sslmode)
    && Find(Fields(dsn), "connect_timeout") == Some(timeout)
  }

  lemma {:induction false} JoinedOfSeven(
    host: string, port: string, user: string, password: string, dbname: string, sslmode: string, timeout: string)
    ensures Joined(Seven(host, port, user, password, dbname, sslmode, timeout))
         == Setting("host", host) + " " + (Setting("port", port) + " " + (Setting("user", user) + " "
            + (Setting("password", password) + " " + (Setting("dbname", dbname) + " "
            + (Setting("sslmode", sslmode) + " " + Setting("connect_timeout", timeout))))))
  {
    var p := Seven(host, port, user, password, dbname, sslmode, timeout);
    assert p[6..] == [Pair("connect_timeout", timeout)];
    assert p[5..][1..] == p[6..] && p[4..][1..] == p[5..] && p[3..][1..] == p[4..];
    assert p[2..][1..] == p[3..] && p[1..][1..] == p[2..] && p[0..] == p;
    assert Joined(p[5..]) == Setting("sslmode", sslmode) + " " + Joined(p[6..]);
    assert Joined(p[4..]) == Setting("dbname", dbname) + " " + Joined(p[5..]);
    assert Joined(p[3..]) == Setting("password", password) + " " + Joined(p[4..]);
    assert Joined(p[2..]) == Setting("user", user) + " " + Joined(p[3..]);
    assert Joined(p[1..]) == Setting("port", port) + " " + Joined(p[2..]);
  }

  lemma {:induction false} JoinedHolds(
    host: string, port: string, user: string, password: string, dbname: string, sslmode: string, timeout: string)
    requires NoSpace(host) && NoSpace(port) && NoSpace(user) && NoSpace(password) && NoSpace(dbname)
    requires NoSpace(sslmode) && NoSpace(timeout)
    ensures Holds(Joined(Seven(host, port, user, password, dbname, sslmode, timeout)),
                  host, port, user, password, dbname, sslmode, timeout)
  {
    var p := Seven(host, port, user, password, dbname, sslmode, timeout);
    SevenReadable(host, port, user, password, dbname, sslmode, timeout);
    FieldsOfJoined(p);
    FindInWords(p, 0);
    FindInWords(p, 1);
    FindInWords(p, 2);
    FindInWords(p, 3);
    FindInWords(p, 4);
    FindInWords(p, 5);
    FindInWords(p, 6);
  }

  /** With fields free of white space every setting of a printed connection string is read back. */
  lemma {:induction false} PrintedSettings(e: Endpoint, timeout: int)
    requires AllPlain(e) && NoSpace(e.sslmode)
    ensures Holds(Print(e, timeout), e.host, e.port, e.user, e.password, e.dbname, e.sslmode, Decimal(timeout))
  {
    var t := Decimal(timeout);
    JoinedHolds(e.host, e.port, e.user, e.password, e.dbname, e.sslmode, t);
    JoinedOfSeven(e.host, e.port, e.user, e.password, e.dbname, e.sslmode, t);
    JoinSeven(Setting("host", e.host), Setting("port", e.port), Setting("user", e.user),
              Setting("password", e.password), Setting("dbname", e.dbname), Setting("sslmode", e.sslmode),
              Setting("connect_timeout", t));
  }

  function Own(own: string, primary: string): string {
    if own != "" then own else primary
  }

  /**
   * The primary's string holds the primary's settings. With a replica host, the replica's holds for each
   * setting its own if there is one and the primary's otherwise; without one, it holds the primary's.
   */
  lemma {:induction false} SettingsFallBack(pg: Postgres)
    requires AllPlain(pg.primary) && NoSpace(pg.primary.sslmode) && AllPlain(pg.replica) && NoSpace(pg.replica.sslmode)
    ensures
      var p, r, t := pg.primary, pg.replica, Decimal(pg.connectTimeoutSec);
      && Holds(PrimaryDsn(pg), p.host, p.port, p.user, p.password, p.dbname, p.sslmode, t)
      && (r.host == "" ==> Holds(ReplicaDsn(pg), p.host, p.port, p.user, p.password, p.dbname, p.sslmode, t))
      && (r.host != "" ==>
            Holds(ReplicaDsn(pg), r.host, Own(r.port, p.port), Own(r.user, p.user), Own(r.password, p.password),
                  Own(r.dbname, p.dbname), Own(r.sslmode, p.sslmode), t))
  {
    PrintedSettings(pg.primary, pg.connectTimeoutSec);
    PrintedSettings(ReplicaEndpoint(pg), pg.connectTimeoutSec);
  }

  /** A keyword is read in any case. */
  lemma {:induction false} KeyInAnyCase(key: string, value: string)
    requires NoSpace(value) && |key| == 7 && forall i :: 0 <= i < 7 ==> LowerChar(key[i]) == "sslmode"[i]
    ensures Find(Fields(Setting(key, value)), "sslmode") == Some(value)
  {
    KeyChars(key);
    FindKeyed(key, value, "sslmode");
    PlainHasNoStrays(value);
  }

  lemma {:induction false} KeyChars(key: string)
    requires |key| == 7 && forall i :: 0 <= i < 7 ==> LowerChar(key[i]) == "sslmode"[i]
    ensures IsKeyword(key) && EqualFold(key, "sslmode")
  {
    var word := "sslmode";
    assert forall i :: 0 <= i < 7 ==> 'a' <= word[i] <= 'z';
    forall i | 0 <= i < 7
      ensures !IsSpace(key[i]) && key[i] != '=' && FoldRune(key[i]) == FoldRune(word[i])
    {
      assert LowerChar(key[i]) == word[i];
    }
  }

  /** Letters outside ASCII that are folded to ASCII ones count as these. */
  lemma {:induction false} OddLetters()
    ensures EqualFold("\U{017F}\U{017F}lmode", "sslmode") && EqualFold("\U{212A}ey", "key")
    ensures ToLower("D\U{0130}SABLE") == "disable" && ToLower("\U{212A}") == "k"
  {
  }
}
