/** PostgreSQL connection strings in keyword/value form: the printer, and the reader that finds the sslmode. */
module Dsn {
  import opened Types
  import opened Text

  datatype Endpoint = Endpoint(
    host: string, port: string, user: string, password: string, dbname: string, sslmode: string)

  datatype Postgres = Postgres(primary: Endpoint, replica: Endpoint, connectTimeoutSec: int)

  function Setting(key: string, value: string): string {
    key + "=" + value
  }

  /** The settings printed before the sslmode. */
  function Leading(e: Endpoint): string {
    Setting("host", e.host) + " " + Setting("port", e.port) + " " + Setting("user", e.user) + " "
    + Setting("password", e.password) + " " + Setting("dbname", e.dbname)
  }

  function Print(e: Endpoint, timeout: int): string {
    Leading(e) + " " + Setting("sslmode", e.sslmode) + " " + Setting("connect_timeout", Decimal(timeout))
  }

  function PrimaryDsn(pg: Postgres): string {
    Print(pg.primary, pg.connectTimeoutSec)
  }

  function OrElse(s: string, fallback: string): string {
    if s == "" then fallback else s
  }

  /** The endpoint the replica connection uses, with the primary's settings where its own are missing. */
  function ReplicaEndpoint(pg: Postgres): Endpoint {
    if pg.replica.host == "" then pg.primary
    else
      Endpoint(
        pg.replica.host,
        OrElse(pg.replica.port, pg.primary.port),
        OrElse(pg.replica.user, pg.primary.user),
        OrElse(pg.replica.password, pg.primary.password),
        OrElse(pg.replica.dbname, pg.primary.dbname),
        OrElse(pg.replica.sslmode, pg.primary.sslmode))
  }

  function ReplicaDsn(pg: Postgres): string {
    Print(ReplicaEndpoint(pg), pg.connectTimeoutSec)
  }

  /** The length of the word at the start of `s`. */
  function WordLength(s: string): (n: nat)
    ensures n <= |s|
  {
    if s == "" || IsSpace(s[0]) then 0 else 1 + WordLength(s[1..])
  }

  function FirstWord(s: string): string {
    s[..WordLength(s)]
  }

  /** strings.Fields */
  function Fields(s: string): seq<string>
    decreases |s|
  {
    if s == "" then []
    else if IsSpace(s[0]) then Fields(s[1..])
    else
      assert WordLength(s) > 0;
      [FirstWord(s)] + Fields(s[WordLength(s)..])
  }

  /** The position of the first '=', or -1. */
  function EqualsSign(s: string): (i: int)
    ensures -1 <= i < |s|
  {
    if s == "" then -1
    else if s[0] == '=' then 0
    else
      var i := EqualsSign(s[1..]);
      if i < 0 then -1 else i + 1
  }

  /** strings.EqualFold of any text and an ASCII `b`. */
  predicate EqualFold(a: string, b: string) {
    |a| == |b| && forall i :: 0 <= i < |a| ==> FoldRune(a[i]) == FoldRune(b[i])
  }

  /** The value a word gives to `key`, if it is an assignment to it. */
  function Assigned(word: string, key: string): Option<string> {
    var eq := EqualsSign(word);
    if eq > 0 && EqualFold(TrimSpace(word[..eq]), key) then Some(TrimSpace(word[eq + 1..])) else None
  }

  /** The value of the first assignment to `key`. */
  function Find(words: seq<string>, key: string): Option<string> {
    if words == [] then None
    else if Assigned(words[0], key).Some? then Assigned(words[0], key)
    else Find(words[1..], key)
  }

  method ExtractKeywordValue(dsn: string, key: string) returns (value: string)
    ensures value == match Find(Fields(dsn), key) case Some(v) => v case None => ""
  {
    var fields := Fields(dsn);
    for i := 0 to |fields|
      invariant Find(fields[i..], key) == Find(fields, key)
    {
      var eq := EqualsSign(fields[i]);
      if eq <= 0 {
        continue;
      }
      var k := TrimSpace(fields[i][..eq]);
      var v := TrimSpace(fields[i][eq + 1..]);
      if EqualFold(k, key) {
        return v;
      }
    }
    return "";
  }

  /** Every mode but the empty one and "disable" uses TLS. */
  predicate SslmodeIsTls(mode: string) {
    var m := ToLower(TrimSpace(mode));
    m != "" && m != "disable"
  }

  predicate IsUrl(dsn: string) {
    "postgres://" <= ToLower(dsn) || "postgresql://" <= ToLower(dsn)
  }

  /** The TLS posture of a connection string; `None` for the URL form, which is not modelled. */
  method DetectPostgresTls(dsn: string) returns (tls: Option<bool>)
    ensures tls == DetectedTls(dsn)
    ensures TrimSpace(dsn) == "" ==> tls == Some(false)
    ensures tls.None? <==> var text := ToLower(TrimSpace(dsn)); "postgres://" <= text || "postgresql://" <= text
  {
    var trimmed := TrimSpace(dsn);
    if trimmed == "" {
      return Some(false);
    }
    if IsUrl(trimmed) {
      return None;
    }
    var mode := ExtractKeywordValue(trimmed, "sslmode");
    return Some(SslmodeIsTls(mode));
  }

  function DetectedTls(dsn: string): Option<bool> {
    var trimmed := TrimSpace(dsn);
    if trimmed == "" then Some(false)
    else if IsUrl(trimmed) then None
    else Some(SslmodeIsTls(match Find(Fields(trimmed), "sslmode") case Some(v) => v case None => ""))
  }
}
