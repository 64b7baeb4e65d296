/** The keys under which the tenant manager and the fetcher client are cached. */
module CacheKeys {
  import opened Text

  /** The settings the tenant-manager key and builder look at. */
  datatype TenantConfig = TenantConfig(
    enabled: bool, url: string, apiKey: string, environment: string, envName: string,
    maxOpenConns: int, maxIdleConns: int, maxTenantPools: int, idleTimeoutSec: int,
    breakerThreshold: int, breakerTimeoutSec: int, cacheTtlSec: int, checkIntervalSec: int, timeoutSec: int)

  /** What the builder is given; two managers built from equal inputs are interchangeable. */
  datatype TenantInputs = TenantInputs(
    url: string, apiKey: string, allowInsecure: bool, maxOpenConns: int, maxIdleConns: int,
    maxTenantPools: int, idleTimeout: int, breakerThreshold: int, breakerTimeoutSec: int,
    cacheTtl: int, checkInterval: int, timeout: int)

  function AtLeastOne(seconds: int): int {
    if seconds <= 0 then 1 else seconds
  }

  predicate IsLocalDevelopment(envName: string) {
    var normalized := Lower(TrimSpace(envName));
    normalized == "development" || normalized == "dev" || normalized == ""
  }

  function TenantBuild(cfg: TenantConfig): TenantInputs {
    TenantInputs(
      cfg.url, cfg.apiKey, IsLocalDevelopment(cfg.envName), cfg.maxOpenConns, cfg.maxIdleConns,
      cfg.maxTenantPools, AtLeastOne(cfg.idleTimeoutSec), cfg.breakerThreshold, cfg.breakerTimeoutSec,
      AtLeastOne(cfg.cacheTtlSec), AtLeastOne(cfg.checkIntervalSec), AtLeastOne(cfg.timeoutSec))
  }

  /** The options the builder sets, on the client and on the manager of the pools. */
  datatype Setting =
    | ServiceApiKey(key: string)
    | CircuitBreaker(threshold: int, seconds: int)
    | CacheTtl(seconds: int)
    | Timeout(seconds: int)
    | AllowInsecureHttp
    | MaxTenantPools(count: int)
    | IdleTimeout(seconds: int)
    | ConnectionLimits(open: int, idle: int)
    | CheckInterval(seconds: int)

  function With(i: TenantInputs, s: Setting): TenantInputs {
    match s
    case ServiceApiKey(key) => i.(apiKey := key)
    case CircuitBreaker(threshold, seconds) => i.(breakerThreshold := threshold, breakerTimeoutSec := seconds)
    case CacheTtl(seconds) => i.(cacheTtl := seconds)
    case Timeout(seconds) => i.(timeout := seconds)
    case AllowInsecureHttp => i.(allowInsecure := true)
    case MaxTenantPools(count) => i.(maxTenantPools := count)
    case IdleTimeout(seconds) => i.(idleTimeout := seconds)
    case ConnectionLimits(open, idle) => i.(maxOpenConns := open, maxIdleConns := idle)
    case CheckInterval(seconds) => i.(checkInterval := seconds)
  }

  /** Whatever the library starts from (`bare`), the options leave nothing of it but plain HTTP refused. */
  method BuildTenantManager(cfg: TenantConfig, bare: TenantInputs) returns (i: TenantInputs)
    requires !bare.allowInsecure
    ensures i == TenantBuild(cfg)
    ensures i.url == cfg.url && i.apiKey == cfg.apiKey
    ensures i.allowInsecure <==> Lower(TrimSpace(cfg.envName)) in {"", "dev", "development"}
    ensures i.maxOpenConns == cfg.maxOpenConns && i.maxIdleConns == cfg.maxIdleConns
    ensures i.maxTenantPools == cfg.maxTenantPools
    ensures i.breakerThreshold == cfg.breakerThreshold && i.breakerTimeoutSec == cfg.breakerTimeoutSec
    ensures i.idleTimeout == (if cfg.idleTimeoutSec < 1 then 1 else cfg.idleTimeoutSec)
    ensures i.cacheTtl == (if cfg.cacheTtlSec < 1 then 1 else cfg.cacheTtlSec)
    ensures i.checkInterval == (if cfg.checkIntervalSec < 1 then 1 else cfg.checkIntervalSec)
    ensures i.timeout == (if cfg.timeoutSec < 1 then 1 else cfg.timeoutSec)
  {
    i := bare.(url := cfg.url);
    i := With(i, ServiceApiKey(cfg.apiKey));
    i := With(i, CircuitBreaker(cfg.breakerThreshold, cfg.breakerTimeoutSec));
    i := With(i, CacheTtl(AtLeastOne(cfg.cacheTtlSec)));
    i := With(i, Timeout(AtLeastOne(cfg.timeoutSec)));
    if IsLocalDevelopment(cfg.envName) {
      i := With(i, AllowInsecureHttp);
    }
    i := With(i, MaxTenantPools(cfg.maxTenantPools));
    i := With(i, IdleTimeout(AtLeastOne(cfg.idleTimeoutSec)));
    i := With(i, ConnectionLimits(cfg.maxOpenConns, cfg.maxIdleConns));
    i := With(i, CheckInterval(AtLeastOne(cfg.checkIntervalSec)));
  }

  function EffectiveEnvironment(cfg: TenantConfig): string {
    if TrimSpace(cfg.environment) != "" then TrimSpace(cfg.environment) else TrimSpace(cfg.envName)
  }

  /** The fields of a key joined with '|'. */
  function Bars(fields: seq<string>): string {
    if fields == [] then ""
    else if |fields| == 1 then fields[0]
    else Bars(fields[..|fields| - 1]) + "|" + fields[|fields| - 1]
  }

  function Numbers(cfg: TenantConfig): seq<int> {
    [cfg.maxOpenConns, cfg.maxIdleConns, cfg.maxTenantPools, cfg.idleTimeoutSec, cfg.breakerThreshold,
     cfg.breakerTimeoutSec, cfg.cacheTtlSec, cfg.checkIntervalSec, cfg.timeoutSec]
  }

  function Decimals(ns: seq<int>): seq<string> {
    seq(|ns|, i requires 0 <= i < |ns| => Decimal(ns[i]))
  }

  /** `fingerprint` stands for the truncated hash of the API key. */
  function TenantFields(fingerprint: string -> string, cfg: TenantConfig): seq<string> {
    Names(fingerprint, cfg) + Decimals(Numbers(cfg))
  }

  function Names(fingerprint: string -> string, cfg: TenantConfig): seq<string> {
    [Boolean(cfg.enabled), cfg.url, fingerprint(cfg.apiKey)] + [EffectiveEnvironment(cfg), cfg.envName]
  }

  function TenantKey(fingerprint: string -> string, cfg: TenantConfig): string {
    Bars(TenantFields(fingerprint, cfg))
  }

  predicate Lacks(s: string, c: char) {
    forall i :: 0 <= i < |s| ==> s[i] != c
  }

  lemma {:induction false} SplitRight(c: char, a: string, b: string, a': string, b': string)
    requires a + [c] + b == a' + [c] + b'
    requires Lacks(b, c) && Lacks(b', c)
    ensures a == a' && b == b'
  {
    var s := a + [c] + b;
    assert forall i :: |a| < i < |s| ==> s[i] == b[i - |a| - 1];
    assert forall i :: |a'| < i < |s| ==> s[i] == b'[i - |a'| - 1];
    assert s[|a|] == c && s[|a'|] == c;
    assert a == s[..|a|] && b == s[|a| + 1..];
    assert a' == s[..|a'|] && b' == s[|a'| + 1..];
  }

  lemma {:induction false} SplitLeft(c: char, a: string, b: string, a': string, b': string)
    requires a + [c] + b == a' + [c] + b'
    requires Lacks(a, c) && Lacks(a', c)
    ensures a == a' && b == b'
  {
    var s := a + [c] + b;
    assert forall i :: 0 <= i < |a| ==> s[i] == a[i];
    assert forall i :: 0 <= i < |a'| ==> s[i] == a'[i];
    assert s[|a|] == c && s[|a'|] == c;
    assert a == s[..|a|] && b == s[|a| + 1..];
    assert a' == s[..|a'|] && b' == s[|a'| + 1..];
  }

  /** Joined fields can be told apart when only one of the first two may contain a bar. */
  lemma {:induction false} BarsInjective(a: seq<string>, b: seq<string>, free: nat)
    requires free <= 1 && free < |a| == |b|
    requires forall i :: 0 <= i < |a| && i != free ==> Lacks(a[i], '|') && Lacks(b[i], '|')
    requires Bars(a) == Bars(b)
    ensures a == b
  {
    var n := |a| - 1;
    if n == 0 {
    } else if n == free {
      assert a[..n] == [a[0]] && b[..n] == [b[0]];
      SplitLeft('|', a[0], a[1], b[0], b[1]);
    } else {
      SplitRight('|', Bars(a[..n]), a[n], Bars(b[..n]), b[n]);
      BarsInjective(a[..n], b[..n], free);
      assert a == a[..n] + [a[n]] && b == b[..n] + [b[n]];
    }
  }

  /** No bar in the two environment names; the URL may hold any. */
  predicate Plain(cfg: TenantConfig) {
    Lacks(cfg.environment, '|') && Lacks(cfg.envName, '|')
  }

  /** The fingerprint is printed without bars and tells the API keys of the two configurations apart. */
  predicate Fingerprints(fingerprint: string -> string, a: TenantConfig, b: TenantConfig) {
    && Lacks(fingerprint(a.apiKey), '|') && Lacks(fingerprint(b.apiKey), '|')
    && (fingerprint(a.apiKey) == fingerprint(b.apiKey) ==> a.apiKey == b.apiKey)
  }

  predicate Distinguished(fingerprint: string -> string, a: TenantConfig, b: TenantConfig) {
    Plain(a) && Plain(b) && Fingerprints(fingerprint, a, b)
  }

  lemma {:induction false} TrimLacks(s: string, c: char)
    requires Lacks(s, c)
    ensures Lacks(TrimSpace(s), c)
  {
    var t := TrimLeft(s);
    assert TrimSpace(s) <= t;
  }

  lemma {:induction false} DecimalsLackBars(ns: seq<int>)
    ensures forall i :: 0 <= i < |ns| ==> Lacks(Decimals(ns)[i], '|')
  {
    forall i | 0 <= i < |ns|
      ensures Lacks(Decimals(ns)[i], '|')
    {
      assert Decimals(ns)[i] == Decimal(ns[i]);
    }
  }

  lemma {:induction false} DecimalsInjective(ms: seq<int>, ns: seq<int>)
    requires Decimals(ms) == Decimals(ns)
    ensures ms == ns
  {
    assert |ms| == |Decimals(ms)| == |Decimals(ns)| == |ns|;
    forall i | 0 <= i < |ms|
      ensures ms[i] == ns[i]
    {
      assert Decimals(ms)[i] == Decimal(ms[i]) && Decimals(ns)[i] == Decimal(ns[i]);
      DecimalInjective(ms[i], ns[i]);
    }
  }

  lemma {:induction false} EnvironmentLacksBar(cfg: TenantConfig)
    requires Plain(cfg)
    ensures Lacks(EffectiveEnvironment(cfg), '|')
  {
    TrimLacks(cfg.environment, '|');
    TrimLacks(cfg.envName, '|');
  }

  lemma {:induction false} SameNumbers(a: TenantConfig, b: TenantConfig)
    requires Numbers(a) == Numbers(b)
    ensures TenantBuild(a) == TenantBuild(b)
       <==> && a.url == b.url && a.apiKey == b.apiKey
            && IsLocalDevelopment(a.envName) == IsLocalDevelopment(b.envName)
  {
    var x, y := Numbers(a), Numbers(b);
    assert x[0] == y[0] && x[1] == y[1] && x[2] == y[2] && x[3] == y[3] && x[4] == y[4];
    assert x[5] == y[5] && x[6] == y[6] && x[7] == y[7] && x[8] == y[8];
  }

  /** The two environment names as they stand in the key. */
  function Environments(cfg: TenantConfig): string {
    EffectiveEnvironment(cfg) + "|" + cfg.envName
  }

  /** What stands in the key between the first field and the numbers. */
  function Middle(fingerprint: string -> string, cfg: TenantConfig): string {
    cfg.url + "|" + (fingerprint(cfg.apiKey) + "|" + Environments(cfg))
  }

  lemma {:induction false} FiveBars(a: string, b: string, c: string, d: string, e: string)
    ensures Bars([a, b, c] + [d, e]) == a + ['|'] + (b + "|" + (c + "|" + (d + "|" + e)))
  {
    var fields := [a, b, c] + [d, e];
    assert fields[..4] == [a, b, c, d] && [a, b, c, d][..3] == [a, b, c];
    assert [a, b, c][..2] == [a, b] && [a, b][..1] == [a];
    assert Bars([a, b]) == a + "|" + b;
    assert Bars([a, b, c]) == a + "|" + b + "|" + c;
    assert Bars([a, b, c, d]) == a + "|" + b + "|" + c + "|" + d;
    assert Bars(fields) == a + "|" + b + "|" + c + "|" + d + "|" + e;
  }

  lemma {:induction false} BarsLast(p: seq<string>, s: seq<string>, last: string)
    requires p != []
    ensures Bars(p + (s + [last])) == Bars(p + s) + ['|'] + last
  {
    var all := p + (s + [last]);
    assert all[..|all| - 1] == p + s && all[|all| - 1] == last;
  }

  /** Fields without bars at the end of joined fields can always be told apart from the rest. */
  lemma {:induction false} BarsTail(p: seq<string>, q: seq<string>, s: seq<string>, t: seq<string>)
    requires p != [] && q != [] && |s| == |t|
    requires forall i :: 0 <= i < |s| ==> Lacks(s[i], '|') && Lacks(t[i], '|')
    ensures Bars(p + s) == Bars(q + t) <==> Bars(p) == Bars(q) && s == t
  {
    if s == [] {
      assert p + s == p && q + t == q;
    } else {
      var n := |s| - 1;
      assert s == s[..n] + [s[n]] && t == t[..n] + [t[n]];
      BarsTail(p, q, s[..n], t[..n]);
      BarsLast(p, s[..n], s[n]);
      BarsLast(q, t[..n], t[n]);
      LastApart(Bars(p + s[..n]), s[n], Bars(q + t[..n]), t[n]);
    }
  }

  lemma {:induction false} LastApart(a: string, s: string, b: string, t: string)
    requires Lacks(s, '|') && Lacks(t, '|')
    ensures a + ['|'] + s == b + ['|'] + t <==> a == b && s == t
  {
    if a + ['|'] + s == b + ['|'] + t {
      SplitRight('|', a, s, b, t);
    }
  }

  lemma {:induction false} BarsOfNames(fingerprint: string -> string, cfg: TenantConfig)
    ensures Bars(Names(fingerprint, cfg)) == Boolean(cfg.enabled) + ['|'] + Middle(fingerprint, cfg)
  {
    FiveBars(Boolean(cfg.enabled), cfg.url, fingerprint(cfg.apiKey), EffectiveEnvironment(cfg), cfg.envName);
  }

  lemma {:induction false} NamesMeetExactly(fingerprint: string -> string, a: TenantConfig, b: TenantConfig)
    ensures Bars(Names(fingerprint, a)) == Bars(Names(fingerprint, b))
       <==> a.enabled == b.enabled && Middle(fingerprint, a) == Middle(fingerprint, b)
  {
    BarsOfNames(fingerprint, a);
    BarsOfNames(fingerprint, b);
    FlagSplits(a.enabled, Middle(fingerprint, a), b.enabled, Middle(fingerprint, b));
  }

  lemma {:induction false} FlagSplits(x: bool, s: string, y: bool, t: string)
    ensures Boolean(x) + ['|'] + s == Boolean(y) + ['|'] + t <==> x == y && s == t
  {
    if Boolean(x) + ['|'] + s == Boolean(y) + ['|'] + t {
      SplitLeft('|', Boolean(x), s, Boolean(y), t);
      assert Boolean(true)[0] == 't' && Boolean(false)[0] == 'f';
    }
  }

  /**
   * For all configurations and any fingerprint: two share a key exactly when they agree on the flag and
   * the numbers and on the URL, fingerprint and names as one joined text.
   */
  lemma {:induction false} TenantKeysMeetExactly(fingerprint: string -> string, a: TenantConfig, b: TenantConfig)
    ensures TenantKey(fingerprint, a) == TenantKey(fingerprint, b)
       <==> a.enabled == b.enabled && Numbers(a) == Numbers(b) && Middle(fingerprint, a) == Middle(fingerprint, b)
  {
    DecimalsLackBars(Numbers(a));
    DecimalsLackBars(Numbers(b));
    BarsTail(Names(fingerprint, a), Names(fingerprint, b), Decimals(Numbers(a)), Decimals(Numbers(b)));
    NamesMeetExactly(fingerprint, a, b);
    if Decimals(Numbers(a)) == Decimals(Numbers(b)) {
      DecimalsInjective(Numbers(a), Numbers(b));
    }
  }

  /** White space around the environment does not show in the key, and a blank one stands for the name. */
  lemma {:induction false} KeyOfEnvironment(fingerprint: string -> string, cfg: TenantConfig)
    ensures TenantKey(fingerprint, cfg.(environment := TrimSpace(cfg.environment))) == TenantKey(fingerprint, cfg)
    ensures TrimSpace(cfg.environment) == "" ==>
              TenantKey(fingerprint, cfg.(environment := cfg.envName)) == TenantKey(fingerprint, cfg)
  {
    TrimSpaceTakesBlank(cfg.environment);
    TrimSpaceIdentity(TrimSpace(cfg.environment));
    var trimmed, named := cfg.(environment := TrimSpace(cfg.environment)), cfg.(environment := cfg.envName);
    assert EffectiveEnvironment(trimmed) == EffectiveEnvironment(cfg);
    TenantKeysMeetExactly(fingerprint, trimmed, cfg);
    TenantKeysMeetExactly(fingerprint, named, cfg);
  }

  lemma {:induction false} CancelLeft(a: string, b: string, c: string)
    ensures a + b == a + c <==> b == c
  {
    assert (a + b)[|a|..] == b && (a + c)[|a|..] == c;
  }

  /**
   * Configurations of one service, with any names, share a key exactly when they agree on the flag, the
   * numbers and the joined names.
   */
  lemma {:induction false} ServiceKeysMeetExactly(fingerprint: string -> string, a: TenantConfig, b: TenantConfig)
    requires a.url == b.url && a.apiKey == b.apiKey
    ensures TenantKey(fingerprint, a) == TenantKey(fingerprint, b)
       <==> a.enabled == b.enabled && Numbers(a) == Numbers(b) && Environments(a) == Environments(b)
  {
    TenantKeysMeetExactly(fingerprint, a, b);
    CancelLeft(fingerprint(a.apiKey) + "|", Environments(a), Environments(b));
    CancelLeft(a.url + "|", fingerprint(a.apiKey) + "|" + Environments(a),
          fingerprint(b.apiKey) + "|" + Environments(b));
  }

  /**
   * Any two configurations share a key and need different managers exactly when the parts of the key
   * agree and their URLs, their API keys or their being for local development differ.
   */
  lemma {:induction false} CollidesExactly(fingerprint: string -> string, a: TenantConfig, b: TenantConfig)
    ensures TenantKey(fingerprint, a) == TenantKey(fingerprint, b) && TenantBuild(a) != TenantBuild(b)
       <==> && a.enabled == b.enabled && Numbers(a) == Numbers(b) && Middle(fingerprint, a) == Middle(fingerprint, b)
            && (a.url != b.url || a.apiKey != b.apiKey
               || IsLocalDevelopment(a.envName) != IsLocalDevelopment(b.envName))
  {
    TenantKeysMeetExactly(fingerprint, a, b);
    if Numbers(a) == Numbers(b) {
      SameNumbers(a, b);
    }
  }

  lemma {:induction false} MiddleGroups(u: string, f: string, e: string, n: string)
    ensures u + "|" + (f + "|" + (e + "|" + n)) == u + ['|'] + f + ['|'] + e + ['|'] + n
  {
  }

  /** Four joined texts can be told apart when only the first may contain a bar. */
  lemma {:induction false} MiddleSplits(
    u: string, f: string, e: string, n: string, u': string, f': string, e': string, n': string)
    requires Lacks(f, '|') && Lacks(e, '|') && Lacks(n, '|') && Lacks(f', '|') && Lacks(e', '|') && Lacks(n', '|')
    requires u + "|" + (f + "|" + (e + "|" + n)) == u' + "|" + (f' + "|" + (e' + "|" + n'))
    ensures u == u' && f == f' && n == n'
  {
    MiddleGroups(u, f, e, n);
    MiddleGroups(u', f', e', n');
    SplitRight('|', u + ['|'] + f + ['|'] + e, n, u' + ['|'] + f' + ['|'] + e', n');
    SplitRight('|', u + ['|'] + f, e, u' + ['|'] + f', e');
    SplitRight('|', u, f, u', f');
  }

  /** Equal tenant keys mean equal builder inputs. */
  lemma {:induction false} TenantKeyDeterminesBuild(fingerprint: string -> string, a: TenantConfig, b: TenantConfig)
    requires Distinguished(fingerprint, a, b)
    ensures TenantKey(fingerprint, a) == TenantKey(fingerprint, b) ==> TenantBuild(a) == TenantBuild(b)
  {
    CollidesExactly(fingerprint, a, b);
    if Middle(fingerprint, a) == Middle(fingerprint, b) {
      EnvironmentLacksBar(a);
      EnvironmentLacksBar(b);
      MiddleSplits(a.url, fingerprint(a.apiKey), EffectiveEnvironment(a), a.envName,
                   b.url, fingerprint(b.apiKey), EffectiveEnvironment(b), b.envName);
    }
  }

  /** With a bar in the names two configurations can share a key and need different managers. */
  lemma {:induction false} BarsInNamesCollide(fingerprint: string -> string, cfg: TenantConfig)
    ensures
      var a, b := cfg.(environment := "x", envName := "y|"), cfg.(environment := "x|y", envName := "");
      TenantKey(fingerprint, a) == TenantKey(fingerprint, b) && TenantBuild(a) != TenantBuild(b)
  {
    var a, b := cfg.(environment := "x", envName := "y|"), cfg.(environment := "x|y", envName := "");
    OddNames(a, b);
    ServiceKeysMeetExactly(fingerprint, a, b);
    SameNumbers(a, b);
  }

  lemma {:induction false} OddNames(a: TenantConfig, b: TenantConfig)
    requires a.environment == "x" && a.envName == "y|"
    requires b.environment == "x|y" && b.envName == ""
    ensures Environments(a) == Environments(b)
    ensures !IsLocalDevelopment(a.envName) && IsLocalDevelopment(b.envName)
  {
    OddTexts();
    assert Environments(a) == "x" + "|" + "y|" && Environments(b) == "x|y" + "|" + "" by {
      assert TrimSpace(a.environment) != "" && TrimSpace(b.environment) != "";
    }
  }

  lemma {:induction false} OddTexts()
    ensures TrimSpace("x") == "x" && TrimSpace("x|y") == "x|y"
    ensures IsLocalDevelopment("") && !IsLocalDevelopment("y|")
    ensures "x" + "|" + "y|" == "x|y" + "|" + ""
  {
    TrimSpaceIdentity("x");
    TrimSpaceIdentity("x|y");
    TrimSpaceIdentity("y|");
    assert |Lower("y|")| == 2;
  }

  /** The settings the fetcher key and client look at. */
  datatype FetcherConfig = FetcherConfig(
    enabled: bool, url: string, allowPrivateIps: bool, healthTimeoutSec: int, requestTimeoutSec: int)

  datatype FetcherInputs = FetcherInputs(url: string, allowPrivateIps: bool, healthTimeout: nat, requestTimeout: nat)

  const DEFAULT_HEALTH_TIMEOUT: nat := 5
  const DEFAULT_REQUEST_TIMEOUT: nat := 30

  function FetcherBuild(cfg: FetcherConfig): FetcherInputs {
    FetcherInputs(
      cfg.url, cfg.allowPrivateIps,
      if cfg.healthTimeoutSec <= 0 then DEFAULT_HEALTH_TIMEOUT else cfg.healthTimeoutSec,
      if cfg.requestTimeoutSec <= 0 then DEFAULT_REQUEST_TIMEOUT else cfg.requestTimeoutSec)
  }

  /** time.Duration's String for a whole number of seconds. */
  function Duration(seconds: nat): string {
    var h, m, s := seconds / 3600, seconds % 3600 / 60, seconds % 60;
    if h > 0 then Digits(h) + "h" + (Digits(m) + "m" + (Digits(s) + "s"))
    else if m > 0 then Digits(m) + "m" + (Digits(s) + "s")
    else Digits(s) + "s"
  }

  function FetcherKey(cfg: FetcherConfig): string {
    var i := FetcherBuild(cfg);
    Bars([i.url, Boolean(i.allowPrivateIps), Duration(i.healthTimeout), Duration(i.requestTimeout)])
  }

  lemma {:induction false} DigitsLack(n: nat, c: char)
    requires !IsDigit(c)
    ensures Lacks(Digits(n), c)
  {
  }

  lemma {:induction false} DigitsInjective(m: nat, n: nat)
    requires Digits(m) == Digits(n)
    ensures m == n
  {
    DigitsDenote(m);
    DigitsDenote(n);
  }

  /** Two printed numbers followed by the same unit letter. */
  lemma {:induction false} UnitSplit(c: char, m: nat, rest: string, n: nat, rest': string)
    requires !IsDigit(c)
    requires Digits(m) + [c] + rest == Digits(n) + [c] + rest'
    ensures m == n && rest == rest'
  {
    DigitsLack(m, c);
    DigitsLack(n, c);
    SplitLeft(c, Digits(m), rest, Digits(n), rest');
    DigitsInjective(m, n);
  }

  lemma {:induction false} SecondsSplit(m: nat, n: nat)
    requires Digits(m) + "s" == Digits(n) + "s"
    ensures m == n
  {
    assert Digits(m) + ['s'] + "" == Digits(m) + "s" && Digits(n) + ['s'] + "" == Digits(n) + "s";
    UnitSplit('s', m, "", n, "");
  }

  /** The unit letters in a printed duration. */
  lemma {:induction false} DurationUnits(seconds: nat)
    ensures Lacks(Duration(seconds), '|')
    ensures 'h' in Duration(seconds) <==> seconds >= 3600
    ensures seconds < 3600 ==> ('m' in Duration(seconds) <==> seconds >= 60)
  {
    var h, m, s := seconds / 3600, seconds % 3600 / 60, seconds % 60;
    assert forall i :: 0 <= i < |Digits(h)| ==> IsDigit(Digits(h)[i]);
    assert forall i :: 0 <= i < |Digits(m)| ==> IsDigit(Digits(m)[i]);
    assert forall i :: 0 <= i < |Digits(s)| ==> IsDigit(Digits(s)[i]);
    if h > 0 {
      assert Duration(seconds)[|Digits(h)|] == 'h';
    } else if m > 0 {
      assert Duration(seconds)[|Digits(m)|] == 'm';
    }
  }

  lemma {:induction false} DurationInjective(x: nat, y: nat)
    requires Duration(x) == Duration(y)
    ensures x == y
  {
    DurationUnits(x);
    DurationUnits(y);
    var s, s' := Digits(x % 60) + "s", Digits(y % 60) + "s";
    if x >= 3600 {
      UnitSplit('h', x / 3600, Digits(x % 3600 / 60) + "m" + s, y / 3600, Digits(y % 3600 / 60) + "m" + s');
      UnitSplit('m', x % 3600 / 60, s, y % 3600 / 60, s');
      SecondsSplit(x % 60, y % 60);
      FromParts(x);
      FromParts(y);
    } else if x >= 60 {
      UnitSplit('m', x % 3600 / 60, s, y % 3600 / 60, s');
      SecondsSplit(x % 60, y % 60);
    } else {
      SecondsSplit(x % 60, y % 60);
    }
  }

  lemma {:induction false} FromParts(x: nat)
    ensures x == x / 3600 * 3600 + x % 3600 / 60 * 60 + x % 60
  {
    assert x % 3600 % 60 == x % 60;
  }

  lemma {:induction false} DurationLacksBars(seconds: nat)
    ensures Lacks(Duration(seconds), '|')
  {
    DurationUnits(seconds);
  }

  /** A duration of `h` hours, `m` minutes and `s` seconds is printed from its first unit that counts. */
  lemma {:induction false} DurationText(h: nat, m: nat, s: nat)
    requires m < 60 && s < 60
    ensures Duration(h * 3600 + m * 60 + s)
         == (if h > 0 then Digits(h) + "h" else "") + (if h > 0 || m > 0 then Digits(m) + "m" else "")
            + (Digits(s) + "s")
  {
    Parts(h, m * 60 + s);
    MinutesAndSeconds(h, m, s);
  }

  lemma {:induction false} Parts(h: nat, rest: nat)
    requires rest < 3600
    ensures (h * 3600 + rest) / 3600 == h && (h * 3600 + rest) % 3600 == rest
  {
  }

  lemma {:induction false} Sixtieths(m: nat, s: nat)
    requires s < 60
    ensures (m * 60 + s) / 60 == m && (m * 60 + s) % 60 == s
  {
  }

  lemma {:induction false} MinutesAndSeconds(h: nat, m: nat, s: nat)
    requires m < 60 && s < 60
    ensures (m * 60 + s) / 60 == m && (h * 3600 + m * 60 + s) % 60 == s
  {
    Sixtieths(m, s);
    var all := h * 60 + m;
    Sixtieths(all, s);
    assert h * 3600 + m * 60 + s == all * 60 + s;
  }

  /** Two fetcher configurations share a key exactly when a client built for one serves the other; any URL. */
  lemma {:induction false} FetcherKeyDeterminesBuild(a: FetcherConfig, b: FetcherConfig)
    ensures FetcherKey(a) == FetcherKey(b) <==> FetcherBuild(a) == FetcherBuild(b)
  {
    if FetcherKey(a) == FetcherKey(b) {
      var x, y := FetcherBuild(a), FetcherBuild(b);
      DurationLacksBars(x.healthTimeout);
      DurationLacksBars(x.requestTimeout);
      DurationLacksBars(y.healthTimeout);
      DurationLacksBars(y.requestTimeout);
      var fx := [x.url, Boolean(x.allowPrivateIps), Duration(x.healthTimeout), Duration(x.requestTimeout)];
      var fy := [y.url, Boolean(y.allowPrivateIps), Duration(y.healthTimeout), Duration(y.requestTimeout)];
      BarsInjective(fx, fy, 0);
      assert fx[0] == fy[0] && fx[1] == fy[1] && fx[2] == fy[2] && fx[3] == fy[3];
      DurationInjective(x.healthTimeout, y.healthTimeout);
      DurationInjective(x.requestTimeout, y.requestTimeout);
    }
  }
}
