/** The provider that owns the tenant manager and its client and replaces them when the configuration changes. */
module TenantProvider {
  import opened Types
  import opened CacheKeys

  /**
   * What the provider holds. Managers and clients are numbered as they are built, each manager with
   * the number of its client; the closed ones and the configuration of the held one are kept as history.
   */
  datatype Pool = Pool(
    manager: Option<nat>, client: Option<nat>, key: string,
    built: nat, closedManagers: seq<nat>, closedClients: seq<nat>, source: Option<TenantConfig>)

  const EMPTY := Pool(None, None, "", 0, [], [], None)

  function Closing(closed: seq<nat>, held: Option<nat>): seq<nat> {
    if held.Some? then closed + [held.value] else closed
  }

  predicate Hit(keyOf: TenantConfig -> string, p: Pool, cfg: TenantConfig) {
    p.manager.Some? && p.key == keyOf(cfg)
  }

  /** What was held is closed, and the next manager and client take its place. */
  function Replaced(p: Pool, key: string, cfg: TenantConfig): Pool {
    Pool(Some(p.built), Some(p.built), key, p.built + 1,
         Closing(p.closedManagers, p.manager), Closing(p.closedClients, p.client), Some(cfg))
  }

  /** A lookup: a hit, a failed build that changes nothing, or a replacement. */
  function Resolved(keyOf: TenantConfig -> string, p: Pool, cfg: Option<TenantConfig>, buildOk: bool): Pool {
    if cfg.None? || Hit(keyOf, p, cfg.value) || !buildOk then p
    else Replaced(p, keyOf(cfg.value), cfg.value)
  }

  /** The manager a lookup returns; `None` is an error. */
  function Answer(keyOf: TenantConfig -> string, p: Pool, cfg: Option<TenantConfig>, buildOk: bool): Option<nat> {
    if cfg.None? || !(Hit(keyOf, p, cfg.value) || buildOk) then None
    else Resolved(keyOf, p, cfg, buildOk).manager
  }

  function Released(p: Pool): Pool {
    p.(manager := None, client := None, key := "", source := None,
       closedManagers := Closing(p.closedManagers, p.manager), closedClients := Closing(p.closedClients, p.client))
  }

  /** Startup stores a freshly built manager; a failed build leaves the provider to build one later. */
  function Seeded(keyOf: TenantConfig -> string, p: Pool, cfg: TenantConfig, buildOk: bool): Pool {
    if !buildOk then p
    else p.(manager := Some(p.built), client := Some(p.built), key := keyOf(cfg),
            built := p.built + 1, source := Some(cfg))
  }

  class Provider {
    const keyOf: TenantConfig -> string
    var pgManager: Option<nat>
    var tmClient: Option<nat>
    var multiTenantKey: string
    ghost var built: nat
    ghost var closedManagers: seq<nat>
    ghost var closedClients: seq<nat>
    ghost var source: Option<TenantConfig>

    ghost function View(): Pool
      reads this
    {
      Pool(pgManager, tmClient, multiTenantKey, built, closedManagers, closedClients, source)
    }

    /** A manager is held under this key. */
    ghost predicate Holds(key: string)
      reads this
    {
      pgManager.Some? && multiTenantKey == key
    }

    constructor (keyOf: TenantConfig -> string)
      ensures this.keyOf == keyOf && View() == EMPTY
    {
      this.keyOf := keyOf;
      pgManager, tmClient, multiTenantKey := None, None, "";
      built, closedManagers, closedClients, source := 0, [], [], None;
    }

    /** `made` is what the builder returns: the number of the new manager and client, or nothing. */
    method CurrentPGManager(cfg: Option<TenantConfig>, made: Option<nat>) returns (manager: Option<nat>)
      requires made.Some? ==> made.value == built
      modifies this
      ensures View() == Resolved(keyOf, old(View()), cfg, made.Some?)
      ensures manager == Answer(keyOf, old(View()), cfg, made.Some?)
      ensures cfg.Some? && old(Holds(keyOf(cfg.value))) ==> manager == old(pgManager) && View() == old(View())
      ensures cfg.Some? && made.Some? && !old(Holds(keyOf(cfg.value))) ==>
                && manager == made && pgManager == made && tmClient == made && multiTenantKey == keyOf(cfg.value)
                && closedManagers == old(closedManagers) + (if old(pgManager).Some? then [old(pgManager).value] else [])
                && closedClients == old(closedClients) + (if old(tmClient).Some? then [old(tmClient).value] else [])
      ensures manager.None? <==> cfg.None? || (made.None? && !old(Holds(keyOf(cfg.value))))
      ensures manager.None? ==> View() == old(View())
    {
      if cfg.None? {
        return None;
      }
      var key := keyOf(cfg.value);
      if pgManager.Some? && multiTenantKey == key {
        return pgManager;
      }
      if made.None? {
        return None;
      }
      Replace(made.value, key, cfg.value);
      return pgManager;
    }

    method Replace(made: nat, key: string, ghost cfg: TenantConfig)
      requires made == built
      modifies this
      ensures View() == Replaced(old(View()), key, cfg)
    {
      if pgManager.Some? {
        closedManagers := closedManagers + [pgManager.value];
      }
      if tmClient.Some? {
        closedClients := closedClients + [tmClient.value];
      }
      pgManager, tmClient, multiTenantKey := Some(made), Some(made), key;
      built, source := built + 1, Some(cfg);
    }

    method Seed(cfg: TenantConfig, made: Option<nat>)
      requires made.Some? ==> made.value == built
      modifies this
      ensures View() == Seeded(keyOf, old(View()), cfg, made.Some?)
      ensures made.Some? ==> pgManager == made && tmClient == made && multiTenantKey == keyOf(cfg)
      ensures made.None? ==> View() == old(View())
    {
      if made.Some? {
        pgManager, tmClient, multiTenantKey := made, made, keyOf(cfg);
        built, source := built + 1, Some(cfg);
      }
    }

    method Close()
      modifies this
      ensures View() == Released(old(View()))
      ensures pgManager.None? && tmClient.None? && multiTenantKey == ""
      ensures closedManagers == old(closedManagers) + (if old(pgManager).Some? then [old(pgManager).value] else [])
      ensures closedClients == old(closedClients) + (if old(tmClient).Some? then [old(tmClient).value] else [])
    {
      if pgManager.Some? {
        closedManagers := closedManagers + [pgManager.value];
        pgManager := None;
      }
      if tmClient.Some? {
        closedClients := closedClients + [tmClient.value];
        tmClient := None;
      }
      multiTenantKey, source := "", None;
    }
  }

  datatype Event = Lookup(cfg: Option<TenantConfig>, buildOk: bool) | Shutdown

  function Next(keyOf: TenantConfig -> string, p: Pool, e: Event): Pool {
    match e
    case Lookup(cfg, buildOk) => Resolved(keyOf, p, cfg, buildOk)
    case Shutdown => Released(p)
  }

  function Run(keyOf: TenantConfig -> string, p: Pool, events: seq<Event>): Pool
    decreases |events|
  {
    if events == [] then p else Run(keyOf, Next(keyOf, p, events[0]), events[1..])
  }

  /** How often something numbered `id` has been closed: once, unless it is the one held, or was never built. */
  predicate Accounted(closed: seq<nat>, held: Option<nat>, built: nat, id: nat) {
    multiset(closed)[id] == if id < built && held != Some(id) then 1 else 0
  }

  /** The held client is the held manager's own, and what is not held has been closed exactly once. */
  ghost predicate Owned(p: Pool) {
    && p.manager == p.client
    && (p.manager.Some? ==> p.manager.value < p.built)
    && forall id ::
         && Accounted(p.closedManagers, p.manager, p.built, id)
         && Accounted(p.closedClients, p.client, p.built, id)
  }

  /** The cache remembers what the held manager was built from. */
  ghost predicate Sourced(keyOf: TenantConfig -> string, p: Pool, known: set<TenantConfig>) {
    p.manager.Some? ==> p.source.Some? && p.source.value in known && p.key == keyOf(p.source.value)
  }

  lemma {:induction false} NextKeepsOwned(keyOf: TenantConfig -> string, p: Pool, e: Event)
    requires Owned(p)
    ensures Owned(Next(keyOf, p, e))
  {
    var q := Next(keyOf, p, e);
    forall id: nat
      ensures Accounted(q.closedManagers, q.manager, q.built, id) && Accounted(q.closedClients, q.client, q.built, id)
    {
      assert Accounted(p.closedManagers, p.manager, p.built, id) && Accounted(p.closedClients, p.client, p.built, id);
    }
  }

  lemma {:induction false} RunKeepsOwned(keyOf: TenantConfig -> string, p: Pool, events: seq<Event>)
    requires Owned(p)
    ensures Owned(Run(keyOf, p, events))
    decreases |events|
  {
    if events != [] {
      NextKeepsOwned(keyOf, p, events[0]);
      RunKeepsOwned(keyOf, Next(keyOf, p, events[0]), events[1..]);
    }
  }

  /**
   * Over any run of lookups, failed builds and shutdowns, from an empty or a seeded provider, every
   * manager ever built is the one held now or has been closed exactly once, and so has its client.
   */
  lemma {:induction false} NothingLeaks(
    keyOf: TenantConfig -> string, seed: TenantConfig, seedOk: bool, events: seq<Event>)
    ensures Owned(Run(keyOf, EMPTY, events))
    ensures Owned(Run(keyOf, Seeded(keyOf, EMPTY, seed, seedOk), events))
  {
    RunKeepsOwned(keyOf, EMPTY, events);
    RunKeepsOwned(keyOf, Seeded(keyOf, EMPTY, seed, seedOk), events);
  }

  /** A lookup that leaves the manager built from `seed` where it is. */
  predicate Keeps(keyOf: TenantConfig -> string, seed: TenantConfig, e: Event) {
    e.Lookup? && (e.cfg.None? || keyOf(e.cfg.value) == keyOf(seed) || !e.buildOk)
  }

  lemma {:induction false} ClosedStaysClosed(keyOf: TenantConfig -> string, p: Pool, events: seq<Event>, id: nat)
    requires id in p.closedClients
    ensures id in Run(keyOf, p, events).closedClients
    decreases |events|
  {
    if events != [] {
      ClosedStaysClosed(keyOf, Next(keyOf, p, events[0]), events[1..], id);
    }
  }

  /**
   * The tenant loader is built once, from the client of the manager built at startup, and every later
   * middleware uses it. Over any run that client stays open if and only if no lookup replaced the manager
   * and nothing was shut down.
   */
  lemma {:induction false} LoaderClientOpenExactly(
    keyOf: TenantConfig -> string, seed: TenantConfig, events: seq<Event>)
    ensures Seeded(keyOf, EMPTY, seed, true).client == Some(0)
    ensures 0 !in Run(keyOf, Seeded(keyOf, EMPTY, seed, true), events).closedClients
       <==> forall i :: 0 <= i < |events| ==> Keeps(keyOf, seed, events[i])
  {
    StartupClientOpenExactly(keyOf, seed, Seeded(keyOf, EMPTY, seed, true), events);
  }

  lemma {:induction false} StartupClientOpenExactly(
    keyOf: TenantConfig -> string, seed: TenantConfig, p: Pool, events: seq<Event>)
    requires p.manager.Some? && p.client == Some(0) && p.key == keyOf(seed) && p.closedClients == []
    ensures 0 !in Run(keyOf, p, events).closedClients <==> forall i :: 0 <= i < |events| ==>
          Keeps(keyOf, seed, events[i])
    decreases |events|
  {
    if events != [] {
      var q := Next(keyOf, p, events[0]);
      if Keeps(keyOf, seed, events[0]) {
        StartupClientOpenExactly(keyOf, seed, p, events[1..]);
        assert forall i :: 0 < i < |events| ==> events[i] == events[1..][i - 1];
      } else {
        assert q.closedClients == [] + [0] && q.closedClients[0] == 0;
        ClosedStaysClosed(keyOf, q, events[1..], 0);
      }
    }
  }

  predicate From(e: Event, known: set<TenantConfig>) {
    e.Lookup? && e.cfg.Some? ==> e.cfg.value in known
  }

  lemma {:induction false} RunKeepsSourced(
    keyOf: TenantConfig -> string, p: Pool, events: seq<Event>, known: set<TenantConfig>)
    requires Sourced(keyOf, p, known)
    requires forall i :: 0 <= i < |events| ==> From(events[i], known)
    ensures Sourced(keyOf, Run(keyOf, p, events), known)
    decreases |events|
  {
    if events != [] {
      assert From(events[0], known);
      RunKeepsSourced(keyOf, Next(keyOf, p, events[0]), events[1..], known);
    }
  }

  /** After any run, what a lookup returns was built from a configuration with the key looked up. */
  lemma {:induction false} LookupMatchesKey(
    keyOf: TenantConfig -> string, seed: TenantConfig, seedOk: bool, events: seq<Event>, known: set<TenantConfig>,
    cfg: TenantConfig, buildOk: bool)
    requires seed in known && cfg in known
    requires forall i :: 0 <= i < |events| ==> From(events[i], known)
    ensures
      var p := Run(keyOf, Seeded(keyOf, EMPTY, seed, seedOk), events);
      var q := Resolved(keyOf, p, Some(cfg), buildOk);
      Answer(keyOf, p, Some(cfg), buildOk).Some? ==>
        q.source.Some? && q.source.value in known && keyOf(q.source.value) == keyOf(cfg)
  {
    RunKeepsSourced(keyOf, Seeded(keyOf, EMPTY, seed, seedOk), events, known);
  }

  /** The configurations that occur have names without bars and fingerprints that do not collide. */
  ghost predicate Apart(fingerprint: string -> string, known: set<TenantConfig>) {
    forall a, b :: a in known && b in known ==> Distinguished(fingerprint, a, b)
  }

  /** Configurations with the same key need the same manager. */
  ghost predicate Determines(keyOf: TenantConfig -> string, known: set<TenantConfig>) {
    forall a, b :: a in known && b in known && keyOf(a) == keyOf(b) ==> TenantBuild(a) == TenantBuild(b)
  }

  lemma {:induction false} KeysDetermine(fingerprint: string -> string, known: set<TenantConfig>)
    requires Apart(fingerprint, known)
    ensures Determines(c => TenantKey(fingerprint, c), known)
  {
    forall a, b | a in known && b in known && TenantKey(fingerprint, a) == TenantKey(fingerprint, b)
      ensures TenantBuild(a) == TenantBuild(b)
    {
      TenantKeyDeterminesBuild(fingerprint, a, b);
    }
  }

  /** The manager a lookup returns was built from the inputs a fresh build would use. */
  predicate Fresh(keyOf: TenantConfig -> string, p: Pool, cfg: TenantConfig, buildOk: bool) {
    var q := Resolved(keyOf, p, Some(cfg), buildOk);
    Answer(keyOf, p, Some(cfg), buildOk).Some? ==>
      q.source.Some? && TenantBuild(q.source.value) == TenantBuild(cfg)
  }

  /** After any run, the manager a lookup returns is the one a fresh build for that lookup would give. */
  lemma {:induction false} LookupIsFresh(
    fingerprint: string -> string, seed: TenantConfig, seedOk: bool,
    events: seq<Event>, known: set<TenantConfig>, cfg: TenantConfig, buildOk: bool)
    requires Apart(fingerprint, known) && seed in known && cfg in known
    requires forall i :: 0 <= i < |events| ==> From(events[i], known)
    ensures
      var keyOf := c => TenantKey(fingerprint, c);
      Fresh(keyOf, Run(keyOf, Seeded(keyOf, EMPTY, seed, seedOk), events), cfg, buildOk)
  {
    KeysDetermine(fingerprint, known);
    LookupWouldRebuildSame(c => TenantKey(fingerprint, c), seed, seedOk, events, known, cfg, buildOk);
  }

  lemma {:induction false} LookupWouldRebuildSame(
    keyOf: TenantConfig -> string, seed: TenantConfig, seedOk: bool,
    events: seq<Event>, known: set<TenantConfig>, cfg: TenantConfig, buildOk: bool)
    requires Determines(keyOf, known) && seed in known && cfg in known
    requires forall i :: 0 <= i < |events| ==> From(events[i], known)
    ensures Fresh(keyOf, Run(keyOf, Seeded(keyOf, EMPTY, seed, seedOk), events), cfg, buildOk)
  {
    LookupMatchesKey(keyOf, seed, seedOk, events, known, cfg, buildOk);
  }
}
