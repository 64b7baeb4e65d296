/** The fetcher client, rebuilt when the settings it was built from change. */
module FetcherClient {
  import opened Types
  import opened CacheKeys

  /** A client is known by what it was built from. */
  datatype Client = Client(built: FetcherInputs)

  /** The URL and the flag as configured, and the timeouts, with 5 and 30 seconds where none is set. */
  predicate Serves(built: FetcherInputs, cfg: FetcherConfig) {
    && built.url == cfg.url && built.allowPrivateIps == cfg.allowPrivateIps
    && built.healthTimeout == (if cfg.healthTimeoutSec < 1 then 5 else cfg.healthTimeoutSec)
    && built.requestTimeout == (if cfg.requestTimeoutSec < 1 then 30 else cfg.requestTimeoutSec)
  }

  class Cache {
    var activeKey: string
    var activeClient: Option<Client>

    /** The cached client belongs to the cached key. */
    ghost predicate Valid()
      reads this
    {
      activeClient.Some? ==> exists cfg :: FetcherKey(cfg) == activeKey && FetcherBuild(cfg) == activeClient.value.built
    }

    constructor ()
      ensures Valid() && activeClient.None?
    {
      activeKey, activeClient := "", None;
    }

    /**
     * The client for a configuration, if fetching is enabled and a client can be built when one is
     * needed. Whatever was cached before, it is the client a fresh build would give.
     */
    method Current(cfg: Option<FetcherConfig>, buildOk: bool) returns (client: Option<Client>)
      requires Valid()
      modifies this
      ensures Valid()
      ensures client.Some? ==> cfg.Some? && cfg.value.enabled && client.value == Client(FetcherBuild(cfg.value))
      ensures client.Some? <==> && cfg.Some? && cfg.value.enabled
                                && (buildOk || (old(activeClient).Some? && old(activeKey) == FetcherKey(cfg.value)))
      ensures client.Some? ==> Serves(client.value.built, cfg.value)
      ensures client.Some? ==> activeClient == client && activeKey == FetcherKey(cfg.value)
      ensures client.None? ==> activeClient == old(activeClient) && activeKey == old(activeKey)
    {
      if cfg.None? || !cfg.value.enabled {
        return None;
      }
      var key := FetcherKey(cfg.value);
      if activeClient.Some? && activeKey == key {
        ghost var was :| FetcherKey(was) == activeKey && FetcherBuild(was) == activeClient.value.built;
        FetcherKeyDeterminesBuild(was, cfg.value);
        return activeClient;
      }
      if !buildOk {
        return None;
      }
      activeKey, activeClient := key, Some(Client(FetcherBuild(cfg.value)));
      return activeClient;
    }
  }
}
