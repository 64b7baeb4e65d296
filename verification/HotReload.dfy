/** The configuration manager: validated updates and reloads from the system plane. */
module HotReload {
  import opened Types

  /** A configuration field; `Long` is the 64-bit kind. */
  datatype Value = Text(s: string) | Number(n: int) | Long(l: int) | Flag(b: bool)

  /** A value as the system-plane client returns it. */
  datatype Raw =
    | RawText(s: string)
    | RawInt(n: int)
    | RawInt64(l: int)
    | RawFloat(f: real)
    | RawBool(b: bool)
    | RawOther

  type Config = map<string, Value>

  type Store = map<string, Raw>

  /** A conversion from a float truncates toward zero. */
  function Truncate(f: real): int {
    if f >= 0.0 then f.Floor else -((-f).Floor)
  }

  /** The typed getters, told apart by the kind of the field they fill. */
  function Read(field: Value, store: Store, key: string): Option<Value> {
    if key !in store then None
    else
      match (field, store[key])
      case (Text(_), RawText(s)) => Some(Text(s))
      case (Number(_), RawInt(n)) => Some(Number(n))
      case (Number(_), RawFloat(f)) => Some(Number(Truncate(f)))
      case (Long(_), RawInt64(l)) => Some(Long(l))
      case (Long(_), RawInt(n)) => Some(Long(n))
      case (Long(_), RawFloat(f)) => Some(Long(Truncate(f)))
      case (Flag(_), RawBool(b)) => Some(Flag(b))
      case _ => None
  }

  /** Every watched field is refreshed where the client has a value of its kind, and kept otherwise. */
  function Overlay(base: Config, watched: set<string>, store: Store): Config {
    map k | k in base ::
      if k in watched && Read(base[k], store, k).Some? then Read(base[k], store, k).value else base[k]
  }

  predicate SameKind(a: Value, b: Value) {
    (a.Text? && b.Text?) || (a.Number? && b.Number?) || (a.Long? && b.Long?) || (a.Flag? && b.Flag?)
  }

  /** `a` and `b` have the same fields, of the same kinds, and agree on the fields that are not watched. */
  ghost predicate SameFrame(a: Config, b: Config, watched: set<string>) {
    && a.Keys == b.Keys
    && forall k :: k in a ==> SameKind(a[k], b[k]) && (k !in watched ==> a[k] == b[k])
  }

  lemma OverlayKeepsFrame(a: Config, b: Config, watched: set<string>, store: Store)
    requires SameFrame(a, b, watched)
    ensures SameFrame(Overlay(a, watched, store), b, watched)
  {
  }

  /** The configuration a reload publishes. */
  function Reloaded(validate: Config -> bool, watched: set<string>, published: Config, store: Store): Config {
    var next := Overlay(published, watched, store);
    if validate(next) then next else published
  }

  /** `n` is the integer next to `f` toward zero. */
  predicate TowardZero(f: real, n: int) {
    if f >= 0.0 then 0.0 <= n as real <= f < n as real + 1.0 else n as real - 1.0 < f <= n as real <= 0.0
  }

  /** What a stored value makes of a field: its own kind takes it over, a number any number, else it stays. */
  predicate Takes(field: Value, stored: Option<Raw>, out: Value) {
    match field
    case Text(_) => if stored.Some? && stored.value.RawText? then out == Text(stored.value.s) else out == field
    case Flag(_) => if stored.Some? && stored.value.RawBool? then out == Flag(stored.value.b) else out == field
    case Number(_) =>
      if stored.Some? && stored.value.RawInt? then out == Number(stored.value.n)
      else if stored.Some? && stored.value.RawFloat? then out.Number? && TowardZero(stored.value.f, out.n)
      else out == field
    case Long(_) =>
      if stored.Some? && stored.value.RawInt64? then out == Long(stored.value.l)
      else if stored.Some? && stored.value.RawInt? then out == Long(stored.value.n)
      else if stored.Some? && stored.value.RawFloat? then out.Long? && TowardZero(stored.value.f, out.l)
      else out == field
  }

  function Stored(store: Store, key: string): Option<Raw> {
    if key in store then Some(store[key]) else None
  }

  /** `next` is `base` with every watched field taken from the store, and no other field touched. */
  ghost predicate Refreshes(base: Config, watched: set<string>, store: Store, next: Config) {
    && next.Keys == base.Keys
    && forall k :: k in base ==> if k in watched then Takes(base[k], Stored(store, k), next[k]) else next[k] == base[k]
  }

  lemma {:induction false} TruncateIsTowardZero(f: real, n: int)
    ensures TowardZero(f, n) <==> n == Truncate(f)
  {
  }

  lemma {:induction false} ReadTakes(field: Value, store: Store, k: string, out: Value)
    ensures Takes(field, Stored(store, k), out)
       <==> out == if Read(field, store, k).Some? then Read(field, store, k).value else field
  {
    if k in store && store[k].RawFloat? {
      if field.Number? && out.Number? {
        TruncateIsTowardZero(store[k].f, out.n);
      } else if field.Long? && out.Long? {
        TruncateIsTowardZero(store[k].f, out.l);
      }
    }
  }

  /** The overlay is the one configuration that takes every watched field from the store. */
  lemma {:induction false} OverlayRefreshes(base: Config, watched: set<string>, store: Store, next: Config)
    ensures Refreshes(base, watched, store, next) <==> next == Overlay(base, watched, store)
  {
    var o := Overlay(base, watched, store);
    forall k, out | k in base
      ensures Takes(base[k], Stored(store, k), out)
         <==> out == if Read(base[k], store, k).Some? then Read(base[k], store, k).value else base[k]
    {
      ReadTakes(base[k], store, k, out);
    }
    if Refreshes(base, watched, store, next) {
      assert forall k :: k in base ==> next[k] == o[k];
    }
  }

  datatype UpdateError = NilConfig | Invalid

  class Manager {
    var config: Config
    const validate: Config -> bool
    const watched: set<string>

    /** The initial configuration is not validated here. */
    constructor (config: Config, validate: Config -> bool, watched: set<string>)
      ensures this.config == config && this.validate == validate && this.watched == watched
    {
      this.config, this.validate, this.watched := config, validate, watched;
    }

    method Update(cfg: Option<Config>) returns (error: Option<UpdateError>)
      modifies this
      ensures error.None? <==> cfg.Some? && validate(cfg.value)
      ensures error.None? ==> config == cfg.value
      ensures error.Some? ==> config == old(config) && (error.value.NilConfig? <==> cfg.None?)
    {
      if cfg.None? {
        return Some(NilConfig);
      }
      if !validate(cfg.value) {
        return Some(Invalid);
      }
      config := cfg.value;
      return None;
    }

    /** One reload that no other one overlaps: what it makes of the configuration is published if valid. */
    method Reload(client: Store)
      modifies this
      ensures config == Reloaded(validate, watched, old(config), client)
      ensures forall next :: Refreshes(old(config), watched, client, next) ==>
                config == if validate(next) then next else old(config)
      ensures config == old(config) || Refreshes(old(config), watched, client, config)
    {
      var current := config;
      var next := Overlay(current, watched, client);
      var error := Update(Some(next));
      forall other
        ensures Refreshes(current, watched, client, other) <==> other == next
      {
        OverlayRefreshes(current, watched, client, other);
      }
    }
  }
}
