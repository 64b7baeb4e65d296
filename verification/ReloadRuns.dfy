/**
 * Reloads interleaved with changes of the system plane and with each other. A reload loads the
 * published configuration, reads the watched keys one by one, and stores its result.
 */
module ReloadRuns {
  import opened Types
  import opened HotReload

  datatype Setup = Setup(boot: Config, validate: Config -> bool, watched: set<string>)

  /** A reload in progress: what it loaded, what it has read, what it has still to read. */
  datatype Reload = Reload(base: Config, view: Store, unread: set<string>)

  /** `accepted` is the view of the reload that stored last. */
  datatype State = State(store: Store, published: Config, active: map<nat, Reload>, accepted: Option<Store>)

  datatype Step =
    | Change(key: string, raw: Option<Raw>)
    | Begin(id: nat)
    | ReadKey(id: nat, key: string)
    | Finish(id: nat)

  function Initial(c: Setup, store: Store): State {
    State(store, c.boot, map[], None)
  }

  predicate Enabled(c: Setup, s: State, step: Step) {
    match step
    case Change(_, _) => true
    case Begin(id) => id !in s.active
    case ReadKey(id, key) => id in s.active && key in s.active[id].unread
    case Finish(id) => id in s.active && s.active[id].unread == {}
  }

  function Copied(view: Store, store: Store, key: string): Store {
    if key in store then view[key := store[key]] else view - {key}
  }

  function Do(c: Setup, s: State, step: Step): State
    requires Enabled(c, s, step)
  {
    match step
    case Change(key, raw) => s.(store := if raw.Some? then s.store[key := raw.value] else s.store - {key})
    case Begin(id) => s.(active := s.active[id := Reload(s.published, map[], c.watched)])
    case ReadKey(id, key) =>
      var r := s.active[id];
      s.(active := s.active[id := r.(view := Copied(r.view, s.store, key), unread := r.unread - {key})])
    case Finish(id) =>
      var r := s.active[id];
      var next := Overlay(r.base, c.watched, r.view);
      if c.validate(next) then s.(published := next, active := s.active - {id}, accepted := Some(r.view))
      else s.(active := s.active - {id})
  }

  predicate Possible(c: Setup, s: State, steps: seq<Step>)
    decreases |steps|
  {
    steps != [] ==> Enabled(c, s, steps[0]) && Possible(c, Do(c, s, steps[0]), steps[1..])
  }

  function After(c: Setup, s: State, steps: seq<Step>): State
    requires Possible(c, s, steps)
    decreases |steps|
  {
    if steps == [] then s else After(c, Do(c, s, steps[0]), steps[1..])
  }

  /** What holds under any interleaving: nothing invalid is published, and unwatched fields stay. */
  ghost predicate Sound(c: Setup, s: State) {
    && (s.published == c.boot || c.validate(s.published))
    && SameFrame(s.published, c.boot, c.watched)
    && forall id :: id in s.active ==> SameFrame(s.active[id].base, c.boot, c.watched)
  }

  lemma {:induction false} StepKeepsSound(c: Setup, s: State, step: Step)
    requires Sound(c, s) && Enabled(c, s, step)
    ensures Sound(c, Do(c, s, step))
  {
    if step.Finish? {
      var r := s.active[step.id];
      OverlayKeepsFrame(r.base, c.boot, c.watched, r.view);
    }
  }

  /** Whatever overlaps whatever, the published configuration is the bootstrap one or a valid one, in its frame. */
  lemma {:induction false} RunsAreSound(c: Setup, s: State, steps: seq<Step>)
    requires Sound(c, s) && Possible(c, s, steps)
    ensures Sound(c, After(c, s, steps))
    decreases |steps|
  {
    if steps != [] {
      StepKeepsSound(c, s, steps[0]);
      RunsAreSound(c, Do(c, s, steps[0]), steps[1..]);
    }
  }

  /** Where the store has no value of the field's kind for one of `keys`, `cfg` has its bootstrap value. */
  ghost predicate Untouched(c: Setup, cfg: Config, store: Store, keys: set<string>) {
    forall k :: k in keys && k in c.boot && k in cfg && Read(c.boot[k], store, k).None? ==> cfg[k] == c.boot[k]
  }

  /** A reload overlays the bootstrap configuration exactly when what it cannot read is untouched. */
  lemma {:induction false} OverlayForgetsExactly(c: Setup, cfg: Config, store: Store)
    requires SameFrame(cfg, c.boot, c.watched)
    ensures Overlay(cfg, c.watched, store) == Overlay(c.boot, c.watched, store) <==> Untouched(c, cfg, store, c.watched)
  {
    var x, y := Overlay(cfg, c.watched, store), Overlay(c.boot, c.watched, store);
    assert x.Keys == y.Keys == c.boot.Keys;
    forall k | k in c.boot
      ensures x[k] == y[k] <==> (k in c.watched && Read(c.boot[k], store, k).None? ==> cfg[k] == c.boot[k])
    {
      ReadByKind(cfg[k], c.boot[k], store, k);
    }
  }

  lemma {:induction false} ReadByKind(a: Value, b: Value, store: Store, k: string)
    requires SameKind(a, b)
    ensures Read(a, store, k) == Read(b, store, k)
  {
  }

  /** Whatever `from` can serve of `keys`, `to` can serve. */
  ghost predicate StillServes(c: Setup, from: Store, to: Store, keys: set<string>) {
    forall k :: k in keys && k in c.boot && Read(c.boot[k], from, k).Some? ==> Read(c.boot[k], to, k).Some?
  }

  /** A change that does not take a watched key its last readable value; it may give it its first. */
  ghost predicate KeepsServing(c: Setup, s: State, step: Step) {
    step.Change? ==> StillServes(c, s.store, Do(c, s, step).store, c.watched)
  }

  ghost predicate AllKeepServing(c: Setup, s: State, steps: seq<Step>)
    requires Possible(c, s, steps)
    decreases |steps|
  {
    steps != [] ==> KeepsServing(c, s, steps[0]) && AllKeepServing(c, Do(c, s, steps[0]), steps[1..])
  }

  /** What a reload in progress may rely on: what it has found unreadable, or will, is untouched in its base. */
  ghost predicate ReloadFits(c: Setup, store: Store, r: Reload) {
    && SameFrame(r.base, c.boot, c.watched)
    && Untouched(c, r.base, store, c.watched)
    && Untouched(c, r.base, r.view, c.watched - r.unread)
    && StillServes(c, r.view, store, c.watched - r.unread)
  }

  /** What holds under any interleaving when no watched key stops being readable. */
  ghost predicate Fits(c: Setup, s: State) {
    && SameFrame(s.published, c.boot, c.watched)
    && Untouched(c, s.published, s.store, c.watched)
    && (forall id :: id in s.active ==> ReloadFits(c, s.store, s.active[id]))
    && s.published == (if s.accepted.None? then c.boot else Overlay(c.boot, c.watched, s.accepted.value))
  }

  lemma {:induction false} StepKeepsFits(c: Setup, s: State, step: Step)
    requires Fits(c, s) && Enabled(c, s, step) && KeepsServing(c, s, step)
    ensures Fits(c, Do(c, s, step))
  {
    match step {
      case Change(key, raw) => ChangeKeepsFits(c, s, Do(c, s, step).store);
      case Begin(id) => BeginKeepsFits(c, s, id);
      case ReadKey(id, key) => ReadKeepsFits(c, s, id, key);
      case Finish(id) => FinishKeepsFits(c, s, id);
    }
  }

  lemma {:induction false} ChangeKeepsFits(c: Setup, s: State, store: Store)
    requires Fits(c, s) && StillServes(c, s.store, store, c.watched)
    ensures Fits(c, s.(store := store))
  {
    forall id | id in s.active
      ensures ReloadFits(c, store, s.active[id])
    {
      assert ReloadFits(c, s.store, s.active[id]);
    }
  }

  lemma {:induction false} BeginKeepsFits(c: Setup, s: State, id: nat)
    requires Fits(c, s) && Enabled(c, s, Begin(id))
    ensures Fits(c, Do(c, s, Begin(id)))
  {
    assert c.watched - c.watched == {};
  }

  lemma {:induction false} FinishKeepsFits(c: Setup, s: State, id: nat)
    requires Fits(c, s) && Enabled(c, s, Finish(id))
    ensures Fits(c, Do(c, s, Finish(id)))
  {
    var r := s.active[id];
    assert ReloadFits(c, s.store, r);
    assert c.watched - r.unread == c.watched;
    OverlayFromBoot(c, r.base, r.view);
    OverlayUntouched(c, r.view, s.store);
  }

  /** From an untouched configuration a reload overlays the bootstrap configuration, in its frame. */
  lemma {:induction false} OverlayFromBoot(c: Setup, cfg: Config, store: Store)
    requires SameFrame(cfg, c.boot, c.watched) && Untouched(c, cfg, store, c.watched)
    ensures Overlay(cfg, c.watched, store) == Overlay(c.boot, c.watched, store)
    ensures SameFrame(Overlay(cfg, c.watched, store), c.boot, c.watched)
  {
    OverlayForgetsExactly(c, cfg, store);
    OverlayKeepsFrame(cfg, c.boot, c.watched, store);
  }

  lemma {:induction false} OverlayUntouched(c: Setup, view: Store, store: Store)
    requires StillServes(c, view, store, c.watched)
    ensures Untouched(c, Overlay(c.boot, c.watched, view), store, c.watched)
  {
  }

  lemma {:induction false} ReadKeepsFits(c: Setup, s: State, id: nat, key: string)
    requires Fits(c, s) && Enabled(c, s, ReadKey(id, key))
    ensures Fits(c, Do(c, s, ReadKey(id, key)))
  {
    var t, r := Do(c, s, ReadKey(id, key)), s.active[id];
    assert ReloadFits(c, s.store, r);
    CopyFits(c, r, s.store, key);
  }

  lemma {:induction false} CopyFits(c: Setup, r: Reload, store: Store, key: string)
    requires ReloadFits(c, store, r)
    ensures ReloadFits(c, store, r.(view := Copied(r.view, store, key), unread := r.unread - {key}))
  {
    forall k | k in c.watched - (r.unread - {key}) && k in c.boot
      ensures Read(c.boot[k], Copied(r.view, store, key), k) == Read(c.boot[k], if k == key then store else r.view, k)
      ensures k != key ==> k in c.watched - r.unread
    {
      CopyReads(c.boot[k], r.view, store, key, k);
    }
  }

  lemma {:induction false} CopyReads(field: Value, view: Store, store: Store, key: string, k: string)
    ensures Read(field, Copied(view, store, key), k) == Read(field, if k == key then store else view, k)
  {
  }

  /**
   * Under any interleaving in which no watched key stops being readable, the published configuration is
   * the bootstrap one overlaid with the view, torn or not, of the reload that stored last.
   */
  lemma {:induction false} RunsFit(c: Setup, s: State, steps: seq<Step>)
    requires Fits(c, s) && Possible(c, s, steps) && AllKeepServing(c, s, steps)
    ensures Fits(c, After(c, s, steps))
    decreases |steps|
  {
    if steps != [] {
      StepKeepsFits(c, s, steps[0]);
      RunsFit(c, Do(c, s, steps[0]), steps[1..]);
    }
  }

  /** The steps of one reload that nothing else overlaps. */
  predicate OnlyLooks(steps: seq<Step>, id: nat) {
    forall i :: 0 <= i < |steps| ==> steps[i].ReadKey? && steps[i].id == id
  }

  /** Undisturbed, a reload sees the store as it is. */
  ghost predicate SeesStore(c: Setup, s: State, id: nat) {
    && id in s.active
    && forall k, field :: k in c.watched - s.active[id].unread ==>
         Read(field, s.active[id].view, k) == Read(field, s.store, k)
  }

  lemma {:induction false} ReadsSeeStore(c: Setup, s: State, steps: seq<Step>, id: nat)
    requires OnlyLooks(steps, id) && Possible(c, s, steps) && SeesStore(c, s, id)
    ensures SeesStore(c, After(c, s, steps), id)
    ensures After(c, s, steps) == s.(active := s.active[id := After(c, s, steps).active[id]])
    ensures After(c, s, steps).active[id].base == s.active[id].base
    decreases |steps|
  {
    if steps != [] {
      var t := Do(c, s, steps[0]);
      assert steps[0].ReadKey? && steps[0].id == id;
      forall k, field | k in c.watched - t.active[id].unread
        ensures Read(field, t.active[id].view, k) == Read(field, t.store, k)
      {
        CopyReads(field, s.active[id].view, s.store, steps[0].key, k);
      }
      ReadsSeeStore(c, t, steps[1..], id);
    }
  }

  lemma {:induction false} SameReadsSameOverlay(base: Config, watched: set<string>, a: Store, b: Store)
    requires forall k, field :: k in watched ==> Read(field, a, k) == Read(field, b, k)
    ensures Overlay(base, watched, a) == Overlay(base, watched, b)
  {
  }

  /** A reload that nothing overlaps: it begins, reads its keys in some order, and finishes. */
  ghost predicate Solo(c: Setup, s: State, id: nat, looks: seq<Step>, t: State) {
    && Enabled(c, s, Begin(id))
    && OnlyLooks(looks, id)
    && Possible(c, Do(c, s, Begin(id)), looks)
    && Enabled(c, After(c, Do(c, s, Begin(id)), looks), Finish(id))
    && t == Do(c, After(c, Do(c, s, Begin(id)), looks), Finish(id))
  }

  /** Such a reload is the manager's `Reload` on the store as it is. */
  lemma {:induction false} SoloIsReload(c: Setup, s: State, id: nat, looks: seq<Step>, t: State)
    requires Solo(c, s, id, looks, t)
    ensures t.published == Reloaded(c.validate, c.watched, s.published, s.store)
    ensures t.store == s.store && t.active == s.active
  {
    var begun := Do(c, s, Begin(id));
    ReadsSeeStore(c, begun, looks, id);
    var r := After(c, begun, looks).active[id];
    SameReadsSameOverlay(s.published, c.watched, r.view, s.store);
  }

  /**
   * After any run in which no watched key stops being readable, with however many torn, overlapping or
   * rejected reloads, one reload that nothing overlaps publishes the bootstrap configuration overlaid
   * with the store if that is valid, and keeps the last accepted configuration otherwise.
   */
  lemma {:induction false} LastReloadConverges(
    c: Setup, start: Store, steps: seq<Step>, s: State, id: nat, looks: seq<Step>, t: State)
    requires Possible(c, Initial(c, start), steps) && AllKeepServing(c, Initial(c, start), steps)
    requires s == After(c, Initial(c, start), steps) && Solo(c, s, id, looks, t)
    ensures
      var target := Overlay(c.boot, c.watched, t.store);
      t.published == if c.validate(target) then target else s.published
  {
    RunsFit(c, Initial(c, start), steps);
    SoloIsReload(c, s, id, looks, t);
    OverlayFromBoot(c, s.published, s.store);
  }

  /**
   * After any run at all, a reload that nothing overlaps and that is accepted publishes the bootstrap
   * configuration overlaid with the store exactly when what it cannot read is untouched; one that is
   * rejected keeps what was published.
   */
  lemma {:induction false} ReloadConvergesExactly(
    c: Setup, start: Store, steps: seq<Step>, s: State, id: nat, looks: seq<Step>, t: State)
    requires Possible(c, Initial(c, start), steps)
    requires s == After(c, Initial(c, start), steps) && Solo(c, s, id, looks, t)
    ensures c.validate(Overlay(s.published, c.watched, s.store)) ==>
              (t.published == Overlay(c.boot, c.watched, t.store) <==> Untouched(c, s.published, t.store, c.watched))
    ensures !c.validate(Overlay(s.published, c.watched, s.store)) ==> t.published == s.published
  {
    RunsAreSound(c, Initial(c, start), steps);
    SoloIsReload(c, s, id, looks, t);
    OverlayForgetsExactly(c, s.published, s.store);
  }

  /**
   * In every run a reload that finishes publishes exactly what it loaded with every watched field taken
   * from what it read, if that is valid, and nothing otherwise.
   */
  lemma {:induction false} FinishPublishesStored(c: Setup, s: State, id: nat, next: Config)
    requires Enabled(c, s, Finish(id)) && Refreshes(s.active[id].base, c.watched, s.active[id].view, next)
    ensures Do(c, s, Finish(id)).published == if c.validate(next) then next else s.published
  {
    OverlayRefreshes(s.active[id].base, c.watched, s.active[id].view, next);
  }

  /** A reload that nothing overlaps publishes the stored values over what was published, if that is valid. */
  lemma {:induction false} SoloPublishesStored(c: Setup, s: State, id: nat, looks: seq<Step>, t: State, next: Config)
    requires Solo(c, s, id, looks, t) && Refreshes(s.published, c.watched, s.store, next)
    ensures t.published == if c.validate(next) then next else s.published
  {
    SoloIsReload(c, s, id, looks, t);
    OverlayRefreshes(s.published, c.watched, s.store, next);
  }

  /**
   * After any run in which no watched key stops being readable, the published configuration is the bootstrap
   * one with every watched field taken from the view of the reload that stored last.
   */
  lemma {:induction false} PublishedTakesStored(c: Setup, start: Store, steps: seq<Step>, s: State)
    requires Possible(c, Initial(c, start), steps) && AllKeepServing(c, Initial(c, start), steps)
    requires s == After(c, Initial(c, start), steps)
    ensures if s.accepted.None? then s.published == c.boot
            else Refreshes(c.boot, c.watched, s.accepted.value, s.published)
  {
    RunsFit(c, Initial(c, start), steps);
    if s.accepted.Some? {
      OverlayRefreshes(c.boot, c.watched, s.accepted.value, s.published);
    }
  }

  /** The value a field has under a store: what the store serves, or its own. */
  function Effective(field: Value, store: Store, k: string): Value {
    if Read(field, store, k).Some? then Read(field, store, k).value else field
  }

  lemma {:induction false} OverlaysAgreeExactly(c: Setup, a: Store, b: Store)
    ensures Overlay(c.boot, c.watched, a) == Overlay(c.boot, c.watched, b)
       <==> forall k :: k in c.boot && k in c.watched ==> Effective(c.boot[k], a, k) == Effective(c.boot[k], b, k)
  {
    var x, y := Overlay(c.boot, c.watched, a), Overlay(c.boot, c.watched, b);
    assert x.Keys == y.Keys == c.boot.Keys;
    forall k | k in c.boot && k in c.watched
      ensures x[k] == Effective(c.boot[k], a, k) && y[k] == Effective(c.boot[k], b, k)
    {
    }
    if forall k :: k in c.boot && k in c.watched ==> Effective(c.boot[k], a, k) == Effective(c.boot[k], b, k) {
      forall k | k in c.boot
        ensures x[k] == y[k]
      {
      }
      assert x == y;
    }
  }

  /**
   * After any run in which no watched key stops being readable, however its reloads overlap, the
   * published configuration is up to date if and only if every watched field has the same value under
   * the view of the reload that stored last as under the store.
   */
  lemma {:induction false} PublishedIsCurrentExactly(c: Setup, start: Store, steps: seq<Step>, s: State)
    requires Possible(c, Initial(c, start), steps) && AllKeepServing(c, Initial(c, start), steps)
    requires s == After(c, Initial(c, start), steps)
    ensures
      var view := if s.accepted.Some? then s.accepted.value else map[];
      s.published == Overlay(c.boot, c.watched, s.store)
      <==> forall k :: k in c.boot && k in c.watched ==>
             Effective(c.boot[k], view, k) == Effective(c.boot[k], s.store, k)
  {
    RunsFit(c, Initial(c, start), steps);
    var view := if s.accepted.Some? then s.accepted.value else map[];
    assert Overlay(c.boot, c.watched, map[]) == c.boot;
    OverlaysAgreeExactly(c, view, s.store);
  }

  /** A key that disappears from the store keeps its override, so watched keys have to stay readable. */
  lemma {:induction false} RemovedKeyKeepsOverride()
    ensures
      var c := Setup(map["k" := Number(1)], (_: Config) => true, {"k"});
      var once := Reloaded(c.validate, c.watched, c.boot, map["k" := RawInt(2)]);
      Reloaded(c.validate, c.watched, once, map[]) == map["k" := Number(2)] != Overlay(c.boot, c.watched, map[])
  {
    assert Overlay(map["k" := Number(1)], {"k"}, map["k" := RawInt(2)])["k"] == Number(2);
  }

  lemma {:induction false} RunOn(c: Setup, s: State, step: Step, rest: seq<Step>)
    requires Enabled(c, s, step) && Possible(c, Do(c, s, step), rest)
    ensures Possible(c, s, [step] + rest)
    ensures After(c, s, [step] + rest) == After(c, Do(c, s, step), rest)
  {
    assert ([step] + rest)[1..] == rest;
  }

  /**
   * Overlapping reloads lose updates: the second one here begins after the last change, reads it and
   * stores it, and then the first one stores the value from before the change.
   */
  lemma {:induction false} OverlapLosesUpdate(c: Setup, start: Store) returns (steps: seq<Step>)
    requires c.boot == map["k" := Number(0)] && c.watched == {"k"} && forall cfg :: c.validate(cfg)
    requires start == map["k" := RawInt(1)]
    ensures Possible(c, Initial(c, start), steps)
    ensures
      var s := After(c, Initial(c, start), steps);
      s.active == map[] && s.store == map["k" := RawInt(2)] && s.published == map["k" := Number(1)]
  {
    var s0 := Initial(c, start);
    var s1 := Do(c, s0, Begin(0));
    var s2 := Do(c, s1, ReadKey(0, "k"));
    var s3 := Do(c, s2, Change("k", Some(RawInt(2))));
    assert s3.active[0] == Reload(c.boot, map["k" := RawInt(1)], {});
    assert s3 == State(map["k" := RawInt(2)], c.boot, map[0 := Reload(c.boot, map["k" := RawInt(1)], {})], None);
    var second := OverwrittenBy(c, s3);
    RunOn(c, s2, Change("k", Some(RawInt(2))), second);
    RunOn(c, s1, ReadKey(0, "k"), [Change("k", Some(RawInt(2)))] + second);
    RunOn(c, s0, Begin(0), [ReadKey(0, "k")] + ([Change("k", Some(RawInt(2)))] + second));
    steps := [Begin(0)] + ([ReadKey(0, "k")] + ([Change("k", Some(RawInt(2)))] + second));
  }

  lemma {:induction false} OverwrittenBy(c: Setup, s: State) returns (steps: seq<Step>)
    requires c.boot == map["k" := Number(0)] && c.watched == {"k"} && forall cfg :: c.validate(cfg)
    requires s == State(map["k" := RawInt(2)], c.boot, map[0 := Reload(c.boot, map["k" := RawInt(1)], {})], None)
    ensures Possible(c, s, steps)
    ensures
      var t := After(c, s, steps);
      t.active == map[] && t.store == map["k" := RawInt(2)] && t.published == map["k" := Number(1)]
  {
    var s1 := Do(c, s, Begin(1));
    var s2 := Do(c, s1, ReadKey(1, "k"));
    var s3 := Do(c, s2, Finish(1));
    var s4 := Do(c, s3, Finish(0));
    assert s4.published["k"] == Number(1);
    steps := RunsTo(c, s, s1, s2, s3, s4, Begin(1), ReadKey(1, "k"), Finish(1), Finish(0));
  }

  lemma {:induction false} RunsTo(
    c: Setup, s0: State, s1: State, s2: State, s3: State, s4: State, a: Step, b: Step, d: Step, e: Step)
    returns (steps: seq<Step>)
    requires Enabled(c, s0, a) && s1 == Do(c, s0, a) && Enabled(c, s1, b) && s2 == Do(c, s1, b)
    requires Enabled(c, s2, d) && s3 == Do(c, s2, d) && Enabled(c, s3, e) && s4 == Do(c, s3, e)
    ensures Possible(c, s0, steps) && After(c, s0, steps) == s4
  {
    RunOn(c, s3, e, []);
    RunOn(c, s2, d, [e] + []);
    RunOn(c, s1, b, [d] + ([e] + []));
    RunOn(c, s0, a, [b] + ([d] + ([e] + [])));
    steps := [a] + ([b] + ([d] + ([e] + [])));
  }
}
