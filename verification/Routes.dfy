/** Protected routes: routers that put the guard chain and the shared chain in front of every route. */
module Routes {
  import opened Types
  import opened AuthChain

  /** Every protected route runs these between the guards and its own handlers. */
  const SHARED: seq<Handler> := [TenantDb, Idempotency, RateLimit]

  datatype Failure =
    | BadProtection(resource: string, actions: seq<string>, error: ChainError)
    | UnsupportedMethod(name: string)

  datatype Route = Route(verb: string, path: string, chain: seq<Handler>)

  /** One call of `Protected`. */
  datatype Protection = Protection(resource: string, actions: seq<string>)

  /** The chains a router puts in front; a router whose protection failed has none. */
  datatype Front = Front(auth: seq<Handler>, shared: seq<Handler>)

  function FrontOf(w: Wiring, p: Protection): Front {
    if Valid(w, p.actions) then Front(Guards(w, p.resource, p.actions), SHARED) else Front([], [])
  }

  function Composed(f: Front, own: seq<Handler>): seq<Handler> {
    f.auth + f.shared + own
  }

  // ---- Runs ----

  /** Routers are known by the number of the call of `Protected` that returned them. */
  datatype Op =
    | Protect(protection: Protection)
    | Verb(router: nat, verb: string, path: string, own: seq<Handler>)
    | Unsupported(router: nat, name: string)

  /** What the calls leave behind: the fronts of the routers, the number of failures, and the app's routes. */
  datatype State = State(fronts: seq<Front>, failed: nat, table: seq<Route>)

  predicate Possible(ops: seq<Op>) {
    forall i :: 0 <= i < |ops| && !ops[i].Protect? ==> ops[i].router < |Protections(ops[..i])|
  }

  function Protections(ops: seq<Op>): seq<Protection> {
    if ops == [] then []
    else
      var op := ops[|ops| - 1];
      Protections(ops[..|ops| - 1]) + if op.Protect? then [op.protection] else []
  }

  function Next(w: Wiring, s: State, op: Op): State
    requires !op.Protect? ==> op.router < |s.fronts|
  {
    match op
    case Protect(p) =>
      s.(fronts := s.fronts + [FrontOf(w, p)], failed := s.failed + if Valid(w, p.actions) then 0 else 1)
    case Verb(router, verb, path, own) =>
      s.(table := s.table + [Route(verb, path, Composed(s.fronts[router], own))])
    case Unsupported(_, _) => s.(failed := s.failed + 1)
  }

  lemma {:induction false} PossiblePrefix(ops: seq<Op>)
    requires Possible(ops) && ops != []
    ensures Possible(ops[..|ops| - 1])
  {
    var before := ops[..|ops| - 1];
    forall i | 0 <= i < |before| && !before[i].Protect?
      ensures before[i].router < |Protections(before[..i])|
    {
      assert before[..i] == ops[..i] && before[i] == ops[i];
    }
  }

  function Run(w: Wiring, ops: seq<Op>): (s: State)
    requires Possible(ops)
    ensures |s.fronts| == |Protections(ops)|
  {
    if ops == [] then State([], 0, [])
    else
      PossiblePrefix(ops);
      Next(w, Run(w, ops[..|ops| - 1]), ops[|ops| - 1])
  }

  lemma {:induction false} RunLast(w: Wiring, ops: seq<Op>, n: nat)
    requires Possible(ops) && ops != [] && n == |ops| - 1
    ensures Possible(ops[..n]) && (!ops[n].Protect? ==> ops[n].router < |Run(w, ops[..n]).fronts|)
    ensures Run(w, ops) == Next(w, Run(w, ops[..n]), ops[n])
  {
    PossiblePrefix(ops);
  }

  /** Each router has the front of its own protection. */
  lemma {:induction false} RunFronts(w: Wiring, ops: seq<Op>, r: nat)
    requires Possible(ops) && r < |Protections(ops)|
    ensures Run(w, ops).fronts[r] == FrontOf(w, Protections(ops)[r])
  {
    var n := |ops| - 1;
    RunLast(w, ops, n);
    if r < |Protections(ops[..n])| {
      RunFronts(w, ops[..n], r);
    }
  }

  lemma {:induction false} OneMore(w: Wiring, ops: seq<Op>, op: Op)
    requires Possible(ops) && (!op.Protect? ==> op.router < |Run(w, ops).fronts|)
    ensures Possible(ops + [op]) && Run(w, ops + [op]) == Next(w, Run(w, ops), op)
  {
    var all := ops + [op];
    assert all[..|ops|] == ops;
    forall i | 0 <= i < |all| && !all[i].Protect?
      ensures all[i].router < |Protections(all[..i])|
    {
      if i < |ops| {
        assert all[..i] == ops[..i] && all[i] == ops[i];
      }
    }
    RunLast(w, all, |ops|);
  }

  function WithRouter(s: State, f: Front, failed: bool): State {
    s.(fronts := s.fronts + [f], failed := s.failed + if failed then 1 else 0)
  }

  lemma {:induction false} OneProtection(w: Wiring, ops: seq<Op>, p: Protection, failed: bool)
    requires Possible(ops) && failed == !Valid(w, p.actions)
    ensures Possible(ops + [Protect(p)])
    ensures Run(w, ops + [Protect(p)]) == WithRouter(Run(w, ops), FrontOf(w, p), failed)
  {
    OneMore(w, ops, Protect(p));
  }

  predicate Bad(w: Wiring, op: Op) {
    op.Unsupported? || (op.Protect? && !Valid(w, op.protection.actions))
  }

  lemma {:induction false} NextFails(w: Wiring, s: State, op: Op)
    requires !op.Protect? ==> op.router < |s.fronts|
    ensures Next(w, s, op).failed == s.failed + if Bad(w, op) then 1 else 0
  {
  }

  /** Registration succeeds exactly when every protection is valid and no unsupported method is called. */
  lemma {:induction false} FailsExactlyOnBadCalls(w: Wiring, ops: seq<Op>)
    requires Possible(ops)
    ensures Run(w, ops).failed == 0 <==> forall i :: 0 <= i < |ops| ==> !Bad(w, ops[i])
  {
    if ops != [] {
      var n := |ops| - 1;
      RunLast(w, ops, n);
      NextFails(w, Run(w, ops[..n]), ops[n]);
      FailsExactlyOnBadCalls(w, ops[..n]);
      AllButLast(w, ops, n);
    }
  }

  lemma {:induction false} AllButLast(w: Wiring, ops: seq<Op>, n: nat)
    requires ops != [] && n == |ops| - 1
    ensures (forall i :: 0 <= i < |ops| ==> !Bad(w, ops[i]))
       <==> (forall i :: 0 <= i < |ops[..n]| ==> !Bad(w, ops[..n][i])) && !Bad(w, ops[n])
  {
    assert forall i :: 0 <= i < n ==> ops[..n][i] == ops[i];
  }

  /** The number of routes registered before call `i`. */
  function Registered(ops: seq<Op>, i: nat): nat
    requires i <= |ops|
  {
    if i == 0 then 0 else Registered(ops, i - 1) + if ops[i - 1].Verb? then 1 else 0
  }

  /** What a protected route must look like: it depends on its own two calls only. */
  function Guarded(w: Wiring, p: Protection, op: Op): Route
    requires op.Verb?
  {
    Route(op.verb, op.path,
          (if w.authEnabled == Some(true) then [ValidateClaims] else [])
          + Authorizations(p.resource, p.actions) + [ExtractTenant]
          + [TenantDb, Idempotency, RateLimit]
          + op.own)
  }

  lemma {:induction false} ProtectionsPrefix(ops: seq<Op>, i: nat)
    requires i <= |ops|
    ensures Protections(ops[..i]) <= Protections(ops)
    decreases |ops|
  {
    if i < |ops| {
      var before := ops[..|ops| - 1];
      assert before[..i] == ops[..i];
      ProtectionsPrefix(before, i);
    } else {
      assert ops[..i] == ops;
    }
  }

  lemma {:induction false} RegisteredPrefix(ops: seq<Op>, n: nat, i: nat)
    requires i <= n <= |ops|
    ensures Registered(ops[..n], i) == Registered(ops, i)
  {
    if i > 0 {
      RegisteredPrefix(ops, n, i - 1);
    }
  }

  /** A verb call adds its route at the end of the table; no other call changes the table. */
  lemma {:induction false} NextTable(w: Wiring, s: State, op: Op)
    requires !op.Protect? ==> op.router < |s.fronts|
    ensures var t := Next(w, s, op).table;
            if op.Verb? then t == s.table + [Route(op.verb, op.path, Composed(s.fronts[op.router], op.own))]
            else t == s.table
  {
  }

  lemma {:induction false} TableSize(w: Wiring, ops: seq<Op>)
    requires Possible(ops)
    ensures |Run(w, ops).table| == Registered(ops, |ops|)
  {
    if ops != [] {
      var n := |ops| - 1;
      RunLast(w, ops, n);
      NextTable(w, Run(w, ops[..n]), ops[n]);
      TableSize(w, ops[..n]);
      RegisteredPrefix(ops, n, n);
    }
  }

  /** The route of call `i` stands in the table, in its turn, as its router composed it. */
  lemma {:induction false} RouteOfCall(w: Wiring, ops: seq<Op>, i: nat)
    requires Possible(ops) && i < |ops| && ops[i].Verb?
    ensures Registered(ops, i) < |Run(w, ops).table| && ops[i].router < |Protections(ops)|
    ensures Run(w, ops).table[Registered(ops, i)]
            == Route(ops[i].verb, ops[i].path, Composed(FrontOf(w, Protections(ops)[ops[i].router]), ops[i].own))
    decreases |ops|
  {
    var n := |ops| - 1;
    RegisteredPrefix(ops, n, i);
    ProtectionsPrefix(ops, n);
    RunLast(w, ops, n);
    NextTable(w, Run(w, ops[..n]), ops[n]);
    if i < n {
      RouteOfCall(w, ops[..n], i);
    } else {
      RouteOfLast(w, ops, n);
    }
  }

  lemma {:induction false} RouteOfLast(w: Wiring, ops: seq<Op>, n: nat)
    requires Possible(ops) && ops != [] && n == |ops| - 1 && ops[n].Verb?
    ensures ops[n].router < |Protections(ops)| && Registered(ops, n) < |Run(w, ops).table|
    ensures Run(w, ops).table[Registered(ops, n)]
            == Route(ops[n].verb, ops[n].path, Composed(FrontOf(w, Protections(ops)[ops[n].router]), ops[n].own))
  {
    RunLast(w, ops, n);
    NextTable(w, Run(w, ops[..n]), ops[n]);
    TableSize(w, ops[..n]);
    RegisteredPrefix(ops, n, n);
    RunFronts(w, ops[..n], ops[n].router);
  }

  /**
   * After any calls, the route of a verb call on a validly protected router is exactly claims validation
   * when auth is on, one authorization per action in order, tenant extraction, the shared chain, and its
   * own handlers, whatever else was registered and whether or not other calls failed.
   */
  lemma {:induction false} ValidRoutesAreGuarded(w: Wiring, ops: seq<Op>, i: nat)
    requires Possible(ops) && i < |ops| && ops[i].Verb?
    ensures Registered(ops, i) < |Run(w, ops).table| && ops[i].router < |Protections(ops)|
    ensures Valid(w, Protections(ops)[ops[i].router].actions) ==>
              Run(w, ops).table[Registered(ops, i)] == Guarded(w, Protections(ops)[ops[i].router], ops[i])
  {
    RouteOfCall(w, ops, i);
  }

  lemma {:induction false} ProtectionIsCall(ops: seq<Op>, r: nat) returns (i: nat)
    requires r < |Protections(ops)|
    ensures i < |ops| && ops[i].Protect? && ops[i].protection == Protections(ops)[r]
  {
    var n := |ops| - 1;
    if r < |Protections(ops[..n])| {
      i := ProtectionIsCall(ops[..n], r);
    } else {
      i := n;
    }
  }

  /** So when registration reports no error, every route in the table is guarded. */
  lemma {:induction false} CleanRegistrationGuardsEveryRoute(w: Wiring, ops: seq<Op>, i: nat)
    requires Possible(ops) && Run(w, ops).failed == 0 && i < |ops| && ops[i].Verb?
    ensures Registered(ops, i) < |Run(w, ops).table| && ops[i].router < |Protections(ops)|
    ensures Run(w, ops).table[Registered(ops, i)] == Guarded(w, Protections(ops)[ops[i].router], ops[i])
  {
    ValidRoutesAreGuarded(w, ops, i);
    FailsExactlyOnBadCalls(w, ops);
    var j := ProtectionIsCall(ops, ops[i].router);
    assert !Bad(w, ops[j]);
  }

  /** And every route in the table is the route of a verb call. */
  lemma {:induction false} EveryRouteIsOfACall(w: Wiring, ops: seq<Op>, k: nat) returns (i: nat)
    requires Possible(ops) && k < |Run(w, ops).table|
    ensures i < |ops| && ops[i].Verb? && Registered(ops, i) == k
    decreases |ops|
  {
    TableSize(w, ops);
    var n := |ops| - 1;
    PossiblePrefix(ops);
    TableSize(w, ops[..n]);
    RegisteredPrefix(ops, n, n);
    if k < Registered(ops, n) {
      i := EveryRouteIsOfACall(w, ops[..n], k);
      RegisteredPrefix(ops, n, i);
    } else {
      i := n;
    }
  }

  // ---- The registry ----

  /** A route of the app, with its own slice of handlers. */
  datatype Entry = Entry(verb: string, path: string, chain: array<Handler>)

  function RouteOf(e: Entry): Route
    reads e.chain
  {
    Route(e.verb, e.path, e.chain[..])
  }

  /** Appends to a slice that has room for it, in place. */
  method Append(chain: array<Handler>, length: nat, more: seq<Handler>)
    requires length + |more| <= chain.Length
    modifies chain
    ensures chain[..length + |more|] == old(chain[..length]) + more
  {
    for i := 0 to |more|
      invariant chain[..length + i] == old(chain[..length]) + more[..i]
    {
      chain[length + i] := more[i];
      assert more[..i + 1] == more[..i] + [more[i]];
    }
    assert more[..|more|] == more;
  }

  /**
   * The registry of one server: the routes of its app and the failures met so far. All routers share one
   * slice of shared handlers; `calls` is the history of calls and `routers` are the routers handed out.
   */
  class Registry {
    const wiring: Wiring
    const shared: array<Handler>
    var failures: seq<Failure>
    var table: seq<Entry>
    ghost var routers: seq<Router>
    ghost var calls: seq<Op>

    ghost predicate Shows(view: State)
      reads `failures, `table, `routers, set e | e in table :: e.chain
      reads set r | r in routers :: r.auth
      reads set r | r in routers :: r.shared
    {
      && view.failed == |failures|
      && |view.table| == |table| && (forall i :: 0 <= i < |table| ==> view.table[i] == RouteOf(table[i]))
      && |view.fronts| == |routers|
      && (forall i :: 0 <= i < |routers| ==> view.fronts[i] == Front(routers[i].auth[..], routers[i].shared[..]))
    }

    /** The registry is what the calls so far make of an empty one, and the shared slice is as it was built. */
    ghost predicate Valid()
      reads this, shared, set e | e in table :: e.chain
      reads set r | r in routers :: r.auth
      reads set r | r in routers :: r.shared
    {
      && shared[..] == SHARED
      && Possible(calls) && Shows(Run(wiring, calls))
      && forall i :: 0 <= i < |routers| ==> routers[i].registry == this && routers[i].id == i
    }

    constructor (wiring: Wiring)
      ensures Valid() && this.wiring == wiring && calls == []
    {
      this.wiring := wiring;
      shared := new Handler[] [TenantDb, Idempotency, RateLimit];
      failures, table, routers, calls := [], [], [], [];
    }

    method Protected(resource: string, actions: seq<string>) returns (r: Router)
      requires Valid()
      modifies this
      ensures Valid() && calls == old(calls) + [Protect(Protection(resource, actions))]
      ensures routers == old(routers) + [r] && table == old(table)
    {
      ghost var p, view := Protection(resource, actions), Run(wiring, calls);
      var failure;
      r, failure := NewRouter(resource, actions);
      Record(r, failure, view);
      OneProtection(wiring, calls, p, failure.Some?);
      calls := calls + [Protect(p)];
    }

    /** Adds a router and its failure, if any, to what the registry shows. */
    method Record(r: Router, failure: Option<Failure>, ghost view: State)
      requires Shows(view)
      modifies `failures, `routers
      ensures Shows(WithRouter(view, Front(r.auth[..], r.shared[..]), failure.Some?))
      ensures routers == old(routers) + [r]
    {
      if failure.Some? {
        failures := failures + [failure.value];
      }
      routers := routers + [r];
    }

    /** A router with the guards of its own resource and actions, or a failure and a router without any. */
    method NewRouter(resource: string, actions: seq<string>) returns (r: Router, failure: Option<Failure>)
      requires shared[..] == SHARED
      ensures fresh(r) && r.registry == this && r.id == |routers|
      ensures Front(r.auth[..], r.shared[..]) == FrontOf(wiring, Protection(resource, actions))
      ensures failure.None? <==> AuthChain.Valid(wiring, actions)
    {
      var built := BuildProtectedAuthChain(wiring, resource, actions);
      if built.Err? {
        var none := new Handler[0];
        r := new Router(this, |routers|, none, none);
        return r, Some(BadProtection(resource, actions, built.error));
      }
      var chain := new Handler[|built.chain|];
      Append(chain, 0, built.chain);
      assert chain[..] == chain[..0 + |built.chain|];
      r := new Router(this, |routers|, chain, shared);
      return r, None;
    }

    /**
     * No error means that no call was bad: every protection was valid and nothing unsupported was called.
     * Then the route of every verb call stands in the app behind its own guards and the shared handlers.
     */
    method RegistrationErr() returns (ok: bool)
      requires Valid()
      ensures ok <==> forall i :: 0 <= i < |calls| ==> !Bad(wiring, calls[i])
      ensures ok ==> forall i :: 0 <= i < |calls| && calls[i].Verb? ==>
                && Registered(calls, i) < |table| && calls[i].router < |Protections(calls)|
                && RouteOf(table[Registered(calls, i)]) == Guarded(wiring, Protections(calls)[calls[i].router],
                      calls[i])
    {
      ok := |failures| == 0;
      FailsExactlyOnBadCalls(wiring, calls);
      if ok {
        forall i | 0 <= i < |calls| && calls[i].Verb?
          ensures Registered(calls, i) < |table| && calls[i].router < |Protections(calls)|
          ensures RouteOf(table[Registered(calls, i)]) == Guarded(wiring, Protections(calls)[calls[i].router], calls[i])
        {
          CleanRegistrationGuardsEveryRoute(wiring, calls, i);
        }
      }
    }
  }

  class Router {
    const registry: Registry
    ghost const id: nat
    const auth: array<Handler>
    const shared: array<Handler>

    constructor (registry: Registry, ghost id: nat, auth: array<Handler>, shared: array<Handler>)
      ensures this.registry == registry && this.id == id && this.auth == auth && this.shared == shared
    {
      this.registry, this.id, this.auth, this.shared := registry, id, auth, shared;
    }

    ghost predicate Known()
      reads registry
    {
      id < |registry.routers| && registry.routers[id] == this
    }

    /** A new slice: neither the guards nor the shared handlers are written to. */
    method Compose(own: seq<Handler>) returns (chain: array<Handler>)
      ensures fresh(chain) && chain[..] == Composed(Front(auth[..], shared[..]), own)
    {
      var n, m := auth.Length, shared.Length;
      chain := new Handler[n + m + |own|];
      Append(chain, 0, auth[..]);
      Append(chain, n, shared[..]);
      Append(chain, n + m, own);
      assert chain[..] == chain[..n + m + |own|];
    }

    /** The verbs differ in their name only. No earlier route and no other router is touched. */
    method Add(verb: string, path: string, own: seq<Handler>)
      requires registry.Valid() && Known()
      modifies registry
      ensures registry.Valid() && registry.calls == old(registry.calls) + [Verb(id, verb, path, own)]
      ensures registry.routers == old(registry.routers) && registry.failures == old(registry.failures)
      ensures |registry.table| == |old(registry.table)| + 1 && old(registry.table) <= registry.table
    {
      var chain := Compose(own);
      ghost var op := Verb(id, verb, path, own);
      OneMore(registry.wiring, registry.calls, op);
      registry.calls := registry.calls + [op];
      registry.table := registry.table + [Entry(verb, path, chain)];
    }

    /** Use, Group, Route, Mount, Name and Static: from then on registration cannot succeed. */
    method RecordUnsupported(name: string)
      requires registry.Valid() && Known()
      modifies registry
      ensures registry.Valid() && registry.calls == old(registry.calls) + [Unsupported(id, name)]
      ensures registry.routers == old(registry.routers) && registry.table == old(registry.table)
      ensures registry.failures != []
    {
      ghost var op := Unsupported(id, name);
      OneMore(registry.wiring, registry.calls, op);
      registry.calls := registry.calls + [op];
      registry.failures := registry.failures + [UnsupportedMethod(name)];
    }
  }
}
