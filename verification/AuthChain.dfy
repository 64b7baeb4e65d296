/** The chain of handlers that guards a protected route: claims, one authorization per action, tenant. */
module AuthChain {
  import opened Types
  import opened Text

  datatype Handler =
    | ValidateClaims
    | Authorize(resource: string, action: string)
    | ExtractTenant
    | TenantDb
    | Idempotency
    | RateLimit
    | Own(name: string)

  datatype ChainError = NilTenantExtractor | NilAuthClient | NoActions | EmptyAction

  datatype Result = Ok(chain: seq<Handler>) | Err(error: ChainError)

  /** The wiring of one server: its tenant extractor, with auth on or off, and its auth client. */
  datatype Wiring = Wiring(authEnabled: Option<bool>, hasClient: bool)

  predicate Blank(action: string) {
    TrimSpace(action) == ""
  }

  lemma {:induction false} BlankIsWhiteSpace(action: string)
    ensures Blank(action) <==> IsBlank(action)
  {
    TrimSpaceTakesBlank(action);
    if TrimSpace(action) != "" {
      assert action[Blanks(action)] == TrimSpace(action)[0];
    }
  }

  predicate Valid(w: Wiring, actions: seq<string>) {
    w.authEnabled.Some? && w.hasClient && actions != [] && forall i :: 0 <= i < |actions| ==> !Blank(actions[i])
  }

  /** One authorization per action, in order. */
  function Authorizations(resource: string, actions: seq<string>): (r: seq<Handler>)
    ensures |r| == |actions| && forall i :: 0 <= i < |actions| ==> r[i] == Authorize(resource, actions[i])
  {
    seq(|actions|, i requires 0 <= i < |actions| => Authorize(resource, actions[i]))
  }

  lemma AuthorizationsNext(resource: string, actions: seq<string>, i: nat)
    requires i < |actions|
    ensures Authorizations(resource, actions[..i + 1])
         == Authorizations(resource, actions[..i]) + [Authorize(resource, actions[i])]
  {
  }

  function Guards(w: Wiring, resource: string, actions: seq<string>): seq<Handler> {
    Claims(w) + Authorizations(resource, actions) + [ExtractTenant]
  }

  function Claims(w: Wiring): seq<Handler> {
    if w.authEnabled == Some(true) then [ValidateClaims] else []
  }

  method HasBlank(actions: seq<string>) returns (found: bool)
    ensures found <==> exists i :: 0 <= i < |actions| && Blank(actions[i])
  {
    for i := 0 to |actions|
      invariant forall j :: 0 <= j < i ==> !Blank(actions[j])
    {
      if Blank(actions[i]) {
        return true;
      }
    }
    return false;
  }

  method AppendAuthorizations(before: seq<Handler>, resource: string, actions: seq<string>)
    returns (handlers: seq<Handler>)
    ensures handlers == before + Authorizations(resource, actions)
  {
    handlers := before;
    for i := 0 to |actions|
      invariant handlers == before + Authorizations(resource, actions[..i])
    {
      handlers := handlers + [Authorize(resource, actions[i])];
      AuthorizationsNext(resource, actions, i);
    }
    assert actions[..|actions|] == actions;
  }

  method Assemble(w: Wiring, resource: string, actions: seq<string>) returns (handlers: seq<Handler>)
    ensures handlers == Guards(w, resource, actions)
  {
    handlers := [];
    if w.authEnabled == Some(true) {
      handlers := handlers + [ValidateClaims];
    }
    assert handlers == Claims(w);
    handlers := AppendAuthorizations(handlers, resource, actions);
    handlers := handlers + [ExtractTenant];
  }

  method BuildProtectedAuthChain(w: Wiring, resource: string, actions: seq<string>) returns (r: Result)
    ensures r.Ok? <==> Valid(w, actions)
    ensures r.Ok? <==> && w.authEnabled.Some? && w.hasClient && actions != []
                       && forall i :: 0 <= i < |actions| ==> !IsBlank(actions[i])
    ensures r.Ok? ==> r.chain == Guards(w, resource, actions)
    ensures r.Err? ==>
              r.error == if w.authEnabled.None? then NilTenantExtractor
                         else if !w.hasClient then NilAuthClient
                         else if actions == [] then NoActions
                         else EmptyAction
  {
    forall i | 0 <= i < |actions|
      ensures Blank(actions[i]) <==> IsBlank(actions[i])
    {
      BlankIsWhiteSpace(actions[i]);
    }
    if w.authEnabled.None? {
      return Err(NilTenantExtractor);
    }
    if !w.hasClient {
      return Err(NilAuthClient);
    }
    if |actions| == 0 {
      return Err(NoActions);
    }
    var blank := HasBlank(actions);
    if blank {
      return Err(EmptyAction);
    }
    var handlers := Assemble(w, resource, actions);
    return Ok(handlers);
  }
}
