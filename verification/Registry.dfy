/** The operation registry and its access control. */
module Registry {
  import opened Prelude
  import opened Auth
  import opened Frame

  datatype AccessControl = AccessControl(
    requiredScopes: seq<string>,
    requiredScopesAny: Option<seq<string>>,
    resourceType: Option<string>,
    resourceAction: Option<string>)

  datatype Context = Context(requestId: string, identity: Option<Identity>, trusted: bool)

  datatype Response = Response(requestId: string, result: Result<Json, CallError>)

  type Handler = (Json, Context) -> Response

  datatype Operation = Operation(access: AccessControl, handler: Handler)

  /** What an invocation comes to: the handler's own answer, or the registry's refusal. */
  datatype Outcome = Handled(response: Response) | Refused(error: CallError)

  predicate CheckAccess(ac: AccessControl, identity: Identity) {
    && (forall scope :: scope in ac.requiredScopes ==> scope in identity.scopes)
    && (ac.requiredScopesAny.Some? ==>
          exists scope :: scope in ac.requiredScopesAny.value && scope in identity.scopes)
    && (ac.resourceType.Some? ==>
          && ac.resourceType.value in identity.resources
          && (ac.resourceAction.Some? ==>
                ac.resourceAction.value in identity.resources[ac.resourceType.value]))
  }

  predicate HasRestrictions(ac: AccessControl) {
    ac.requiredScopes != [] || ac.requiredScopesAny.Some? || ac.resourceType.Some?
  }

  function Invoke(operations: map<string, Operation>, name: string, input: Json, context: Context): Outcome {
    if name !in operations then
      Refused(CallError("NOT_FOUND", "operation not found: " + name, false))
    else
      var op := operations[name];
      if !context.trusted && context.identity.Some? && !CheckAccess(op.access, context.identity.value) then
        Refused(CallError("FORBIDDEN", "access denied", false))
      else if !context.trusted && context.identity.None? && HasRestrictions(op.access) then
        Refused(CallError("FORBIDDEN", "authentication required", false))
      else
        Handled(op.handler(input, context))
  }

  class OperationRegistry {
    var operations: map<string, Operation>

    constructor ()
      ensures operations == map[]
    {
      operations := map[];
    }

    /** A later registration of the same name replaces the earlier one. */
    method Register(name: string, op: Operation)
      modifies this
      ensures operations == old(operations)[name := op]
    {
      operations := operations[name := op];
    }
  }

  // ---- Anonymous callers ----

  const NOBODY: Identity := Identity("", [], map[])

  /** `has_restrictions` is exactly failure of the check for an identity with nothing. */
  lemma RestrictedIffNobodyFails(ac: AccessControl)
    ensures HasRestrictions(ac) <==> !CheckAccess(ac, NOBODY)
  {
    if ac.requiredScopes != [] {
      assert ac.requiredScopes[0] in ac.requiredScopes;
    }
  }

  /** An untrusted anonymous call reaches the handler precisely when one with the empty identity would. */
  lemma AnonymousIsNobody(operations: map<string, Operation>, name: string, input: Json, context: Context)
    requires !context.trusted && context.identity.None?
    ensures Invoke(operations, name, input, context).Handled? <==>
            Invoke(operations, name, input, context.(identity := Some(NOBODY))).Handled?
  {
    if name in operations {
      RestrictedIffNobodyFails(operations[name].access);
    }
  }

  // ---- Who reaches the handler ----

  /** Every required scope is held, one of the alternatives if there are any, and the action on the resource. */
  ghost predicate Entitled(ac: AccessControl, identity: Identity) {
    && (forall i :: 0 <= i < |ac.requiredScopes| ==> ac.requiredScopes[i] in identity.scopes)
    && (match ac.requiredScopesAny
        case None => true
        case Some(any) => exists i :: 0 <= i < |any| && any[i] in identity.scopes)
    && (match ac.resourceType
        case None => true
        case Some(kind) =>
          && kind in identity.resources
          && (ac.resourceAction == None || ac.resourceAction.value in identity.resources[kind]))
  }

  lemma CheckAccessIff(ac: AccessControl, identity: Identity)
    ensures CheckAccess(ac, identity) <==> Entitled(ac, identity)
  {
    if ac.requiredScopesAny.Some? {
      var any := ac.requiredScopesAny.value;
      if scope :| scope in any && scope in identity.scopes {
        var i :| 0 <= i < |any| && any[i] == scope;
      }
      if i :| 0 <= i < |any| && any[i] in identity.scopes {
        assert any[i] in any;
      }
    }
    assert forall i :: 0 <= i < |ac.requiredScopes| ==> ac.requiredScopes[i] in ac.requiredScopes;
  }

  /**
   A call reaches its handler, with its own input and context, precisely when
   the operation exists and the caller is trusted or entitled, a caller without
   identity counting as one with nothing. Otherwise the refusal says which of
   the two failed.
   */
  lemma ReachesHandlerIff(operations: map<string, Operation>, name: string, input: Json, context: Context)
    ensures var caller := if context.identity.Some? then context.identity.value else NOBODY;
            var out := Invoke(operations, name, input, context);
            && (out.Handled? <==>
                  name in operations && (context.trusted || Entitled(operations[name].access, caller)))
            && (out.Handled? ==> out.response == operations[name].handler(input, context))
            && (out.Refused? ==> out.error.code == if name in operations then "FORBIDDEN" else "NOT_FOUND")
  {
    if name in operations {
      var caller := if context.identity.Some? then context.identity.value else NOBODY;
      CheckAccessIff(operations[name].access, caller);
      RestrictedIffNobodyFails(operations[name].access);
    }
  }

  // ---- Adding rights ----

  /** `b` has at least the scopes, the resources and the actions on them of `a`. */
  predicate AtLeast(a: Identity, b: Identity) {
    && (forall s :: s in a.scopes ==> s in b.scopes)
    && (forall t :: t in a.resources ==>
          t in b.resources && forall x :: x in a.resources[t] ==> x in b.resources[t])
  }

  /** Rights are monotone: more of them never turn a permitted call into a forbidden one. */
  lemma MoreRightsNeverForbid(
    operations: map<string, Operation>, name: string, input: Json, context: Context, more: Identity)
    requires context.identity.Some? ==> AtLeast(context.identity.value, more)
    requires Invoke(operations, name, input, context).Handled?
    ensures Invoke(operations, name, input, context.(identity := Some(more))).Handled?
  {
    if name in operations && !context.trusted {
      var ac := operations[name].access;
      RestrictedIffNobodyFails(ac);
      var held := if context.identity.Some? then context.identity.value else NOBODY;
      assert CheckAccess(ac, held);
      if ac.requiredScopesAny.Some? {
        var s :| s in ac.requiredScopesAny.value && s in held.scopes;
        assert s in more.scopes;
      }
      assert CheckAccess(ac, more);
    }
  }
}
