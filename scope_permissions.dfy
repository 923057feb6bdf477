/**
 * The OAuth scope check of the API (api/base/permissions.py, TokenHasScope).
 *
 * Requests authenticated by an OAuth token carried in a CAS response must
 * hold every scope the view requires: the read scopes for the safe methods,
 * the write scopes for every other method. Any other authentication skips
 * the check. Scope normalisation (expanding composed scopes into the set of
 * base scopes) is not part of this model; it is a parameter that may fail,
 * which stands for the KeyError of an unknown scope name.
 */
module ScopePermissions {
  import opened Wrappers

  type Scope = string

  const SAFE_METHODS: set<string> := {"GET", "HEAD", "OPTIONS"}

  /** `request.auth`: absent, a CAS response with the token's scopes, or
      anything else (session or basic authentication). */
  datatype Auth = NoAuth | CasResponse(accessTokenScope: seq<Scope>) | OtherAuth

  datatype Request = Request(httpMethod: string, auth: Auth)

  /** A view's `required_read_scopes` and `required_write_scopes`
      attributes; None where the view does not define one. */
  datatype View = View(requiredReadScopes: Option<seq<Scope>>, requiredWriteScopes: Option<seq<Scope>>)

  datatype PermissionError =
    | ImproperlyConfigured(attribute: string)
    | UnrecognizedScope(tokenScopes: seq<Scope>)

  /** Scope normalisation: the base scopes a token's scope names stand for,
      or None for a name it does not know. */
  type Normalizer = seq<Scope> -> Option<set<Scope>>

  function AsSet(scopes: seq<Scope>): (r: set<Scope>)
    ensures forall s :: s in r <==> s in scopes
  {
    set s | s in scopes
  }

  /** The object-level check is not implemented and lets everything through. */
  function HasObjectPermission(request: Request, view: View): (granted: bool)
    ensures granted
  {
    true
  }

  /** The scopes a request must hold. */
  function GetScopes(request: Request, view: View): (r: Result<set<Scope>, PermissionError>)
    ensures request.httpMethod in SAFE_METHODS ==>
              match view.requiredReadScopes
              case None => r == Failure(ImproperlyConfigured("required_read_scopes"))
              case Some(scopes) => r.Success? && (forall s :: s in r.value <==> s in scopes)
    ensures request.httpMethod !in SAFE_METHODS ==>
              match view.requiredWriteScopes
              case None => r == Failure(ImproperlyConfigured("required_write_scopes"))
              case Some(scopes) => r.Success? && (forall s :: s in r.value <==> s in scopes)
  {
    if request.httpMethod in SAFE_METHODS then
      match view.requiredReadScopes
      case None => Failure(ImproperlyConfigured("required_read_scopes"))
      case Some(scopes) => Success(AsSet(scopes))
    else
      match view.requiredWriteScopes
      case None => Failure(ImproperlyConfigured("required_write_scopes"))
      case Some(scopes) => Success(AsSet(scopes))
  }

  /** A safe request is judged by the read scopes alone, any other request by
      the write scopes alone. */
  lemma GetScopesIgnoresOtherAttribute(request: Request, view: View, other: Option<seq<Scope>>)
    ensures request.httpMethod in SAFE_METHODS
            ==> GetScopes(request, view) == GetScopes(request, view.(requiredWriteScopes := other))
    ensures request.httpMethod !in SAFE_METHODS
            ==> GetScopes(request, view) == GetScopes(request, view.(requiredReadScopes := other))
  {
  }

  /** The request-level check. */
  function HasPermission(request: Request, view: View, normalize: Normalizer): (r: Result<bool, PermissionError>)
    // any authentication other than an OAuth token skips the check
    ensures !request.auth.CasResponse? ==> r == Success(true)
    // a view without the attribute the method needs is a configuration error
    ensures request.auth.CasResponse? && GetScopes(request, view).Failure?
            ==> r == Failure(GetScopes(request, view).error)
    // a token scope normalisation does not know is an error, not a verdict
    ensures request.auth.CasResponse? && GetScopes(request, view).Success?
            && normalize(request.auth.accessTokenScope).None?
            ==> r == Failure(UnrecognizedScope(request.auth.accessTokenScope))
    // otherwise access is granted iff every required scope is held
    ensures request.auth.CasResponse? && GetScopes(request, view).Success?
            && normalize(request.auth.accessTokenScope).Some?
            ==> r.Success? && (r.value <==> forall s :: s in GetScopes(request, view).value
                                                ==> s in normalize(request.auth.accessTokenScope).value)
  {
    if !request.auth.CasResponse? then Success(true)
    else
      match GetScopes(request, view)
      case Failure(e) => Failure(e)
      case Success(required) =>
        match normalize(request.auth.accessTokenScope)
        case None => Failure(UnrecognizedScope(request.auth.accessTokenScope))
        case Some(allowed) => Success(required <= allowed)
  }

  /** A token whose normalised scopes include another's keeps every access
      the other has: adding scopes never revokes access. */
  lemma MoreScopesNeverRevoke(httpMethod: string, view: View, normalize: Normalizer,
                              fewer: seq<Scope>, more: seq<Scope>)
    requires normalize(fewer).Some? && normalize(more).Some?
    requires normalize(fewer).value <= normalize(more).value
    ensures HasPermission(Request(httpMethod, CasResponse(fewer)), view, normalize) == Success(true)
            ==> HasPermission(Request(httpMethod, CasResponse(more)), view, normalize) == Success(true)
  {
  }

  /** A view that requires no scope for the method admits every token that
      normalises. */
  lemma NoRequiredScopesGrant(request: Request, view: View, normalize: Normalizer)
    requires GetScopes(request, view) == Success({})
    requires request.auth.CasResponse? ==> normalize(request.auth.accessTokenScope).Some?
    ensures HasPermission(request, view, normalize) == Success(true)
  {
  }
}
