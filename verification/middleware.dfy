/** The `requires_auth(permission)` decorator: extract the bearer token,
    verify it, check the permission, and only then run the protected view. */
module Middleware {
  import opened Options
  import opened AuthErrors
  import opened Json
  import opened KeySelection
  import opened BearerHeader
  import opened Verifier
  import opened Permissions
  import Text

  /** The three checks of the decorator's wrapper, in order; the first
      failure ends the chain.  On success, the verified payload. */
  function Authorize(permission: string, auth: Option<string>, world: World): (r: Result<Claims>)
    ensures r.Ok? ==> ExtractToken(auth).Ok? && VerifyDecode(ExtractToken(auth).value, world) == r
    ensures r.Ok? ==> CheckPermissions(permission, r.value) == Ok(true)
    ensures auth.None? ==> r == Err(Abort(MissingHeader))
  {
    var token :- ExtractToken(auth);
    var payload :- VerifyDecode(token, world);
    var _ :- CheckPermissions(permission, payload);
    Ok(payload)
  }

  /** The wrapper around the protected view `view`: its result when every
      check passes, the failure of the first check that does not. */
  function RequiresAuth<T>(permission: string, auth: Option<string>, world: World, view: () -> T): (r: Result<T>)
    ensures r.Ok? <==> Authorize(permission, auth, world).Ok?
    ensures r.Ok? ==> r.value == view()
    ensures r.Err? ==> r.fail == Authorize(permission, auth, world).fail
  {
    var _ :- Authorize(permission, auth, world);
    Ok(view())
  }

  /** The order of the chain: a failing extraction is returned as is, then a
      failing verification, then a failing permission check; the view runs
      exactly when all three pass, and the permission checked is the
      decorator's argument. */
  lemma RequiresAuthChain<T>(permission: string, auth: Option<string>, world: World, view: () -> T)
    ensures ExtractToken(auth).Err? ==> RequiresAuth(permission, auth, world, view) == Err(ExtractToken(auth).fail)
    ensures ExtractToken(auth).Ok? && VerifyDecode(ExtractToken(auth).value, world).Err? ==>
      RequiresAuth(permission, auth, world, view) == Err(VerifyDecode(ExtractToken(auth).value, world).fail)
    ensures ExtractToken(auth).Ok? && VerifyDecode(ExtractToken(auth).value, world).Ok? ==>
      var payload := VerifyDecode(ExtractToken(auth).value, world).value;
      && (CheckPermissions(permission, payload).Err? ==>
            RequiresAuth(permission, auth, world, view) == Err(CheckPermissions(permission, payload).fail))
      && (CheckPermissions(permission, payload).Ok? ==>
            RequiresAuth(permission, auth, world, view) == Ok(view()))
    ensures RequiresAuth(permission, auth, world, view).Ok? <==>
      && ExtractToken(auth).Ok?
      && VerifyDecode(ExtractToken(auth).value, world).Ok?
      && CheckPermissions(permission, VerifyDecode(ExtractToken(auth).value, world).value).Ok?
  {
  }

  /** A request without an `Authorization` header is refused with
      `authorization_header_missing`/401 before the key set is fetched or any
      token decoded: the outcome does not depend on the world at all. */
  lemma MissingHeaderRejected<T>(permission: string, world: World, view: () -> T)
    ensures RequiresAuth(permission, None, world, view) == Err(Abort(MissingHeader))
    ensures AbortsWith(RequiresAuth(permission, None, world, view), AuthorizationHeaderMissing, 401)
    ensures ObservedStatus(RequiresAuth(permission, None, world, view).fail) == Some(401)
  {
  }

  /** The world answers the token with `outcome`: the key set and token
      header are readable, no key entry is faulty, the last entry matching
      the header's "kid" is at `j`, and the decoder answers with `outcome`. */
  predicate DecodesAs(token: string, world: World, j: int, outcome: DecodeOutcome)
  {
    && Reaches(token, world)
    && (forall i :: 0 <= i < |KeysOf(token, world)| ==> !Faulty(KeysOf(token, world)[i], KidOf(token, world)))
    && LastMatch(KeysOf(token, world), KidOf(token, world), j)
    && ToRsaKey(KeysOf(token, world)[j].fields).Some?
    && world.decode(RequestFor(token, ToRsaKey(KeysOf(token, world)[j].fields).value)) == outcome
  }

  /** `VerifyDecode` ends with the classification of the decoder's answer. */
  lemma VerifyDecodesAs(token: string, world: World, j: int, outcome: DecodeOutcome)
    requires DecodesAs(token, world, j, outcome)
    ensures VerifyDecode(token, world) == ClassifyDecode(outcome)
  {
    SelectKeySpec(KeysOf(token, world), KidOf(token, world));
    assert SelectKey(KeysOf(token, world), KidOf(token, world)) == Ok(Some(ToRsaKey(KeysOf(token, world)[j].fields).value));
  }

  /** A well-formed "Bearer <token>" header whose token the decoder accepts
      with a payload granting `permission` runs the view, and `Authorize`
      hands back the decoder's payload unchanged. */
  lemma GrantedRequestRuns<T>(scheme: string, token: string, permission: string, world: World, j: int,
                              payload: Claims, view: () -> T)
    requires ' ' !in scheme && ' ' !in token && Text.Lower(scheme) == Scheme
    requires DecodesAs(token, world, j, Decoded(payload))
    requires PermissionsClaim in payload && payload[PermissionsClaim].JArr?
    requires JStr(permission) in payload[PermissionsClaim].items
    ensures Authorize(permission, Some(scheme + " " + token), world) == Ok(payload)
    ensures RequiresAuth(permission, Some(scheme + " " + token), world, view) == Ok(view())
  {
    ExtractTwoParts(scheme, token);
    VerifyDecodesAs(token, world, j, Decoded(payload));
  }

  /** The same request with a payload whose permission list lacks
      `permission` is refused with `unauthorized`/403 and the view does not run. */
  lemma MissingPermissionForbidden<T>(scheme: string, token: string, permission: string, world: World, j: int,
                                      payload: Claims, view: () -> T)
    requires ' ' !in scheme && ' ' !in token && Text.Lower(scheme) == Scheme
    requires DecodesAs(token, world, j, Decoded(payload))
    requires PermissionsClaim in payload && payload[PermissionsClaim].JArr?
    requires JStr(permission) !in payload[PermissionsClaim].items
    ensures RequiresAuth(permission, Some(scheme + " " + token), world, view) == Err(Abort(PermissionNotFound))
    ensures AbortsWith(RequiresAuth(permission, Some(scheme + " " + token), world, view), Unauthorized, 403)
  {
    ExtractTwoParts(scheme, token);
    VerifyDecodesAs(token, world, j, Decoded(payload));
  }

  /** An expired token is refused with `token_expired`/401 whatever
      permission the route asks for, and the view does not run. */
  lemma ExpiredTokenRejected<T>(scheme: string, token: string, permission: string, world: World, j: int,
                                view: () -> T)
    requires ' ' !in scheme && ' ' !in token && Text.Lower(scheme) == Scheme
    requires DecodesAs(token, world, j, ExpiredSignature)
    ensures RequiresAuth(permission, Some(scheme + " " + token), world, view) == Err(Abort(Expired))
    ensures AbortsWith(RequiresAuth(permission, Some(scheme + " " + token), world, view), TokenExpired, 401)
  {
    ExtractTwoParts(scheme, token);
    VerifyDecodesAs(token, world, j, ExpiredSignature);
  }

  /** Every `AuthError` the gate raises aborts with 400, 401 or 403, and 403
      is reserved for a permission the token does not grant. */
  lemma AbortStatuses<T>(permission: string, auth: Option<string>, world: World, view: () -> T)
    ensures var r := RequiresAuth(permission, auth, world, view);
      r.Err? && r.fail.Abort? ==>
        && r.fail.error.status in {400, 401, 403}
        && (r.fail.error.status == 403 <==> r.fail.error.code == Unauthorized)
  {
  }

  /** Only the status leaves the process.  Two requests that differ only in
      the decoder's verdict, an expired token against wrong claims, fail
      with different errors that a client sees as the same 401. */
  lemma ObservedStatusCollapses<T>(scheme: string, token: string, permission: string, world: World, j: int,
                                   decode: DecodeRequest -> DecodeOutcome, view: () -> T)
    requires ' ' !in scheme && ' ' !in token && Text.Lower(scheme) == Scheme
    requires DecodesAs(token, world, j, ExpiredSignature)
    requires DecodesAs(token, world.(decode := decode), j, ClaimsMismatch)
    ensures var expired := RequiresAuth(permission, Some(scheme + " " + token), world, view);
      var mismatched := RequiresAuth(permission, Some(scheme + " " + token), world.(decode := decode), view);
      && expired.Err? && mismatched.Err? && expired.fail != mismatched.fail
      && ObservedStatus(expired.fail) == ObservedStatus(mismatched.fail) == Some(401)
  {
    ExtractTwoParts(scheme, token);
    VerifyDecodesAs(token, world, j, ExpiredSignature);
    VerifyDecodesAs(token, world.(decode := decode), j, ClaimsMismatch);
  }

  /** Likewise a token the decoder cannot parse and a token whose key id
      matches no entry of the key set fail with different errors that a
      client sees as the same 400. */
  lemma UnknownKeyLooksUnparseable<T>(scheme: string, token: string, permission: string, world: World, j: int,
                                      other: World, view: () -> T)
    requires ' ' !in scheme && ' ' !in token && Text.Lower(scheme) == Scheme
    requires DecodesAs(token, world, j, OtherFailure)
    requires Reaches(token, other)
    requires forall i :: 0 <= i < |KeysOf(token, other)| ==> !Faulty(KeysOf(token, other)[i], KidOf(token, other))
    requires forall i :: 0 <= i < |KeysOf(token, other)| ==> !Matches(KeysOf(token, other)[i], KidOf(token, other))
    ensures var unparseable := RequiresAuth(permission, Some(scheme + " " + token), world, view);
      var unknown := RequiresAuth(permission, Some(scheme + " " + token), other, view);
      && unparseable.Err? && unknown.Err? && unparseable.fail != unknown.fail
      && ObservedStatus(unparseable.fail) == ObservedStatus(unknown.fail) == Some(400)
  {
    ExtractTwoParts(scheme, token);
    VerifyDecodesAs(token, world, j, OtherFailure);
    UnknownKeyRejected(token, other, other.decode);
    assert other.(decode := other.decode) == other;
  }
}
