/** The failure vocabulary of the authorization gate.

    The source raises `AuthError({"code": ..., "description": ...}, status)`
    for every failure it anticipates.  Other Python exceptions (a tuple
    unpack that does not fit, a missing dictionary key, a failed fetch)
    escape the gate unhandled; they are kept apart from `AuthError` here
    so that a proof can tell the two kinds of failure apart.
 */
module AuthErrors {
  import opened Options

  /** The `code` entry of an `AuthError`'s error dictionary. */
  datatype Code =
    | AuthorizationHeaderMissing // "authorization_header_missing"
    | InvalidHeader              // "invalid_header"
    | InvalidClaims              // "invalid_claims"
    | TokenExpired               // "token_expired"
    | Unauthorized               // "unauthorized"

  /** An `AuthError`: the error dictionary and the HTTP status it aborts with. */
  datatype AuthError = AuthError(code: Code, description: string, status: int)

  /** Python exceptions, other than `AuthError`, that leave the gate unhandled. */
  datatype Exc =
    | HeaderUnpack            // ValueError: `bearer, token = auth_parts` with != 2 parts
    | KeySetUnavailable       // urlopen / json.loads of the key-set document failed
    | TokenHeaderUnreadable   // jwt.get_unverified_header raised
    | KeySetNotObject         // TypeError: `jwks["keys"]` on a document that is not a JSON object
    | KeySetWithoutKeys       // KeyError: the key-set document has no "keys"
    | KeysNotIterable         // TypeError: `for key in jwks["keys"]` on a number, boolean or null
    | KeyNotSubscriptable     // TypeError: `key["kid"]` on a key entry that is not a JSON object
    | KeyFieldMissing         // KeyError: a key entry lacks "kid", or a matching one lacks a field
    | PermissionsNotContainer // TypeError: `in` applied to a claim that is not a container

  /** Why the gate stopped: an `AuthError` it raised, or an exception that escaped it. */
  datatype Fail = Abort(error: AuthError) | Unhandled(exc: Exc)

  /** The outcome of one step of the gate; usable with `:-`. */
  datatype Result<+T> = Ok(value: T) | Err(fail: Fail) {
    predicate IsFailure() {
      Err?
    }

    function PropagateFailure<U>(): Result<U>
      requires Err?
    {
      Err(fail)
    }

    function Extract(): T
      requires Ok?
    {
      value
    }
  }

  /** `r` is an `AuthError` with the given code and HTTP status. */
  predicate AbortsWith<T>(r: Result<T>, code: Code, status: int)
  {
    r.Err? && r.fail.Abort? && r.fail.error.code == code && r.fail.error.status == status
  }

  // The errors the source raises, in the order they appear in it.

  const MissingHeader := AuthError(AuthorizationHeaderMissing, "Authorization header is expected.", 401)
  // Python joins the two adjacent literals without a space.
  const NotBearer := AuthError(InvalidHeader, "Authorization headermust start with \"Bearer\".", 401)
  const TokenNotFound := AuthError(InvalidHeader, "Token not found.", 401)
  const NotBearerToken := AuthError(InvalidHeader, "Authorization header must be bearer token.", 401)
  const PermissionsMissing := AuthError(InvalidClaims, "Permissions not included in JWT.", 400)
  const PermissionNotFound := AuthError(Unauthorized, "Permission not found.", 403)
  const HeaderMalformed := AuthError(InvalidHeader, "Authorization malformed.", 401)
  const Expired := AuthError(TokenExpired, "Token expired.", 401)
  const IncorrectClaims := AuthError(InvalidClaims, "Incorrect claims. Please, check the audience and issuer.", 401)
  const Unparseable := AuthError(InvalidHeader, "Unable to parse authentication token.", 400)
  const KeyNotFound := AuthError(InvalidHeader, "Unable to find the appropriate key.", 400)

  /** What a client can observe of a failure.  `AuthError.__init__` calls
      `abort(status_code)`, so the HTTP status is all that leaves the
      process; an unhandled exception has no status of the gate's choosing. */
  function ObservedStatus(f: Fail): Option<int>
  {
    match f
    case Abort(e) => Some(e.status)
    case Unhandled(_) => None
  }
}
