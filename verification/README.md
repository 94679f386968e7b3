# Bearer-token authorization gate of the myblog API, in Dafny

The blog API guards every write route with the `requires_auth(permission)`
decorator in `backend/src/auth/auth.py`. The decorator runs three checks in a
fixed order, and the protected view runs only when all three pass:

1. `get_token_auth_header` takes the `Authorization` header apart. This is the
   "Bearer" scheme of section 2.1 of RFC 6750.
2. `verify_decode_jwt` does the following:
   - fetches the tenant's key set (section 5 of RFC 7517);
   - reads the token header without verifying it;
   - picks the key whose `kid` matches (section 4.1.4 of RFC 7515);
   - lets `jose.jwt.decode` check the signature, `exp`, `aud` and `iss`
     (sections 4.1.4, 4.1.3 and 4.1.1 of RFC 7519);
   - turns each decode exception into an error code and an HTTP status.
3. `check_permissions` looks the route's permission up in the payload's
   `permissions` claim.

The model is functional. Each step is a pure function that returns
`Result<T> = Ok(value) | Err(fail)`. A failure is one of two things:

- `Abort(AuthError(code, description, status))`: the error the source raises.
- `Unhandled(exc)`: a Python exception the source does not catch, such as
  `ValueError`, `KeyError`, `TypeError`, or a failed fetch.

What the code delegates to the network and to python-jose is a field of a
`World` value:

- the URL fetch and its JSON parse;
- `jwt.get_unverified_header`;
- `jwt.decode`.

`jwt.decode` is an uninterpreted function from its full argument list to one
of four outcomes: a payload, `ExpiredSignature`, `ClaimsMismatch` or
`OtherFailure`. Lemmas quantify over every such function, so they hold for
whatever the library decides.

Files and modules:

- `options.dfy`, module `Options`: optional values.
- `errors.dfy`, module `AuthErrors`: error codes, the `AuthError` constants
  with their literal descriptions and statuses, `Result`, and the status a
  client observes.
- `text.dfy`, module `Text`: Python's `str.split(" ")` and its inverse
  `Join`, and ASCII `str.lower()`.
- `json.dfy`, module `Json`: JSON values, the claims map, and Python's `in`
  operator on JSON values.
- `header.dfy`, modules `BearerHeader` and `HeaderExamples`: header
  extraction.
- `keys.dfy`, module `KeySelection`: the `for key in jwks["keys"]` loop.
- `verify.dfy`, module `Verifier`: the configuration constants,
  `verify_decode_jwt`, and the classification of decode outcomes.
- `permissions.dfy`, modules `Permissions` and `PermissionExamples`:
  `check_permissions`.
- `middleware.dfy`, module `Middleware`: the `requires_auth` wrapper.
- `routes.dfy`, module `Routes`: the permission string each write route of
  `create_app` in `backend/src/api/api.py` passes to `requires_auth`, and the
  two write routes of the flat module `backend/src/api.py`.

Behaviour of auth.py worth knowing:

- A header with no space, or with two or more spaces, raises `ValueError` at
  the unpack `bearer, token = auth_parts` on auth.py:52. So the
  `invalid_header` raises at lines 62 and 67 never run; see
  `BearerHeader.LengthChecksUnreachable`.
- The permission test at auth.py:94 is Python's `in`. Against a list of
  permissions, an empty required permission `""` passes only if the list
  holds `""`. Against a string-valued claim it always passes, because `""`
  is a substring of every string. See `Permissions.EmptyPermission`.
- The key loop at auth.py:115-123 has no `break`. When several entries share
  the token's key id, the last one wins; see `KeySelection.SelectKeySpec`.
- A token header without `kid` aborts with `invalid_header`/401
  (auth.py:110-113). A `kid` that matches no key aborts with
  `invalid_header`/400 (auth.py:158-164).
- Some failures escape the gate as uncaught exceptions rather than
  `AuthError`s, so they get no 400 or 401 from it: a failed key-set fetch
  (auth.py:105-106), an unreadable token header (auth.py:107), and, at
  `for key in jwks["keys"]` (auth.py:115-123), a key-set document that is
  not an object or has no "keys", a "keys" value that is a number, boolean
  or null, and a key entry that is not an object, lacks "kid", or matches
  but lacks a copied member. See `Verifier.VerifyDecode`.
- A "keys" value that is an empty string or an empty object is iterated
  without a single entry, so the token gets the "Unable to find the
  appropriate key" 400; a non-empty one fails at its first entry with a
  `TypeError`.
- `AuthError.__init__` calls `abort(status_code)`, so only the status reaches
  the client. As a result, `token_expired` and `invalid_claims` look the same
  (both 401), and so do an unparseable token and an unknown key (both 400).
  See `Middleware.ObservedStatusCollapses` and
  `Middleware.UnknownKeyLooksUnparseable`.

## Model

| member | source | states |
|---|---|---|
| Text.Split | backend/src/auth/auth.py:51 | `auth.split(" ")` has one more part than the header has spaces, no part holds a space, and joining the parts with single spaces gives the header back |
| Text.SplitJoin | backend/src/auth/auth.py:51 | splitting the space-join of space-free parts returns exactly those parts (the other half of the round trip) |
| Text.SplitInTwo | backend/src/auth/auth.py:51-52 | the header splits into exactly two parts iff it holds exactly one space, and the two parts are the text before and after that space |
| Text.Lower | backend/src/auth/auth.py:53 | ASCII lower-casing, letter by letter: the length is kept and each character is lower-cased on its own |
| Text.LowerIsBearer | backend/src/auth/auth.py:53 | `bearer.lower() == "bearer"` iff the scheme has six letters, each being the matching letter of "bearer" in lower or upper case |
| BearerHeader.CheckParts | backend/src/auth/auth.py:53-77 | after the unpack: the token is returned iff the scheme lower-cases to "bearer" and there are two parts; every refusal is `invalid_header`/401 |
| BearerHeader.ExtractToken | backend/src/auth/auth.py:36-77 | an absent header, and only an absent header, gives `authorization_header_missing`/401; a returned token holds no space; the unhandled unpack failure happens iff the header does not hold exactly one space |
| BearerHeader.ExtractTwoParts | backend/src/auth/auth.py:51-77 | for `scheme + " " + token` with space-free parts: a case-insensitive "bearer" scheme yields the token byte for byte; any other scheme yields `invalid_header`/401 "must start with Bearer" |
| BearerHeader.ExtractTokenSpec | backend/src/auth/auth.py:51-77 | extraction succeeds iff the header has a single space with a case-insensitive "bearer" before it, and the token is everything after that space |
| BearerHeader.LengthChecksUnreachable | backend/src/auth/auth.py:62-74 | "Token not found." and "Authorization header must be bearer token." are never raised, whatever the header |
| BearerHeader.ExtractRejectsOtherPartCounts | backend/src/auth/auth.py:51-52 | a header with zero or several spaces fails with the unpack's `ValueError`, not with an `AuthError` |
| HeaderExamples.GluedHeaderFails | backend/src/auth/auth.py:51-52 | "Bearertoken" yields no token; the unpack fails |
| HeaderExamples.DoubleSpaceHeaderFails | backend/src/auth/auth.py:51-52 | "Bearer  abc" (two spaces) yields no token; the unpack fails |
| HeaderExamples.UpperCaseSchemeAccepted | backend/src/auth/auth.py:53-77 | "BEARER abc.def.ghi" yields "abc.def.ghi" |
| HeaderExamples.OtherSchemeRejected | backend/src/auth/auth.py:53-60 | "Basic abc" is refused with the "must start with Bearer" 401 |
| KeySelection.ToRsaKey | backend/src/auth/auth.py:117-123 | the chosen key exists iff the entry has all of kty, kid, use, n and e, and it copies those five members unchanged |
| KeySelection.SelectFromSpec | backend/src/auth/auth.py:115-123 | the loop fails iff some entry is not an object, lacks "kid", or matches without all five members, and the exception is the first such entry's (TypeError for a non-object, KeyError otherwise); with no match it keeps what it had; otherwise it ends with the copy of the last matching entry |
| KeySelection.SelectKey | backend/src/auth/auth.py:108-123 | starting from no key, the loop fails iff some entry is faulty, with the first faulty entry's exception; a chosen key carries the header's kid and is the copy of the last matching entry |
| KeySelection.SelectKeySpec | backend/src/auth/auth.py:115-124 | key selection finds nothing iff no entry is faulty and none matches; for every last-matching index, the result is that entry's copy, with the requested kid |
| Verifier.ClassifyDecode | backend/src/auth/auth.py:125-157 | success iff the decoder returned a payload, which passes through unchanged; expired gives `token_expired`/401, a claims error gives `invalid_claims`/401, any other exception gives `invalid_header`/400 |
| Verifier.ClassifyDecodeInjective | backend/src/auth/auth.py:136-157 | no decode exception escapes the handlers, and different decoder outcomes give different results |
| Verifier.KeyEntries | backend/src/auth/auth.py:115 | `jwks["keys"]` and what the loop visits: a document that is not an object is a TypeError, one without "keys" a KeyError; a list "keys" gives its items, a number, boolean or null a TypeError, a non-empty string or object a TypeError at its first entry, and an empty string or object nothing to visit |
| Verifier.StringEntriesFailAtFirst | backend/src/auth/auth.py:115-116 | running the key loop over string entries, the characters or member names a string or object "keys" yields, finds no key when there are none and otherwise fails with the TypeError of `key["kid"]`, as `KeyEntries` states |
| Verifier.VerifyDecode | backend/src/auth/auth.py:101-164 | a failed key-set fetch and an unreadable token header escape as uncaught exceptions; once the header names a kid, so do a document that is not an object (TypeError), one without "keys" (KeyError), a "keys" that is a number, boolean or null (TypeError), a non-empty string or object "keys" (TypeError), and the first faulty key entry; an empty string or object "keys" gives the 400 for no key; the only `AuthError` codes are invalid_header, token_expired and invalid_claims |
| Verifier.MissingKidRejected | backend/src/auth/auth.py:110-113 | a token header without "kid" is `invalid_header`/401, whatever the key set holds and whatever the decoder would answer |
| Verifier.UnknownKeyRejected | backend/src/auth/auth.py:124-164 | when no entry matches the kid, the result is `invalid_header`/400 "Unable to find the appropriate key" for every decoder, so the decoder is never consulted and nothing is accepted |
| Verifier.DecodeRequestFixed | backend/src/auth/auth.py:125-132 | when a key is chosen, the outcome is the decoder's answer for that token, the last matching key, ["RS256"], "my-blog" and the literal issuer URL, which ends in a slash |
| Verifier.VerifyOkIffDecoded | backend/src/auth/auth.py:101-134 | verification succeeds iff a key is chosen and the decoder returns a payload with it, and the payload comes back unchanged |
| Json.Contains | backend/src/auth/auth.py:94 | Python `in`: a TypeError exactly for null, booleans and numbers; for a list, true iff some element equals the permission string |
| Json.EmptyIsSubstring | backend/src/auth/auth.py:94 | the empty permission is found in every string-valued claim |
| Permissions.CheckPermissions | backend/src/auth/auth.py:80-98 | no "permissions" claim gives `invalid_claims`/400; success (returning true) iff the claim contains the permission; for a list, success iff some element is that exact string, and every refusal is `unauthorized`/403 |
| Permissions.OnlyPermissionsClaimDecides | backend/src/auth/auth.py:84-97 | two payloads that agree on the "permissions" claim get the same answer, whatever their other claims |
| Permissions.GrantMonotone | backend/src/auth/auth.py:94-98 | a permission list that keeps every granted string still lets the permission through |
| Permissions.EmptyPermission | backend/src/auth/auth.py:94 | with a list, "" passes iff the list holds ""; with a string-valued claim, "" always passes |
| PermissionExamples.GrantedPermissionPasses | backend/src/auth/auth.py:94-98 | permissions ["post:articles", "delete:articles"] pass "post:articles" |
| PermissionExamples.OtherPermissionForbidden | backend/src/auth/auth.py:94-97 | permissions ["read:articles"] are refused with 403 on "post:articles" |
| PermissionExamples.NoPermissionsClaim | backend/src/auth/auth.py:84-91 | a payload without "permissions" is refused with 400 |
| Middleware.Authorize | backend/src/auth/auth.py:174-177 | success means extraction succeeded, verification returned this very payload, and the permission check returned true; no header means `authorization_header_missing` |
| Middleware.RequiresAuth | backend/src/auth/auth.py:172-178 | the view's result comes back iff authorization succeeds; otherwise the authorization failure is returned unchanged |
| Middleware.RequiresAuthChain | backend/src/auth/auth.py:174-178 | the first failing step's failure is returned (extract, then verify, then permissions); the view runs iff all three succeed, and the permission checked is the decorator's argument |
| Middleware.MissingHeaderRejected | backend/src/auth/auth.py:40-49 | without an Authorization header the gate returns `authorization_header_missing`/401 for every world; the client sees 401 |
| Middleware.VerifyDecodesAs | backend/src/auth/auth.py:115-157 | once the last matching key is well formed, verification is the classification of the decoder's answer for it |
| Middleware.GrantedRequestRuns | backend/src/auth/auth.py:174-178 | a "Bearer <token>" header whose token decodes to a payload listing the permission runs the view, and authorization returns the payload unchanged |
| Middleware.MissingPermissionForbidden | backend/src/auth/auth.py:94-97 | the same request with a payload whose list lacks the permission is `unauthorized`/403, as the test for a token without credentials expects |
| Middleware.ExpiredTokenRejected | backend/src/auth/auth.py:136-139 | an expired token is `token_expired`/401 whatever permission is required |
| Middleware.AbortStatuses | backend/src/auth/auth.py:27-30 | every `AuthError` of the gate aborts with 400, 401 or 403, and 403 iff the code is `unauthorized` |
| Middleware.ObservedStatusCollapses | backend/src/auth/auth.py:27-30 | two requests that differ only in the decoder's verdict, expired against wrong claims, fail with different errors whose observed status is the same 401 |
| Middleware.UnknownKeyLooksUnparseable | backend/src/auth/auth.py:27-30 | a token the decoder cannot parse and a token whose kid matches no key fail with different errors whose observed status is the same 400 |
| Routes.RequiredPermissionsDistinct | backend/src/api/api.py:107-327 | every write route of `create_app` names a non-empty permission, and no two of them share one |
| Routes.PermissionOpensOnlyItsRoute | backend/src/api/api.py:107-327 | a token granting exactly one `create_app` route's permission opens that route and gets 403 on every other route of `create_app` |
| Routes.FlatRoutesShareCreatePermissions | backend/src/api.py:19-46 | `/articles/add` and `/collections/add` each ask for the permission of the `create_app` route that creates the same record and of no other route, so the gate gives every request the same outcome on the two, even with different views: both run, or both are refused with the same failure |

## Left out

- Fetching the key set (`urlopen` and `json.loads`, auth.py:105-106) is a
  field of the world that returns the parsed JSON value, of any shape, or
  `None`. A failure is an unhandled exception, as in the source. No retry
  and no caching are modelled.
- The work `jose.jwt.decode` does is uninterpreted: RSA-SHA256 signature
  checks, claim checks and the clock. So is `jwt.get_unverified_header`.
  The model fixes only which arguments the decoder receives and how its four
  outcomes are handled.
- `abort()` inside `AuthError.__init__` is a Flask side effect. It is
  modelled as returning `Err(Abort(error))`. How Flask renders the statuses
  is not modelled, nor which status it gives an unhandled exception.
- Text.Lower: models ASCII case mapping only, not the whole of Python's
  Unicode `str.lower()`. The lemma about "bearer" therefore talks about the
  ASCII letters only.
- The token header that `jwt.get_unverified_header` returns is a map from
  strings to strings. A header `kid` that is not a string is not modelled,
  nor Python's mixed-type equality (`1 == True`) it would bring into the key
  loop. Key entries are JSON values of any shape; an entry's "kid" matches
  only when it is the header's string.
- Json: JSON numbers are integers. Floating-point numbers are not modelled.
- The protected views are modelled as a value `view()`. Their own logic is
  not modelled: SQLAlchemy access, pagination, JSON shaping and the Flask
  error handlers in `backend/src/api/api.py` and `backend/src/api.py`.
- `backend/src/database/models.py` and the front end are not part of this
  model.
- The integration tests in `backend/src/tests/test_api.py` need live tokens
  and a database. They inform the 401 and 403 statuses above and are not
  modelled.
