/** Token verification, `verify_decode_jwt(token)`: fetch the issuer's key
    set, read the token header without trusting it, pick the signing key by
    "kid", and let the token library check signature, "exp", "aud" and
    "iss" (sections 4.1.4, 4.1.3 and 4.1.1 of RFC 7519). */
module Verifier {
  import opened Options
  import opened AuthErrors
  import opened Json
  import opened KeySelection

  /** The tenant the tokens come from. */
  const AuthDomain := "dev-u87omsusx1w1jtso.us.auth0.com"
  /** The only signature algorithm the decoder may accept. */
  const Algorithms: seq<string> := ["RS256"]
  /** The expected "aud" claim. */
  const ApiAudience := "my-blog"
  /** The expected "iss" claim: the domain as an https URL with a trailing slash. */
  const Issuer := "https://" + AuthDomain + "/"
  /** Where the key set is fetched from. */
  const KeySetUrl := "https://" + AuthDomain + "/.well-known/jwks.json"

  /** The configuration constants spelled out, as the decoder receives them. */
  lemma ConfigurationLiterals()
    ensures Algorithms == ["RS256"]
    ensures ApiAudience == "my-blog"
    ensures Issuer == "https://dev-u87omsusx1w1jtso.us.auth0.com/"
    ensures Issuer[|Issuer| - 1] == '/'
  {
  }

  /** The arguments of one `jwt.decode` call. */
  datatype DecodeRequest = DecodeRequest(
    token: string, key: RsaKey, algorithms: seq<string>, audience: string, issuer: string)

  /** How `jwt.decode` ends: the payload, or one of the exceptions the
      source tells apart (`ExpiredSignatureError`, `JWTClaimsError`, any other). */
  datatype DecodeOutcome =
    | Decoded(payload: Claims)
    | ExpiredSignature
    | ClaimsMismatch
    | OtherFailure

  /** What the verifier consults but does not compute: the fetch and parse of
      a URL (`None` when the network or `json.loads` fails; otherwise any JSON
      value, not necessarily an object), the unverified
      token header (`None` when `jwt.get_unverified_header` raises), and the
      token library's decode, which does the cryptography and the clock. */
  datatype World = World(
    fetch: string -> Option<Json>,
    unverifiedHeader: string -> Option<map<string, string>>,
    decode: DecodeRequest -> DecodeOutcome)

  /** The `try`/`except` around `jwt.decode`: the payload passes through,
      each exception becomes an `AuthError`, the expired case first. */
  function ClassifyDecode(outcome: DecodeOutcome): (r: Result<Claims>)
    ensures r.Ok? <==> outcome.Decoded?
    ensures r.Ok? ==> r.value == outcome.payload
    ensures outcome.ExpiredSignature? ==> AbortsWith(r, TokenExpired, 401)
    ensures outcome.ClaimsMismatch? ==> AbortsWith(r, InvalidClaims, 401)
    ensures outcome.OtherFailure? ==> AbortsWith(r, InvalidHeader, 400)
  {
    match outcome
    case Decoded(payload) => Ok(payload)
    case ExpiredSignature => Err(Abort(Expired))
    case ClaimsMismatch => Err(Abort(IncorrectClaims))
    case OtherFailure => Err(Abort(Unparseable))
  }

  /** The request `verify_decode_jwt` makes of the decoder once a key is chosen. */
  function RequestFor(token: string, key: RsaKey): DecodeRequest
  {
    DecodeRequest(token, key, Algorithms, ApiAudience, Issuer)
  }

  /** The entries `for key in jwks["keys"]` visits, or the exception raised
      before the first visit.  Subscripting a document that is not an object
      raises `TypeError`, and a missing "keys" `KeyError`; a number, boolean
      or null is not iterable.  Iterating a string visits its characters and
      iterating an object its member names: each is a string, on which
      `key["kid"]` raises `TypeError`, so a non-empty one fails at its first
      entry and an empty one visits nothing. */
  function KeyEntries(jwks: Json): (r: Result<seq<Json>>)
    ensures !jwks.JObj? ==> r == Err(Unhandled(KeySetNotObject))
    ensures jwks.JObj? && "keys" !in jwks.fields ==> r == Err(Unhandled(KeySetWithoutKeys))
    ensures jwks.JObj? && "keys" in jwks.fields ==>
      var listed := jwks.fields["keys"];
      && (listed.JArr? ==> r == Ok(listed.items))
      && (listed.JNull? || listed.JBool? || listed.JNum? ==> r == Err(Unhandled(KeysNotIterable)))
      && ((listed.JStr? && |listed.s| > 0) || (listed.JObj? && |listed.fields| > 0) ==>
            r == Err(Unhandled(KeyNotSubscriptable)))
      && ((listed.JStr? && |listed.s| == 0) || (listed.JObj? && |listed.fields| == 0) ==> r == Ok([]))
  {
    match jwks
    case JObj(fields) =>
      if "keys" !in fields then Err(Unhandled(KeySetWithoutKeys))
      else
        (match fields["keys"]
         case JArr(items) => Ok(items)
         case JStr(chars) => if |chars| == 0 then Ok([]) else Err(Unhandled(KeyNotSubscriptable))
         case JObj(names) => if |names| == 0 then Ok([]) else Err(Unhandled(KeyNotSubscriptable))
         case _ => Err(Unhandled(KeysNotIterable)))
    case _ => Err(Unhandled(KeySetNotObject))
  }

  /** Running the key loop itself over what a string or object "keys"
      yields, its characters or its member names, each a string, ends as
      `KeyEntries` does: no key when there is nothing to visit, and
      otherwise the `TypeError` of subscripting the first one. */
  lemma StringEntriesFailAtFirst(visited: seq<Json>, kid: string)
    requires forall i :: 0 <= i < |visited| ==> visited[i].JStr?
    ensures |visited| == 0 ==> SelectKey(visited, kid) == Ok(None)
    ensures |visited| > 0 ==> SelectKey(visited, kid) == Err(Unhandled(KeyNotSubscriptable))
  {
    if |visited| > 0 {
      assert Faulty(visited[0], kid);
      var i :| FirstFault(visited, kid, i) && SelectKey(visited, kid).fail == Unhandled(FaultOf(visited[i]));
    }
  }

  /** `verify_decode_jwt(token)`, step by step in the source's order. */
  function VerifyDecode(token: string, world: World): (r: Result<Claims>)
    ensures !Reaches(token, world) ==> r.Err?
    ensures world.fetch(KeySetUrl).None? ==> r == Err(Unhandled(KeySetUnavailable))
    ensures world.fetch(KeySetUrl).Some? && world.unverifiedHeader(token).None? ==>
      r == Err(Unhandled(TokenHeaderUnreadable))
    ensures NamesKid(token, world) ==>
      var jwks := world.fetch(KeySetUrl).value;
      && (!jwks.JObj? ==> r == Err(Unhandled(KeySetNotObject)))
      && (jwks.JObj? && "keys" !in jwks.fields ==> r == Err(Unhandled(KeySetWithoutKeys)))
      && (jwks.JObj? && "keys" in jwks.fields ==>
            var listed := jwks.fields["keys"];
            && (listed.JNull? || listed.JBool? || listed.JNum? ==> r == Err(Unhandled(KeysNotIterable)))
            && ((listed.JStr? && |listed.s| > 0) || (listed.JObj? && |listed.fields| > 0) ==>
                  r == Err(Unhandled(KeyNotSubscriptable)))
            && ((listed.JStr? && |listed.s| == 0) || (listed.JObj? && |listed.fields| == 0) ==>
                  r == Err(Abort(KeyNotFound))))
    ensures (Reaches(token, world) &&
             exists i :: 0 <= i < |KeysOf(token, world)| && Faulty(KeysOf(token, world)[i], KidOf(token, world)))
      ==> exists i :: && FirstFault(KeysOf(token, world), KidOf(token, world), i)
                      && r == Err(Unhandled(FaultOf(KeysOf(token, world)[i])))
    ensures r.Err? && r.fail.Abort? ==> r.fail.error.code in {InvalidHeader, TokenExpired, InvalidClaims}
  {
    match world.fetch(KeySetUrl)
    case None => Err(Unhandled(KeySetUnavailable))
    case Some(jwks) =>
      match world.unverifiedHeader(token)
      case None => Err(Unhandled(TokenHeaderUnreadable))
      case Some(header) =>
        if "kid" !in header then Err(Abort(HeaderMalformed))
        else
          var keys :- KeyEntries(jwks);
          match SelectKey(keys, header["kid"])
          case Err(f) => Err(f)
          case Ok(None) => Err(Abort(KeyNotFound))
          case Ok(Some(key)) => ClassifyDecode(world.decode(RequestFor(token, key)))
  }

  /** Every failure of the decoder is caught: classifying never lets an
      exception escape, and distinct outcomes stay distinct. */
  lemma ClassifyDecodeInjective(o1: DecodeOutcome, o2: DecodeOutcome)
    ensures !(ClassifyDecode(o1).Err? && ClassifyDecode(o1).fail.Unhandled?)
    ensures ClassifyDecode(o1) == ClassifyDecode(o2) ==> o1 == o2
  {
  }

  /** The key-set document and the token header are readable, and the
      header names a key id. */
  predicate NamesKid(token: string, world: World)
  {
    && world.fetch(KeySetUrl).Some?
    && world.unverifiedHeader(token).Some?
    && "kid" in world.unverifiedHeader(token).value
  }

  /** Moreover, the loop over the document's "keys" starts. */
  predicate Reaches(token: string, world: World)
  {
    NamesKid(token, world) && KeyEntries(world.fetch(KeySetUrl).value).Ok?
  }

  /** The key set's entries, once `Reaches` holds. */
  function KeysOf(token: string, world: World): seq<Json>
    requires Reaches(token, world)
  {
    KeyEntries(world.fetch(KeySetUrl).value).value
  }

  /** The token header's key id, once `Reaches` holds. */
  function KidOf(token: string, world: World): string
    requires Reaches(token, world)
  {
    world.unverifiedHeader(token).value["kid"]
  }

  /** A token header without "kid" is `invalid_header`/401, whatever the key
      set holds and whatever the decoder would say. */
  lemma MissingKidRejected(token: string, world: World, decode: DecodeRequest -> DecodeOutcome)
    requires world.fetch(KeySetUrl).Some?
    requires world.unverifiedHeader(token).Some? && "kid" !in world.unverifiedHeader(token).value
    ensures VerifyDecode(token, world.(decode := decode)) == Err(Abort(HeaderMalformed))
    ensures AbortsWith(VerifyDecode(token, world), InvalidHeader, 401)
  {
  }

  /** No matching key means `invalid_header`/400 and no decode at all: the
      result is the same whatever the decoder would have answered, so there
      is no path that accepts a token without a key from the set. */
  lemma UnknownKeyRejected(token: string, world: World, decode: DecodeRequest -> DecodeOutcome)
    requires Reaches(token, world)
    requires forall i :: 0 <= i < |KeysOf(token, world)| ==> !Faulty(KeysOf(token, world)[i], KidOf(token, world))
    requires forall i :: 0 <= i < |KeysOf(token, world)| ==> !Matches(KeysOf(token, world)[i], KidOf(token, world))
    ensures VerifyDecode(token, world.(decode := decode)) == Err(Abort(KeyNotFound))
    ensures AbortsWith(VerifyDecode(token, world), InvalidHeader, 400)
  {
    SelectKeySpec(KeysOf(token, world), KidOf(token, world));
  }

  /** With a matching key, the outcome is the decoder's answer for the last
      matching entry, asked with algorithm "RS256", audience "my-blog" and
      the tenant's issuer URL with its trailing slash. */
  lemma DecodeRequestFixed(token: string, world: World, j: nat)
    requires Reaches(token, world)
    requires forall i :: 0 <= i < |KeysOf(token, world)| ==> !Faulty(KeysOf(token, world)[i], KidOf(token, world))
    requires LastMatch(KeysOf(token, world), KidOf(token, world), j)
    ensures ToRsaKey(KeysOf(token, world)[j].fields).Some?
    ensures Issuer[|Issuer| - 1] == '/'
    ensures VerifyDecode(token, world) == ClassifyDecode(world.decode(DecodeRequest(
      token, ToRsaKey(KeysOf(token, world)[j].fields).value,
      ["RS256"], "my-blog", "https://dev-u87omsusx1w1jtso.us.auth0.com/")))
  {
    var keys, kid := KeysOf(token, world), KidOf(token, world);
    SelectKeySpec(keys, kid);
    var key := ToRsaKey(keys[j].fields).value;
    assert SelectKey(keys, kid) == Ok(Some(key));
    assert VerifyDecode(token, world) == ClassifyDecode(world.decode(RequestFor(token, key)));
    ConfigurationLiterals();
    assert RequestFor(token, key) ==
      DecodeRequest(token, key, ["RS256"], "my-blog", "https://dev-u87omsusx1w1jtso.us.auth0.com/");
  }

  /** Verification succeeds exactly when the decoder accepts with the
      chosen key, and then it returns the decoder's payload unchanged. */
  lemma VerifyOkIffDecoded(token: string, world: World)
    ensures VerifyDecode(token, world).Ok? <==>
      && Reaches(token, world)
      && SelectKey(KeysOf(token, world), KidOf(token, world)).Ok?
      && SelectKey(KeysOf(token, world), KidOf(token, world)).value.Some?
      && world.decode(RequestFor(token, SelectKey(KeysOf(token, world), KidOf(token, world)).value.value)).Decoded?
    ensures VerifyDecode(token, world).Ok? ==>
      VerifyDecode(token, world).value ==
        world.decode(RequestFor(token, SelectKey(KeysOf(token, world), KidOf(token, world)).value.value)).payload
  {
  }
}
