/** Bearer-token extraction from the `Authorization` request header
    (`get_token_auth_header`): the "Bearer" scheme of section 2.1 of
    RFC 6750, as the source checks it. */
module BearerHeader {
  import opened Options
  import opened AuthErrors
  import Text

  /** The scheme name, compared after lower-casing. */
  const Scheme := "bearer"

  /** The checks that follow the unpack `bearer, token = auth_parts`, given
      the two unpacked parts and the number of parts the header split into:
      the scheme test, then the two length tests, then the token. */
  function CheckParts(bearer: string, token: string, partCount: nat): (r: Result<string>)
    requires partCount >= 1 // `str.split` never returns an empty list
    ensures r.Ok? <==> Text.Lower(bearer) == Scheme && partCount == 2
    ensures r.Ok? ==> r.value == token
    ensures r.Err? ==> AbortsWith(r, InvalidHeader, 401)
  {
    if Text.Lower(bearer) != Scheme then Err(Abort(NotBearer))
    else if partCount == 1 then Err(Abort(TokenNotFound))
    else if partCount > 2 then Err(Abort(NotBearerToken))
    else Ok(token)
  }

  /** `get_token_auth_header` on the header's value (`None` when the request
      has no `Authorization` header).  The header is split on every single
      space; unpacking the parts into two names raises `ValueError` unless
      there are exactly two, so that failure comes before the length tests. */
  function ExtractToken(auth: Option<string>): (r: Result<string>)
    ensures auth.None? <==> r == Err(Abort(MissingHeader))
    ensures r.Ok? ==> ' ' !in r.value
    ensures r.Err? && r.fail.Unhandled? <==> auth.Some? && Text.Occurrences(auth.value, ' ') != 1
  {
    match auth
    case None => Err(Abort(MissingHeader))
    case Some(value) =>
      var parts := Text.Split(value, ' ');
      if |parts| != 2 then Err(Unhandled(HeaderUnpack))
      else CheckParts(parts[0], parts[1], |parts|)
  }

  /** A header with exactly one space: `Bearer <token>` in any letter case
      yields the token byte for byte, any other scheme is `invalid_header`/401. */
  lemma ExtractTwoParts(scheme: string, token: string)
    requires ' ' !in scheme && ' ' !in token
    ensures Text.Lower(scheme) == Scheme ==> ExtractToken(Some(scheme + " " + token)) == Ok(token)
    ensures Text.Lower(scheme) != Scheme ==> ExtractToken(Some(scheme + " " + token)) == Err(Abort(NotBearer))
  {
    Text.SplitJoin([scheme, token], ' ');
    assert Text.Join([scheme, token], ' ') == scheme + " " + token;
  }

  /** Extraction succeeds exactly when the header holds a single space with
      a case-insensitive "bearer" before it, and then it returns everything
      after that space. */
  lemma ExtractTokenSpec(value: string)
    ensures ExtractToken(Some(value)).Ok? <==>
      exists i :: Text.SplitsAt(value, ' ', i) && Text.Lower(value[..i]) == Scheme
    ensures forall i :: Text.SplitsAt(value, ' ', i) && Text.Lower(value[..i]) == Scheme ==>
      ExtractToken(Some(value)) == Ok(value[i + 1..])
  {
    Text.SplitInTwo(value, ' ');
  }

  /** The length tests after the scheme test are dead code: the unpack has
      already rejected every header that does not split into two parts, so
      "Token not found." and "... must be bearer token." are never raised. */
  lemma LengthChecksUnreachable(auth: Option<string>)
    ensures ExtractToken(auth) != Err(Abort(TokenNotFound))
    ensures ExtractToken(auth) != Err(Abort(NotBearerToken))
  {
  }

  /** A header without a space ("Bearertoken") or with two adjacent spaces
      never yields a token; the failure is the unpack's `ValueError`, not an
      `AuthError`. */
  lemma ExtractRejectsOtherPartCounts(value: string)
    requires Text.Occurrences(value, ' ') != 1
    ensures ExtractToken(Some(value)) == Err(Unhandled(HeaderUnpack))
  {
  }
}

/** The extractor's result on concrete headers. */
module HeaderExamples {
  import opened Options
  import opened AuthErrors
  import opened BearerHeader
  import Text

  /** "Bearertoken" has no space: one part, so the unpack fails. */
  lemma GluedHeaderFails()
    ensures ExtractToken(Some("Bearertoken")) == Err(Unhandled(HeaderUnpack))
  {
    var glued := "Bearertoken";
    assert ' ' !in glued;
    Text.SplitWhole(glued, ' ');
  }

  /** "Bearer  abc" has two adjacent spaces: three parts, so the unpack fails. */
  lemma DoubleSpaceHeaderFails()
    ensures ExtractToken(Some("Bearer  abc")) == Err(Unhandled(HeaderUnpack))
  {
    var doubled, tail := "Bearer  abc", " abc";
    assert ' ' !in "Bearer";
    assert doubled == "Bearer" + [' '] + tail;
    Text.SplitCons("Bearer", tail, ' ');
    assert Text.Occurrences(tail, ' ') >= 1;
    assert |Text.Split(doubled, ' ')| != 2;
  }

  /** The scheme in upper case is accepted and the token returned as is. */
  lemma UpperCaseSchemeAccepted()
    ensures ExtractToken(Some("BEARER abc.def.ghi")) == Ok("abc.def.ghi")
  {
    var upper, token := "BEARER", "abc.def.ghi";
    assert ' ' !in upper && ' ' !in token;
    Text.LowerIsBearer(upper);
    ExtractTwoParts(upper, token);
    assert upper + " " + token == "BEARER abc.def.ghi";
  }

  /** Another scheme with a single space is `invalid_header`/401. */
  lemma OtherSchemeRejected()
    ensures ExtractToken(Some("Basic abc")) == Err(Abort(NotBearer))
  {
    var basic, credential := "Basic", "abc";
    assert ' ' !in basic && ' ' !in credential;
    Text.LowerIsBearer(basic);
    ExtractTwoParts(basic, credential);
    assert basic + " " + credential == "Basic abc";
  }
}
