/** Choosing the signing key: the loop of `verify_decode_jwt` that matches
    the token header's "kid" (section 4.1.4 of RFC 7515) against the entries
    of the key set's "keys" list (section 5 of RFC 7517). */
module KeySelection {
  import opened Options
  import opened AuthErrors
  import opened Json

  /** The key handed to the decoder: the five members copied from the entry. */
  datatype RsaKey = RsaKey(kty: Json, kid: Json, use: Json, n: Json, e: Json)

  /** The copy `{"kty": key["kty"], ..., "e": key["e"]}` of a key entry's
      members; `None` when a member is missing and the subscript raises
      `KeyError`. */
  function ToRsaKey(key: map<string, Json>): (r: Option<RsaKey>)
    ensures r.Some? <==> "kty" in key && "kid" in key && "use" in key && "n" in key && "e" in key
    ensures r.Some? ==>
      && r.value.kty == key["kty"] && r.value.kid == key["kid"] && r.value.use == key["use"]
      && r.value.n == key["n"] && r.value.e == key["e"]
  {
    if "kty" in key && "kid" in key && "use" in key && "n" in key && "e" in key then
      Some(RsaKey(key["kty"], key["kid"], key["use"], key["n"], key["e"]))
    else
      None
  }

  /** The entry is an object whose "kid" equals the wanted key id.  A JSON
      value equals a Python string only when it is that same string. */
  predicate Matches(entry: Json, kid: string)
  {
    entry.JObj? && "kid" in entry.fields && entry.fields["kid"] == JStr(kid)
  }

  /** Visiting the entry raises: it is not an object (`TypeError` from
      `key["kid"]`), it has no "kid" (`KeyError`), or it matches but lacks
      one of the members copied from it (`KeyError`). */
  predicate Faulty(entry: Json, kid: string)
  {
    !entry.JObj? || "kid" !in entry.fields || (Matches(entry, kid) && ToRsaKey(entry.fields).None?)
  }

  /** The exception a faulty entry raises. */
  function FaultOf(entry: Json): Exc
  {
    if entry.JObj? then KeyFieldMissing else KeyNotSubscriptable
  }

  /** `i` is the first index whose entry is faulty. */
  predicate FirstFault(keys: seq<Json>, kid: string, i: int)
  {
    && 0 <= i < |keys|
    && Faulty(keys[i], kid)
    && forall k :: 0 <= k < i ==> !Faulty(keys[k], kid)
  }

  /** `j` is the last index whose entry matches `kid`. */
  predicate LastMatch(keys: seq<Json>, kid: string, j: int)
  {
    && 0 <= j < |keys|
    && Matches(keys[j], kid)
    && forall k :: j < k < |keys| ==> !Matches(keys[k], kid)
  }

  /** The loop from the current entry on, with `chosen` the key copied so
      far.  Every entry is visited: there is no `break`, so a later match
      overwrites an earlier one, and a faulty entry anywhere stops the loop. */
  function SelectFrom(keys: seq<Json>, kid: string, chosen: Option<RsaKey>): Result<Option<RsaKey>>
    decreases |keys|
  {
    if |keys| == 0 then Ok(chosen)
    else
      match keys[0]
      case JObj(key) =>
        if "kid" !in key then Err(Unhandled(KeyFieldMissing))
        else if key["kid"] == JStr(kid) then
          match ToRsaKey(key)
          case None => Err(Unhandled(KeyFieldMissing))
          case Some(copy) => SelectFrom(keys[1..], kid, Some(copy))
        else
          SelectFrom(keys[1..], kid, chosen)
      case _ => Err(Unhandled(KeyNotSubscriptable))
  }

  /** The loop's outcome in terms of the entries: it fails exactly when an
      entry is faulty, with the exception of the first faulty entry; it
      keeps `chosen` when nothing matches, and otherwise ends with the copy
      of the last matching entry. */
  lemma {:induction false} SelectFromSpec(keys: seq<Json>, kid: string, chosen: Option<RsaKey>)
    ensures SelectFrom(keys, kid, chosen).Err? <==> exists i :: 0 <= i < |keys| && Faulty(keys[i], kid)
    ensures SelectFrom(keys, kid, chosen).Err? ==>
      exists i :: FirstFault(keys, kid, i) && SelectFrom(keys, kid, chosen).fail == Unhandled(FaultOf(keys[i]))
    ensures SelectFrom(keys, kid, chosen).Ok? && (forall i :: 0 <= i < |keys| ==> !Matches(keys[i], kid)) ==>
      SelectFrom(keys, kid, chosen).value == chosen
    ensures SelectFrom(keys, kid, chosen).Ok? && (exists i :: 0 <= i < |keys| && Matches(keys[i], kid)) ==>
      exists j :: LastMatch(keys, kid, j) && SelectFrom(keys, kid, chosen).value == ToRsaKey(keys[j].fields)
    decreases |keys|
  {
    if |keys| > 0 {
      var key, tail := keys[0], keys[1..];
      assert forall i :: 1 <= i < |keys| ==> keys[i] == tail[i - 1];
      var next := if Matches(key, kid) then ToRsaKey(key.fields) else chosen;
      SelectFromSpec(tail, kid, next);
      var r := SelectFrom(keys, kid, chosen);
      if Faulty(key, kid) {
        assert FirstFault(keys, kid, 0);
      } else {
        assert r == SelectFrom(tail, kid, next);
        if r.Err? {
          var i :| FirstFault(tail, kid, i) && r.fail == Unhandled(FaultOf(tail[i]));
          assert FirstFault(keys, kid, i + 1);
        }
        if r.Ok? && exists i :: 0 <= i < |tail| && Matches(tail[i], kid) {
          var j :| LastMatch(tail, kid, j) && r.value == ToRsaKey(tail[j].fields);
          assert LastMatch(keys, kid, j + 1);
        } else if r.Ok? && Matches(key, kid) {
          assert LastMatch(keys, kid, 0);
        }
      }
    }
  }

  /** The loop `for key in jwks["keys"]` starting from `rsa_key = {}`. */
  function SelectKey(keys: seq<Json>, kid: string): (r: Result<Option<RsaKey>>)
    ensures r.Err? <==> exists i :: 0 <= i < |keys| && Faulty(keys[i], kid)
    ensures r.Err? ==> exists i :: FirstFault(keys, kid, i) && r.fail == Unhandled(FaultOf(keys[i]))
    ensures r.Ok? && r.value.Some? ==> r.value.value.kid == JStr(kid)
    ensures r.Ok? && r.value.Some? ==> exists j :: LastMatch(keys, kid, j) && r.value == ToRsaKey(keys[j].fields)
  {
    SelectFromSpec(keys, kid, None);
    SelectFrom(keys, kid, None)
  }

  /** Key selection as a whole: it fails exactly when some entry is faulty;
      otherwise it finds nothing exactly when no entry matches, and when one
      does, the key is the last matching entry copied member for member. */
  lemma SelectKeySpec(keys: seq<Json>, kid: string)
    ensures SelectKey(keys, kid).Err? <==> exists i :: 0 <= i < |keys| && Faulty(keys[i], kid)
    ensures SelectKey(keys, kid) == Ok(None) <==>
      && (forall i :: 0 <= i < |keys| ==> !Faulty(keys[i], kid))
      && (forall i :: 0 <= i < |keys| ==> !Matches(keys[i], kid))
    ensures forall j :: SelectKey(keys, kid).Ok? && LastMatch(keys, kid, j) ==>
      && SelectKey(keys, kid).value.Some?
      && Some(SelectKey(keys, kid).value.value) == ToRsaKey(keys[j].fields)
      && SelectKey(keys, kid).value.value.kid == JStr(kid)
  {
    SelectFromSpec(keys, kid, None);
    var r := SelectKey(keys, kid);
    forall j | r.Ok? && LastMatch(keys, kid, j)
      ensures r.value.Some? && Some(r.value.value) == ToRsaKey(keys[j].fields) && r.value.value.kid == JStr(kid)
    {
      var j' :| LastMatch(keys, kid, j') && r.value == ToRsaKey(keys[j'].fields);
      assert j == j';
      assert !Faulty(keys[j], kid);
    }
    if r.Ok? && exists i :: 0 <= i < |keys| && Matches(keys[i], kid) {
      var j :| LastMatch(keys, kid, j) && r.value == ToRsaKey(keys[j].fields);
      assert !Faulty(keys[j], kid);
    }
  }
}
