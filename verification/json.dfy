/** Decoded JSON values, as `json.loads` and the token library hand them to
    Python, and Python's `in` operator on them. */
module Json {
  import opened Options
  import opened AuthErrors

  /** A JSON value.  Numbers are modelled as integers. */
  datatype Json =
    | JNull
    | JBool(b: bool)
    | JNum(n: int)
    | JStr(s: string)
    | JArr(items: seq<Json>)
    | JObj(fields: map<string, Json>)

  /** A verified token payload: claim name to claim value. */
  type Claims = map<string, Json>

  /** `needle` occurs in `hay` as a contiguous substring. */
  predicate IsSubstring(needle: string, hay: string)
  {
    exists i :: 0 <= i <= |hay| && needle <= hay[i..]
  }

  /** Python's `item in container` for a string `item`: list membership by
      `==` (a string equals only an equal string), substring for a string,
      key membership for an object; anything else raises `TypeError`,
      modelled as `None`. */
  function Contains(container: Json, item: string): (r: Option<bool>)
    ensures r.None? <==> container.JNull? || container.JBool? || container.JNum?
    ensures container.JArr? ==> r == Some(exists i :: 0 <= i < |container.items| && container.items[i] == JStr(item))
  {
    match container
    case JArr(items) => Some(JStr(item) in items)
    case JStr(s) => Some(IsSubstring(item, s))
    case JObj(fields) => Some(item in fields)
    case _ => None
  }

  /** The empty string is a substring of every string, so against a
      string-valued claim an empty `item` is always found. */
  lemma EmptyIsSubstring(hay: string)
    ensures IsSubstring("", hay)
  {
    assert "" <= hay[0..];
  }
}
