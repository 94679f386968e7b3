/** Python string operations the header check relies on: `str.split(sep)`
    with an explicit one-character separator, and `str.lower()`. */
module Text {

  /** Number of occurrences of `c` in `s`. */
  function Occurrences(s: string, c: char): nat
  {
    if |s| == 0 then 0
    else (if s[0] == c then 1 else 0) + Occurrences(s[1..], c)
  }

  /** The inverse of `Split`: the parts with `sep` between neighbours,
      like Python's `sep.join(parts)`. */
  function Join(parts: seq<string>, sep: char): string
  {
    if |parts| == 0 then ""
    else if |parts| == 1 then parts[0]
    else parts[0] + [sep] + Join(parts[1..], sep)
  }

  /** Python's `s.split(sep)` with an explicit separator: every occurrence
      of `sep` cuts, so adjacent separators yield empty parts and the empty
      string yields one empty part. */
  function Split(s: string, sep: char): (parts: seq<string>)
    ensures |parts| == Occurrences(s, sep) + 1
    ensures forall i :: 0 <= i < |parts| ==> sep !in parts[i]
    ensures Join(parts, sep) == s
  {
    if |s| == 0 then [""]
    else
      var rest := Split(s[1..], sep);
      if s[0] == sep then
        assert ([""] + rest)[1..] == rest;
        [""] + rest
      else
        var parts := [[s[0]] + rest[0]] + rest[1..];
        assert parts[1..] == rest[1..];
        assert |rest| > 1 ==> Join(rest, sep) == rest[0] + [sep] + Join(rest[1..], sep);
        assert s == [s[0]] + s[1..];
        parts
  }

  /** Splitting after a separator-free prefix peels that prefix off. */
  lemma {:induction false} SplitCons(a: string, b: string, sep: char)
    requires sep !in a
    ensures Split(a + [sep] + b, sep) == [a] + Split(b, sep)
    decreases |a|
  {
    if |a| == 0 {
      assert a + [sep] + b == [sep] + b;
      assert ([sep] + b)[1..] == b;
    } else {
      assert (a + [sep] + b)[1..] == a[1..] + [sep] + b;
      assert sep !in a[1..] by {
        forall k | 0 <= k < |a[1..]| ensures a[1..][k] != sep {
          assert a[1..][k] == a[k + 1];
        }
      }
      SplitCons(a[1..], b, sep);
      assert [a[0]] + a[1..] == a;
    }
  }

  /** A string without the separator is a single part. */
  lemma {:induction false} SplitWhole(s: string, sep: char)
    requires sep !in s
    ensures Split(s, sep) == [s]
    decreases |s|
  {
    if |s| > 0 {
      assert sep !in s[1..] by {
        forall k | 0 <= k < |s[1..]| ensures s[1..][k] != sep {
          assert s[1..][k] == s[k + 1];
        }
      }
      SplitWhole(s[1..], sep);
      assert [s[0]] + s[1..] == s;
    }
  }

  /** Round trip: splitting the join of separator-free parts gives the parts back. */
  lemma {:induction false} SplitJoin(parts: seq<string>, sep: char)
    requires |parts| >= 1
    requires forall i :: 0 <= i < |parts| ==> sep !in parts[i]
    ensures Split(Join(parts, sep), sep) == parts
    decreases |parts|
  {
    if |parts| == 1 {
      SplitWhole(parts[0], sep);
    } else {
      SplitJoin(parts[1..], sep);
      SplitCons(parts[0], Join(parts[1..], sep), sep);
      assert [parts[0]] + parts[1..] == parts;
    }
  }

  /** `s` has exactly one `sep`, at index `i`. */
  predicate SplitsAt(s: string, sep: char, i: int)
  {
    0 <= i < |s| && s[i] == sep && sep !in s[..i] && sep !in s[i + 1..]
  }

  /** `s.split(sep)` has two parts exactly when `s` holds a single `sep`,
      and the parts are what lies either side of it. */
  lemma SplitInTwo(s: string, sep: char)
    ensures |Split(s, sep)| == 2 <==> exists i :: SplitsAt(s, sep, i)
    ensures forall i :: SplitsAt(s, sep, i) ==> Split(s, sep) == [s[..i], s[i + 1..]]
  {
    forall i | SplitsAt(s, sep, i)
      ensures Split(s, sep) == [s[..i], s[i + 1..]]
    {
      assert s == s[..i] + [sep] + s[i + 1..];
      SplitCons(s[..i], s[i + 1..], sep);
      SplitWhole(s[i + 1..], sep);
    }
    var parts := Split(s, sep);
    if |parts| == 2 {
      var i := |parts[0]|;
      assert s == parts[0] + [sep] + parts[1];
      assert s[..i] == parts[0];
      assert s[i + 1..] == parts[1];
      assert SplitsAt(s, sep, i);
    }
  }

  /** `str.lower()` on one character, for the ASCII range. */
  function LowerChar(c: char): char
  {
    if 'A' <= c <= 'Z' then (c as int + 32) as char else c
  }

  /** `str.lower()`, for the ASCII range. */
  function Lower(s: string): (r: string)
    ensures |r| == |s|
    ensures forall i :: 0 <= i < |s| ==> r[i] == LowerChar(s[i])
  {
    if |s| == 0 then "" else [LowerChar(s[0])] + Lower(s[1..])
  }

  /** The characters that `LowerChar` sends to a lower-case ASCII letter. */
  lemma LowerCharTo(c: char, l: char)
    requires 'a' <= l <= 'z'
    ensures LowerChar(c) == l <==> c == l || c as int == l as int - 32
  {
  }

  /** Case-insensitive match: `s.lower() == "bearer"` holds exactly when
      every letter of `s` is the corresponding letter of "bearer" in
      either case. */
  lemma LowerIsBearer(s: string)
    ensures Lower(s) == "bearer" <==>
      |s| == 6 && forall i :: 0 <= i < 6 ==> s[i] == "bearer"[i] || s[i] == "BEARER"[i]
  {
    var lo, up := "bearer", "BEARER";
    if |s| == 6 {
      forall i | 0 <= i < 6
        ensures Lower(s)[i] == lo[i] <==> s[i] == lo[i] || s[i] == up[i]
      {
        LowerCharTo(s[i], lo[i]);
      }
      if forall i :: 0 <= i < 6 ==> s[i] == lo[i] || s[i] == up[i] {
        assert Lower(s) == lo;
      }
    }
  }
}
