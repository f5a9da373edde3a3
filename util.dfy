/** `util::trim_space`: strip JSON whitespace from both ends of a token; and
    the sequence reversal shared by the breadcrumb and the width generator. */
module Util {

  import opened JsonDoc

  /** The four whitespace characters of JSON (section 2 of RFC 8259). */
  predicate IsJsonSpace(c: char)
  {
    c == ' ' || c == '\t' || c == '\r' || c == '\n'
  }

  predicate AllSpace(s: string)
  {
    forall i :: 0 <= i < |s| ==> IsJsonSpace(s[i])
  }

  /** `find_last_not_of`: the position of the last non-whitespace character. */
  function FindLastNotSpace(s: string): (r: Option<nat>)
    ensures r.Some? ==> r.value < |s| && !IsJsonSpace(s[r.value]) && AllSpace(s[r.value + 1..])
    ensures r.None? ==> AllSpace(s)
  {
    if s == [] then None
    else if !IsJsonSpace(s[|s| - 1]) then Some(|s| - 1)
    else
      var r := FindLastNotSpace(s[..|s| - 1]);
      assert r.Some? ==> s[r.value + 1..] == s[..|s| - 1][r.value + 1..] + [s[|s| - 1]];
      assert r.None? ==> s == s[..|s| - 1] + [s[|s| - 1]];
      r
  }

  /** `find_first_not_of`: the position of the first non-whitespace character. */
  function FindFirstNotSpace(s: string): (r: Option<nat>)
    ensures r.Some? ==> r.value < |s| && !IsJsonSpace(s[r.value]) && AllSpace(s[..r.value])
    ensures r.None? ==> AllSpace(s)
  {
    if s == [] then None
    else if !IsJsonSpace(s[0]) then Some(0)
    else
      var r := FindFirstNotSpace(s[1..]);
      assert r.Some? ==> s[..r.value + 1] == [s[0]] + s[1..][..r.value];
      match r
      case Some(i) => Some(i + 1)
      case None => None
  }

  /** `trim_space`: first cut the suffix after the last non-whitespace
      character (everything, when there is none), then the prefix before the
      first non-whitespace character. The result is a slice of the input
      flanked by whitespace only, and it neither starts nor ends with
      whitespace. */
  function TrimSpace(s: string): (r: string)
    ensures exists i, j :: 0 <= i <= j <= |s| && r == s[i..j] && AllSpace(s[..i]) && AllSpace(s[j..])
    ensures r == [] || (!IsJsonSpace(r[0]) && !IsJsonSpace(r[|r| - 1]))
  {
    var head := match FindLastNotSpace(s) case Some(i) => s[..i + 1] case None => s[..0];
    match FindFirstNotSpace(head)
    case Some(j) =>
      assert s[j..|head|] == head[j..];
      head[j..]
    case None =>
      assert AllSpace(s[..0]) && s[0..0] == head;
      head
  }

  /** Input made only of the four whitespace characters, the empty input
      included, trims to the empty string, and nothing else does. */
  lemma TrimSpaceEmpty(s: string)
    ensures TrimSpace(s) == [] <==> AllSpace(s)
  {
    var r := TrimSpace(s);
    var i, j :| 0 <= i <= j <= |s| && r == s[i..j] && AllSpace(s[..i]) && AllSpace(s[j..]);
    if r == [] {
      assert i == j;
      forall k | 0 <= k < |s| ensures IsJsonSpace(s[k]) {
        if k < i { assert s[k] == s[..i][k]; } else { assert s[k] == s[j..][k - j]; }
      }
    } else {
      assert r[0] == s[i];
    }
  }

  /** A token that starts and ends with a non-whitespace character comes back
      unchanged, interior whitespace included. */
  lemma TrimSpaceKeeps(s: string)
    requires s != [] && !IsJsonSpace(s[0]) && !IsJsonSpace(s[|s| - 1])
    ensures TrimSpace(s) == s
  {
    assert FindLastNotSpace(s) == Some(|s| - 1);
    assert FindFirstNotSpace(s) == Some(0);
  }

  /** Trimming twice is trimming once. */
  lemma TrimSpaceIdempotent(s: string)
    ensures TrimSpace(TrimSpace(s)) == TrimSpace(s)
  {
    var r := TrimSpace(s);
    if r != [] {
      TrimSpaceKeeps(r);
    } else {
      TrimSpaceEmpty(r);
    }
  }

  /** A sequence read backwards (`std::reverse`, Python's `list.reverse`). */
  function Reverse<T>(s: seq<T>): (r: seq<T>)
    ensures |r| == |s| && forall i :: 0 <= i < |s| ==> r[i] == s[|s| - 1 - i]
  {
    seq(|s|, i requires 0 <= i < |s| => s[|s| - 1 - i])
  }

  /** Reversing twice gives the sequence back. */
  lemma ReverseReverse<T>(s: seq<T>)
    ensures Reverse(Reverse(s)) == s
  {
  }
}
