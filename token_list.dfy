/**
 * A class list as the browser keeps it: an ordered list of distinct tokens.
 * `Remove` drops a token wherever it is; `Add` appends a token that is not
 * there yet and leaves the list alone otherwise.
 */
module TokenList {

  predicate Distinct(s: seq<string>)
  {
    forall i, j :: 0 <= i < j < |s| ==> s[i] != s[j]
  }

  /** `classList.remove(t)`. */
  function Remove(s: seq<string>, t: string): (r: seq<string>)
    ensures forall c :: c in r <==> c in s && c != t
    ensures |r| <= |s|
    ensures Distinct(s) ==> Distinct(r)
    ensures t !in s ==> r == s
  {
    if s == [] then []
    else
      var init, last := s[..|s| - 1], s[|s| - 1];
      assert s == init + [last];
      var r := Remove(init, t);
      if last == t then r
      else
        assert Distinct(s) ==> last !in init && last !in r;
        DistinctSnoc(r, last);
        r + [last]
  }

  /** A distinct list stays distinct when a token it lacks is appended. */
  lemma DistinctSnoc(s: seq<string>, x: string)
    ensures Distinct(s) && x !in s ==> Distinct(s + [x])
  {
  }

  /** `classList.add(t)`. */
  function Add(s: seq<string>, t: string): (r: seq<string>)
    ensures forall c :: c in r <==> c in s || c == t
    ensures |s| <= |r| <= |s| + 1 && r[..|s|] == s
    ensures Distinct(s) ==> Distinct(r)
    ensures t in s ==> r == s
  {
    if t in s then s else DistinctSnoc(s, t); s + [t]
  }

  /** Removing a token from a list with one more token at the end. */
  lemma RemoveAppend(s: seq<string>, x: string, t: string)
    ensures Remove(s + [x], t) == if x == t then Remove(s, t) else Remove(s, t) + [x]
  {
    assert (s + [x])[..|s|] == s;
  }
}
