/** Lists without repetition. */
module Sequences {

  ghost predicate Distinct<T>(s: seq<T>)
  {
    forall i, j :: 0 <= i < j < |s| ==> s[i] != s[j]
  }

  /** daeCommon.Deduplicate, a library function: each element once, where it first occurs. */
  function Deduplicate(s: seq<string>): (r: seq<string>)
    ensures Distinct(r) && forall x :: x in r <==> x in s
  {
    if s == [] then []
    else
      var n := |s| - 1;
      var front := Deduplicate(s[..n]);
      assert forall x :: x in s <==> x in s[..n] || x == s[n];
      if s[n] in front then front else front + [s[n]]
  }

  /** A new element goes behind the others; one that was there changes nothing. */
  lemma DeduplicateInOrder(s: seq<string>, x: string)
    ensures Deduplicate([]) == []
    ensures Deduplicate(s + [x]) == if x in s then Deduplicate(s) else Deduplicate(s) + [x]
  {
    assert (s + [x])[..|s|] == s;
  }
}
