/** Small datatypes and sequence helpers shared by every other module. */
module Wrappers {

  datatype Option<+T> = None | Some(value: T)

  /** The sum of a list, built up from the left as a loop would. */
  function Sum(s: seq<int>): int {
    if |s| == 0 then 0 else Sum(s[..|s| - 1]) + s[|s| - 1]
  }

  /** With the sum of nothing and of one number this makes it the sum. */
  lemma {:induction false} SumAdds(s: seq<int>, t: seq<int>, x: int)
    ensures Sum([]) == 0 && Sum([x]) == x
    ensures Sum(s + t) == Sum(s) + Sum(t)
  {
    assert Sum([x]) == Sum([]) + x;
    if t == [] {
      assert s + t == s;
    } else {
      assert (s + t)[..|s + t| - 1] == s + t[..|t| - 1];
      SumAdds(s, t[..|t| - 1], x);
    }
  }

  ghost predicate Distinct<T>(s: seq<T>) {
    forall i, j :: 0 <= i < j < |s| ==> s[i] != s[j]
  }
}
