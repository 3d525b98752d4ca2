module Finite {
  lemma {:induction false} AtMostSoMany(n: nat, s: set<nat>)
    requires forall k :: k in s ==> k < n
    ensures |s| <= n
  {
    if n == 0 {
      assert s == {};
    } else {
      AtMostSoMany(n - 1, s - {n - 1});
    }
  }
}
