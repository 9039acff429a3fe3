/** How many numbers below a bound have a property. */
module Counting {
  ghost function Among(n: nat, p: nat -> bool): set<nat> {
    set i: nat | i < n && p(i)
  }

  lemma AmongStep(n: nat, p: nat -> bool)
    ensures |Among(n + 1, p)| == |Among(n, p)| + if p(n) then 1 else 0
  {
    assert Among(n + 1, p) == Among(n, p) + if p(n) then {n} else {};
  }

  lemma AmongNone(p: nat -> bool)
    ensures |Among(0, p)| == 0
  {
    assert Among(0, p) == {};
  }
}
