/** Lists of numbers that hold each number once. */
module DistinctLists {
  predicate NoRepeats(s: seq<nat>) {
    s == [] || (s[0] !in s[1..] && NoRepeats(s[1..]))
  }

  lemma {:induction false} RepeatsSnoc(s: seq<nat>, x: nat)
    ensures NoRepeats(s) && x !in s ==> NoRepeats(s + [x])
  {
    if s == [] {
      assert s + [x] == [x];
    } else {
      assert (s + [x])[1..] == s[1..] + [x];
      RepeatsSnoc(s[1..], x);
    }
  }

  lemma {:induction false} SuffixRepeats(s: seq<nat>, i: nat)
    requires NoRepeats(s) && i < |s|
    ensures NoRepeats(s[i + 1..]) && s[i] !in s[i + 1..]
    decreases i
  {
    if i > 0 {
      SuffixRepeats(s[1..], i - 1);
      assert s[1..][i..] == s[i + 1..];
    }
  }
}
