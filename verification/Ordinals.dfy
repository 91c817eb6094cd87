/** The "largest number taken, plus one" rule that numbers steps, hops, messages and summaries. */
module Ordinals {

  function MaxTaken(taken: seq<nat>): (m: nat)
    ensures forall i :: 0 <= i < |taken| ==> taken[i] <= m
    ensures m == 0 || m in taken
  {
    if taken == [] then 0
    else
      var rest := MaxTaken(taken[..|taken| - 1]);
      if rest < taken[|taken| - 1] then taken[|taken| - 1] else rest
  }

  function NextOrdinal(taken: seq<nat>): nat {
    MaxTaken(taken) + 1
  }

  ghost predicate CountsFromOne(taken: seq<nat>) {
    forall i :: 0 <= i < |taken| ==> taken[i] == i + 1
  }

  /** Numbers handed out by this rule are 1, 2, 3, ... without a gap. */
  lemma {:induction false} NextOrdinalKeepsCount(taken: seq<nat>)
    requires CountsFromOne(taken)
    ensures NextOrdinal(taken) == |taken| + 1
    ensures CountsFromOne(taken + [NextOrdinal(taken)])
  {
    if taken != [] {
      assert taken[|taken| - 1] == |taken|;
    }
  }
}
