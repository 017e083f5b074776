/** Small shared vocabulary: optional values and the maximum of a finite set of versions. */
module Wrappers {

  datatype Option<+T> = None | Some(value: T)

  /** The largest member of a set of versions, 0 for the empty set. */
  ghost function MaxOf(s: set<nat>): (m: nat)
    ensures forall x :: x in s ==> x <= m
    ensures if s == {} then m == 0 else m in s
  {
    if s == {} then 0
    else
      var x :| x in s;
      var rest := MaxOf(s - {x});
      assert s == {x} + (s - {x});
      if x > rest then x else rest
  }

  lemma MaxOfIs(s: set<nat>, m: nat)
    requires m == 0 || m in s
    requires forall x :: x in s ==> x <= m
    ensures MaxOf(s) == m
  {
  }
}
