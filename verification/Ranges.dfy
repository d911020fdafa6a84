/** Finite intervals of naturals and counting arguments over them. */
module Ranges {

  function Range(lo: nat, hi: nat): (r: set<nat>)
    ensures forall k :: k in r <==> lo <= k < hi
    decreases hi
  {
    if hi <= lo then {} else Range(lo, hi - 1) + {hi - 1}
  }

  lemma {:induction false} RangeSize(lo: nat, hi: nat)
    requires lo <= hi
    ensures |Range(lo, hi)| == hi - lo
    decreases hi
  {
    if lo < hi {
      RangeSize(lo, hi - 1);
    }
  }

  lemma {:induction false} SubsetSize<T>(a: set<T>, b: set<T>)
    requires a <= b
    ensures |a| <= |b|
    ensures |a| == |b| ==> a == b
  {
    if a != {} {
      var x :| x in a;
      SubsetSize(a - {x}, b - {x});
    }
  }

  /**
   Of the tickets drawn so far those from `since` on are all still inside. If as many have
   left as had been drawn before `since`, then it is exactly the earlier ones that left.
   */
  lemma EarlierOnesLeft(inside: set<nat>, since: nat, drawn: nat)
    requires since <= drawn && Range(since, drawn) <= inside <= Range(0, drawn)
    requires drawn - |inside| == since
    ensures inside == Range(since, drawn)
  {
    RangeSize(since, drawn);
    SubsetSize(Range(since, drawn), inside);
  }
}
