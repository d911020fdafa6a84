/**
 How a Lua table chooses the size of its array part (`computesizes` and the counting functions of
 `ltable.c`): the largest power of two such that more than half of the indices up to it are in use.
 */
module LuaSizes {
  import opened Arith
  import opened LuaNodes
  import opened Ranges

  const MAXBITS: nat := 26
  const MAXASIZE: nat := Pow2(MAXBITS)

  predicate InRange(k: Key, n: nat) { k.Number? && 1 <= k.n <= n }

  /** A key that could live in the array part. */
  predicate Candidate(k: Key) { InRange(k, MAXASIZE) }

  /** The keys of `s` from 1 to `n`. */
  function Below(s: set<Key>, n: nat): set<Key> { set k | k in s && InRange(k, n) }

  predicate InSlice(k: Key, i: nat) { Candidate(k) && CeilLog2(k.n) == i }

  /** The keys of `s` above `2^(i-1)` and up to `2^i`. */
  function Slice(s: set<Key>, i: nat): set<Key> { set k | k in s && InSlice(k, i) }

  /** `nums` counts the candidates of `s` slice by slice. */
  predicate Counts(nums: seq<nat>, s: set<Key>) {
    |nums| == MAXBITS + 1 && forall i :: 0 <= i <= MAXBITS ==> nums[i] == |Slice(s, i)|
  }

  /** `n` is zero or a power of two more than half in use, and no larger power of two is. */
  predicate HalfUsed(s: set<Key>, l: nat) { 2 * |Below(s, Pow2(l))| > Pow2(l) }

  ghost predicate Best(s: set<Key>, n: nat) {
    && (n == 0 || exists l :: 0 <= l <= MAXBITS && n == Pow2(l) && HalfUsed(s, l))
    && forall l: nat :: Pow2(l) > n ==> !HalfUsed(s, l)
  }

  // ---------------------------------------------------------------- facts about slices

  lemma {:induction false} BelowBounded(s: set<Key>, n: nat)
    ensures |Below(s, n)| <= n
  {
    if n == 0 {
      assert Below(s, 0) == {};
    } else {
      BelowBounded(s, n - 1);
      var rest := Below(s, n - 1);
      if Number(n) in s {
        assert Below(s, n) == rest + {Number(n)};
      } else {
        assert Below(s, n) == rest;
      }
    }
  }

  lemma Log2Unique(n: nat, i: nat)
    requires n >= 1
    ensures CeilLog2(n) <= i <==> n <= Pow2(i)
  {
    var r := CeilLog2(n);
    if i < r {
      Pow2Monotone(i, r - 1);
    } else {
      Pow2Monotone(r, i);
    }
  }

  lemma SliceAbove(s: set<Key>, i: nat)
    requires i <= MAXBITS
    ensures Below(s, Pow2(i)) == (if i == 0 then {} else Below(s, Pow2(i - 1))) + Slice(s, i)
    ensures i > 0 ==> Below(s, Pow2(i - 1)) !! Slice(s, i)
    ensures |Below(s, Pow2(i))| == (if i == 0 then 0 else |Below(s, Pow2(i - 1))|) + |Slice(s, i)|
  {
    hide Pow2, CeilLog2;
    Pow2Monotone(i, MAXBITS);
    var low := if i == 0 then {} else Below(s, Pow2(i - 1));
    forall k | k in s && k.Number? && k.n >= 1 ensures InRange(k, Pow2(i)) <==> k in low || InSlice(k, i) {
      Log2Unique(k.n, i);
      if i > 0 { Log2Unique(k.n, i - 1); }
      Log2Unique(k.n, MAXBITS);
    }
    assert Below(s, Pow2(i)) == low + Slice(s, i);
    forall k | k in low ensures k !in Slice(s, i) {
      Log2Unique(k.n, i - 1);
    }
  }

  lemma AllBelow(s: set<Key>, i: nat)
    requires (forall k <- s :: Candidate(k)) && i >= MAXBITS
    ensures Below(s, Pow2(i)) == s
  {
    hide Pow2;
    Pow2Monotone(MAXBITS, i);
  }

  lemma BelowPart(s: set<Key>, n: nat)
    ensures |Below(s, n)| <= |s|
  {
    SubsetSize(Below(s, n), s);
  }

  // ---------------------------------------------------------------- computesizes

  /** No larger size qualifies once the loop of `computesizes` has stopped. */
  lemma NothingBeyond(s: set<Key>, i: nat, l: nat)
    requires (forall k <- s :: Candidate(k)) && i <= l
    requires Pow2(i) / 2 >= |s| || (i > 0 && Below(s, Pow2(i - 1)) == s)
    ensures !HalfUsed(s, l)
  {
    BelowPart(s, Pow2(l));
    Pow2Monotone(i, l);
    if i > 0 && Below(s, Pow2(i - 1)) == s {
      BelowBounded(s, Pow2(i - 1));
    }
  }

  /** `n` is the best size among the powers of two below `2^i`. */
  ghost predicate BestBefore(s: set<Key>, n: nat, i: nat) {
    && (n == 0 || exists l :: 0 <= l < i && n == Pow2(l) && HalfUsed(s, l))
    && forall l :: 0 <= l < i && Pow2(l) > n ==> !HalfUsed(s, l)
  }

  lemma BestSoFar(s: set<Key>, n: nat, i: nat, n': nat)
    requires BestBefore(s, n, i) && n' == if HalfUsed(s, i) then Pow2(i) else n
    ensures BestBefore(s, n', i + 1)
  {
    forall l | 0 <= l < i ensures Pow2(l) < Pow2(i) { Pow2Monotone(l, i - 1); }
  }

  lemma BestAtLast(s: set<Key>, n: nat, i: nat)
    requires BestBefore(s, n, i) && (forall k <- s :: Candidate(k)) && i <= MAXBITS + 1
    requires Pow2(i) / 2 >= |s| || (i > 0 && Below(s, Pow2(i - 1)) == s)
    ensures Best(s, n) && n <= MAXASIZE
  {
    forall l: nat | Pow2(l) > n ensures !HalfUsed(s, l) {
      if l >= i { NothingBeyond(s, i, l); }
    }
    if n != 0 {
      var l :| 0 <= l < i && n == Pow2(l) && HalfUsed(s, l);
      Pow2Monotone(l, MAXBITS);
    }
  }

  method ComputeSizes(nums: array<nat>, narray: nat, ghost s: set<Key>) returns (n: nat, na: nat)
    requires Counts(nums[..], s) && narray == |s| && forall k <- s :: Candidate(k)
    ensures Best(s, n) && n <= MAXASIZE && na == |Below(s, n)|
  {
    hide HalfUsed, Slice, BestBefore, Best, Candidate;
    TooMany(s);
    var i, twotoi, a := 0, 1, 0;
    n, na := 0, 0;
    assert Below(s, 0) == {};
    assert BestBefore(s, 0, 0) by { NothingYet(s); }
    hide Below;
    while twotoi / 2 < narray
      invariant twotoi == Pow2(i) && i <= MAXBITS + 1
      invariant a == if i == 0 then 0 else |Below(s, Pow2(i - 1))|
      invariant na == |Below(s, n)| && BestBefore(s, n, i)
      decreases MAXBITS + 1 - i
    {
      SizeStep(s, i);
      ghost var n0 := n;
      if nums[i] > 0 {
        a := a + nums[i];
        if a > twotoi / 2 {
          n, na := twotoi, a;
        }
      }
      BestSoFar(s, n0, i, n);
      i, twotoi := i + 1, twotoi * 2;
      if a == narray {
        SubsetSize(Below(s, Pow2(i - 1)), s);
        break;
      }
    }
    BestAtLast(s, n, i);
  }

  lemma NothingYet(s: set<Key>)
    ensures BestBefore(s, 0, 0)
  {
  }

  lemma SizeStep(s: set<Key>, i: nat)
    requires i <= MAXBITS
    ensures |Below(s, Pow2(i))| == (if i == 0 then 0 else |Below(s, Pow2(i - 1))|) + |Slice(s, i)|
    ensures HalfUsed(s, i) <==> |Slice(s, i)| > 0 && |Below(s, Pow2(i))| > Pow2(i) / 2
    ensures Below(s, Pow2(i)) <= s
  {
    SliceAbove(s, i);
    if i > 0 { BelowBounded(s, Pow2(i - 1)); }
  }

  lemma TooMany(s: set<Key>)
    requires forall k <- s :: Candidate(k)
    ensures Pow2(MAXBITS + 1) / 2 >= |s|
  {
    AllBelow(s, MAXBITS);
    BelowBounded(s, Pow2(MAXBITS));
  }

  // ---------------------------------------------------------------- counting keys

  /** One more key adds one to its own slice. */
  lemma SliceAdd(s: set<Key>, k: Key, i: nat)
    requires k !in s
    ensures |Slice(s + {k}, i)| == |Slice(s, i)| + if InSlice(k, i) then 1 else 0
  {
    if InSlice(k, i) {
      assert Slice(s + {k}, i) == Slice(s, i) + {k};
    } else {
      assert Slice(s + {k}, i) == Slice(s, i);
    }
  }

  lemma BelowAdd(s: set<Key>, k: Key, n: nat)
    requires k !in s
    ensures |Below(s + {k}, n)| == |Below(s, n)| + if InRange(k, n) then 1 else 0
  {
    if InRange(k, n) {
      assert Below(s + {k}, n) == Below(s, n) + {k};
    } else {
      assert Below(s + {k}, n) == Below(s, n);
    }
  }

  lemma CandidatesCount(nums: seq<nat>, s: set<Key>)
    requires Counts(nums, s)
    ensures Counts(nums, Below(s, MAXASIZE))
  {
    forall i | 0 <= i <= MAXBITS ensures Slice(Below(s, MAXASIZE), i) == Slice(s, i) {}
  }

  lemma BelowBelow(s: set<Key>, n: nat)
    requires n <= MAXASIZE
    ensures Below(Below(s, MAXASIZE), n) == Below(s, n)
  {
  }

  /** `countint`. */
  method CountInt(key: Key, nums: array<nat>, ghost s: set<Key>) returns (c: nat)
    requires Counts(nums[..], s) && key !in s
    modifies nums
    ensures Counts(nums[..], s + {key}) && c == if Candidate(key) then 1 else 0
  {
    hide Slice, CeilLog2, Pow2;
    forall i: nat ensures |Slice(s + {key}, i)| == |Slice(s, i)| + if InSlice(key, i) then 1
      else 0 { SliceAdd(s, key, i); }
    if Candidate(key) {
      Log2Unique(key.n, MAXBITS);
      var l := CeilLog2(key.n);
      nums[l] := nums[l] + 1;
      c := 1;
    } else {
      c := 0;
    }
  }
}
