/**
 Lua tables (`ltable.c`): an array part and a hash part that together hold one finite map.

 An empty `node` stands for the shared dummy node. The vectors are values that the methods reassign.
 Keys are never removed from the hash part between two rehashes; setting a value to nil leaves them.
 */
module LuaTable {
  import opened Arith
  import opened LuaNodes
  import opened LuaSizes
  import opened Ranges

  /** The cell a pointer returned by `luaH_set` points to. */
  datatype Ref = InArray(i: nat) | InNode(i: nat)

  function ArrayLive(arr: seq<Value>): map<Key, nat> {
    if arr == [] then map[] else
    var m, x := ArrayLive(arr[..|arr| - 1]), arr[|arr| - 1];
    if x == Nil then m else m[Number(|arr|) := x.v]
  }

  lemma {:induction false} ArrayLiveAt(arr: seq<Value>, k: Key)
    ensures k in ArrayLive(arr) <==> InRange(k, |arr|) && arr[k.n - 1] != Nil
    ensures k in ArrayLive(arr) ==> Val(ArrayLive(arr)[k]) == arr[k.n - 1]
  {
    if arr != [] {
      ArrayLiveAt(arr[..|arr| - 1], k);
    }
  }

  lemma ArrayStore(arr: seq<Value>, i: nat, v: Value)
    requires i < |arr|
    ensures ArrayLive(arr[i := v]) == Updated(ArrayLive(arr), Number(i + 1), v)
  {
    var m, m' := ArrayLive(arr[i := v]), Updated(ArrayLive(arr), Number(i + 1), v);
    forall k ensures k in m <==> k in m' {
      ArrayLiveAt(arr, k);
      ArrayLiveAt(arr[i := v], k);
    }
    forall k | k in m ensures m[k] == m'[k] {
      ArrayLiveAt(arr, k);
      ArrayLiveAt(arr[i := v], k);
    }
  }

  /** What a table holds. */
  function Held(arr: seq<Value>, node: seq<Node>): map<Key, nat> {
    ArrayLive(arr) + Live(node)
  }

  predicate Divided(arr: seq<Value>, node: seq<Node>) {
    forall i :: 0 <= i < |node| ==> !InRange(node[i].key, |arr|)
  }

  lemma LiveUsed(node: seq<Node>, k: Key)
    requires Proper(node) && k in Live(node)
    ensures exists i :: 0 <= i < |node| && node[i].key == k && node[i].val == Val(Live(node)[k])
  {
    LiveNotNil(node);
    LiveHolds(node, k, Live(node)[k]);
  }

  lemma LiveAt(node: seq<Node>, i: nat)
    requires Proper(node) && i < |node| && node[i].key != NilKey
    ensures node[i].key in Live(node) <==> node[i].val != Nil
    ensures node[i].val != Nil ==> Live(node)[node[i].key] == node[i].val.v
  {
    if node[i].val != Nil {
      assert Holds(node, node[i].key, node[i].val.v);
      LiveHolds(node, node[i].key, node[i].val.v);
    }
    if node[i].key in Live(node) {
      LiveUsed(node, node[i].key);
    }
  }

  lemma HashedProper(hash: Key -> nat, node: seq<Node>)
    requires Hashed(hash, node)
    ensures Proper(node)
  {
  }

  lemma NeverLive(hash: Key -> nat, node: seq<Node>)
    requires Hashed(hash, node)
    ensures NilKey !in Live(node) && NaN !in Live(node)
  {
    hide Live, Homed;
    LiveNotNil(node);
    if NaN in Live(node) { LiveUsed(node, NaN); }
  }

  /** Which part decides a key. */
  lemma HeldAt(arr: seq<Value>, node: seq<Node>, k: Key)
    requires Proper(node) && Divided(arr, node)
    ensures InRange(k, |arr|) ==> k !in Live(node) && (k in Held(arr, node) <==> arr[k.n - 1] != Nil)
    ensures InRange(k, |arr|) && k in Held(arr, node) ==> Val(Held(arr, node)[k]) == arr[k.n - 1]
    ensures !InRange(k, |arr|) ==> k !in ArrayLive(arr) && (k in Held(arr, node) <==> k in Live(node))
    ensures !InRange(k, |arr|) && k in Held(arr, node) ==> Held(arr, node)[k] == Live(node)[k]
  {
    ArrayLiveAt(arr, k);
    if k in Live(node) { LiveUsed(node, k); }
  }

  lemma StoreInArray(arr: seq<Value>, node: seq<Node>, i: nat, v: Value)
    requires Proper(node) && Divided(arr, node) && i < |arr|
    ensures Held(arr[i := v], node) == Updated(Held(arr, node), Number(i + 1), v)
  {
    hide ArrayLive, Live, Proper;
    ArrayStore(arr, i, v);
    HeldAt(arr, node, Number(i + 1));
  }

  lemma StoreInNode(arr: seq<Value>, node: seq<Node>, i: nat, v: Value)
    requires Proper(node) && Divided(arr, node) && i < |node| && node[i].key != NilKey
    ensures Held(arr, Store(node, i, v)) == Updated(Held(arr, node), node[i].key, v)
  {
    hide ArrayLive, Live, Proper;
    StoreLive(node, i, v);
    HeldAt(arr, node, node[i].key);
  }

  function Lookup(m: map<Key, nat>, k: Key): Value {
    if k in m then Val(m[k]) else Nil
  }

  /** The keys that do not fit into an array part of size `n`. */
  function Outside(m: map<Key, nat>, n: nat): set<Key> {
    set k | k in m.Keys && !InRange(k, n)
  }

  /** Nodes from `free` on are in use. */
  predicate FreeBelow(node: seq<Node>, free: int) {
    -1 <= free <= |node| && forall i :: 0 <= i < |node| && free <= i ==> node[i].key != NilKey
  }

  lemma AllUsedFull(node: seq<Node>)
    requires UniqueKeys(node) && FreeBelow(node, -1)
    ensures |Used(node)| == |node|
  {
    RoomLeft(node);
  }

  lemma StoreUsed(node: seq<Node>, i: nat, v: Value)
    requires i < |node|
    ensures Used(Store(node, i, v)) == Used(node)
  {
    var node' := Store(node, i, v);
    UsedKeys(node);
    UsedKeys(node');
    forall k | k in Used(node) ensures k in Used(node') {
      var j :| 0 <= j < |node| && node[j].key == k;
      assert node'[j].key == k;
    }
    forall k | k in Used(node') ensures k in Used(node) {
      var j :| 0 <= j < |node| && node'[j].key == k;
      assert node[j].key == k;
    }
  }

  /** What the three ways to place a key have in common. */
  ghost predicate Fits(hash: Key -> nat, node: seq<Node>, node': seq<Node>, key: Key) {
    && |node'| == |node| && Hashed(hash, node') && Live(node') == Live(node)
    && Used(node') <= Used(node) + {key}
    && forall i :: 0 <= i < |node| ==> node'[i].key == key || exists j :: 0 <= j < |node| && node[j].key == node'[i].key
  }

  lemma FitsIf(hash: Key -> nat, node: seq<Node>, node': seq<Node>, key: Key)
    requires |node'| == |node| && Hashed(hash, node') && Live(node') == Live(node)
    requires forall i :: 0 <= i < |node| ==>
             node'[i].key == key || exists j :: 0 <= j < |node| && node[j].key == node'[i].key
    ensures Fits(hash, node, node', key)
  {
    UsedKeys(node);
    UsedKeys(node');
  }

  lemma FitsDivided(hash: Key -> nat, arr: seq<Value>, node: seq<Node>, node': seq<Node>, key: Key)
    requires Fits(hash, node, node', key) && Divided(arr, node) && !InRange(key, |arr|)
    ensures Divided(arr, node') && Held(arr, node') == Held(arr, node)
  {
  }

  lemma FreshNotHeld(hash: Key -> nat, arr: seq<Value>, node: seq<Node>, key: Key)
    requires Hashed(hash, node) && Divided(arr, node) && Fresh(node, key) && !InRange(key, |arr|)
    ensures key !in Held(arr, node)
  {
    hide Live, ArrayLive, Hashed;
    HashedProper(hash, node);
    HeldAt(arr, node, key);
    if key in Live(node) { LiveUsed(node, key); }
  }

  lemma TakeOverFits(hash: Key -> nat, node: seq<Node>, mp: nat, key: Key)
    requires Hashed(hash, node) && mp < |node| && Main(hash, key, |node|) == mp && Fresh(node, key)
             && node[mp].val == Nil
    ensures Fits(hash, node, TakeOver(node, mp, key), key)
  {
    hide Main, Live;
    HashedProper(hash, node);
    TakeOverKeeps(hash, node, mp, key);
    TakeOverLive(node, mp, key);
    hide Hashed;
    FitsIf(hash, node, TakeOver(node, mp, key), key);
  }

  lemma InsertAfterFits(hash: Key -> nat, node: seq<Node>, mp: nat, n: nat, key: Key)
    requires Hashed(hash, node) && mp < |node| && n < |node| && node[n].key == NilKey
    requires node[mp].val != Nil && Main(hash, node[mp].key, |node|) == mp
    requires Main(hash, key, |node|) == mp && Fresh(node, key)
    ensures Fits(hash, node, InsertAfter(node, mp, n, key), key) && mp != n && node[n] == UNUSED
  {
    hide Main, Live;
    HashedProper(hash, node);
    assert mp != n;
    InsertAfterKeeps(hash, node, mp, n, key);
    InsertAfterLive(node, mp, n, key);
    hide Hashed;
    FitsIf(hash, node, InsertAfter(node, mp, n, key), key);
  }

  lemma MoveAwayFits(hash: Key -> nat, node: seq<Node>, mp: nat, n: nat, pred: nat, key: Key)
    requires Hashed(hash, node) && mp < |node| && n < |node| && pred < |node| && node[n].key == NilKey
    requires node[mp].val != Nil && node[pred].next == mp && Main(hash, node[mp].key, |node|) != mp
    requires Main(hash, key, |node|) == mp && Fresh(node, key)
    ensures Fits(hash, node, MoveAway(node, mp, n, pred, key), key) && Apart(node, mp, n, pred)
            && node[mp].key != NilKey
  {
    hide Main, Live;
    HashedProper(hash, node);
    assert node[mp].key != NilKey;
    MovableApart(node, mp, n, pred);
    MoveAwayKeeps(hash, node, mp, n, pred, key);
    MoveAwayLive(node, mp, n, pred, key);
    hide Hashed;
    FitsIf(hash, node, MoveAway(node, mp, n, pred, key), key);
  }

  lemma GrownArray(arr: seq<Value>, n: nat)
    requires n >= |arr|
    ensures ArrayLive(arr + seq(n - |arr|, _ => Nil)) == ArrayLive(arr)
  {
    hide ArrayLive;
    var arr' := arr + seq(n - |arr|, _ => Nil);
    SameArrayLive(arr, arr');
  }

  lemma SameArrayLive(arr: seq<Value>, arr': seq<Value>)
    requires |arr| <= |arr'| && arr'[..|arr|] == arr && forall i :: |arr| <= i < |arr'| ==> arr'[i] == Nil
    ensures ArrayLive(arr') == ArrayLive(arr)
  {
    hide ArrayLive;
    var m, m' := ArrayLive(arr), ArrayLive(arr');
    forall k ensures (k in m <==> k in m') && (k in m ==> m[k] == m'[k]) {
      ArrayLiveAt(arr, k);
      ArrayLiveAt(arr', k);
    }
  }

  lemma ShrunkArray(arr: seq<Value>, n: nat)
    requires n <= |arr|
    ensures forall k <- ArrayLive(arr[..n]) :: k in ArrayLive(arr)
  {
    hide ArrayLive;
    forall k | k in ArrayLive(arr[..n]) ensures k in ArrayLive(arr) {
      ArrayLiveAt(arr, k);
      ArrayLiveAt(arr[..n], k);
    }
  }

  /** Cell `i` adds its key to what the cells before it hold. */
  lemma ArrayStep(arr: seq<Value>, i: nat)
    requires i < |arr|
    ensures var m := ArrayLive(arr[..i]);
            && (arr[i] == Nil ==> ArrayLive(arr[..i + 1]) == m)
            && (arr[i] != Nil ==>
                  && Number(i + 1) !in m && Number(i + 1) in ArrayLive(arr)
                  && ArrayLive(arr[..i + 1]) == m[Number(i + 1) := arr[i].v])
            && m.Keys <= ArrayLive(arr).Keys
  {
    assert arr[..i + 1][..i] == arr[..i];
    assert ArrayLive(arr[..i + 1]) == if arr[i] == Nil then ArrayLive(arr[..i])
      else ArrayLive(arr[..i])[Number(i + 1) := arr[i].v];
    hide ArrayLive;
    ArrayLiveAt(arr[..i], Number(i + 1));
    ArrayLiveAt(arr, Number(i + 1));
    ShrunkArray(arr, i);
  }

  /** Node `i` adds its key to what the array part and the nodes after it hold. */
  lemma NodeStep(arr: seq<Value>, node: seq<Node>, i: nat)
    requires Proper(node) && Divided(arr, node) && i < |node|
    ensures var m := Held(arr, node[i + 1..]);
            && (node[i].val == Nil ==> Held(arr, node[i..]) == m)
            && (node[i].val != Nil ==>
               node[i].key !in m && Held(arr, node[i..]) == m[node[i].key := node[i].val.v]
               && node[i].key in Held(arr, node))
            && m.Keys <= Held(arr, node).Keys
  {
    hide Live, ArrayLive;
    var rest := node[i + 1..];
    assert node[i..] == [node[i]] + rest;
    if node[i].val != Nil {
      if node[i].key in Live(rest) { LiveUsed(rest, node[i].key); }
      ArrayLiveAt(arr, node[i].key);
      LiveAt(node, i);
    }
    LivePrepend(node[i], rest);
    forall k | k in Live(rest) ensures k in Live(node) {
      LiveUsed(rest, k);
      var j :| 0 <= j < |rest| && rest[j].key == k && rest[j].val == Val(Live(rest)[k]);
      LiveNotNil(rest);
      LiveAt(node, i + 1 + j);
    }
  }

  lemma RoomForOneMore(m: map<Key, nat>, all: map<Key, nat>, used: set<Key>, key: Key, n: nat)
    requires used <= Outside(m, n) && m.Keys <= all.Keys && key in all && key !in m
    ensures !InRange(key, n) ==> |used| < |Outside(all, n)|
  {
    if !InRange(key, n) {
      SubsetSize(used + {key}, Outside(all, n));
    }
  }

  function Least(a: int, b: int): int { if a < b then a else b }

  /** The keys of the first `n` array cells. */
  function Prefix(arr: seq<Value>, n: nat): set<Key>
    requires n <= |arr|
  {
    ArrayLive(arr[..n]).Keys
  }

  lemma PrefixEnds(arr: seq<Value>)
    ensures Prefix(arr, 0) == {} && Prefix(arr, |arr|) == ArrayLive(arr).Keys
            && |Prefix(arr, |arr|)| == |ArrayLive(arr)|
  {
    assert arr[..0] == [] && arr[..|arr|] == arr;
  }

  /** The later set has `c` keys more in slice `lg`, and as many in all others. */
  ghost predicate AddsTo(s: set<Key>, s': set<Key>, lg: nat, c: nat) {
    forall j: nat :: |Slice(s', j)| == |Slice(s, j)| + if j == lg then c else 0
  }

  lemma PrefixStep(arr: seq<Value>, i: nat, lg: nat)
    requires 1 <= i <= |arr| && lg <= MAXBITS && i <= Pow2(lg) && (lg > 0 ==> i > Pow2(lg - 1))
    ensures arr[i - 1] == Nil ==> Prefix(arr, i) == Prefix(arr, i - 1)
    ensures arr[i - 1] != Nil ==>
              && |Prefix(arr, i)| == |Prefix(arr, i - 1)| + 1
              && AddsTo(Prefix(arr, i - 1), Prefix(arr, i), lg, 1)
  {
    hide Slice, ArrayLive, CeilLog2, Pow2;
    ArrayStep(arr, i - 1);
    if arr[i - 1] != Nil {
      var k := Number(i);
      assert Prefix(arr, i) == Prefix(arr, i - 1) + {k};
      Log2Unique(i, lg);
      Log2Unique(i, MAXBITS);
      if lg > 0 { Log2Unique(i, lg - 1); }
      forall j: nat ensures |Slice(Prefix(arr, i), j)| == |Slice(Prefix(arr, i - 1), j)| + if j == lg then 1 else 0 {
        SliceAdd(Prefix(arr, i - 1), k, j);
        assert InSlice(k, j) <==> j == lg;
      }
    }
  }

  lemma OneMore(m: map<Key, nat>, k: Key, v: nat)
    requires k !in m
    ensures m[k := v].Keys == m.Keys + {k} && |m[k := v]| == |m| + 1
  {
    assert |m[k := v]| == |m[k := v].Keys| && |m| == |m.Keys|;
    assert m[k := v].Keys == m.Keys + {k};
  }

  lemma HashStart(arr: seq<Value>, node: seq<Node>)
    ensures Held(arr, node[|node|..]) == ArrayLive(arr)
  {
    hide ArrayLive;
    NothingLive(node[|node|..]);
  }

  lemma HashStep(arr: seq<Value>, node: seq<Node>, i: nat)
    requires Proper(node) && Divided(arr, node) && i < |node|
    ensures var m, m' := Held(arr, node[i + 1..]), Held(arr, node[i..]);
            && (node[i].val == Nil ==> m' == m)
            && (node[i].val != Nil ==>
                  && node[i].key !in m.Keys && m'.Keys == m.Keys + {node[i].key} && |m'| == |m| + 1
                  && |Below(m'.Keys, MAXASIZE)| == |Below(m.Keys, MAXASIZE)| + if Candidate(node[i].key) then 1 else 0)
  {
    hide Held, Live, ArrayLive, Below;
    NodeStep(arr, node, i);
    if node[i].val != Nil {
      var m := Held(arr, node[i + 1..]);
      OneMore(m, node[i].key, node[i].val.v);
      BelowAdd(m.Keys, node[i].key, MAXASIZE);
    }
  }

  lemma NoKeys(nums: seq<nat>)
    requires |nums| == MAXBITS + 1 && forall i :: 0 <= i < |nums| ==> nums[i] == 0
    ensures Counts(nums, {})
  {
    forall i | 0 <= i <= MAXBITS ensures Slice({}, i) == {} {}
  }

  /** All keys of the array part are candidates for it. */
  lemma AllArrayKeys(arr: seq<Value>)
    requires |arr| <= MAXASIZE
    ensures |Below(ArrayLive(arr).Keys, MAXASIZE)| == |ArrayLive(arr)|
  {
    hide ArrayLive;
    var m := ArrayLive(arr);
    forall k | k in m.Keys ensures InRange(k, MAXASIZE) { ArrayLiveAt(arr, k); }
    assert Below(m.Keys, MAXASIZE) == m.Keys;
    assert |m| == |m.Keys|;
  }

  lemma CandidatesAll(s: set<Key>)
    ensures forall k <- Below(s, MAXASIZE) :: Candidate(k)
  {
  }

  lemma OutsideSize(m: map<Key, nat>, n: nat)
    ensures |Outside(m, n)| + |Below(m.Keys, n)| == |m|
  {
    assert m.Keys == Outside(m, n) + Below(m.Keys, n);
    assert |m| == |m.Keys|;
  }

  /** The hash part has room for the keys it holds now. */
  lemma OutsideFits(hash: Key -> nat, arr: seq<Value>, node: seq<Node>, n: nat)
    requires Hashed(hash, node) && Divided(arr, node) && n >= |arr|
    ensures |Outside(Held(arr, node), n)| <= |node|
  {
    hide Live, ArrayLive, Hashed;
    HashedProper(hash, node);
    UsedKeys(node);
    LiveNotNil(node);
    forall k | k in Outside(Held(arr, node), n) ensures k in Used(node) {
      HeldAt(arr, node, k);
      LiveUsed(node, k);
    }
    SubsetSize(Outside(Held(arr, node), n), Used(node));
    UsedBounded(node);
  }

  // ---------------------------------------------------------------- traversal

  /** Cells are numbered through the array part and then the hash part. */
  function CellKey(arr: seq<Value>, node: seq<Node>, i: nat): Key
    requires i < |arr| + |node|
  {
    if i < |arr| then Number(i + 1) else node[i - |arr|].key
  }

  function CellValue(arr: seq<Value>, node: seq<Node>, i: nat): Value
    requires i < |arr| + |node|
  {
    if i < |arr| then arr[i] else node[i - |arr|].val
  }

  predicate AtIndex(arr: seq<Value>, node: seq<Node>, i: int, k: Key) {
    if k == NilKey then i == -1 else 0 <= i < |arr| + |node| && CellKey(arr, node, i) == k
  }

  /** `to` is the first live cell after `from`, or the end. */
  predicate FirstLive(arr: seq<Value>, node: seq<Node>, from: int, to: int) {
    && -1 <= from < to <= |arr| + |node| && (forall c :: from < c < to ==> CellValue(arr, node, c) == Nil)
    && (to < |arr| + |node| ==> CellValue(arr, node, to) != Nil)
  }

  function KeyAt(arr: seq<Value>, node: seq<Node>, i: nat): Key {
    if i < |arr| + |node| then CellKey(arr, node, i) else NilKey
  }

  predicate HasCell(arr: seq<Value>, node: seq<Node>, k: Key) {
    InRange(k, |arr|) || exists j :: 0 <= j < |node| && node[j].key == k
  }

  /** Only values differ: every key has the same cell in both. */
  predicate SameCells(arr: seq<Value>, node: seq<Node>, arr': seq<Value>, node': seq<Node>) {
    |arr'| == |arr| && |node'| == |node| && forall j :: 0 <= j < |node| ==> node'[j].key == node[j].key
  }

  /** The keys of the live cells from `i` on, in the order of a traversal. */
  function Remaining(arr: seq<Value>, node: seq<Node>, i: nat): seq<Key>
    decreases |arr| + |node| - i
  {
    if i >= |arr| + |node| then []
    else (if CellValue(arr, node, i) == Nil then [] else [CellKey(arr, node, i)]) + Remaining(arr, node, i + 1)
  }

  lemma CellHeld(arr: seq<Value>, node: seq<Node>, i: nat)
    requires Proper(node) && Divided(arr, node) && i < |arr| + |node|
    ensures CellKey(arr, node, i) != NilKey ==>
            CellValue(arr, node, i) == Lookup(Held(arr, node), CellKey(arr, node, i))
    ensures CellValue(arr, node, i) != Nil ==> CellKey(arr, node, i) != NilKey
  {
    var k := CellKey(arr, node, i);
    HeldAt(arr, node, k);
    if i >= |arr| && k != NilKey { LiveAt(node, i - |arr|); }
  }

  /** Different cells have different keys. */
  lemma CellsDiffer(arr: seq<Value>, node: seq<Node>, i: nat, j: nat)
    requires Proper(node) && Divided(arr, node) && i < j < |arr| + |node| && CellKey(arr, node, i) != NilKey
    ensures CellKey(arr, node, i) != CellKey(arr, node, j)
  {
  }

  lemma {:induction false} RemainingFrom(arr: seq<Value>, node: seq<Node>, i: nat, k: Key)
    ensures k in Remaining(arr, node, i) <==>
            exists j :: i <= j < |arr| + |node| && CellKey(arr, node, j) == k && CellValue(arr, node, j) != Nil
    decreases |arr| + |node| - i
  {
    if i < |arr| + |node| { RemainingFrom(arr, node, i + 1, k); }
  }

  /** A traversal from nil meets every key of the table, and none twice. */
  lemma TraversalIsComplete(arr: seq<Value>, node: seq<Node>, k: Key)
    requires Proper(node) && Divided(arr, node)
    ensures k in Remaining(arr, node, 0) <==> k in Held(arr, node)
  {
    hide Held, Proper;
    RemainingFrom(arr, node, 0, k);
    HeldAt(arr, node, k);
    if k in Held(arr, node) {
      if InRange(k, |arr|) {
        assert CellKey(arr, node, k.n - 1) == k && CellValue(arr, node, k.n - 1) != Nil;
      } else {
        LiveUsed(node, k);
        var j :| 0 <= j < |node| && node[j].key == k && node[j].val == Val(Live(node)[k]);
        assert CellKey(arr, node, |arr| + j) == k && CellValue(arr, node, |arr| + j) != Nil;
      }
    }
    if k in Remaining(arr, node, 0) {
      var j :| 0 <= j < |arr| + |node| && CellKey(arr, node, j) == k && CellValue(arr, node, j) != Nil;
      CellHeld(arr, node, j);
    }
  }

  lemma {:induction false} TraversalRepeatsNothing(arr: seq<Value>, node: seq<Node>, i: nat)
    requires Proper(node) && Divided(arr, node)
    ensures var ks := Remaining(arr, node, i); forall a, b :: 0 <= a < b < |ks| ==> ks[a] != ks[b]
    decreases |arr| + |node| - i
  {
    hide Proper, Divided;
    if i < |arr| + |node| {
      TraversalRepeatsNothing(arr, node, i + 1);
      var k := CellKey(arr, node, i);
      if CellValue(arr, node, i) != Nil {
        RemainingFrom(arr, node, i + 1, k);
        CellHeld(arr, node, i);
        forall j | i < j < |arr| + |node| ensures CellKey(arr, node, j) != k { CellsDiffer(arr, node, i, j); }
      }
    }
  }

  // ---------------------------------------------------------------- borders

  const MAX_INT: nat := 0x7fff_fffd

  /** Section 2.5.5 of the Lua 5.1 Reference Manual: `b` is zero or present, and the index after it is absent. */
  predicate Border(m: map<Key, nat>, b: nat) {
    (b == 0 || Number(b) in m) && Number(b + 1) !in m
  }

  lemma {:induction false} RunFits(m: map<Key, nat>, n: nat)
    requires forall j :: 1 <= j <= n ==> Number(j) in m
    ensures n <= |m|
  {
    if n > 0 {
      RunFits(m - {Number(n)}, n - 1);
    }
  }

  lemma BigEnough()
    ensures MAXASIZE < MAX_INT
  {
    assert Pow2(6) == 64;
    assert Pow2(12) == 64 * Pow2(6);
    assert Pow2(18) == 64 * Pow2(12);
    assert Pow2(24) == 64 * Pow2(18);
    assert Pow2(26) == 4 * Pow2(24);
  }

  lemma ArrayDecides(arr: seq<Value>, node: seq<Node>)
    requires Proper(node) && Divided(arr, node)
    ensures forall i :: 0 <= i < |arr| ==> (Number(i + 1) in Held(arr, node) <==> arr[i] != Nil)
  {
    hide Held, Proper;
    forall i | 0 <= i < |arr| ensures Number(i + 1) in Held(arr, node) <==> arr[i] != Nil {
      HeldAt(arr, node, Number(i + 1));
    }
  }

  class Table {
    const hash: Key -> nat
    var arr: seq<Value>
    var node: seq<Node>
    var free: int

    ghost predicate Valid()
      reads this
    {
      && Hashed(hash, node) && Divided(arr, node) && FreeBelow(node, free) && |arr| <= MAXASIZE
    }

    /** The finite map both parts together stand for. */
    ghost function Value(): map<Key, nat>
      reads this
    {
      Held(arr, node)
    }

    /** An insertion of `key` finds its place without a rehash. */
    ghost predicate Roomy(key: Key)
      reads this
    {
      InRange(key, |arr|) || |Used(node)| < |node|
    }

    ghost predicate IsCell(r: Ref, key: Key)
      reads this
    {
      match r
      case InArray(i) => i < |arr| && key == Number(i + 1)
      case InNode(i) => i < |node| && key == node[i].key != NilKey
    }

    constructor (hash: Key -> nat)
      ensures Valid() && Value() == map[]
    {
      this.hash := hash;
      arr, node, free := [], [], 0;
    }

    /** The chain search that all the `luaH_get` functions share. */
    method Find(key: Key) returns (i: int)
      requires Valid()
      ensures -1 <= i < |node| && (i >= 0 ==> node[i].key == key)
      ensures i < 0 && key != NilKey && key != NaN ==> Fresh(node, key)
      ensures i >= 0 ==> key != NilKey
    {
      hide Main;
      if node == [] || key == NilKey {
        return -1;
      }
      i := Main(hash, key, |node|);
      assert Finite(node, i);
      ghost var steps: nat :| Ends(node, i, steps);
      assert forall j :: 0 <= j < |node| && node[j].key == key ==> Homed(hash, node, j);
      while i != -1
        invariant -1 <= i < |node| && Ends(node, i, steps)
        invariant forall j :: 0 <= j < |node| && node[j].key == key ==> Reaches(node, i, j)
        decreases steps
      {
        if node[i].key == key {
          return;
        }
        forall j | 0 <= j < |node| && node[j].key == key ensures Reaches(node, node[i].next, j) {
          var k: nat :| Path(node, i, j, k);
          assert Path(node, node[i].next, j, k - 1);
        }
        i, steps := node[i].next, steps - 1;
      }
    }

    /** `luaH_get`. */
    method Get(key: Key) returns (v: LuaNodes.Value)
      requires Valid()
      ensures v == Lookup(Value(), key)
    {
      hide Live, ArrayLive, Hashed;
      HashedProper(hash, node);
      HeldAt(arr, node, key);
      if InRange(key, |arr|) {
        return arr[key.n - 1];
      }
      var i := Find(key);
      if i >= 0 {
        LiveAt(node, i);
        return node[i].val;
      }
      NeverLive(hash, node);
      if key in Live(node) { LiveUsed(node, key); }
      return Nil;
    }

    /** `getfreepos`. */
    method GetFreePos() returns (n: int)
      requires Valid()
      modifies this`free
      ensures n >= 0 ==> n < |node| && free == n && node[n].key == NilKey && FreeBelow(node, n + 1)
      ensures n < 0 ==> Valid() && |Used(node)| == |node|
    {
      assert UniqueKeys(node);
      hide Hashed, Used;
      while free > 0
        invariant Valid()
        decreases free
      {
        free := free - 1;
        if node[free].key == NilKey {
          return free;
        }
      }
      free := -1;
      AllUsedFull(node);
      return -1;
    }

    /** Write through a pointer that `luaH_set` returned. */
    method Assign(r: Ref, key: Key, v: LuaNodes.Value)
      requires Valid() && IsCell(r, key)
      modifies this
      ensures Valid() && Value() == Updated(old(Value()), key, v)
      ensures SameCells(old(arr), old(node), arr, node) && Used(node) == old(Used(node)) && free == old(free)
    {
      hide Hashed;
      HashedProper(hash, node);
      match r {
        case InArray(i) =>
          StoreInArray(arr, node, i, v);
          arr := arr[i := v];
        case InNode(i) =>
          StoreInNode(arr, node, i, v);
          StoreKeeps(hash, node, i, v);
          StoreUsed(node, i, v);
          node := node[i := node[i].(val := v)];
      }
    }

    /** `luaH_set`, and the store through the pointer it returns. A nil or NaN index is an error. */
    method Set(key: Key, v: LuaNodes.Value) returns (ok: bool)
      requires Valid()
      modifies this
      ensures Valid() && ok == (key != NilKey && key != NaN)
      ensures Value() == if ok then Updated(old(Value()), key, v) else old(Value())
      ensures ok && old(HasCell(arr, node, key)) ==> SameCells(old(arr), old(node), arr, node)
    {
      if key == NilKey || key == NaN {
        return false;
      }
      Put(key, v);
      return true;
    }

    method Put(key: Key, v: LuaNodes.Value)
      requires Valid() && key != NilKey && key != NaN
      modifies this
      ensures Valid() && Value() == Updated(old(Value()), key, v)
      ensures old(HasCell(arr, node, key)) ==> SameCells(old(arr), old(node), arr, node)
      ensures old(Roomy(key)) ==> |arr| == |old(arr)| && |node| == |old(node)|
      ensures old(Roomy(key)) ==> Used(node) <= old(Used(node)) + if InRange(key, |arr|) then {} else {key}
      decreases if Roomy(key) then 0 else 1, 7
    {
      var r := Slot(key);
      Assign(r, key, v);
    }

    /** The cell of a key, made if need be. */
    method Slot(key: Key) returns (r: Ref)
      requires Valid() && key != NilKey && key != NaN
      modifies this
      ensures Valid() && Value() == old(Value()) && IsCell(r, key)
      ensures old(HasCell(arr, node, key)) ==> arr == old(arr) && node == old(node)
      ensures old(Roomy(key)) ==> |arr| == |old(arr)| && |node| == |old(node)|
      ensures old(Roomy(key)) ==> Used(node) <= old(Used(node)) + if InRange(key, |arr|) then {} else {key}
      decreases if Roomy(key) then 0 else 1, 6
    {
      if InRange(key, |arr|) {
        return InArray(key.n - 1);
      }
      var i := Find(key);
      if i >= 0 {
        return InNode(i);
      }
      r := NewKey(key);
    }

    /** The node before `mp` on the chain of the key it holds. */
    method Before(mp: nat) returns (pred: nat)
      requires Hashed(hash, node) && mp < |node| && node[mp].val != Nil && Main(hash, node[mp].key, |node|) != mp
      ensures pred < |node| && node[pred].next == mp
    {
      hide Main;
      pred := Main(hash, node[mp].key, |node|);
      assert Homed(hash, node, mp);
      ghost var k: nat :| Path(node, pred, mp, k);
      while node[pred].next != mp
        invariant pred < |node| && pred != mp && Path(node, pred, mp, k)
        decreases k
      {
        assert Path(node, node[pred].next, mp, k - 1);
        pred, k := node[pred].next, k - 1;
      }
    }

    /** `newkey`. */
    method NewKey(key: Key) returns (r: Ref)
      requires Valid() && Fresh(node, key) && !InRange(key, |arr|)
      modifies this
      ensures Valid() && Value() == old(Value()) && IsCell(r, key)
      ensures old(Roomy(key)) ==> |arr| == |old(arr)| && |node| == |old(node)|
      ensures old(Roomy(key)) ==> Used(node) <= old(Used(node)) + {key}
      decreases if Roomy(key) then 0 else 1, 5
    {
      hide Main, Hashed, Live, Used, Held, Apart, Proper;
      ghost var was := node;
      HashedProper(hash, was);
      var mp := 0;
      if node != [] {
        mp := Main(hash, key, |node|);
      }
      if node == [] || node[mp].val != Nil {
        var n := GetFreePos();
        if n < 0 {
          FreshNotHeld(hash, arr, node, key);
          Rehash(key);
          r := Slot(key);
          return;
        }
        var other := Main(hash, node[mp].key, |node|);
        if other != mp {
          Evict(mp, n, key);
        } else {
          ChainFree(mp, n, key);
          mp := n;
        }
      } else {
        TakeOverFits(hash, was, mp, key);
      }
      node := node[mp := node[mp].(key := key)];
      FitsDivided(hash, arr, was, node, key);
      r := InNode(mp);
    }

    /** Move the colliding node out of the way, into the free node `n`. */
    method Evict(mp: nat, n: nat, ghost key: Key)
      requires Hashed(hash, node) && mp < |node| && n < |node| && node[n].key == NilKey
      requires node[mp].val != Nil && Main(hash, node[mp].key, |node|) != mp
      requires Main(hash, key, |node|) == mp && Fresh(node, key)
      modifies this`node
      ensures |node| == |old(node)| && mp != n
      ensures Fits(hash, old(node), node[mp := node[mp].(key := key)], key)
      ensures forall i :: 0 <= i < |node| && (node[i].key == NilKey || i == n) ==>
              old(node)[i].key == NilKey && (node[i].key != NilKey <==> i == n)
    {
      hide Main, Hashed, Fits;
      var pred := Before(mp);
      MoveAwayFits(hash, node, mp, n, pred, key);
      node := node[pred := node[pred].(next := n)];
      node := node[n := node[mp]];
      node := node[mp := node[mp].(next := -1, val := Nil)];
      assert node[mp := node[mp].(key := key)] == MoveAway(old(node), mp, n, pred, key);
    }

    /** Chain the free node `n` behind the colliding one. */
    method ChainFree(mp: nat, n: nat, ghost key: Key)
      requires Hashed(hash, node) && mp < |node| && n < |node| && node[n].key == NilKey
      requires node[mp].val != Nil && Main(hash, node[mp].key, |node|) == mp
      requires Main(hash, key, |node|) == mp && Fresh(node, key)
      modifies this`node
      ensures |node| == |old(node)| && forall i :: 0 <= i < |node| ==> node[i].key == old(node)[i].key
      ensures Fits(hash, old(node), node[n := node[n].(key := key)], key)
    {
      hide Main, Hashed, Fits;
      InsertAfterFits(hash, node, mp, n, key);
      node := node[n := node[n].(next := node[mp].next)];
      node := node[mp := node[mp].(next := n)];
      assert node[n := node[n].(key := key)] == InsertAfter(old(node), mp, n, key);
    }

    /** `setnodevector`. */
    method SetNodeVector(size: nat)
      modifies this`node, this`free
      ensures |node| == (if size == 0 then 0 else Pow2(CeilLog2(size))) >= size && Hashed(hash, node)
              && Live(node) == map[] && Used(node) == {} && Divided(arr, node) && FreeBelow(node, free)
    {
      if size == 0 {
        node := [];
      } else {
        node := seq(Pow2(CeilLog2(size)), _ => UNUSED);
      }
      free := |node|;
      UnusedNodes(hash, node);
    }

    /** `resize`. There must be nodes for all keys outside the new array part. */
    method Resize(nasize: nat, nhsize: nat)
      requires Valid() && nasize <= MAXASIZE && |Outside(Value(), nasize)| <= nhsize
      modifies this
      ensures Valid() && Value() == old(Value()) && |arr| == nasize && |node| >= nhsize
              && Used(node) <= Outside(Value(), nasize)
      decreases 1, 3
    {
      hide Hashed, Live, ArrayLive, Used;
      var oldarr, nold := arr, node;
      ghost var all := Value();
      HashedProper(hash, nold);
      NeverLive(hash, nold);
      if nasize > |arr| {
        GrownArray(arr, nasize);
        arr := arr + seq(nasize - |arr|, _ => Nil);
      }
      SetNodeVector(nhsize);
      if nasize < |oldarr| {
        arr := arr[..nasize];
        VanishingSlice(oldarr, nhsize, all);
      }
      OldNodes(oldarr, nold, nhsize, all);
    }

    /** Re-insert the array cells beyond the new size. */
    method VanishingSlice(oldarr: seq<LuaNodes.Value>, ghost nhsize: nat, ghost all: map<Key, nat>)
      requires Valid() && |node| >= nhsize >= |Outside(all, |arr|)| && ArrayLive(oldarr).Keys <= all.Keys
      requires |arr| <= |oldarr| && arr == oldarr[..|arr|] && Live(node) == map[] && Used(node) == {}
      modifies this
      ensures Valid() && Value() == ArrayLive(oldarr) && |arr| == |old(arr)| && |node| >= nhsize
              && Used(node) <= Outside(Value(), |arr|)
      decreases 1, 2
    {
      hide Hashed, Live, ArrayLive, Used;
      var i := |arr|;
      while i < |oldarr|
        invariant |arr| == |old(arr)| <= i <= |oldarr| && Valid() && |node| >= nhsize
        invariant Value() == ArrayLive(oldarr[..i]) && Used(node) <= Outside(Value(), |arr|)
      {
        ArrayStep(oldarr, i);
        if oldarr[i] != Nil {
          Reinsert(Number(i + 1), oldarr[i], nhsize, all);
        }
        i := i + 1;
      }
      assert oldarr[..i] == oldarr;
    }

    /** Re-insert the nodes of the old hash part, the last one first. */
    method OldNodes(ghost oldarr: seq<LuaNodes.Value>, nold: seq<Node>, ghost nhsize: nat, ghost all: map<Key, nat>)
      requires Valid() && Proper(nold) && Divided(oldarr, nold) && all == Held(oldarr, nold) && NaN !in Live(nold)
      requires |node| >= nhsize >= |Outside(all, |arr|)| && Value() == ArrayLive(oldarr)
               && Used(node) <= Outside(Value(), |arr|)
      modifies this
      ensures Valid() && Value() == all && |arr| == |old(arr)| && |node| >= nhsize
              && Used(node) <= Outside(Value(), |arr|)
      decreases 1, 2
    {
      hide Hashed, Live, ArrayLive, Used;
      var i := |nold|;
      assert Live(nold[i..]) == map[] by { NothingLive(nold[i..]); }
      while i > 0
        invariant 0 <= i <= |nold| && Valid() && |arr| == |old(arr)| && |node| >= nhsize
        invariant Value() == Held(oldarr, nold[i..]) && Used(node) <= Outside(Value(), |arr|)
      {
        i := i - 1;
        NodeStep(oldarr, nold, i);
        if nold[i].val != Nil {
          LiveAt(nold, i);
          Reinsert(nold[i].key, nold[i].val, nhsize, all);
        }
      }
      assert nold[0..] == nold;
    }

    /** Store one of the keys in `all` again, into a table that has room for all of them. */
    method Reinsert(key: Key, v: LuaNodes.Value, ghost nhsize: nat, ghost all: map<Key, nat>)
      requires Valid() && key != NilKey && key != NaN && v != Nil
      requires |node| >= nhsize >= |Outside(all, |arr|)| && Used(node) <= Outside(Value(), |arr|)
      requires key in all && key !in Value() && Value().Keys <= all.Keys
      modifies this
      ensures Valid() && Value() == old(Value())[key := v.v] && |arr| == |old(arr)| && |node| >= nhsize
      ensures Used(node) <= Outside(Value(), |arr|)
      decreases 1, 1
    {
      RoomForOneMore(Value(), all, Used(node), key, |arr|);
      Put(key, v);
    }

    /** The part of `numusearray` that counts one slice: cells `from` to `to`, numbered from one. */
    method CountSlice(from: nat, to: nat, lg: nat) returns (lc: nat)
      requires 1 <= from <= to + 1 && to <= |arr| && lg <= MAXBITS
      requires to <= Pow2(lg) && (lg > 0 ==> from > Pow2(lg - 1))
      ensures AddsTo(Prefix(arr, from - 1), Prefix(arr, to), lg, lc)
      ensures |Prefix(arr, to)| == |Prefix(arr, from - 1)| + lc
    {
      hide Slice, Prefix;
      lc := 0;
      var i := from;
      while i <= to
        invariant from <= i <= to + 1
        invariant AddsTo(Prefix(arr, from - 1), Prefix(arr, i - 1), lg, lc)
        invariant |Prefix(arr, i - 1)| == |Prefix(arr, from - 1)| + lc
      {
        PrefixStep(arr, i, lg);
        if arr[i - 1] != Nil {
          lc := lc + 1;
        }
        i := i + 1;
      }
    }

    /** `numusearray`. */
    method NumUseArray(nums: array<nat>) returns (ause: nat)
      requires Valid() && Counts(nums[..], {})
      modifies nums
      ensures Counts(nums[..], ArrayLive(arr).Keys) && ause == |ArrayLive(arr)|
    {
      hide Hashed, Slice, Prefix, ArrayLive, CeilLog2;
      PrefixEnds(arr);
      var lg, ttlg, i := 0, 1, 1;
      ause := 0;
      while lg <= MAXBITS
        invariant lg <= MAXBITS + 1 && ttlg == Pow2(lg)
        invariant i - 1 == Least(|arr|, if lg == 0 then 0 else Pow2(lg - 1))
        invariant Counts(nums[..], Prefix(arr, i - 1)) && ause == |Prefix(arr, i - 1)|
      {
        var lim := ttlg;
        if lim > |arr| {
          lim := |arr|;
          if i > lim {
            break;
          }
        }
        var lc := CountSlice(i, lim, lg);
        nums[lg] := nums[lg] + lc;
        ause := ause + lc;
        lg, ttlg, i := lg + 1, ttlg * 2, lim + 1;
      }
      assert i - 1 == |arr|;
    }

    /** `numusehash`. */
    method NumUseHash(nums: array<nat>) returns (totaluse: nat, ause: nat)
      requires Valid() && Counts(nums[..], ArrayLive(arr).Keys)
      modifies nums
      ensures Counts(nums[..], Value().Keys) && |Value()| == |ArrayLive(arr)| + totaluse
      ensures |Below(Value().Keys, MAXASIZE)| == |Below(ArrayLive(arr).Keys, MAXASIZE)| + ause
    {
      hide Hashed, ArrayLive, Live, Slice, Below, Counts, Held, Proper, Divided, FreeBelow, UniqueKeys;
      HashedProper(hash, node);
      totaluse, ause := 0, 0;
      var i := |node|;
      HashStart(arr, node);
      while i > 0
        invariant 0 <= i <= |node|
        invariant Counts(nums[..], Held(arr, node[i..]).Keys)
        invariant |Held(arr, node[i..])| == |ArrayLive(arr)| + totaluse
        invariant |Below(Held(arr, node[i..]).Keys, MAXASIZE)| == |Below(ArrayLive(arr).Keys, MAXASIZE)| + ause
      {
        i := i - 1;
        HashStep(arr, node, i);
        if node[i].val != Nil {
          var c := CountInt(node[i].key, nums, Held(arr, node[i + 1..]).Keys);
          ause, totaluse := ause + c, totaluse + 1;
        }
      }
      assert node[0..] == node;
    }

    /** `rehash`: choose the sizes that the keys in use and the new one call for. */
    method Rehash(key: Key)
      requires Valid() && key !in Value() && key != NilKey && key != NaN
      modifies this
      ensures Valid() && Value() == old(Value()) && Roomy(key)
      ensures Best(Below(old(Value()).Keys + {key}, MAXASIZE), |arr|)
      decreases 1, 4
    {
      hide Hashed, ArrayLive, Live, Used, Slice, Counts, Held, Below, Pow2, CeilLog2;
      ghost var m := Value();
      ghost var keys := m.Keys + {key};
      var nums := new nat[MAXBITS + 1](_ => 0);
      NoKeys(nums[..]);
      var nasize := NumUseArray(nums);
      AllArrayKeys(arr);
      var totaluse := nasize;
      var t, a := NumUseHash(nums);
      totaluse, nasize := totaluse + t, nasize + a;
      BelowAdd(m.Keys, key, MAXASIZE);
      var c := CountInt(key, nums, m.Keys);
      nasize, totaluse := nasize + c, totaluse + 1;
      CandidatesCount(nums[..], keys);
      CandidatesAll(keys);
      var n, na := ComputeSizes(nums, nasize, Below(keys, MAXASIZE));
      BelowBelow(keys, n);
      BelowAdd(m.Keys, key, n);
      OutsideSize(m, n);
      Resize(n, totaluse - na);
      SubsetSize(Used(node), Outside(m, n));
    }

    /** `luaH_resizearray`, which the virtual machine calls to make the array part larger. */
    method ResizeArray(nasize: nat)
      requires Valid() && |arr| <= nasize <= MAXASIZE
      modifies this
      ensures Valid() && Value() == old(Value()) && |arr| == nasize
    {
      hide Hashed, ArrayLive, Live, Used, Held;
      OutsideFits(hash, arr, node, nasize);
      Resize(nasize, |node|);
    }

    /** The fallback of `unbound_search`: count up from one. */
    method LinearSearch() returns (b: nat)
      requires Valid()
      ensures Border(Value(), b)
    {
      hide Hashed, Held;
      var i := 1;
      var v := Get(Number(i));
      RunFits(Value(), i - 1);
      while v != Nil
        invariant i >= 1 && v == Lookup(Value(), Number(i))
        invariant forall j :: 1 <= j < i ==> Number(j) in Value()
        invariant i - 1 <= |Value()|
        decreases |Value()| + 1 - i
      {
        i := i + 1;
        RunFits(Value(), i - 1);
        v := Get(Number(i));
      }
      b := i - 1;
    }

    /** `unbound_search`: `j` is zero or a present index. */
    method UnboundSearch(present: nat) returns (b: nat)
      requires Valid() && present <= MAX_INT && (present == 0 || Number(present) in Value())
      ensures Border(Value(), b)
    {
      hide Hashed, Held;
      var i, j := present, present + 1;
      var v := Get(Number(j));
      while v != Nil
        invariant 0 <= i < j && (i == 0 || Number(i) in Value()) && v == Lookup(Value(), Number(j))
        decreases MAX_INT + 1 - i
      {
        i, j := j, j * 2;
        if j > MAX_INT {
          b := LinearSearch();
          return;
        }
        v := Get(Number(j));
      }
      while j - i > 1
        invariant 0 <= i < j && (i == 0 || Number(i) in Value()) && Number(j) !in Value()
        decreases j - i
      {
        var m := (i + j) / 2;
        v := Get(Number(m));
        if v == Nil { j := m; } else { i := m; }
      }
      b := i;
    }

    /** `luaH_getn`. */
    method GetN() returns (b: nat)
      requires Valid()
      ensures Border(Value(), b)
    {
      hide Hashed, Held;
      HashedProper(hash, node);
      var j := |arr|;
      BigEnough();
      ArrayDecides(arr, node);
      if j > 0 && arr[j - 1] == Nil {
        var i := 0;
        while j - i > 1
          invariant 0 <= i < j <= |arr| && (i == 0 || arr[i - 1] != Nil) && arr[j - 1] == Nil
          decreases j - i
        {
          var m := (i + j) / 2;
          if arr[m - 1] == Nil { j := m; } else { i := m; }
        }
        b := i;
      } else if node == [] {
        HeldAt(arr, node, Number(j + 1));
        b := j;
      } else {
        b := UnboundSearch(j);
      }
    }

    /** `findindex`: -1 for nil, and -2 for the error of a key that is not in the table. */
    method FindIndex(key: Key) returns (i: int)
      requires Valid()
      ensures i == -2 <==> key != NilKey && !HasCell(arr, node, key)
      ensures i != -2 ==> AtIndex(arr, node, i, key)
    {
      if key == NilKey {
        return -1;
      }
      if InRange(key, |arr|) {
        return key.n - 1;
      }
      i := Find(key);
      i := if i < 0 then -2 else |arr| + i;
    }

    /** `luaH_next`: the first live cell after that of `key`, or nil at the end. */
    method Next(key: Key) returns (ok: bool, k: Key, v: LuaNodes.Value, ghost from: int, ghost to: int)
      requires Valid()
      ensures ok <==> key == NilKey || HasCell(arr, node, key)
      ensures ok ==> AtIndex(arr, node, from, key) && FirstLive(arr, node, from, to) && k == KeyAt(arr, node, to)
      ensures ok ==> v == Lookup(Value(), k)
      ensures ok && k == NilKey ==> Remaining(arr, node, from + 1) == []
      ensures ok && k != NilKey ==> Remaining(arr, node, from + 1) == [k] + Remaining(arr, node, to + 1)
    {
      hide Hashed, Held;
      HashedProper(hash, node);
      NeverLive(hash, node);
      ok, k, v := false, NilKey, Nil;
      var i := FindIndex(key);
      from, to := i, i;
      if i == -2 {
        return;
      }
      ok := true;
      i := i + 1;
      while i < |arr| + |node|
        invariant from < i <= |arr| + |node| && Remaining(arr, node, from + 1) == Remaining(arr, node, i)
        invariant forall c :: from < c < i ==> CellValue(arr, node, c) == Nil
        decreases |arr| + |node| - i
      {
        if CellValue(arr, node, i) != Nil {
          k, v, to := CellKey(arr, node, i), CellValue(arr, node, i), i;
          CellHeld(arr, node, i);
          return;
        }
        i := i + 1;
      }
      to := i;
      HeldAt(arr, node, NilKey);
    }
  }
}
