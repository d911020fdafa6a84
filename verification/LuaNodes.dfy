/**
 The hash part of a Lua table (`ltable.c`): a chained scatter table with Brent's variation.

 A key is an integer, a string or boolean, or anything else a table can be indexed by; the nil key
 marks an unused node. Chains run through the nodes themselves. They are disjoint simple paths, and
 the node at a main position may lie in the middle of one, because a key may take over a node whose
 value has become nil.
 */
module LuaNodes {
  import opened Arith

  datatype Key = NilKey | NaN | Number(n: int) | Text(id: nat) | Other(id: nat)
  datatype Value = Nil | Val(v: nat)
  datatype Node = Node(key: Key, val: Value, next: int)

  const UNUSED := Node(NilKey, Nil, -1)

  // ---------------------------------------------------------------- main positions and chains

  /** `mainposition`: strings and booleans by mask, the others modulo an odd number. */
  function Main(hash: Key -> nat, k: Key, size: nat): (r: nat)
    requires size > 0
    ensures r < size
  {
    if k == Number(0) then 0
    else if k.Text? then hash(k) % size
    else hash(k) % (if size == 1 then 1 else size - 1)
  }

  /** From `q` one comes to `p` in `k` steps. */
  ghost predicate Path(node: seq<Node>, q: int, p: int, k: nat)
    decreases k
  {
    && 0 <= q < |node|
    && if k == 0 then q == p else Path(node, node[q].next, p, k - 1)
  }

  ghost predicate Reaches(node: seq<Node>, q: int, p: int) {
    exists k: nat :: Path(node, q, p, k)
  }

  /** From `q` the chain ends after `k` steps. */
  ghost predicate Ends(node: seq<Node>, q: int, k: nat)
    decreases k
  {
    if k == 0 then q == -1 else 0 <= q < |node| && Ends(node, node[q].next, k - 1)
  }

  ghost predicate Finite(node: seq<Node>, q: int) {
    exists k: nat :: Ends(node, q, k)
  }

  ghost predicate Linked(node: seq<Node>) {
    && (forall i :: 0 <= i < |node| ==> -1 <= node[i].next < |node|)
    && (forall i, j :: 0 <= i < j < |node| && node[i].next != -1 ==> node[i].next != node[j].next)
    && (forall i :: 0 <= i < |node| ==> Finite(node, i))
    && (forall i :: 0 <= i < |node| && node[i].key == NilKey ==> node[i] == UNUSED)
    && (forall j :: 0 <= j < |node| && node[j].key == NilKey ==> Unlinked(node, j))
  }

  /** No chain leads to `n`. */
  ghost predicate Unlinked(node: seq<Node>, n: int) {
    forall i :: 0 <= i < |node| ==> node[i].next != n
  }

  /** Every key in use is on the chain through its main position, which a key of that main position occupies. */
  ghost predicate Homed(hash: Key -> nat, node: seq<Node>, i: nat)
    requires i < |node|
  {
    var m := Main(hash, node[i].key, |node|);
    node[m].key != NilKey && Main(hash, node[m].key, |node|) == m && Reaches(node, m, i)
  }

  predicate UniqueKeys(node: seq<Node>) {
    forall i, j :: 0 <= i < j < |node| && node[i].key != NilKey ==> node[i].key != node[j].key
  }

  ghost predicate Hashed(hash: Key -> nat, node: seq<Node>) {
    && Linked(node) && UniqueKeys(node)
    && (forall i :: 0 <= i < |node| && node[i].key != NilKey ==> node[i].key != NaN && Homed(hash, node, i))
  }

  // ---------------------------------------------------------------- paths

  lemma {:induction false} PathSplits(node: seq<Node>, q: int, p: int, k: nat, m: nat)
    requires Path(node, q, p, k) && Ends(node, q, m)
    ensures k < m && Ends(node, p, m - k)
    decreases k
  {
    if k > 0 {
      PathSplits(node, node[q].next, p, k - 1, m - 1);
    }
  }

  lemma {:induction false} EndsOnce(node: seq<Node>, q: int, k: nat, m: nat)
    requires Ends(node, q, k) && Ends(node, q, m)
    ensures k == m
    decreases k
  {
    if k > 0 && m > 0 {
      EndsOnce(node, node[q].next, k - 1, m - 1);
    }
  }

  /** A chain never comes back to where it was. */
  lemma Acyclic(node: seq<Node>, q: int, k: nat)
    requires Linked(node) && 0 <= q < |node| && Path(node, q, q, k)
    ensures k == 0
  {
    assert Finite(node, q);
    var m: nat :| Ends(node, q, m);
    PathSplits(node, q, q, k, m);
    EndsOnce(node, q, m, m - k);
  }

  /** A change that leaves the links alone leaves the paths alone. */
  ghost predicate SameLinks(node: seq<Node>, node': seq<Node>) {
    |node'| == |node| && forall i :: 0 <= i < |node| ==> node'[i].next == node[i].next
  }

  lemma {:induction false} SamePath(node: seq<Node>, node': seq<Node>, q: int, p: int, k: nat)
    requires SameLinks(node, node') && Path(node, q, p, k)
    ensures Path(node', q, p, k)
    decreases k
  {
    if k > 0 {
      SamePath(node, node', node[q].next, p, k - 1);
    }
  }

  lemma {:induction false} SameEnds(node: seq<Node>, node': seq<Node>, q: int, k: nat)
    requires SameLinks(node, node') && Ends(node, q, k)
    ensures Ends(node', q, k)
    decreases k
  {
    if k > 0 {
      SameEnds(node, node', node[q].next, k - 1);
    }
  }

  lemma SameChains(node: seq<Node>, node': seq<Node>)
    requires SameLinks(node, node')
    ensures forall q, p :: Reaches(node, q, p) ==> Reaches(node', q, p)
    ensures forall q :: Finite(node, q) ==> Finite(node', q)
  {
    forall q, p | Reaches(node, q, p) ensures Reaches(node', q, p) {
      var k: nat :| Path(node, q, p, k);
      SamePath(node, node', q, p, k);
    }
    forall q | Finite(node, q) ensures Finite(node', q) {
      var k: nat :| Ends(node, q, k);
      SameEnds(node, node', q, k);
    }
  }

  // ---------------------------------------------------------------- the three ways to place a key

  ghost predicate Fresh(node: seq<Node>, key: Key) {
    key != NilKey && key != NaN && forall i :: 0 <= i < |node| ==> node[i].key != key
  }

  /** The main position has no value: take the node over, links and all. */
  function TakeOver(node: seq<Node>, mp: nat, key: Key): seq<Node>
    requires mp < |node|
  {
    node[mp := node[mp].(key := key)]
  }

  lemma TakeOverKeeps(hash: Key -> nat, node: seq<Node>, mp: nat, key: Key)
    requires Hashed(hash, node) && mp < |node| && Main(hash, key, |node|) == mp && Fresh(node, key)
    ensures Hashed(hash, TakeOver(node, mp, key))
  {
    hide Main, Reaches, Finite;
    var node' := TakeOver(node, mp, key);
    SameChains(node, node');
    forall i | 0 <= i < |node| && node'[i].key != NilKey ensures Homed(hash, node', i) {
      if i == mp {
        HereAlready(node', mp);
      } else {
        assert Homed(hash, node, i);
      }
    }
  }

  /** The colliding key is at home: chain the free node `n` behind it. */
  function InsertAfter(node: seq<Node>, mp: nat, n: nat, key: Key): seq<Node>
    requires mp < |node| && n < |node|
  {
    node[n := Node(key, Nil, node[mp].next)][mp := node[mp].(next := n)]
  }

  lemma {:induction false} InsertPath(node: seq<Node>, mp: nat, n: nat, key: Key, q: int, p: int, k: nat)
    returns (k': nat)
    requires mp < |node| && n < |node| && n != mp && Unlinked(node, n)
    requires Path(node, q, p, k) && q != n
    ensures Path(InsertAfter(node, mp, n, key), q, p, k')
    decreases k
  {
    var node' := InsertAfter(node, mp, n, key);
    if k == 0 {
      k' := 0;
    } else {
      var j := InsertPath(node, mp, n, key, node[q].next, p, k - 1);
      k' := if q == mp then j + 2 else j + 1;
      if q == mp {
        assert node'[n].next == node[q].next;
        assert Path(node', n, p, j + 1);
      }
    }
  }

  lemma {:induction false} InsertEnds(node: seq<Node>, mp: nat, n: nat, key: Key, q: int, k: nat) returns (k': nat)
    requires mp < |node| && n < |node| && n != mp && Unlinked(node, n)
    requires Ends(node, q, k) && q != n
    ensures Ends(InsertAfter(node, mp, n, key), q, k')
    decreases k
  {
    var node' := InsertAfter(node, mp, n, key);
    if k == 0 {
      k' := 0;
    } else {
      var j := InsertEnds(node, mp, n, key, node[q].next, k - 1);
      k' := if q == mp then j + 2 else j + 1;
      if q == mp {
        assert node'[n].next == node[q].next;
        assert Ends(node', n, j + 1);
      }
    }
  }

  lemma InsertChains(node: seq<Node>, mp: nat, n: nat, key: Key)
    requires Linked(node) && mp < |node| && n < |node| && n != mp && node[n].key == NilKey
    ensures forall q, p :: q != n && Reaches(node, q, p) ==> Reaches(InsertAfter(node, mp, n, key), q, p)
    ensures forall q :: 0 <= q < |node| ==> Finite(InsertAfter(node, mp, n, key), q)
  {
    var node' := InsertAfter(node, mp, n, key);
    forall q, p | q != n && Reaches(node, q, p) ensures Reaches(node', q, p) {
      var k: nat :| Path(node, q, p, k);
      var k' := InsertPath(node, mp, n, key, q, p, k);
    }
    forall q | 0 <= q < |node| ensures Finite(node', q) {
      assert Finite(node, q) && Finite(node, mp);
      if q == n {
        var k: nat :| Ends(node, mp, k);
        var k' := InsertEnds(node, mp, n, key, node[mp].next, k - 1);
        assert Ends(node', n, k' + 1);
      } else {
        var k: nat :| Ends(node, q, k);
        var k' := InsertEnds(node, mp, n, key, q, k);
      }
    }
  }

  lemma InsertLinks(node: seq<Node>, mp: nat, n: nat, key: Key)
    requires Linked(node) && mp < |node| && n < |node| && n != mp && node[n].key == NilKey && node[mp].key != NilKey
    requires key != NilKey
    ensures Linked(InsertAfter(node, mp, n, key))
  {
    hide Finite;
    InsertChains(node, mp, n, key);
    var node' := InsertAfter(node, mp, n, key);
    forall j | 0 <= j < |node| && node'[j].key == NilKey ensures Unlinked(node', j) {
      assert Unlinked(node, j);
    }
  }

  lemma InsertAfterKeeps(hash: Key -> nat, node: seq<Node>, mp: nat, n: nat, key: Key)
    requires Hashed(hash, node) && mp < |node| && n < |node| && n != mp && node[n].key == NilKey
    requires node[mp].key != NilKey && Main(hash, node[mp].key, |node|) == mp
    requires Main(hash, key, |node|) == mp && Fresh(node, key)
    ensures Hashed(hash, InsertAfter(node, mp, n, key))
  {
    hide Main, Reaches, Finite;
    var node' := InsertAfter(node, mp, n, key);
    InsertChains(node, mp, n, key);
    InsertLinks(node, mp, n, key);
    hide Linked;
    forall i | 0 <= i < |node| && node'[i].key != NilKey ensures Homed(hash, node', i) {
      if i == n {
        OneStep(node', mp);
      } else {
        assert Homed(hash, node, i);
      }
    }
  }

  lemma OneStep(node: seq<Node>, q: nat)
    requires q < |node| && 0 <= node[q].next < |node|
    ensures Reaches(node, q, node[q].next) && Reaches(node, q, q)
  {
    assert Path(node, node[q].next, node[q].next, 0);
    assert Path(node, q, node[q].next, 1);
    assert Path(node, q, q, 0);
  }

  /** The colliding key is away from home: move it to the free node `n` and take its place. */
  function MoveAway(node: seq<Node>, mp: nat, n: nat, pred: nat, key: Key): seq<Node>
    requires mp < |node| && n < |node| && pred < |node|
  {
    node[pred := node[pred].(next := n)][n := node[mp]][mp := Node(key, Nil, -1)]
  }

  ghost predicate Movable(node: seq<Node>, mp: nat, n: nat, pred: nat) {
    && Linked(node) && mp < |node| && n < |node| && pred < |node|
    && node[n].key == NilKey && node[mp].key != NilKey && node[pred].next == mp
  }

  lemma MovableApart(node: seq<Node>, mp: nat, n: nat, pred: nat)
    requires Movable(node, mp, n, pred)
    ensures Apart(node, mp, n, pred)
  {
    if node[mp].next == mp {
      OneStep(node, mp);
      assert Path(node, mp, mp, 1);
      Acyclic(node, mp, 1);
    }
  }

  /** What of `Movable` the paths depend on. */
  ghost predicate Apart(node: seq<Node>, mp: nat, n: nat, pred: nat) {
    && mp < |node| && n < |node| && pred < |node| && pred != mp && pred != n && mp != n
    && node[pred].next == mp && node[mp].next != mp && Unlinked(node, n)
    && forall i :: 0 <= i < |node| && node[i].next == mp ==> i == pred
  }

  lemma {:induction false} MovePath(node: seq<Node>, mp: nat, n: nat, pred: nat, key: Key, q: int, p: int, k: nat)
    requires Apart(node, mp, n, pred) && Path(node, q, p, k) && q != mp && q != n
    ensures Path(MoveAway(node, mp, n, pred, key), q, if p == mp then n else p, k)
    decreases k
  {
    var node' := MoveAway(node, mp, n, pred, key);
    if k > 0 {
      if node[q].next == mp {
        assert q == pred;
        if k > 1 {
          MovePath(node, mp, n, pred, key, node[mp].next, p, k - 2);
        }
        assert Path(node', n, if p == mp then n else p, k - 1);
      } else {
        MovePath(node, mp, n, pred, key, node[q].next, p, k - 1);
      }
    }
  }

  lemma {:induction false} MoveEnds(node: seq<Node>, mp: nat, n: nat, pred: nat, key: Key, q: int, k: nat)
    requires Apart(node, mp, n, pred) && Ends(node, q, k) && q != mp && q != n
    ensures Ends(MoveAway(node, mp, n, pred, key), q, k)
    decreases k
  {
    var node' := MoveAway(node, mp, n, pred, key);
    if k > 0 {
      if node[q].next == mp {
        assert q == pred && k > 1;
        MoveEnds(node, mp, n, pred, key, node[mp].next, k - 2);
        assert Ends(node', n, k - 1);
      } else {
        MoveEnds(node, mp, n, pred, key, node[q].next, k - 1);
      }
    }
  }

  lemma MoveChains(node: seq<Node>, mp: nat, n: nat, pred: nat, key: Key)
    requires Movable(node, mp, n, pred)
    ensures var node' := MoveAway(node, mp, n, pred, key);
            && (forall q, p :: q != mp && q != n && Reaches(node, q, p) ==> Reaches(node', q, if p == mp then n else p))
            && (forall q :: 0 <= q < |node| ==> Finite(node', q))
  {
    var node' := MoveAway(node, mp, n, pred, key);
    MovableApart(node, mp, n, pred);
    forall q, p | q != mp && q != n && Reaches(node, q, p) ensures Reaches(node', q, if p == mp then n else p) {
      var k: nat :| Path(node, q, p, k);
      MovePath(node, mp, n, pred, key, q, p, k);
    }
    forall q | 0 <= q < |node| ensures Finite(node', q) {
      assert Finite(node, q) && Finite(node, mp);
      var k: nat :| Ends(node, if q == n then mp else q, k);
      if q == mp {
        assert Ends(node', -1, 0);
        assert Ends(node', mp, 1);
      } else if q == n {
        MoveEnds(node, mp, n, pred, key, node[mp].next, k - 1);
        assert Ends(node', n, k);
      } else {
        MoveEnds(node, mp, n, pred, key, q, k);
      }
    }
  }

  lemma MoveLinks(node: seq<Node>, mp: nat, n: nat, pred: nat, key: Key)
    requires Movable(node, mp, n, pred) && key != NilKey
    ensures Linked(MoveAway(node, mp, n, pred, key))
  {
    hide Finite;
    MovableApart(node, mp, n, pred);
    MoveChains(node, mp, n, pred, key);
    var node' := MoveAway(node, mp, n, pred, key);
    forall j | 0 <= j < |node| && node'[j].key == NilKey ensures Unlinked(node', j) {
      assert Unlinked(node, j);
    }
  }

  lemma MoveUnique(node: seq<Node>, mp: nat, n: nat, pred: nat, key: Key)
    requires UniqueKeys(node) && Apart(node, mp, n, pred) && Fresh(node, key) && node[n].key == NilKey
    ensures UniqueKeys(MoveAway(node, mp, n, pred, key))
  {
  }

  lemma MoveHomed(hash: Key -> nat, node: seq<Node>, mp: nat, n: nat, pred: nat, key: Key, i: nat)
    requires Hashed(hash, node) && Movable(node, mp, n, pred) && Main(hash, node[mp].key, |node|) != mp
    requires Main(hash, key, |node|) == mp && Fresh(node, key)
    requires i < |node| && MoveAway(node, mp, n, pred, key)[i].key != NilKey
    ensures Homed(hash, MoveAway(node, mp, n, pred, key), i)
  {
    hide Main, Reaches, Finite, Linked, UniqueKeys;
    var node' := MoveAway(node, mp, n, pred, key);
    MovableApart(node, mp, n, pred);
    MoveChains(node, mp, n, pred, key);
    if i == mp {
      HereAlready(node', mp);
    } else {
      assert Homed(hash, node, if i == n then mp else i);
    }
  }

  lemma MoveAwayKeeps(hash: Key -> nat, node: seq<Node>, mp: nat, n: nat, pred: nat, key: Key)
    requires Hashed(hash, node) && Movable(node, mp, n, pred) && Main(hash, node[mp].key, |node|) != mp
    requires Main(hash, key, |node|) == mp && Fresh(node, key)
    ensures Hashed(hash, MoveAway(node, mp, n, pred, key))
  {
    hide Main, Homed, Linked, UniqueKeys;
    var node' := MoveAway(node, mp, n, pred, key);
    MovableApart(node, mp, n, pred);
    MoveLinks(node, mp, n, pred, key);
    MoveUnique(node, mp, n, pred, key);
    forall i | 0 <= i < |node| && node'[i].key != NilKey ensures Homed(hash, node', i) {
      MoveHomed(hash, node, mp, n, pred, key, i);
    }
  }

  lemma HereAlready(node: seq<Node>, q: nat)
    requires q < |node|
    ensures Reaches(node, q, q)
  {
    assert Path(node, q, q, 0);
  }

  // ---------------------------------------------------------------- what the nodes hold

  ghost predicate Holds(node: seq<Node>, k: Key, v: nat) {
    exists i :: 0 <= i < |node| && node[i].key == k && node[i].val == Val(v)
  }

  function Live(node: seq<Node>): map<Key, nat> {
    if node == [] then map[] else
    var m, x := Live(node[..|node| - 1]), node[|node| - 1];
    if x.val == Nil then m else m[x.key := x.val.v]
  }

  lemma {:induction false} LiveHolds(node: seq<Node>, k: Key, v: nat)
    requires UniqueKeys(node) && k != NilKey
    ensures k in Live(node) && Live(node)[k] == v <==> Holds(node, k, v)
  {
    if node != [] {
      var shorter := node[..|node| - 1];
      LiveHolds(shorter, k, v);
      assert forall i :: 0 <= i < |shorter| ==> shorter[i] == node[i];
    }
  }

  lemma {:induction false} LiveNotNil(node: seq<Node>)
    requires forall i :: 0 <= i < |node| && node[i].key == NilKey ==> node[i].val == Nil
    ensures NilKey !in Live(node)
  {
    if node != [] {
      LiveNotNil(node[..|node| - 1]);
    }
  }

  ghost predicate Proper(node: seq<Node>) {
    UniqueKeys(node) && forall i :: 0 <= i < |node| && node[i].key == NilKey ==> node[i].val == Nil
  }

  lemma SameHoldsSameLive(node: seq<Node>, node': seq<Node>)
    requires Proper(node) && Proper(node')
    requires forall k, v :: Holds(node, k, v) <==> Holds(node', k, v)
    ensures Live(node) == Live(node')
  {
    LiveNotNil(node);
    LiveNotNil(node');
    forall k | k in Live(node) ensures k in Live(node') && Live(node')[k] == Live(node)[k] {
      LiveHolds(node, k, Live(node)[k]);
      LiveHolds(node', k, Live(node)[k]);
    }
    forall k | k in Live(node') ensures k in Live(node) {
      LiveHolds(node, k, Live(node')[k]);
      LiveHolds(node', k, Live(node')[k]);
    }
  }

  function Store(node: seq<Node>, i: nat, v: Value): seq<Node>
    requires i < |node|
  {
    node[i := node[i].(val := v)]
  }

  lemma StoreKeeps(hash: Key -> nat, node: seq<Node>, i: nat, v: Value)
    requires Hashed(hash, node) && i < |node| && node[i].key != NilKey
    ensures Hashed(hash, Store(node, i, v))
  {
    hide Main, Reaches, Finite;
    var node' := Store(node, i, v);
    SameChains(node, node');
    forall j | 0 <= j < |node| && node'[j].key != NilKey ensures Homed(hash, node', j) {
      assert Homed(hash, node, j);
    }
    forall j | 0 <= j < |node| && node'[j].key == NilKey ensures Unlinked(node', j) {
      assert Unlinked(node, j);
    }
  }

  function Updated(m: map<Key, nat>, k: Key, v: Value): map<Key, nat> {
    if v == Nil then m - {k} else m[k := v.v]
  }

  lemma StoreLive(node: seq<Node>, i: nat, v: Value)
    requires Proper(node) && i < |node| && node[i].key != NilKey
    ensures Live(Store(node, i, v)) == Updated(Live(node), node[i].key, v)
  {
    var node' := Store(node, i, v);
    var key := node[i].key;
    LiveNotNil(node);
    LiveNotNil(node');
    var m, m' := Updated(Live(node), key, v), Live(node');
    forall k | k in m ensures k in m' && m'[k] == m[k] {
      StoreHolds(node, i, v, k, m[k]);
      LiveHolds(node, k, m[k]);
      LiveHolds(node', k, m[k]);
    }
    forall k | k in m' ensures k in m {
      StoreHolds(node, i, v, k, m'[k]);
      LiveHolds(node, k, m'[k]);
      LiveHolds(node', k, m'[k]);
    }
  }

  lemma StoreHolds(node: seq<Node>, i: nat, v: Value, k: Key, x: nat)
    requires Proper(node) && i < |node| && node[i].key != NilKey
    ensures Holds(Store(node, i, v), k, x) <==> if k == node[i].key then v == Val(x) else Holds(node, k, x)
  {
    var node' := Store(node, i, v);
    if Holds(node, k, x) && k != node[i].key {
      var j :| 0 <= j < |node| && node[j].key == k && node[j].val == Val(x);
      assert node'[j] == node[j];
    }
    assert node'[i].key == node[i].key && node'[i].val == v;
  }

  /** None of the three ways to place a key changes what is held. */
  lemma TakeOverLive(node: seq<Node>, mp: nat, key: Key)
    requires Proper(node) && mp < |node| && node[mp].val == Nil && Fresh(node, key)
    ensures Live(TakeOver(node, mp, key)) == Live(node)
  {
    var node' := TakeOver(node, mp, key);
    forall k, v ensures Holds(node, k, v) <==> Holds(node', k, v) {
      if i :| 0 <= i < |node| && node[i].key == k && node[i].val == Val(v) { assert node'[i] == node[i]; }
      if i :| 0 <= i < |node| && node'[i].key == k && node'[i].val == Val(v) { assert node'[i] == node[i]; }
    }
    SameHoldsSameLive(node, node');
  }

  lemma InsertAfterLive(node: seq<Node>, mp: nat, n: nat, key: Key)
    requires Proper(node) && mp < |node| && n < |node| && n != mp && node[n].key == NilKey && Fresh(node, key)
    ensures Live(InsertAfter(node, mp, n, key)) == Live(node)
  {
    var node' := InsertAfter(node, mp, n, key);
    forall k, v ensures Holds(node, k, v) <==> Holds(node', k, v) {
      if i :| 0 <= i < |node| && node[i].key == k && node[i].val == Val(v) {
        assert node'[i].key == k && node'[i].val == Val(v);
      }
      if i :| 0 <= i < |node| && node'[i].key == k && node'[i].val == Val(v) {
        assert node[i].key == k && node[i].val == Val(v);
      }
    }
    SameHoldsSameLive(node, node');
  }

  lemma MoveAwayLive(node: seq<Node>, mp: nat, n: nat, pred: nat, key: Key)
    requires Proper(node) && mp < |node| && n < |node| && pred < |node| && mp != n && pred != n && pred != mp
    requires node[n].key == NilKey && node[mp].key != NilKey && Fresh(node, key)
    ensures Live(MoveAway(node, mp, n, pred, key)) == Live(node)
  {
    var node' := MoveAway(node, mp, n, pred, key);
    forall k, v ensures Holds(node, k, v) <==> Holds(node', k, v) {
      if i :| 0 <= i < |node| && node[i].key == k && node[i].val == Val(v) {
        var j := if i == mp then n else i;
        assert node'[j].key == k && node'[j].val == Val(v);
      }
      if i :| 0 <= i < |node| && node'[i].key == k && node'[i].val == Val(v) {
        var j := if i == n then mp else i;
        assert node[j].key == k && node[j].val == Val(v);
      }
    }
    SameHoldsSameLive(node, node');
  }

  /** Nodes may be gone through from the last to the first. */
  lemma {:induction false} LivePrepend(x: Node, rest: seq<Node>)
    requires UniqueKeys([x] + rest) && (x.key == NilKey ==> x.val == Nil)
    ensures Live([x] + rest) == if x.val == Nil then Live(rest) else Live(rest)[x.key := x.val.v]
    decreases |rest|
  {
    var all := [x] + rest;
    if rest == [] {
      assert all[..0] == [];
    } else {
      var y := rest[|rest| - 1];
      var shorter := rest[..|rest| - 1];
      assert all[..|all| - 1] == [x] + shorter && all[|all| - 1] == y;
      assert forall i :: 0 <= i < |shorter| + 1 ==> ([x] + shorter)[i] == all[i];
      LivePrepend(x, shorter);
      if x.val != Nil && y.val != Nil {
        var m: map<Key, nat> := Live(shorter);
        assert all[0].key != all[|all| - 1].key;
        assert m[x.key := x.val.v][y.key := y.val.v] == m[y.key := y.val.v][x.key := x.val.v];
      }
    }
  }

  lemma {:induction false} UnusedNodes(hash: Key -> nat, node: seq<Node>)
    requires forall i :: 0 <= i < |node| ==> node[i] == UNUSED
    ensures Hashed(hash, node) && Live(node) == map[] && Used(node) == {}
  {
    UsedKeys(node);
    NothingLive(node);
    forall i | 0 <= i < |node| ensures Finite(node, i) {
      assert Ends(node, -1, 0);
      assert Ends(node, i, 1);
    }
  }

  lemma {:induction false} NothingLive(node: seq<Node>)
    requires forall i :: 0 <= i < |node| ==> node[i] == UNUSED
    ensures Live(node) == map[]
  {
    if node != [] { NothingLive(node[..|node| - 1]); }
  }

  // ---------------------------------------------------------------- counting

  function Used(node: seq<Node>): set<Key> {
    if node == [] then {} else
    Used(node[..|node| - 1]) + if node[|node| - 1].key == NilKey then {} else {node[|node| - 1].key}
  }

  lemma {:induction false} UsedKeys(node: seq<Node>)
    ensures forall k :: k in Used(node) <==> k != NilKey && exists i :: 0 <= i < |node| && node[i].key == k
  {
    if node != [] {
      var shorter := node[..|node| - 1];
      UsedKeys(shorter);
      assert forall i :: 0 <= i < |shorter| ==> shorter[i] == node[i];
    }
  }

  /** With fewer keys than nodes some node is unused. */
  lemma {:induction false} RoomLeft(node: seq<Node>)
    requires UniqueKeys(node)
    ensures (forall i :: 0 <= i < |node| ==> node[i].key != NilKey) ==> |Used(node)| == |node|
  {
    if node != [] && node[|node| - 1].key != NilKey {
      var shorter := node[..|node| - 1];
      RoomLeft(shorter);
      UsedKeys(shorter);
      assert forall i :: 0 <= i < |shorter| ==> shorter[i] == node[i];
    }
  }

  lemma {:induction false} UsedBounded(node: seq<Node>)
    ensures |Used(node)| <= |node|
  {
    if node != [] {
      UsedBounded(node[..|node| - 1]);
    }
  }
}
