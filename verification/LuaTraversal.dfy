/**
 Traversals of a table whose existing fields are changed or cleared on the way (`luaH_next`).

 The table may be different at every call, as long as only fields that it has were assigned to: then every
 key keeps its cell, which is what `LuaTable.Table.Set` says.
 */
module LuaTraversal {
  import opened LuaNodes
  import opened LuaTable

  /** The table as a call of `luaH_next` finds it. */
  datatype Shot = Shot(arr: seq<Value>, node: seq<Node>)

  ghost predicate Sane(t: Shot) {
    Proper(t.node) && Divided(t.arr, t.node)
  }

  /** What `LuaTable.Table.Next` returns for `key`. */
  ghost predicate Advances(t: Shot, key: Key, k: Key) {
    exists from, to :: AtIndex(t.arr, t.node, from, key) && StopsAt(t, from, to, k)
  }

  /** Call number `i` is made on `ts[i]` with the key that the call before it returned. */
  ghost predicate Traversal(ts: seq<Shot>, ks: seq<Key>) {
    && |ks| == |ts| + 1 && ks[0] == NilKey && (forall i :: 0 < i < |ts| ==> ks[i] != NilKey)
    && (forall i :: 0 <= i < |ts| ==> Sane(ts[i]) && Advances(ts[i], ks[i], ks[i + 1]))
    && (forall i, j :: 0 <= i < |ts| && 0 <= j < |ts| ==> SameCells(ts[i].arr, ts[i].node, ts[j].arr, ts[j].node))
  }

  /** A call that starts after cell `from` stops at cell `to` and returns `k`. */
  predicate StopsAt(t: Shot, from: int, to: int, k: Key) {
    FirstLive(t.arr, t.node, from, to) && k == KeyAt(t.arr, t.node, to)
  }

  /** The cells that the first calls stop at. */
  ghost predicate Stopped(ts: seq<Shot>, ks: seq<Key>, ps: seq<int>)
    requires |ks| == |ts| + 1
  {
    0 < |ps| <= |ks| && ps[0] == -1 && forall i :: 0 <= i < |ps| - 1 ==> StopsAt(ts[i], ps[i], ps[i + 1], ks[i + 1])
  }

  lemma OneCell(t: Shot, k: Key, i: int, j: int)
    requires Sane(t) && AtIndex(t.arr, t.node, i, k) && AtIndex(t.arr, t.node, j, k)
    ensures i == j
  {
    if k != NilKey && i < j { CellsDiffer(t.arr, t.node, i, j); }
    if k != NilKey && j < i { CellsDiffer(t.arr, t.node, j, i); }
  }

  /** A call stops at a cell in use, or at the end. */
  lemma StopsInUse(t: Shot, from: int, to: int, k: Key)
    requires Sane(t) && StopsAt(t, from, to, k)
    ensures from < to && (k == NilKey <==> to == |t.arr| + |t.node|)
    ensures k != NilKey ==> AtIndex(t.arr, t.node, to, k)
  {
    if to < |t.arr| + |t.node| { CellHeld(t.arr, t.node, to); }
  }

  lemma SameKey(t: Shot, t': Shot, i: int, k: Key)
    requires SameCells(t.arr, t.node, t'.arr, t'.node) && AtIndex(t.arr, t.node, i, k)
    ensures AtIndex(t'.arr, t'.node, i, k)
  {
  }

  lemma NextStop(ts: seq<Shot>, ks: seq<Key>, n: nat, p: int) returns (to: int)
    requires Traversal(ts, ks) && n < |ts| && AtIndex(ts[n].arr, ts[n].node, p, ks[n])
    ensures StopsAt(ts[n], p, to, ks[n + 1])
  {
    hide Sane, AtIndex, StopsAt, SameCells;
    var from, q :| AtIndex(ts[n].arr, ts[n].node, from, ks[n]) && StopsAt(ts[n], from, q, ks[n + 1]);
    OneCell(ts[n], ks[n], from, p);
    to := q;
  }

  lemma {:induction false} Stops(ts: seq<Shot>, ks: seq<Key>, n: nat) returns (ps: seq<int>)
    requires Traversal(ts, ks) && n <= |ts|
    ensures Stopped(ts, ks, ps) && |ps| == n + 1
    decreases n
  {
    hide Sane, StopsAt, SameCells, Advances;
    if n == 0 {
      return [-1];
    }
    ps := Stops(ts, ks, n - 1);
    if n > 1 {
      StopsInUse(ts[n - 2], ps[n - 2], ps[n - 1], ks[n - 1]);
      SameKey(ts[n - 2], ts[n - 1], ps[n - 1], ks[n - 1]);
    }
    var to := NextStop(ts, ks, n - 1, ps[n - 1]);
    ps := ps + [to];
  }

  lemma {:induction false} Increasing(ts: seq<Shot>, ks: seq<Key>, ps: seq<int>, a: nat, b: nat)
    requires |ks| == |ts| + 1 && Stopped(ts, ks, ps) && a < b < |ps|
    ensures ps[a] < ps[b]
    decreases b
  {
    assert StopsAt(ts[b - 1], ps[b - 1], ps[b], ks[b]);
    if a < b - 1 { Increasing(ts, ks, ps, a, b - 1); }
  }

  /** No key is met twice, whatever is cleared on the way. */
  lemma ChangedTraversalRepeatsNothing(ts: seq<Shot>, ks: seq<Key>, a: nat, b: nat)
    requires Traversal(ts, ks) && 0 < a < b < |ks|
    ensures ks[a] != ks[b]
  {
    hide Proper, Divided, SameCells;
    var ps := Stops(ts, ks, |ts|);
    Increasing(ts, ks, ps, a, b);
    StopsInUse(ts[a - 1], ps[a - 1], ps[a], ks[a]);
    SameKey(ts[a - 1], ts[b - 1], ps[a], ks[a]);
    StopsInUse(ts[b - 1], ps[b - 1], ps[b], ks[b]);
    if ks[b] != NilKey { CellsDiffer(ts[b - 1].arr, ts[b - 1].node, ps[a], ps[b]); }
  }

  /** Every key that is met has a value at that time. */
  lemma MetKeysAreThere(ts: seq<Shot>, ks: seq<Key>, i: nat)
    requires Traversal(ts, ks) && i < |ts| && ks[i + 1] != NilKey
    ensures ks[i + 1] in Held(ts[i].arr, ts[i].node)
  {
    hide Held;
    var ps := Stops(ts, ks, |ts|);
    StopsInUse(ts[i], ps[i], ps[i + 1], ks[i + 1]);
    CellHeld(ts[i].arr, ts[i].node, ps[i + 1]);
  }

  /** The key of the last call still has its cell at the next, so that no traversal is broken off by an error. */
  lemma MetKeysKeepTheirCells(ts: seq<Shot>, ks: seq<Key>, t: Shot)
    requires Traversal(ts, ks) && ts != [] && SameCells(ts[|ts| - 1].arr, ts[|ts| - 1].node, t.arr, t.node)
    ensures ks[|ts|] == NilKey || HasCell(t.arr, t.node, ks[|ts|])
  {
    var ps := Stops(ts, ks, |ts|);
    var last := ts[|ts| - 1];
    if ks[|ts|] != NilKey && ps[|ts|] >= |last.arr| {
      assert t.node[ps[|ts|] - |last.arr|].key == ks[|ts|];
    }
  }

  lemma {:induction false} Crossed(ps: seq<int>, c: int) returns (i: nat)
    requires |ps| > 1 && ps[0] < c <= ps[|ps| - 1]
    ensures i + 1 < |ps| && ps[i] < c <= ps[i + 1]
  {
    if ps[|ps| - 2] < c {
      return |ps| - 2;
    }
    i := Crossed(ps[..|ps| - 1], c);
  }

  lemma CellOf(t: Shot, k: Key) returns (c: nat)
    requires Sane(t) && k in Held(t.arr, t.node)
    ensures c < |t.arr| + |t.node| && CellKey(t.arr, t.node, c) == k != NilKey
  {
    hide Held;
    TraversalIsComplete(t.arr, t.node, k);
    RemainingFrom(t.arr, t.node, 0, k);
    c :| 0 <= c < |t.arr| + |t.node| && CellKey(t.arr, t.node, c) == k && CellValue(t.arr, t.node, c) != Nil;
    CellHeld(t.arr, t.node, c);
  }

  /** Existing fields are among those that may be assigned to. */
  lemma FieldsHaveCells(t: Shot, k: Key)
    requires Sane(t) && k in Held(t.arr, t.node)
    ensures HasCell(t.arr, t.node, k)
  {
    hide Held, Proper;
    var c := CellOf(t, k);
    assert c >= |t.arr| ==> t.node[c - |t.arr|].key == k;
  }

  /** A traversal that comes to its end has met every key that had a value all the time. */
  lemma ChangedTraversalIsComplete(ts: seq<Shot>, ks: seq<Key>, k: Key)
    requires Traversal(ts, ks) && ts != [] && ks[|ts|] == NilKey
    requires forall i :: 0 <= i < |ts| ==> k in Held(ts[i].arr, ts[i].node)
    ensures k in ks
  {
    hide Held, Proper, Divided, SameCells;
    var ps := Stops(ts, ks, |ts|);
    StopsInUse(ts[|ts| - 1], ps[|ts| - 1], ps[|ts|], ks[|ts|]);
    var c := CellOf(ts[|ts| - 1], k);
    var i := Crossed(ps, c);
    SameKey(ts[|ts| - 1], ts[i], c, k);
    StopsInUse(ts[i], ps[i], ps[i + 1], ks[i + 1]);
    CellHeld(ts[i].arr, ts[i].node, c);
    assert ps[i + 1] == c && ks[i + 1] == k;
  }
}
