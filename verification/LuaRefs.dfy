/**
 References (`luaL_ref` and `luaL_unref` of `lauxlib.c`) in a table used for nothing else: cell 0
 heads a list of free cells that runs through the free cells themselves. The last of them is a hole.
 */
module LuaRefs {
  import opened LuaNodes
  import opened LuaTable

  const REFNIL := -1
  const FREELIST := 0

  /** `lua_tointeger` on what the free-list cells hold. */
  function ToInteger(v: Value): int { if v == Nil then 0 else v.v }

  /** Cell `i` of the table. */
  function Cell(m: map<Key, nat>, i: int): Value { Lookup(m, Number(i)) }

  /** From a cell that holds `link`, the free list goes through `holes`. */
  predicate Chained(m: map<Key, nat>, link: Value, holes: seq<int>)
    decreases |holes|
  {
    if holes == [] then link == Nil
    else holes[0] > 0 && link == Val(holes[0]) && Chained(m, Cell(m, holes[0]), holes[1..])
  }

  predicate Distinct(xs: seq<int>) {
    forall i, j :: 0 <= i < j < |xs| ==> xs[i] != xs[j]
  }

  /**
   The cells 1 to `top` are either live, and hold their value, or on the free list. There is
   nothing else in the table.
   */
  ghost predicate Allocated(m: map<Key, nat>, live: map<int, nat>, holes: seq<int>, top: nat) {
    && (forall r <- live :: 1 <= r <= top && Cell(m, r) == Val(live[r]) && r !in holes)
    && (forall r <- holes :: 1 <= r <= top) && Distinct(holes)
    && (forall i :: 1 <= i <= top ==> i in live || i in holes)
    && (forall i :: i > top ==> Cell(m, i) == Nil)
    && Chained(m, Cell(m, FREELIST), holes)
  }

  /** Cells that are not on the list do not matter to it. */
  lemma {:induction false} ChainedStays(m: map<Key, nat>, m': map<Key, nat>, link: Value, holes: seq<int>)
    requires Chained(m, link, holes) && forall r <- holes :: Cell(m', r) == Cell(m, r)
    ensures Chained(m', link, holes)
    decreases |holes|
  {
    if holes != [] {
      assert Cell(m', holes[0]) == Cell(m, holes[0]);
      ChainedStays(m, m', Cell(m, holes[0]), holes[1..]);
    }
  }

  /** Without free cells the table has one border, whichever way `luaH_getn` searches. */
  lemma OnlyBorder(m: map<Key, nat>, live: map<int, nat>, top: nat, b: nat)
    requires Allocated(m, live, [], top)
    ensures Border(m, b) <==> b == top
  {
    assert forall i :: 1 <= i <= top ==> Cell(m, i) != Nil;
    assert Cell(m, b) == Lookup(m, Number(b)) && Cell(m, b + 1) == Lookup(m, Number(b + 1));
  }

  lemma ReuseKeeps(m: map<Key, nat>, m1: map<Key, nat>, m2: map<Key, nat>, live: map<int, nat>, holes: seq<int>,
                   top: nat, v: nat)
    requires Allocated(m, live, holes, top) && holes != []
    requires m1 == Updated(m, Number(FREELIST), Cell(m, holes[0])) && m2 == Updated(m1, Number(holes[0]), Val(v))
    ensures Allocated(m2, live[holes[0] := v], holes[1..], top)
  {
    var r := holes[0];
    assert forall i: int :: i != r && i != FREELIST ==> Cell(m2, i) == Cell(m, i);
    assert Cell(m2, FREELIST) == Cell(m, r) && Cell(m2, r) == Val(v);
    assert holes == [r] + holes[1..];
    forall x | x in holes[1..] ensures x in holes && x != r && Cell(m2, x) == Cell(m, x) {}
    ChainedStays(m, m2, Cell(m, r), holes[1..]);
    var live' := live[r := v];
    assert r in holes && r !in holes[1..];
    forall x | x in live' ensures 1 <= x <= top && Cell(m2, x) == Val(live'[x]) && x !in holes[1..] {
      if x != r { assert x in live && x !in holes; }
    }
  }

  lemma ExtendKeeps(m: map<Key, nat>, m': map<Key, nat>, live: map<int, nat>, top: nat, v: nat)
    requires Allocated(m, live, [], top) && m' == Updated(m, Number(top + 1), Val(v))
    ensures Allocated(m', live[top + 1 := v], [], top + 1)
  {
    assert forall i: int :: i != top + 1 ==> Cell(m', i) == Cell(m, i);
  }

  lemma FreeKeeps(m: map<Key, nat>, m1: map<Key, nat>, m2: map<Key, nat>, live: map<int, nat>, holes: seq<int>,
                  top: nat, r: int)
    requires Allocated(m, live, holes, top) && r in live
    requires m1 == Updated(m, Number(r), Cell(m, FREELIST)) && m2 == Updated(m1, Number(FREELIST), Val(r))
    ensures Allocated(m2, live - {r}, [r] + holes, top)
  {
    assert forall i: int :: i != r && i != FREELIST ==> Cell(m2, i) == Cell(m, i);
    assert Cell(m2, FREELIST) == Val(r) && Cell(m2, r) == Cell(m, FREELIST);
    ChainedStays(m, m2, Cell(m, FREELIST), holes);
    assert ([r] + holes)[1..] == holes;
    assert forall i :: 0 < i < |[r] + holes| ==> ([r] + holes)[i] == holes[i - 1];
  }

  class References {
    const t: Table
    /** History: the live references with their values, the free list, and the highest cell ever used. */
    ghost var live: map<int, nat>
    ghost var holes: seq<int>
    ghost var top: nat

    ghost predicate Valid()
      reads this, t
    {
      t.Valid() && Allocated(t.Value(), live, holes, top)
    }

    constructor (hash: Key -> nat)
      ensures Valid() && live == map[] && fresh(t)
    {
      t := new Table(hash);
      live, holes, top := map[], [], 0;
    }

    /** `luaL_ref`: a reference that is not live, which now holds `v`. */
    method Ref(v: Value) returns (ref: int)
      requires Valid()
      modifies this, t
      ensures Valid()
      ensures v == Nil ==> ref == REFNIL && live == old(live)
      ensures v != Nil ==> ref >= 1 && ref !in old(live) && live == old(live)[ref := v.v]
    {
      hide Allocated, Updated, Table.Valid, Table.Value;
      if v == Nil {
        return REFNIL;
      }
      ghost var m := t.Value();
      var head := t.Get(Number(FREELIST));
      ref := ToInteger(head);
      HeadIsFree(m, live, holes, top);
      if ref != 0 {
        var next := t.Get(Number(ref));
        var _ := t.Set(Number(FREELIST), next);
        ghost var m1 := t.Value();
        var _ := t.Set(Number(ref), v);
        ReuseKeeps(m, m1, t.Value(), live, holes, top, v.v);
        live, holes := live[ref := v.v], holes[1..];
      } else {
        ref := t.GetN();
        OnlyBorder(m, live, top, ref);
        ref := ref + 1;
        var _ := t.Set(Number(ref), v);
        ExtendKeeps(m, t.Value(), live, top, v.v);
        live, top := live[ref := v.v], top + 1;
      }
    }

    /** `luaL_unref`: negative references are ignored. */
    method Unref(ref: int)
      requires Valid() && (ref >= 0 ==> ref in live)
      modifies this, t
      ensures Valid() && live == if ref >= 0 then old(live) - {ref} else old(live)
    {
      hide Allocated, Updated, Table.Valid, Table.Value;
      if ref >= 0 {
        ghost var m := t.Value();
        var head := t.Get(Number(FREELIST));
        var _ := t.Set(Number(ref), head);
        ghost var m1 := t.Value();
        var _ := t.Set(Number(FREELIST), Val(ref));
        FreeKeeps(m, m1, t.Value(), live, holes, top, ref);
        live, holes := live - {ref}, [ref] + holes;
      }
    }

    /** Reading a live reference (`lua_rawgeti`). */
    method Read(ref: int) returns (v: Value)
      requires Valid() && ref in live
      ensures v == Val(live[ref])
    {
      v := t.Get(Number(ref));
    }
  }

  lemma HeadIsFree(m: map<Key, nat>, live: map<int, nat>, holes: seq<int>, top: nat)
    requires Allocated(m, live, holes, top)
    ensures ToInteger(Cell(m, FREELIST)) == if holes == [] then 0 else holes[0]
    ensures holes != [] ==> holes[0] >= 1 && holes[0] !in live
    ensures forall r <- live :: r <= top
  {
  }
}
