/**
 The objects that Lua's collector manages (`lgc.c`, `lfunc.c`), their references and colours.

 Closures and prototypes are traversed alike and are one kind here. An open upvalue has its value in
 a slot of its thread's stack. A table entry whose value is nil holds no reference, since its key may
 be dead. The weak mode of a table is what its metatable says at the moment.
 */
module LuaHeap {
  datatype Val = Nil | Plain | Ref(o: nat)

  datatype Entry = Entry(key: Val, val: Val)

  datatype Body =
    | Str
    | Udata(meta: Val, env: Val, hasGc: bool, finalized: bool)
    | Closed(value: Val)
    | Open(thread: nat, level: nat)
    | Code(refs: seq<Val>)
    | Tab(meta: Val, arr: seq<Val>, entries: seq<Entry>, weakKeys: bool, weakValues: bool)
    | Thread(globals: Val, stack: seq<Val>)

  datatype Color = White(which: bool) | Gray | Black

  datatype Obj = Obj(color: Color, body: Body)

  type Heap = map<nat, Obj>

  predicate Listable(b: Body) { b.Code? || b.Tab? || b.Thread? }

  predicate IsWeak(b: Body) { b.Tab? && (b.weakKeys || b.weakValues) }

  // ---------------------------------------------------------------- references

  function EntryVals(es: seq<Entry>, keys: bool, vals: bool): seq<Val> {
    if es == [] then [] else
    (if es[0].val == Nil then [] else (if keys then [es[0].key] else []) + if vals then [es[0].val] else [])
      + EntryVals(es[1..], keys, vals)
  }

  /** The stack slot of an open upvalue. */
  function Slot(h: Heap, t: nat, l: nat): Val {
    if t in h && h[t].body.Thread? && l < |h[t].body.stack| then h[t].body.stack[l] else Nil
  }

  /** All values an object holds. */
  function AllVals(h: Heap, b: Body): seq<Val> {
    match b
    case Str => []
    case Udata(m, e, _, _) => [m, e]
    case Closed(v) => [v]
    case Open(t, l) => [Slot(h, t, l)]
    case Code(refs) => refs
    case Tab(m, arr, es, _, _) => [m] + arr + EntryVals(es, true, true)
    case Thread(g, st) => [g] + st
  }

  /** The values the collector follows. */
  function StrongVals(h: Heap, b: Body): seq<Val> {
    match b
    case Tab(m, arr, es, wk, wv) => [m] + (if wv then [] else arr) + EntryVals(es, !wk, !wv)
    case _ => AllVals(h, b)
  }

  /** The value is in a field of the object: what the program can get at. */
  predicate Mentions(h: Heap, b: Body, v: Val) {
    match b
    case Str => false
    case Udata(m, e, _, _) => v == m || v == e
    case Closed(x) => v == x
    case Open(t, l) =>
      v == if t in h && h[t].body.Thread? && l < |h[t].body.stack| then h[t].body.stack[l] else Nil
    case Code(refs) => exists i :: 0 <= i < |refs| && refs[i] == v
    case Tab(m, arr, es, _, _) =>
      || v == m || (exists i :: 0 <= i < |arr| && arr[i] == v)
      || exists i :: 0 <= i < |es| && es[i].val != Nil && (es[i].key == v || es[i].val == v)
    case Thread(g, st) => v == g || exists i :: 0 <= i < |st| && st[i] == v
  }

  /** The same without the weak fields of a table. */
  predicate MentionsStrongly(h: Heap, b: Body, v: Val) {
    match b
    case Tab(m, arr, es, wk, wv) =>
      || v == m || (!wv && exists i :: 0 <= i < |arr| && arr[i] == v)
      || exists i :: 0 <= i < |es| && es[i].val != Nil && ((!wk && es[i].key == v) || (!wv && es[i].val == v))
    case _ => Mentions(h, b, v)
  }

  lemma ValsAreFields(h: Heap, b: Body, v: Val)
    ensures v in AllVals(h, b) <==> Mentions(h, b, v)
    ensures v in StrongVals(h, b) <==> MentionsStrongly(h, b, v)
  {
    if b.Tab? {
      hide Mentions, MentionsStrongly;
      TableFields(h, b, v);
    }
  }

  lemma TableFields(h: Heap, b: Body, v: Val)
    requires b.Tab?
    ensures v in AllVals(h, b) <==> Mentions(h, b, v)
    ensures v in StrongVals(h, b) <==> MentionsStrongly(h, b, v)
  {
    hide EntryVals;
    EntryValsFrom(b.entries, true, true, v);
    EntryValsFrom(b.entries, !b.weakKeys, !b.weakValues, v);
    var all, strong := EntryVals(b.entries, true, true), EntryVals(b.entries, !b.weakKeys, !b.weakValues);
    assert v in [b.meta] + b.arr + all <==> v == b.meta || v in b.arr || v in all;
    assert v in [b.meta] + (if b.weakValues then [] else b.arr) + strong <==>
           v == b.meta || (!b.weakValues && v in b.arr) || v in strong;
  }

  predicate Nonwhite(h: Heap, o: nat) { o in h && !h[o].color.White? }

  /** Every object among the values is marked. */
  predicate Marked(h: Heap, vs: seq<Val>) {
    forall v <- vs :: v.Ref? ==> Nonwhite(h, v.o)
  }

  // ---------------------------------------------------------------- marking

  /** Marking only turns white objects into gray or black ones. */
  ghost predicate Marks(h: Heap, h': Heap) {
    && h'.Keys == h.Keys
    && forall o <- h ::
         h'[o].body == h[o].body && (h'[o].color == h[o].color || (h[o].color.White? && !h'[o].color.White?))
  }

  lemma MarksTransitive(h: Heap, h1: Heap, h2: Heap)
    requires Marks(h, h1) && Marks(h1, h2)
    ensures Marks(h, h2)
  {
  }

  lemma MarksKeep(h: Heap, h': Heap, b: Body)
    requires Marks(h, h')
    ensures AllVals(h', b) == AllVals(h, b) && StrongVals(h', b) == StrongVals(h, b)
    ensures forall vs :: Marked(h, vs) ==> Marked(h', vs)
  {
  }

  /** What a newly marked object looks like when the marking is over. */
  predicate Settled(h: Heap, gray: seq<nat>, o: nat)
    requires o in h
  {
    match h[o].body
    case Str => h[o].color == Gray
    case Udata(_, _, _, _) => h[o].color == Black && Marked(h, AllVals(h, h[o].body))
    case Closed(_) => h[o].color == Black && Marked(h, AllVals(h, h[o].body))
    case Open(_, _) => h[o].color == Gray && Marked(h, AllVals(h, h[o].body))
    case _ => h[o].color == Gray && o in gray
  }

  predicate Distinct(xs: seq<nat>) { forall i, j :: 0 <= i < j < |xs| ==> xs[i] != xs[j] }

  /** A round of marking: what was white and is no more is settled; only such objects have joined the list. */
  ghost predicate Round(h: Heap, gray: seq<nat>, h': Heap, gray': seq<nat>) {
    && Marks(h, h')
    && (forall o <- h :: h[o].color.White? && !h'[o].color.White? ==> Settled(h', gray', o))
    && |gray'| >= |gray| && gray'[|gray'| - |gray|..] == gray
    && (forall i :: 0 <= i < |gray'| - |gray| ==>
       gray'[i] in h && h[gray'[i]].color.White? && h'[gray'[i]].color == Gray && Listable(h[gray'[i]].body))
    && Distinct(gray'[..|gray'| - |gray|])
  }

  lemma RoundNothing(h: Heap, gray: seq<nat>)
    ensures Round(h, gray, h, gray)
  {
  }

  lemma StaysSettled(h: Heap, gray: seq<nat>, h': Heap, gray': seq<nat>, o: nat)
    requires Round(h, gray, h', gray') && o in h && Settled(h, gray, o)
    ensures Settled(h', gray', o)
  {
    MarksKeep(h, h', h[o].body);
    if o in gray {
      var i :| 0 <= i < |gray| && gray[i] == o;
      assert gray'[|gray'| - |gray|..][i] == gray'[i + |gray'| - |gray|];
    }
  }

  lemma RoundsCompose(h: Heap, gray: seq<nat>, h1: Heap, gray1: seq<nat>, h2: Heap, gray2: seq<nat>)
    requires Round(h, gray, h1, gray1) && Round(h1, gray1, h2, gray2)
    ensures Round(h, gray, h2, gray2)
  {
    MarksTransitive(h, h1, h2);
    forall o | o in h && h[o].color.White? && !h2[o].color.White? ensures Settled(h2, gray2, o) {
      if !h1[o].color.White? { StaysSettled(h1, gray1, h2, gray2, o); }
    }
    var n1, n2 := |gray1| - |gray|, |gray2| - |gray1|;
    assert gray2[n2..][n1..] == gray2[n1 + n2..];
    forall i | 0 <= i < n1 + n2
      ensures gray2[i] in h && h[gray2[i]].color.White? && h2[gray2[i]].color == Gray && Listable(h[gray2[i]].body)
              && (i >= n2 ==> gray2[i] == gray1[i - n2])
    {
      if i >= n2 { assert gray2[i] == gray2[n2..][i - n2]; }
    }
    forall i, j | 0 <= i < j < n1 + n2 ensures gray2[i] != gray2[j] {
      if j < n2 {
        assert gray2[..n2][i] != gray2[..n2][j];
      } else if i >= n2 {
        assert gray1[..n1][i - n2] != gray1[..n1][j - n2];
      } else {
        assert h1[gray2[i]].color.White? && !h1[gray1[j - n2]].color.White?;
      }
    }
  }

  function Paint(h: Heap, o: nat, c: Color): Heap
    requires o in h
  {
    h[o := h[o].(color := c)]
  }

  /** Nothing dangles. */
  predicate Whole(h: Heap) {
    forall o <- h :: forall v <- AllVals(h, h[o].body) :: v.Ref? ==> v.o in h
  }

  lemma MarksWhole(h: Heap, h': Heap)
    requires Marks(h, h') && Whole(h)
    ensures Whole(h')
  {
    forall o, v | o in h' && v in AllVals(h', h'[o].body) && v.Ref? ensures v.o in h' {
      MarksKeep(h, h', h[o].body);
    }
  }

  lemma PaintKeeps(h: Heap, o: nat, c: Color)
    requires o in h
    ensures forall b :: AllVals(Paint(h, o, c), b) == AllVals(h, b)
    ensures Whole(h) ==> Whole(Paint(h, o, c))
  {
    var h' := Paint(h, o, c);
    forall b ensures AllVals(h', b) == AllVals(h, b) {
      assert forall t, l :: Slot(h', t, l) == Slot(h, t, l);
    }
    if Whole(h) {
      forall p, v | p in h' && v in AllVals(h', h'[p].body) && v.Ref? ensures v.o in h' {
        assert v in AllVals(h, h[p].body);
      }
    }
  }

  function Whites(h: Heap): set<nat> { set o | o in h && h[o].color.White? }

  lemma {:induction false} Fewer(a: set<nat>, b: set<nat>)
    requires a <= b
    ensures |a| <= |b| && (a != b ==> |a| < |b|)
  {
    if a != {} {
      var x :| x in a;
      Fewer(a - {x}, b - {x});
    }
  }

  lemma MarksFewer(h: Heap, h': Heap)
    requires Marks(h, h')
    ensures |Whites(h')| <= |Whites(h)|
  {
    Fewer(Whites(h'), Whites(h));
  }

  /** The first step of marking `o`: it is white no more. */
  lemma RoundFrom(h: Heap, gray: seq<nat>, o: nat, c: Color, h': Heap, gray': seq<nat>)
    requires o in h && h[o].color.White? && !c.White?
    requires Round(Paint(h, o, c), gray, h', gray') && Settled(h', gray', o)
    ensures Round(h, gray, h', gray')
  {
    var h1 := Paint(h, o, c);
    forall p | p in h && h[p].color.White? && !h'[p].color.White? ensures Settled(h', gray', p) {
      if p != o { assert h1[p] == h[p]; }
    }
    forall i | 0 <= i < |gray'| - |gray|
      ensures gray'[i] in h && h[gray'[i]].color.White? && Listable(h[gray'[i]].body) {
      assert h1[gray'[i]].color.White?;
    }
  }

  /** A gray object turns black at the end of the round that marked its values. */
  lemma RoundBlackens(h: Heap, gray: seq<nat>, o: nat, h': Heap, gray': seq<nat>)
    requires o in h && h[o].color.White? && h[o].body.Closed?
    requires Round(Paint(h, o, Gray), gray, h', gray') && Marked(h', AllVals(h', h[o].body))
    ensures Round(h, gray, Paint(h', o, Black), gray')
  {
    var h1, h2 := Paint(h, o, Gray), Paint(h', o, Black);
    PaintKeeps(h', o, Black);
    assert forall vs :: Marked(h', vs) ==> Marked(h2, vs);
    forall p | p in h && h[p].color.White? && !h2[p].color.White? ensures Settled(h2, gray', p) {
      if p != o {
        assert h1[p] == h[p];
        assert Settled(h', gray', p);
      }
    }
    forall i | 0 <= i < |gray'| - |gray|
      ensures gray'[i] in h && h[gray'[i]].color.White? && Listable(h[gray'[i]].body) && h2[gray'[i]].color == Gray
    {
      assert h1[gray'[i]].color.White?;
    }
  }

  // ---------------------------------------------------------------- the tri-colour invariant

  /**
   While marking: no black object holds a reference to a white one (objects that wait for their
   finalizer are exempt until the end of the marking), and every gray object is on exactly one of the
   lists, except strings and open upvalues, which are on none.
   */
  ghost predicate Tri(h: Heap, gray: seq<nat>, again: seq<nat>, weak: seq<nat>, tmu: seq<nat>) {
    && (forall o <- h :: h[o].color == Black && o !in tmu ==> Marked(h, AllVals(h, h[o].body)))
    && (forall o <- h :: h[o].color == Gray ==> Listable(h[o].body) || h[o].body.Str? || h[o].body.Open?)
    && (forall o <- h :: h[o].color == Black ==> !h[o].body.Open? && !h[o].body.Thread?)
    && (forall o <- h :: h[o].color == Gray && Listable(h[o].body) ==> o in gray || o in again || o in weak)
    && (forall o :: o in gray || o in again || o in weak ==> o in h && h[o].color == Gray && Listable(h[o].body))
    && Distinct(gray + again + weak)
  }

  lemma RoundKeepsTri(h: Heap, gray: seq<nat>, h': Heap, gray': seq<nat>, again: seq<nat>, weak: seq<nat>,
                      tmu: seq<nat>)
    requires Tri(h, gray, again, weak, tmu) && Round(h, gray, h', gray')
    ensures Tri(h', gray', again, weak, tmu)
  {
    RoundLists(h, gray, h', gray', again, weak);
    forall o | o in h' && h'[o].color == Black && o !in tmu ensures Marked(h', AllVals(h', h'[o].body)) {
      MarksKeep(h, h', h[o].body);
      if !h[o].color.White? { assert Marked(h, AllVals(h, h[o].body)); } else { assert Settled(h', gray', o); }
    }
    forall o | o in h' && h'[o].color == Black ensures !h'[o].body.Open? && !h'[o].body.Thread? {
      if h[o].color.White? { assert Settled(h', gray', o); }
    }
    forall o | o in h' && h'[o].color == Gray
      ensures (Listable(h'[o].body) || h'[o].body.Str? || h'[o].body.Open?)
              && (Listable(h'[o].body) ==> o in gray' || o in again || o in weak)
    {
      if h[o].color.White? { assert Settled(h', gray', o); }
    }
  }

  lemma RoundLists(h: Heap, gray: seq<nat>, h': Heap, gray': seq<nat>, again: seq<nat>, weak: seq<nat>)
    requires Round(h, gray, h', gray') && Distinct(gray + again + weak)
    requires forall o :: o in gray || o in again || o in weak ==> o in h && h[o].color == Gray && Listable(h[o].body)
    ensures forall o :: o in gray ==> o in gray'
    ensures forall o :: o in gray' || o in again || o in weak ==> o in h' && h'[o].color == Gray && Listable(h'[o].body)
    ensures Distinct(gray' + again + weak)
  {
    var n := |gray'| - |gray|;
    var new' := gray'[..n];
    assert gray' == new' + gray;
    var old', all := gray + again + weak, gray' + again + weak;
    assert all == new' + old';
    forall i, j | 0 <= i < j < |all| ensures all[i] != all[j] {
      if j < n {
        assert new'[i] != new'[j];
      } else if i >= n {
        assert old'[i - n] != old'[j - n];
      } else {
        assert old'[j - n] in gray || old'[j - n] in again || old'[j - n] in weak;
        assert new'[i] == gray'[i];
      }
    }
    forall o | o in gray' ensures o in h' && h'[o].color == Gray && Listable(h'[o].body) {
      var i :| 0 <= i < |gray'| && gray'[i] == o;
      if i >= n { assert gray[i - n] == o; }
    }
  }

  lemma DistinctMove(o: nat, xs: seq<nat>, ys: seq<nat>, zs: seq<nat>)
    requires Distinct([o] + xs + ys + zs)
    ensures Distinct(xs + ys + zs) && o !in xs && o !in ys && o !in zs
    ensures Distinct(xs + ([o] + ys) + zs) && Distinct(xs + ys + ([o] + zs))
  {
    var rest := xs + ys + zs;
    assert [o] + xs + ys + zs == [o] + rest;
    DistinctTail(o, rest);
    assert forall x :: x in xs || x in ys || x in zs ==> x in rest;
    DistinctInsert(o, xs, ys + zs);
    DistinctInsert(o, xs + ys, zs);
    assert xs + (ys + zs) == rest && xs + ([o] + (ys + zs)) == xs + ([o] + ys) + zs;
  }

  lemma DistinctTail(o: nat, rest: seq<nat>)
    requires Distinct([o] + rest)
    ensures Distinct(rest) && o !in rest
  {
    var all := [o] + rest;
    forall i | 0 <= i < |rest| ensures rest[i] != o { assert all[0] != all[i + 1]; }
    forall i, j | 0 <= i < j < |rest| ensures rest[i] != rest[j] { assert all[i + 1] != all[j + 1]; }
  }

  lemma DistinctInsert(o: nat, a: seq<nat>, b: seq<nat>)
    requires o !in a && o !in b
    ensures Distinct(a + b) <==> Distinct(a + ([o] + b))
  {
    var c, d := a + b, a + ([o] + b);
    if Distinct(c) {
      forall i, j | 0 <= i < j < |d| ensures d[i] != d[j] {
        var i', j' := if i < |a| then i else i - 1, if j < |a| then j else j - 1;
        if i != |a| && j != |a| { assert c[i'] != c[j']; }
      }
    }
    if Distinct(d) {
      forall i, j | 0 <= i < j < |c| ensures c[i] != c[j] {
        assert d[if i < |a| then i else i + 1] != d[if j < |a| then j else j + 1];
      }
    }
  }

  /** A traversed object turns black. */
  lemma BlackenedTri(h: Heap, o: nat, rest: seq<nat>, h': Heap, gray': seq<nat>, again: seq<nat>, weak: seq<nat>,
                     tmu: seq<nat>)
    requires Tri(h, [o] + rest, again, weak, tmu) && o in h && !h[o].body.Thread?
    requires Round(Paint(h, o, Black), rest, h', gray') && Marked(h', AllVals(h', h[o].body))
    ensures Tri(h', gray', again, weak, tmu)
  {
    assert [o] + rest + again + weak == [o] + (rest + again + weak);
    DistinctMove(o, rest, again, weak);
    PaintKeeps(h, o, Black);
    var h1 := Paint(h, o, Black);
    assert Tri(h1, rest, again, weak, tmu + [o]) by {
      forall p | p in h1 && h1[p].color == Black && p !in tmu + [o] ensures Marked(h1, AllVals(h1, h1[p].body)) {
        assert p != o && p !in tmu;
        assert Marked(h, AllVals(h, h[p].body));
      }
      forall p | p in rest || p in again || p in weak ensures p in h1 && h1[p].color == Gray && Listable(h1[p].body) {
        assert p in [o] + rest || p in again || p in weak;
      }
      forall p | p in h1 && h1[p].color == Gray && Listable(h1[p].body) ensures p in rest || p in again || p in weak {
        assert p in [o] + rest || p in again || p in weak;
      }
    }
    RoundKeepsTri(h1, rest, h', gray', again, weak, tmu + [o]);
    forall p | p in h' && h'[p].color == Black && p !in tmu ensures Marked(h', AllVals(h', h'[p].body)) {
      if p != o { assert p !in tmu + [o]; }
    }
  }

  /** A thread stays gray and waits for the end of the marking. */
  lemma KeptTri(h: Heap, o: nat, rest: seq<nat>, h': Heap, gray': seq<nat>, again: seq<nat>, weak: seq<nat>,
                tmu: seq<nat>)
    requires Tri(h, [o] + rest, again, weak, tmu) && Round(h, rest, h', gray')
    ensures Tri(h', gray', [o] + again, weak, tmu)
  {
    assert [o] + rest + again + weak == [o] + (rest + again + weak);
    DistinctMove(o, rest, again, weak);
    assert o in [o] + rest;
    assert Tri(h, rest, [o] + again, weak, tmu) by {
      forall p | p in rest || p in [o] + again || p in weak
        ensures p in h && h[p].color == Gray && Listable(h[p].body) {
        assert p in [o] + rest || p in again || p in weak;
      }
    }
    RoundKeepsTri(h, rest, h', gray', [o] + again, weak, tmu);
  }

  lemma KeptWeakTri(h: Heap, o: nat, rest: seq<nat>, h': Heap, gray': seq<nat>, again: seq<nat>, weak: seq<nat>,
                    tmu: seq<nat>)
    requires Tri(h, [o] + rest, again, weak, tmu) && Round(h, rest, h', gray')
    ensures Tri(h', gray', again, [o] + weak, tmu)
  {
    assert [o] + rest + again + weak == [o] + (rest + again + weak);
    DistinctMove(o, rest, again, weak);
    assert o in [o] + rest;
    assert Tri(h, rest, again, [o] + weak, tmu) by {
      forall p | p in rest || p in again || p in [o] + weak
        ensures p in h && h[p].color == Gray && Listable(h[p].body) {
        assert p in [o] + rest || p in again || p in weak;
      }
    }
    RoundKeepsTri(h, rest, h', gray', again, [o] + weak, tmu);
  }

  // ---------------------------------------------------------------- the end of the marking

  /** Colours only get darker. */
  ghost predicate Darkens(h: Heap, h': Heap) {
    && h'.Keys == h.Keys
    && forall o <- h ::
         h'[o].body == h[o].body && (h'[o].color == h[o].color || (h[o].color.White? && !h'[o].color.White?)
         || (h[o].color == Gray && h'[o].color == Black))
  }

  lemma DarkensTransitive(h: Heap, h1: Heap, h2: Heap)
    requires Darkens(h, h1) && Darkens(h1, h2)
    ensures Darkens(h, h2)
  {
  }

  lemma DarkensKeeps(h: Heap, h': Heap, b: Body)
    requires Darkens(h, h')
    ensures AllVals(h', b) == AllVals(h, b) && StrongVals(h', b) == StrongVals(h, b)
    ensures forall vs :: Marked(h, vs) ==> Marked(h', vs)
  {
  }

  /** What the collector follows from `o` is marked. */
  predicate Done(h: Heap, o: nat) {
    o in h && Marked(h, StrongVals(h, h[o].body))
  }

  lemma StaysDone(h: Heap, h': Heap, o: nat)
    requires Darkens(h, h') && Done(h, o)
    ensures Done(h', o)
  {
    DarkensKeeps(h, h', h[o].body);
  }

  /** The value of every marked open upvalue is marked. */
  ghost predicate UpvaluesDone(h: Heap) {
    forall o <- h :: h[o].body.Open? && !h[o].color.White? ==> Marked(h, AllVals(h, h[o].body))
  }

  lemma RoundKeepsUpvalues(h: Heap, gray: seq<nat>, h': Heap, gray': seq<nat>)
    requires Round(h, gray, h', gray') && UpvaluesDone(h)
    ensures UpvaluesDone(h')
  {
    forall o | o in h' && h'[o].body.Open? && !h'[o].color.White? ensures Marked(h', AllVals(h', h'[o].body)) {
      MarksKeep(h, h', h[o].body);
      if h[o].color.White? { assert Settled(h', gray', o); }
    }
  }

  /** A userdatum that nothing refers to and whose finalizer has not been called. */
  predicate ToFinalize(h: Heap, o: nat) {
    o in h && h[o].color.White? && h[o].body.Udata? && h[o].body.hasGc && !h[o].body.finalized
  }

  predicate FlaggedWhite(x: Obj, b: Body) {
    x.color.White? && x.body.Udata? && b == x.body.(finalized := true)
  }

  /** White userdata may be flagged as finalized; nothing else changes. */
  ghost predicate Relabels(h: Heap, h': Heap) {
    && h'.Keys == h.Keys
    && forall o <- h :: h'[o].color == h[o].color && (h'[o].body == h[o].body || FlaggedWhite(h[o], h'[o].body))
  }

  /** Those of `us` that are to be finalized, in their order. */
  function Picked(h: Heap, us: seq<nat>): seq<nat> {
    if us == [] then [] else
    var rest, o := us[..|us| - 1], us[|us| - 1];
    Picked(h, rest) + if ToFinalize(h, o) && o !in rest then [o] else []
  }

  /** `xs` is left of `us` after some have been taken out. */
  predicate Subsequence(xs: seq<nat>, us: seq<nat>) {
    if xs == [] || us == [] then xs == []
    else var rest := us[..|us| - 1];
      (xs[|xs| - 1] == us[|us| - 1] && Subsequence(xs[..|xs| - 1], rest)) || Subsequence(xs, rest)
  }

  lemma {:induction false} PickedInOrder(h: Heap, us: seq<nat>)
    ensures Subsequence(Picked(h, us), us)
  {
    if us != [] {
      PickedInOrder(h, us[..|us| - 1]);
      var rest, o := us[..|us| - 1], us[|us| - 1];
      assert (Picked(h, rest) + [o])[..|Picked(h, rest)|] == Picked(h, rest);
      if Picked(h, us) == Picked(h, rest) { assert Subsequence(Picked(h, us), rest); }
    }
  }

  /** What `luaC_separateudata` has done after going through the userdata `us`. */
  ghost predicate Separated(h: Heap, us: seq<nat>, tmu: seq<nat>, h': Heap, kept: seq<nat>, tmu': seq<nat>) {
    && Relabels(h, h')
    && (forall o :: o in kept || o in tmu' <==> o in us || o in tmu)
    && (forall o :: o in tmu' <==> o in tmu || (o in us && ToFinalize(h, o)))
    && tmu' == tmu + Picked(h, us)
    && (forall o <- us :: o in h' && h'[o].body.Udata? && (h'[o].color.White? ==> h'[o].body.finalized))
    && forall o <- h :: o !in us ==> h'[o] == h[o]
  }

  lemma SeparatedNone(h: Heap, tmu: seq<nat>)
    ensures Separated(h, [], tmu, h, [], tmu)
  {
    assert tmu + [] == tmu;
  }

  lemma SeparateOne(h: Heap, us: seq<nat>, tmu: seq<nat>, h1: Heap, kept: seq<nat>, tmu1: seq<nat>, o: nat)
    requires Separated(h, us, tmu, h1, kept, tmu1) && o in h1 && h1[o].body.Udata?
    ensures var b := h1[o].body;
            if !h1[o].color.White? || b.finalized then Separated(h, us + [o], tmu, h1, kept + [o], tmu1)
            else var h2 := h1[o := h1[o].(body := b.(finalized := true))];
              Relabels(h1, h2) && if b.hasGc then Separated(h, us + [o], tmu, h2, kept, tmu1 + [o])
                else Separated(h, us + [o], tmu, h2, kept + [o], tmu1)
  {
    PickedOne(h, us, o);
    hide Picked;
    assert tmu + (Picked(h, us) + [o]) == tmu1 + [o] && tmu + (Picked(h, us) + []) == tmu1;
    assert o !in us ==> h1[o] == h[o];
    assert o in us ==> !h1[o].color.White? || h1[o].body.finalized;
  }

  lemma PickedOne(h: Heap, us: seq<nat>, o: nat)
    ensures Picked(h, us + [o]) == Picked(h, us) + if ToFinalize(h, o) && o !in us then [o] else []
  {
    assert (us + [o])[..|us|] == us;
  }

  lemma RelabelsKeep(h: Heap, h': Heap, o: nat)
    requires Relabels(h, h') && o in h
    ensures AllVals(h', h'[o].body) == AllVals(h, h[o].body) && StrongVals(h', h'[o].body) == StrongVals(h, h[o].body)
    ensures forall vs :: Marked(h', vs) <==> Marked(h, vs)
    ensures Listable(h'[o].body) == Listable(h[o].body) && IsWeak(h'[o].body) == IsWeak(h[o].body)
  {
    assert forall t, l :: Slot(h', t, l) == Slot(h, t, l);
  }

  lemma RelabelsKeepTri(h: Heap, h': Heap, gray: seq<nat>, again: seq<nat>, weak: seq<nat>, tmu: seq<nat>,
                        tmu': seq<nat>)
    requires Tri(h, gray, again, weak, tmu) && Relabels(h, h') && forall o <- tmu :: o in tmu'
    ensures Tri(h', gray, again, weak, tmu')
  {
    forall o | o in h'
      ensures h'[o].color == Black && o !in tmu' ==> Marked(h', AllVals(h', h'[o].body))
      ensures Listable(h'[o].body) == Listable(h[o].body)
    {
      RelabelsKeep(h, h', o);
    }
  }

  lemma RelabelsWhole(h: Heap, h': Heap)
    requires Relabels(h, h') && Whole(h)
    ensures Whole(h')
  {
    forall o, v | o in h' && v in AllVals(h', h'[o].body) && v.Ref? ensures v.o in h' { RelabelsKeep(h, h', o); }
  }

  /** Marking a userdatum that waits for its finalizer, whatever its colour was. */
  lemma RemarkTri(h: Heap, gray: seq<nat>, again: seq<nat>, weak: seq<nat>, tmu: seq<nat>, u: nat, w: bool, h': Heap,
                  gray': seq<nat>)
    requires Tri(h, gray, again, weak, tmu) && u in h && h[u].body.Udata?
    requires Round(Paint(h, u, White(w)), gray, h', gray') && Nonwhite(h', u)
    ensures Tri(h', gray', again, weak, tmu) && Darkens(h, h') && h'[u].color == Black
            && Marked(h', AllVals(h', h'[u].body))
  {
    var h1 := Paint(h, u, White(w));
    PaintKeeps(h, u, White(w));
    assert Settled(h', gray', u);
    RoundLists(h1, gray, h', gray', again, weak);
    forall o | o in h' && o != u
      ensures h'[o].color == Black && o !in tmu ==> Marked(h', AllVals(h', h'[o].body))
      ensures h'[o].color == Black ==> !h'[o].body.Open? && !h'[o].body.Thread?
      ensures h'[o].color == Gray ==> Listable(h'[o].body) || h'[o].body.Str? || h'[o].body.Open?
      ensures h'[o].color == Gray && Listable(h'[o].body) ==> o in gray' || o in again || o in weak
    {
      MarksKeep(h1, h', h[o].body);
      if h1[o].color.White? && !h'[o].color.White? {
        assert Settled(h', gray', o);
      } else if h'[o].color == Black && o !in tmu {
        assert Marked(h, AllVals(h, h[o].body));
      }
    }
  }

  // ---------------------------------------------------------------- weak tables

  /** `iscleared`: strings are never removed, and finalized userdata not from keys. */
  predicate IsCleared(h: Heap, v: Val, isKey: bool) {
    v.Ref? && v.o in h && !h[v.o].body.Str?
    && (h[v.o].color.White? || (h[v.o].body.Udata? && !isKey && h[v.o].body.finalized))
  }

  function ClearedArray(h: Heap, arr: seq<Val>): seq<Val> {
    seq(|arr|, i requires 0 <= i < |arr| => if IsCleared(h, arr[i], false) then Nil else arr[i])
  }

  function ClearedEntries(h: Heap, es: seq<Entry>): seq<Entry> {
    seq(|es|, i requires 0 <= i < |es| =>
      if es[i].val != Nil && (IsCleared(h, es[i].key, true) || IsCleared(h, es[i].val, false)) then Entry(Plain, Nil)
        else es[i])
  }

  function ClearedBody(h: Heap, b: Body): Body
    requires b.Tab?
  {
    b.(arr := if b.weakValues then ClearedArray(h, b.arr) else b.arr, entries := ClearedEntries(h, b.entries))
  }

  lemma {:induction false} EntryValsFrom(es: seq<Entry>, keys: bool, vals: bool, v: Val)
    ensures v in EntryVals(es, keys, vals) <==>
            exists i :: 0 <= i < |es| && es[i].val != Nil && ((keys && v == es[i].key) || (vals && v == es[i].val))
  {
    if es != [] {
      EntryValsFrom(es[1..], keys, vals, v);
      assert forall i :: 0 <= i < |es| - 1 ==> es[1..][i] == es[i + 1];
      if i :| 0 <= i < |es| && es[i].val != Nil && ((keys && v == es[i].key) || (vals && v == es[i].val)) {
        if i > 0 { assert es[1..][i - 1] == es[i]; }
      }
    }
  }

  /** After clearing, a table refers to strings and marked objects only. */
  lemma ClearedVals(h: Heap, b: Body, v: Val)
    requires b.Tab? && Marked(h, StrongVals(h, b)) && v in AllVals(h, ClearedBody(h, b)) && v.Ref? && v.o in h
    ensures v in AllVals(h, b) && (Nonwhite(h, v.o) || h[v.o].body.Str?)
  {
    var b' := ClearedBody(h, b);
    EntryValsFrom(b'.entries, true, true, v);
    EntryValsFrom(b.entries, true, true, v);
    EntryValsFrom(b.entries, !b.weakKeys, !b.weakValues, v);
    assert v == b.meta ==> v in StrongVals(h, b);
    assert v in b.arr && !b.weakValues ==> v in StrongVals(h, b);
    assert v in EntryVals(b.entries, !b.weakKeys, !b.weakValues) ==> v in StrongVals(h, b);
  }

  /** Strings may be marked and tables lose entries; nothing else changes. */
  ghost predicate Trims(h: Heap, h': Heap) {
    && h'.Keys == h.Keys
    && forall o <- h ::
         && (h'[o].color == h[o].color || (h[o].body.Str? && h[o].color.White? && h'[o].color == Gray))
         && (h'[o].body == h[o].body || (h[o].body.Tab? && h'[o].body.Tab?))
  }

  lemma TrimsTransitive(h: Heap, h1: Heap, h2: Heap)
    requires Trims(h, h1) && Trims(h1, h2)
    ensures Trims(h, h2)
  {
  }

  lemma TrimsKeep(h: Heap, h': Heap, b: Body)
    requires Trims(h, h')
    ensures AllVals(h', b) == AllVals(h, b) && StrongVals(h', b) == StrongVals(h, b)
    ensures forall vs :: Marked(h, vs) ==> Marked(h', vs)
  {
  }

  /** Only weak entries go, and only those with a key or value that is not marked or has been finalized. */
  predicate Clearing(h: Heap, b: Body, b': Body) {
    && IsWeak(b) && b'.Tab? && b'.meta == b.meta && b'.weakKeys == b.weakKeys && b'.weakValues == b.weakValues
    && |b'.arr| == |b.arr| && |b'.entries| == |b.entries|
    && (forall i :: 0 <= i < |b.arr| ==>
       b'.arr[i] == b.arr[i] || (b.weakValues && b'.arr[i] == Nil && IsCleared(h, b.arr[i], false)))
    && (forall i :: 0 <= i < |b.entries| ==>
       b'.entries[i] == b.entries[i] || (b'.entries[i].val == Nil && EntryCleared(h, b.entries[i])))
  }

  predicate EntryCleared(h: Heap, e: Entry) {
    e.val != Nil && (IsCleared(h, e.key, true) || IsCleared(h, e.val, false))
  }

  /** What the end of the marking does to bodies: userdata may be flagged, and weak tables be cleared. */
  predicate Kept(h: Heap, b: Body, b': Body) {
    b' == b || (b.Udata? && b' == b.(finalized := true)) || Clearing(h, b, b')
  }

  ghost predicate Flagged(h: Heap, h': Heap) {
    h'.Keys == h.Keys && forall o <- h ::
        h'[o].body == h[o].body || (h[o].body.Udata? && h'[o].body == h[o].body.(finalized := true))
  }

  ghost predicate AllCleared(h: Heap, h': Heap) {
    h'.Keys == h.Keys && forall o <- h :: h'[o].body == h[o].body || Clearing(h', h[o].body, h'[o].body)
  }

  lemma StillCleared(h: Heap, h': Heap, b: Body, b': Body)
    requires Trims(h, h') && Clearing(h, b, b')
    ensures Clearing(h', b, b')
  {
    assert forall v, k :: IsCleared(h, v, k) ==> IsCleared(h', v, k);
    assert forall e :: EntryCleared(h, e) ==> EntryCleared(h', e);
  }

  /** One table more has been cleared. */
  lemma ClearsOne(h: Heap, h1: Heap, h2: Heap, h': Heap, o: nat)
    requires AllCleared(h, h1) && Trims(h1, h2) && (forall p <- h1 :: h2[p].body == h1[p].body)
    requires o in h1 && h1[o].body == h[o].body && IsWeak(h[o].body)
    requires h' == h2[o := h2[o].(body := ClearedBody(h1, h1[o].body))]
    ensures AllCleared(h, h')
  {
    assert Trims(h1, h');
    var b := h[o].body;
    assert Clearing(h1, b, ClearedBody(h1, b)) by {
      assert forall i :: 0 <= i < |b.entries| ==>
        EntryCleared(h1, b.entries[i]) || ClearedBody(h1, b).entries[i] == b.entries[i];
    }
    forall p | p in h ensures h'[p].body == h[p].body || Clearing(h', h[p].body, h'[p].body) {
      if p == o {
        StillCleared(h1, h', b, h'[o].body);
      } else if h1[p].body != h[p].body {
        StillCleared(h1, h', h[p].body, h1[p].body);
      }
    }
  }

  lemma KeptAll(h: Heap, h1: Heap, h': Heap)
    requires Flagged(h, h1) && AllCleared(h1, h')
    ensures h'.Keys == h.Keys && forall o <- h :: Kept(h', h[o].body, h'[o].body)
  {
  }
}
