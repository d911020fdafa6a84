/**
 Lua's incremental tri-colour collector (`lgc.c`) together with the steps of the running program that
 touch its objects (`lfunc.c`, `lstring.c` and the write barriers). Every public method of `Collector`
 is one such step, and they may come in any order.

 An operand of a step of the program has to be alive, which every object the program can get at is.
 */
module LuaGc {
  import opened LuaHeap
  import opened LuaGcFirm
  import opened LuaGcState
  import opened LuaGcSteps
  import opened LuaGcRuns
  import opened LuaGcReach

  class Collector {
    const main: nat
    var running: nat
    var registry: Val
    var mt: seq<Val>
    var heap: Heap
    var phase: Phase
    var white: bool
    var gray: seq<nat>
    var grayagain: seq<nat>
    var weak: seq<nat>
    var tmudata: seq<nat>
    /** All open upvalues (`uvhead`), and the userdata behind the main thread on the list of objects. */
    var open: seq<nat>
    var udata: seq<nat>
    var unswept: set<nat>
    /** A set of objects that marking is shown to stay within; no step looks at it. */
    ghost var reach: set<nat>

    /** The state as a value. */
    function Now(): State
      reads this
    {
      State(main, running, registry, mt, heap, phase, white, gray, grayagain, weak, tmudata, open, udata, unswept)
    }

    ghost predicate Valid()
      reads this
    {
      Inv(Now())
    }

    /** `lua_newstate`: the main thread `m`, the registry `r` and the table of globals `t`. */
    constructor (m: nat, r: nat, t: nat)
      requires m != r && m != t && r != t
      ensures Valid() && phase == Pause && running == main == m && heap.Keys == {m, r, t}
    {
      InitialInv(m, r, t);
      main, running, registry, mt := m, m, Ref(r), [];
      heap := map[m := Obj(White(false), Thread(Ref(t), [])), r := Obj(White(false), Tab(Nil, [], [], false, false)),
                  t := Obj(White(false), Tab(Nil, [], [], false, false))];
      phase, white := Pause, false;
      gray, grayagain, weak, tmudata, open, udata, unswept := [], [], [], [], [], [], {};
      new;
      hide Inv;
      assert Now() == Initial(m, r, t);
    }

    /** `reallymarkobject`. */
    method ReallyMark(o: nat)
      requires o in heap && heap[o].color.White? && Whole(heap)
      modifies this`heap, this`gray
      ensures Round(old(heap), old(gray), heap, gray) && Nonwhite(heap, o)
      ensures Confines(old(heap), reach) && o in reach ==> Confines(heap, reach)
      decreases |Whites(heap)|, 1
    {
      hide Confines, Round, Settled, Whole;
      ghost var h, g := heap, gray;
      PaintKeeps(h, o, Gray);
      MarkInside(h, o, Gray, reach);
      heap := Paint(heap, o, Gray);
      assert |Whites(heap)| < |Whites(h)| by { Fewer(Whites(heap), Whites(h)); assert o in Whites(h); }
      match heap[o].body {
        case Str =>
          StringMarked(h, g, o);
        case Udata(meta, env, _, _) =>
          PaintKeeps(h, o, Black);
          MarkInside(h, o, Black, reach);
          assert Whites(Paint(h, o, Black)) == Whites(heap);
          heap := Paint(heap, o, Black);
          ghost var h1 := heap;
          assert h1 == Paint(h, o, Black);
          UdataThere(h1, o);
          MarkVal(meta);
          ghost var h2, g2 := heap, gray;
          RoundMarks(h1, g, h2, g2);
          MarksWhole(h1, h2);
          MarksFewer(h1, h2);
          MarkVal(env);
          UdataMarked(h, g, o, h2, g2, heap, gray);
        case Closed(v) =>
          SlotOrValue(heap, o);
          MarkVal(v);
          UpvalueMarked(h, g, o, heap, gray);
          MarkInside(heap, o, Black, reach);
          heap := Paint(heap, o, Black);
        case Open(t, l) =>
          SlotOrValue(heap, o);
          MarkVal(Slot(heap, t, l));
          UpvalueMarked(h, g, o, heap, gray);
        case _ =>
          gray := [o] + gray;
          Listed(h, g, o);
      }
    }

    /** `markvalue` and `markobject`. */
    method MarkVal(v: Val)
      requires Whole(heap) && (v.Ref? ==> v.o in heap)
      modifies this`heap, this`gray
      ensures Round(old(heap), old(gray), heap, gray) && Marked(heap, [v])
      ensures Confines(old(heap), reach) && AllIn([v], reach) ==> Confines(heap, reach)
      decreases |Whites(heap)|, 2
    {
      hide Confines;
      assert v in [v];
      if v.Ref? && heap[v.o].color.White? {
        ReallyMark(v.o);
      } else {
        RoundNothing(heap, gray);
      }
    }

    method MarkVals(vs: seq<Val>)
      requires Whole(heap) && forall v <- vs :: v.Ref? ==> v.o in heap
      modifies this`heap, this`gray
      ensures Round(old(heap), old(gray), heap, gray) && Marked(heap, vs)
      ensures Confines(old(heap), reach) && AllIn(vs, reach) ==> Confines(heap, reach)
    {
      hide Round, Marks, Whole, Confines;
      ghost var h, g := heap, gray;
      RoundNothing(h, g);
      var i := 0;
      while i < |vs|
        invariant 0 <= i <= |vs| && Round(h, g, heap, gray) && Marked(heap, vs[..i]) && Whole(heap)
                  && heap.Keys == h.Keys
        invariant Confines(h, reach) && AllIn(vs, reach) ==> Confines(heap, reach)
      {
        ghost var h1, g1 := heap, gray;
        MarkVal(vs[i]);
        RoundMarks(h1, g1, heap, gray);
        RoundsCompose(h, g, h1, g1, heap, gray);
        MarksWhole(h1, heap);
        MarksKeep(h1, heap, Str);
        assert vs[..i + 1] == vs[..i] + [vs[i]];
        i := i + 1;
      }
      assert vs[..i] == vs;
    }

    /**
     `propagatemark`: traverse one gray object. Threads and weak tables stay gray, the former to be
     traversed again at the end and the latter to be cleared then.
     */
    method PropagateMark()
      requires Whole(heap) && Tri(heap, gray, grayagain, weak, tmudata) && gray != []
      modifies this`heap, this`gray, this`grayagain, this`weak
      ensures Tri(heap, gray, grayagain, weak, tmudata) && Darkens(old(heap), heap) && Whole(heap)
      ensures |Whites(heap)| < |Whites(old(heap))| || (|Whites(heap)| == |Whites(old(heap))| && |gray| < |old(gray)|)
      ensures forall o <- grayagain :: o in old(grayagain) || Traversed(heap, o, false)
      ensures forall o <- weak :: o in old(weak) || Traversed(heap, o, true)
      ensures UpvaluesDone(old(heap)) ==> UpvaluesDone(heap)
      ensures Confines(old(heap), reach) ==> Confines(heap, reach)
    {
      hide Round, Tri, Whole, Marks, Darkens, UpvaluesDone, Done, StrongVals, Confines, AllIn;
      ghost var h, g := heap, gray;
      var o := gray[0];
      assert gray == [o] + gray[1..];
      FirstGray(heap, o, gray[1..], grayagain, weak, tmudata);
      gray := gray[1..];
      var b := heap[o].body;
      WholeStrong(heap, o);
      MarkedLeadsInside(heap, o, reach);
      MarkInside(heap, o, Black, reach);
      if b.Thread? || IsWeak(b) {
        if b.Thread? { grayagain := [o] + grayagain; } else { weak := [o] + weak; }
        MarkVals(StrongVals(heap, b));
        KeptRound(h, g[1..], heap, gray, o);
        if b.Thread? { KeptTri(h, o, g[1..], heap, gray, old(grayagain), weak, tmudata); }
        else { KeptWeakTri(h, o, g[1..], heap, gray, grayagain, old(weak), tmudata); }
      } else {
        heap := Paint(heap, o, Black);
        ghost var h1 := heap;
        PaintKeeps(h, o, Black);
        StrongIsAll(h, h1, b, o);
        MarkVals(StrongVals(heap, b));
        BlackenedRound(h, g[1..], heap, gray, o);
        BlackenedTri(h, o, g[1..], heap, gray, grayagain, weak, tmudata);
      }
    }

    /** `propagateall`. */
    method PropagateAll()
      requires Whole(heap) && Tri(heap, gray, grayagain, weak, tmudata)
      modifies this`heap, this`gray, this`grayagain, this`weak
      ensures gray == [] && Tri(heap, gray, grayagain, weak, tmudata) && Darkens(old(heap), heap) && Whole(heap)
      ensures forall o <- grayagain :: o in old(grayagain) || Traversed(heap, o, false)
      ensures forall o <- weak :: o in old(weak) || Traversed(heap, o, true)
      ensures UpvaluesDone(old(heap)) ==> UpvaluesDone(heap)
      ensures Confines(old(heap), reach) ==> Confines(heap, reach)
    {
      hide Tri, Whole, Darkens, UpvaluesDone, Traversed, Confines;
      ghost var h := heap;
      DarkensNothing(h);
      while gray != []
        invariant Whole(heap) && Tri(heap, gray, grayagain, weak, tmudata) && Darkens(h, heap)
        invariant forall o <- grayagain :: o in old(grayagain) || Traversed(heap, o, false)
        invariant forall o <- weak :: o in old(weak) || Traversed(heap, o, true)
        invariant (UpvaluesDone(h) ==> UpvaluesDone(heap)) && (Confines(h, reach) ==> Confines(heap, reach))
        decreases |Whites(heap)|, |gray|
      {
        ghost var h1, again1, weak1 := heap, grayagain, weak;
        PropagateMark();
        DarkensTransitive(h, h1, heap);
        StayTraversed(h1, heap);
        assert forall o <- grayagain :: o in again1 || Traversed(heap, o, false);
        assert forall o <- weak :: o in weak1 || Traversed(heap, o, true);
      }
    }

    /** `markroot`: start a collection, from a pause or from the middle of a full one. */
    method MarkRoot()
      requires Valid() && (phase == Pause || phase == Finalize)
      modifies this`heap, this`gray, this`grayagain, this`weak, this`phase
      ensures Valid() && phase == Propagate && SameBodies(old(heap), heap)
      ensures Enough(old(Now()), reach) ==> Narrowed(Now(), reach)
    {
      hide Round, Inv, Whole, RootVals, Marked, Narrowed, Enough, Confines, AllIn, Marks, SameBodies, IsThread;
      ghost var g := Now();
      RootsThere(g);
      RootValsIn(g, reach);
      gray, grayagain, weak := [], [], [];
      MarkVals(RootVals(heap, main, registry, mt));
      RootInv(g, heap, gray);
      RoundMarks(g.heap, [], heap, gray);
      MarksBodies(g.heap, heap);
      phase := Propagate;
      RootsNarrow(g, Now(), reach);
    }

    /** One step of the propagation. */
    method PropagateStep()
      requires Valid() && phase == Propagate && gray != []
      modifies this`heap, this`gray, this`grayagain, this`weak
      ensures Valid() && SameBodies(old(heap), heap) && (Narrowed(old(Now()), reach) ==> Narrowed(Now(), reach))
      ensures |Whites(heap)| < |Whites(old(heap))| || (|Whites(heap)| == |Whites(old(heap))| && |gray| < |old(gray)|)
    {
      hide Inv, Whole, Tri, Darkens, Confines, RootsIn;
      ghost var g := Now();
      PropagateReady(g);
      PropagateMark();
      DarkerInv(g, heap, gray, grayagain, weak);
      DarkensBodies(g.heap, heap);
      SameRootsIn(g, Now(), reach);
    }

    /** `remarkupvals`: the values of marked open upvalues, whose threads may be dead. */
    method RemarkUpvals()
      requires Whole(heap) && Tri(heap, gray, grayagain, weak, tmudata) && Shaped(heap)
      requires forall o :: o in open <==> o in heap && heap[o].body.Open?
      modifies this`heap, this`gray
      ensures Whole(heap) && Tri(heap, gray, grayagain, weak, tmudata) && Darkens(old(heap), heap) && UpvaluesDone(heap)
      ensures Confines(old(heap), reach) ==> Confines(heap, reach)
    {
      hide Whole, Tri, Round, Confines;
      ghost var h := heap;
      var i := 0;
      assert open[0..] == open;
      while i < |open|
        invariant 0 <= i <= |open| && Whole(heap) && Tri(heap, gray, grayagain, weak, tmudata) && Darkens(h, heap)
        invariant forall o <- heap :: heap[o].body.Open? && !heap[o].color.White? ==>
                  Marked(heap, AllVals(heap, heap[o].body)) || o in open[i..]
        invariant Confines(h, reach) ==> Confines(heap, reach)
      {
        var o := open[i];
        ghost var h1, g1 := heap, gray;
        if heap[o].color == Gray {
          SlotThere(heap, o);
          MarkedLeadsInside(heap, o, reach);
          MarkVal(Slot(heap, heap[o].body.thread, heap[o].body.level));
          UpvalueRound(h, h1, g1, heap, gray, open, i, grayagain, weak, tmudata);
        } else {
          NotBlack(heap, gray, grayagain, weak, tmudata, o);
          UpvalueSkipped(heap, open, i);
        }
        i := i + 1;
      }
    }

    /**
     `luaC_separateudata`: white userdata that have not been finalized are flagged, and those with a
     finalizer join the list of those to be finalized.
     */
    method SeparateUdata()
      requires Tri(heap, gray, grayagain, weak, tmudata)
      requires forall o :: o in udata || o in tmudata ==> o in heap && heap[o].body.Udata?
      modifies this`heap, this`udata, this`tmudata
      ensures Separated(old(heap), old(udata), old(tmudata), heap, udata, tmudata)
              && Tri(heap, gray, grayagain, weak, tmudata)
    {
      hide Tri, Separated;
      ghost var h := heap;
      SeparatedNone(h, tmudata);
      var kept: seq<nat> := [];
      var i := 0;
      while i < |udata|
        invariant 0 <= i <= |udata| && Tri(heap, gray, grayagain, weak, tmudata) && udata == old(udata)
        invariant Separated(h, udata[..i], old(tmudata), heap, kept, tmudata)
        invariant forall o <- udata :: o in heap && heap[o].body.Udata?
      {
        var o := udata[i];
        assert udata[..i + 1] == udata[..i] + [o];
        SeparateOne(h, udata[..i], old(tmudata), heap, kept, tmudata, o);
        var b := heap[o].body;
        ghost var h1, t1 := heap, tmudata;
        if !heap[o].color.White? || b.finalized {
          kept := kept + [o];
        } else {
          heap := heap[o := heap[o].(body := b.(finalized := true))];
          if b.hasGc {
            tmudata := tmudata + [o];
          } else {
            kept := kept + [o];
          }
          RelabelsKeepTri(h1, heap, gray, grayagain, weak, t1, tmudata);
        }
        i := i + 1;
      }
      assert udata[..i] == udata;
      udata := kept;
    }

    /** Mark a userdatum whatever its colour is, as if it were white. */
    method RemarkUdata(u: nat)
      requires Whole(heap) && Tri(heap, gray, grayagain, weak, tmudata) && UpvaluesDone(heap) && u in heap
               && heap[u].body.Udata?
      modifies this`heap, this`gray
      ensures Whole(heap) && Tri(heap, gray, grayagain, weak, tmudata) && Darkens(old(heap), heap) && UpvaluesDone(heap)
      ensures heap[u].color == Black && Marked(heap, AllVals(heap, heap[u].body))
      ensures Confines(old(heap), reach) && u in reach ==> Confines(heap, reach)
    {
      hide Whole, Tri, Round, UpvaluesDone, Confines, Darkens, Marked;
      ghost var h, g := heap, gray;
      PaintKeeps(heap, u, White(white));
      MarkInside(heap, u, White(white), reach);
      heap := Paint(heap, u, White(white));
      ghost var h1 := heap;
      ReallyMark(u);
      RemarkTri(h, g, grayagain, weak, tmudata, u, white, heap, gray);
      RemarkUpvalues(h, g, u, white, heap, gray);
      RoundMarks(h1, g, heap, gray);
      MarksWhole(h1, heap);
    }

    /** `marktmu`. */
    method MarkTmu()
      requires Whole(heap) && Tri(heap, gray, grayagain, weak, tmudata) && UpvaluesDone(heap)
      requires forall o <- tmudata :: o in heap && heap[o].body.Udata?
      modifies this`heap, this`gray
      ensures Whole(heap) && Tri(heap, gray, grayagain, weak, tmudata) && Darkens(old(heap), heap) && UpvaluesDone(heap)
      ensures forall o <- tmudata :: o in heap && heap[o].color == Black && Marked(heap, AllVals(heap, heap[o].body))
      ensures Confines(old(heap), reach) && (forall o <- tmudata :: o in reach) ==> Confines(heap, reach)
    {
      hide Whole, Tri, UpvaluesDone, Confines, Marked;
      ghost var h := heap;
      var i := 0;
      while i < |tmudata|
        invariant 0 <= i <= |tmudata| && Whole(heap) && Tri(heap, gray, grayagain, weak, tmudata) && Darkens(h, heap)
                  && UpvaluesDone(heap)
        invariant forall o <- tmudata[..i] ::
                    o in heap && heap[o].color == Black && Marked(heap, AllVals(heap, heap[o].body))
        invariant Confines(h, reach) && (forall o <- tmudata :: o in reach) ==> Confines(heap, reach)
      {
        ghost var h1 := heap;
        RemarkUdata(tmudata[i]);
        DarkensTransitive(h, h1, heap);
        DarkensKeepMarked(h1, heap, tmudata[..i]);
        assert tmudata[..i + 1] == tmudata[..i] + [tmudata[i]];
        i := i + 1;
      }
      assert tmudata[..i] == tmudata;
    }

    /** `stringmark` on the strings among the values. */
    method MarkStrings(vs: seq<Val>)
      requires forall v <- vs :: v.Ref? ==> v.o in heap
      modifies this`heap
      ensures Trims(old(heap), heap) && forall o <- heap :: heap[o].body == old(heap)[o].body
      ensures forall v <- vs :: v.Ref? && old(heap)[v.o].body.Str? ==> Nonwhite(heap, v.o)
      ensures Inside(old(heap), reach) && StringsIn(old(heap), vs, reach) ==> Inside(heap, reach)
    {
      ghost var h := heap;
      var i := 0;
      while i < |vs|
        invariant 0 <= i <= |vs| && Trims(h, heap) && forall o <- heap :: heap[o].body == h[o].body
        invariant forall v <- vs[..i] :: v.Ref? && h[v.o].body.Str? ==> Nonwhite(heap, v.o)
        invariant Inside(h, reach) && StringsIn(h, vs, reach) ==> Inside(heap, reach)
      {
        if vs[i].Ref? && heap[vs[i].o].body.Str? && heap[vs[i].o].color.White? {
          heap := Paint(heap, vs[i].o, Gray);
        }
        assert vs[..i + 1] == vs[..i] + [vs[i]];
        i := i + 1;
      }
      assert vs[..i] == vs;
    }

    /** `cleartable`: no table on the list refers to a white object any more. */
    method ClearTables()
      requires Whole(heap) && Distinct(weak) && forall o <- weak :: Traversed(heap, o, true)
      requires forall o <- heap :: !heap[o].color.White? && o !in weak ==> Marked(heap, AllVals(heap, heap[o].body))
      modifies this`heap
      ensures Trims(old(heap), heap) && AllCleared(old(heap), heap)
      ensures forall o <- heap :: !heap[o].color.White? ==> Marked(heap, AllVals(heap, heap[o].body))
      ensures Confines(old(heap), reach) && (forall o <- weak :: o in reach) ==> Inside(heap, reach)
    {
      hide Marked, Trims, Distinct, Traversed, Whole, AllCleared, Confines, Inside, StringsIn;
      ConfinesMeans(heap, reach);
      ghost var h := heap;
      NothingTrimmed(h);
      NothingCleared(h);
      forall o | o in weak ensures SameThere(h, h, o) { TraversedWeak(h, o); }
      var i := 0;
      while i < |weak|
        invariant 0 <= i <= |weak| && Trims(h, heap) && Whole(heap) && AllCleared(h, heap)
        invariant forall o <- weak[i..] :: SameThere(h, heap, o)
        invariant Confines(h, reach) && (forall o <- weak :: o in reach) ==> Inside(heap, reach)
        invariant forall o <- weak[i..] :: Traversed(heap, o, true)
        invariant forall o <- heap :: !heap[o].color.White? && o !in weak[i..] ==>
                  Marked(heap, AllVals(heap, heap[o].body))
      {
        var o := weak[i];
        ghost var h1 := heap;
        assert o in weak[i..];
        ClearReady(heap, o);
        var b := ClearedBody(heap, heap[o].body);
        StringsOfCleared(h, heap, o, reach);
        MarkStrings(AllVals(heap, b));
        ghost var h2 := heap;
        BodyInside(heap, o, b, reach);
        heap := heap[o := heap[o].(body := b)];
        Cleared(h1, h2, heap, o, weak, i);
        TrimsTransitive(h, h1, heap);
        OthersThere(h, h1, heap, weak, i);
        TraversedWeak(h1, o);
        ClearsOne(h, h1, h2, heap, o);
        i := i + 1;
      }
    }

    /**
     `atomic`: finish the marking in one go, separate the userdata to be finalized, clear the weak
     tables, and flip the white. From here on white means dead.
     */
    method Atomic()
      requires Valid() && phase == Propagate && gray == []
      modifies this`heap, this`gray, this`grayagain, this`weak, this`tmudata, this`udata, this`white, this`unswept,
               this`phase
      ensures Valid() && phase == SweepString && white != old(white) && unswept == heap.Keys - SetOf(tmudata)
      ensures heap.Keys == old(heap.Keys) && forall o <- heap :: Kept(heap, old(heap)[o].body, heap[o].body)
      ensures MarksFirm(old(Now()), heap, tmudata)
      ensures old(tmudata) <= tmudata && Subsequence(tmudata[|old(tmudata)|..], old(udata))
      ensures Narrowed(old(Now()), reach) ==> Narrowed(Now(), reach)
    {
      hide Inv, Marked, Trims, Evolves, Narrowed, Inside, MarksFirm;
      ghost var g := Now();
      ghost var h5, h8 := FinishAndClear();
      AtomicInv(g, h5, h8, heap, tmudata, udata, gray, grayagain, weak);
      white := !white;
      unswept := heap.Keys - SetOf(tmudata);
      phase := SweepString;
      FlipNarrows(g, Now(), reach);
    }

    /**
     All of `atomic` before the flip. The heaps `h5` and `h8` are those before the userdata are separated and before
     the tables are cleared.
     */
    method FinishAndClear() returns (ghost h5: Heap, ghost h8: Heap)
      requires Valid() && phase == Propagate && gray == []
      modifies this`heap, this`gray, this`grayagain, this`weak, this`tmudata, this`udata
      ensures Evolves(old(heap), h5) && Evolves(h5, h8) && Trims(h8, heap) && Marked(h5, [Ref(running)] + mt)
              && NonePending(h8, White(white))
      ensures forall o :: o in udata || o in tmudata <==> o in old(udata) || o in old(tmudata)
      ensures forall o <- tmudata :: o in h8 && h8[o].body.Udata? && h8[o].color == Black
      ensures forall o <- heap :: !heap[o].color.White? ==> Marked(heap, AllVals(heap, heap[o].body))
      ensures heap.Keys == old(heap.Keys) && forall o <- heap :: Kept(heap, old(heap)[o].body, heap[o].body)
      ensures MarksFirm(old(Now()), heap, tmudata)
      ensures old(tmudata) <= tmudata && Subsequence(tmudata[|old(tmudata)|..], old(udata))
      ensures Narrowed(old(Now()), reach) ==> Inside(heap, reach)
    {
      hide MarksFirm, Inv, Whole, Tri, UpvaluesDone, Traversed, Marked, Trims, Evolves, Flagged, AllCleared, Confines,
        Narrowed, Inside, AllIn, ToFinalize;
      ghost var g := Now();
      FinishMarking();
      h5 := heap;
      EvolvedUdata(g, h5);
      FirmFound(g, h5, grayagain, weak);
      MarkFinalizable();
      h8 := heap;
      FlaggedSince(g.heap, h5, h8);
      EverythingDone(h8, grayagain, weak, tmudata);
      NoneOf(h8, white);
      AtomicWithin(g, h5, h8, tmudata, weak, grayagain, reach);
      ClearTables();
      KeptAll(g.heap, h8, heap);
      FirmPassed(g, h5, h8, heap, tmudata);
    }

    /** The first part of `atomic`: upvalues, and what the barriers and they have made gray. */
    method UpvaluePass()
      requires Valid() && phase == Propagate && gray == []
      modifies this`heap, this`gray, this`grayagain, this`weak
      ensures gray == [] && Whole(heap) && Tri(heap, gray, grayagain, weak, tmudata) && UpvaluesDone(heap)
              && Darkens(old(heap), heap)
      ensures Confines(old(heap), reach) ==> Confines(heap, reach)
    {
      hide Inv, Whole, Tri, Darkens, UpvaluesDone, Traversed, Confines;
      ghost var g := Now();
      AtomicReady(g);
      RemarkUpvals();
      ghost var h1 := heap;
      PropagateAll();
      DarkensTransitive(g.heap, h1, heap);
    }

    /** Then weak tables and the running thread. */
    method FirstPass()
      requires Valid() && phase == Propagate && gray == []
      modifies this`heap, this`gray, this`grayagain, this`weak
      ensures gray == [] && Whole(heap) && Tri(heap, gray, grayagain, weak, tmudata) && UpvaluesDone(heap)
              && Darkens(old(heap), heap)
      ensures forall o <- weak :: Traversed(heap, o, true)
      ensures Marked(heap, [Ref(running)] + mt)
      ensures Confines(old(heap), reach) && AllIn([Ref(running)] + mt, reach) ==> Confines(heap, reach)
    {
      hide Inv, Whole, Tri, Darkens, UpvaluesDone, Traversed, Marked, Round, Confines, AllIn;
      ghost var g := Now();
      UpvaluePass();
      ghost var h2 := heap;
      RegrayWeak(heap, grayagain, weak, tmudata);
      gray, weak := weak, [];
      RunningThere(g, h2);
      ghost var g2 := gray;
      var vs := [Ref(running)] + mt;
      MarkVals(vs);
      ghost var h3 := heap;
      RoundInAtomic(h2, g2, h3, gray, grayagain, weak, tmudata);
      PropagateAll();
      DarkensKeeps(h3, heap, Str);
      DarkensTransitive(h2, h3, heap);
      DarkensTransitive(g.heap, h2, heap);
    }

    /** ... and then what the barriers caught. */
    method FinishMarking()
      requires Valid() && phase == Propagate && gray == []
      modifies this`heap, this`gray, this`grayagain, this`weak
      ensures gray == [] && Whole(heap) && Tri(heap, gray, grayagain, weak, tmudata) && UpvaluesDone(heap)
              && Evolves(old(heap), heap)
      ensures SameBodies(old(heap), heap)
      ensures forall o <- grayagain :: Traversed(heap, o, false)
      ensures forall o <- weak :: Traversed(heap, o, true)
      ensures Marked(heap, [Ref(running)] + mt)
      ensures Confines(old(heap), reach) && AllIn([Ref(running)] + mt, reach) ==> Confines(heap, reach)
    {
      hide Inv, Whole, Tri, Darkens, UpvaluesDone, Traversed, Marked, Evolves, Confines, AllIn;
      ghost var h := heap;
      FirstPass();
      ghost var h1 := heap;
      RegrayAgain(heap, grayagain, weak, tmudata);
      gray, grayagain := grayagain, [];
      PropagateAll();
      StayTraversed(h1, heap);
      DarkensKeeps(h1, heap, Str);
      DarkensTransitive(h, h1, heap);
      DarkensEvolves(h, heap);
      DarkensBodies(h, heap);
    }

    /** The second part: userdata to be finalized are kept alive, with all they refer to. */
    method MarkFinalizable()
      requires gray == [] && Whole(heap) && Tri(heap, gray, grayagain, weak, tmudata) && UpvaluesDone(heap)
      requires (forall o <- grayagain :: Traversed(heap, o, false)) && (forall o <- weak :: Traversed(heap, o, true))
      requires forall o :: o in udata || o in tmudata <==> o in heap && heap[o].body.Udata?
      modifies this`heap, this`gray, this`grayagain, this`weak, this`udata, this`tmudata
      ensures gray == [] && Whole(heap) && Tri(heap, gray, grayagain, weak, tmudata) && UpvaluesDone(heap)
              && Evolves(old(heap), heap)
      ensures Flagged(old(heap), heap)
      ensures (forall o <- grayagain :: Traversed(heap, o, false)) && (forall o <- weak :: Traversed(heap, o, true))
      ensures forall o :: o in udata || o in tmudata <==> o in old(udata) || o in old(tmudata)
      ensures forall o :: o in tmudata <==> o in old(tmudata) || (o in old(udata) && ToFinalize(old(heap), o))
      ensures forall o <- tmudata ::
                o in heap && heap[o].body.Udata? && heap[o].color == Black && Marked(heap, AllVals(heap, heap[o].body))
      ensures AllFlagged(heap)
      ensures old(tmudata) <= tmudata && Subsequence(tmudata[|old(tmudata)|..], old(udata))
      ensures forall o :: Nonwhite(old(heap), o) ==> heap[o].body == old(heap)[o].body
      ensures Confines(old(heap), reach) && (forall o <- tmudata :: o in reach) ==> Confines(heap, reach)
    {
      hide Whole, Tri, Darkens, UpvaluesDone, Traversed, Marked, Relabels, Evolves, Separated, Confines;
      ghost var h := heap;
      SeparateUdata();
      ghost var h1 := heap;
      SeparatedMeans(h, old(udata), old(tmudata), h1, udata, tmudata);
      RelabelsInAtomic(h, h1, grayagain, weak);
      RelabelsConfine(h, h1, reach);
      RelabelsEvolves(h, h1);
      MarkTmu();
      ghost var h2 := heap;
      StayTraversed(h1, h2);
      PropagateAll();
      StayTraversed(h2, heap);
      DarkensKeepMarked(h2, heap, tmudata);
      DarkensTransitive(h1, h2, heap);
      DarkensEvolves(h1, heap);
      EvolvesTransitive(h, h1, heap);
      DarkensBodies(h1, heap);
      FlaggedThen(h, h1, heap);
      MarkedUnflagged(h, h1, heap);
      FlaggedAll(h1, heap, tmudata);
    }

    // -------------------------------------------------------------- the sweep

    /** `sweeplist` on one object other than a thread. */
    method SweepObject(o: nat)
      requires Valid() && InSweep(phase) && o in unswept && o in heap && !heap[o].body.Thread? && !heap[o].body.Open?
      modifies this`heap, this`udata, this`unswept
      ensures Valid() && Now() == Swept(old(Now()), o)
    {
      hide Inv;
      SweptInv(Now(), o);
      if heap[o].color == White(!white) {
        heap, udata := heap - {o}, Without(udata, o);
      } else {
        heap := Paint(heap, o, White(white));
      }
      unswept := unswept - {o};
    }

    /** The open upvalues of a thread are swept first. */
    method SweepUpvals(t: nat)
      modifies this`heap, this`unswept
      ensures heap == SweptUpvals(old(heap), white, t, open)
              && unswept == old(unswept) - (set u | u in open && UpvalueOf(old(heap), u, t))
    {
      hide SweptUpvals;
      ghost var h, n := heap, unswept;
      NoUpvalsSwept(h, white, t);
      var i := 0;
      while i < |open|
        invariant 0 <= i <= |open| && heap == SweptUpvals(h, white, t, open[..i])
        invariant unswept == n - (set u | u in open[..i] && UpvalueOf(h, u, t))
      {
        var u := open[i];
        assert open[..i + 1] == open[..i] + [u];
        SweptUpvalsStep(h, white, t, open[..i], u);
        if UpvalueOf(heap, u, t) {
          if heap[u].color == White(!white) {
            heap := heap - {u};
          } else {
            heap := Paint(heap, u, White(white));
          }
          unswept := unswept - {u};
        }
        i := i + 1;
      }
      assert open[..i] == open;
    }

    /** `luaE_freethread`: the upvalues that are left take their values along. */
    method CloseThread(t: nat)
      modifies this`heap
      ensures heap == ClosedUpvals(old(heap), t, open)
    {
      ghost var h := heap;
      var i := 0;
      while i < |open|
        invariant 0 <= i <= |open| && heap == ClosedUpvals(h, t, open[..i])
      {
        var u := open[i];
        assert open[..i + 1] == open[..i] + [u];
        if UpvalueOf(heap, u, t) {
          heap := Close(heap, u, heap[u].color);
        }
        i := i + 1;
      }
      assert open[..i] == open;
    }

    /** `sweeplist` on a thread. */
    method SweepThread(t: nat)
      requires Valid() && InSweep(phase) && t in unswept && IsThread(heap, t)
      modifies this`heap, this`open, this`unswept
      ensures Valid() && Now() == ThreadSwept(old(Now()), t)
    {
      hide Inv;
      ghost var g := Now();
      ThreadSweptInv(g, t);
      SweepUpvals(t);
      AllOpen(g);
      if heap[t].color == White(!white) {
        CloseThread(t);
        heap := heap - {t};
      } else {
        heap := Paint(heap, t, White(white));
      }
      SweptUpvalsAre(g.heap, g.white, t, g.open, heap);
      open := StillOpen(heap, open);
      unswept := unswept - {t};
      UnsweptAre(g, t);
    }

    /** The next phase, when there is nothing left to do in this one. */
    method NextPhase()
      requires Valid() && (InSweep(phase) || phase == Finalize)
      requires phase == SweepString ==> forall o <- unswept :: o in heap ==> !heap[o].body.Str?
      requires phase == Sweep ==> unswept == {}
      requires phase == Finalize ==> tmudata == []
      modifies this`phase
      ensures Valid() && phase == if old(phase) == SweepString then Sweep else if old(phase) == Sweep then Finalize
              else Pause
    {
      hide Inv;
      SweepEnds(Now());
      phase := if phase == SweepString then Sweep else if phase == Sweep then Finalize else Pause;
    }

    /** `GCTM`, up to the call of the finalizer `tm`, which is nil if there is none any more. */
    method CallFinalizer(tm: Val)
      requires Valid() && phase == Finalize && tmudata != [] && AliveVals(heap, white, [tm])
      modifies this`heap, this`udata, this`tmudata
      ensures Collects(old(Now()), Now()) && (Narrowed(old(Now()), reach) ==> Narrowed(Now(), reach))
      ensures Finalizes(old(Now()), Now(), if tm == Nil then [] else [tm, Ref(old(tmudata)[0])])
      ensures AliveIn(heap, white, old(tmudata)[0])
    {
      hide Inv, Collects, AliveVals;
      ghost var g := Now();
      Waiting(g);
      StillAlive(g, [tm]);
      FinalizedInv(g);
      var o := tmudata[0];
      tmudata := tmudata[1..];
      udata := [o] + udata;
      heap := Paint(heap, o, White(white));
      ghost var g1 := Now();
      var vs: seq<Val> := if tm == Nil then [] else [tm, Ref(o)];
      assert Finalized(g) == g1;
      NothingAlive(g1.heap, white);
      assert [tm] + [Ref(o)] == [tm, Ref(o)];
      FinalizedCollects(g, Pushed(g1, vs), vs);
      heap := PutBody(heap, running, heap[running].body.(stack := heap[running].body.stack + vs));
      assert Now() == Pushed(g1, vs);
    }

    /** `singlestep`; a string or an object at a time in the sweep. */
    method SingleStep()
      requires Valid()
      modifies this`heap, this`gray, this`grayagain, this`weak, this`tmudata, this`open, this`udata, this`white,
               this`unswept, this`phase
      ensures Collects(old(Now()), Now()) && Moves(old(Now()), Now())
              && (Narrowed(old(Now()), reach) ==> Narrowed(Now(), reach))
    {
      hide Inv, Collects, Narrowed, Finalizes, PhaseOver, SameBodies, Kept, AliveVals;
      ghost var g := Now();
      match phase {
        case Pause =>
          PauseNarrowed(g, reach);
          MarkRoot();
          SameCollects(g, Now());
        case Propagate =>
          if gray != [] {
            PropagateStep();
            SameCollects(g, Now());
          } else {
            Atomic();
            KeptCollects(g, Now());
          }
        case Finalize =>
          if tmudata == [] {
            EndPhase();
          } else {
            NoneAlive(heap, white);
            var tm: Val := *;
            tm := if AliveVals(heap, white, [tm]) then tm else Nil;
            CallFinalizer(tm);
            MovesByFinalizer(g, Now(), if tm == Nil then [] else [tm, Ref(g.tmu[0])]);
          }
        case _ =>
          SweepOne();
      }
    }

    method EndPhase()
      requires Valid() && (InSweep(phase) || phase == Finalize)
      requires phase == SweepString ==> forall o <- unswept :: o in heap ==> !heap[o].body.Str?
      requires phase == Sweep ==> unswept == {}
      requires phase == Finalize ==> tmudata == []
      modifies this`phase
      ensures Collects(old(Now()), Now()) && PhaseOver(old(Now()), Now())
              && (Narrowed(old(Now()), reach) ==> Narrowed(Now(), reach))
    {
      hide Inv, Collects, Narrowed;
      ghost var g := Now();
      NextPhase();
      UnchangedBodies(heap);
      SameCollects(g, Now());
      PhaseNarrows(g, Now(), reach);
    }

    /** One step of the sweep: a string first, then anything else. An open upvalue is swept with its thread. */
    method SweepOne()
      requires Valid() && InSweep(phase)
      modifies this`heap, this`udata, this`open, this`unswept, this`phase
      ensures Collects(old(Now()), Now()) && Moves(old(Now()), Now())
              && (Narrowed(old(Now()), reach) ==> Narrowed(Now(), reach))
    {
      hide Inv, Collects, Narrowed, Swept, ThreadSwept, PhaseOver;
      ghost var g := Now();
      Waiting(g);
      if unswept == {} || (phase == SweepString && forall o <- unswept :: !heap[o].body.Str?) {
        EndPhase();
        return;
      }
      var o :| o in unswept && (phase == SweepString ==> heap[o].body.Str?);
      if heap[o].body.Open? {
        o := heap[o].body.thread;
      }
      if heap[o].body.Thread? {
        ThreadSweptCollects(g, o);
        ThreadNarrows(g, o, reach);
        SweepThread(o);
      } else {
        SweptCollects(g, o);
        SweptNarrows(g, o, reach);
        SweepObject(o);
      }
      assert SweepsObject(g, Now(), o);
    }

    /** The first part of `luaC_fullgc`: the marking is given up, and the sweep turns everything white. */
    method Reset()
      requires Valid() && (phase == Pause || phase == Propagate)
      modifies this`gray, this`grayagain, this`weak, this`unswept, this`phase
      ensures Valid() && phase == SweepString && gray == [] && grayagain == [] && weak == []
              && unswept == heap.Keys - SetOf(tmudata)
    {
      hide Inv;
      ResetInv(Now());
      gray, grayagain, weak, unswept, phase := [], [], [], heap.Keys - SetOf(tmudata), SweepString;
    }

    /** The rest of a collection that has just started, without interruption. */
    method FinishCycle(ghost g: State)
      requires Valid() && phase == Propagate && Narrowed(Now(), reach) && HoldsOn(g, Now())
      modifies this`heap, this`gray, this`grayagain, this`weak, this`tmudata, this`open, this`udata, this`white,
               this`unswept, this`phase
      ensures Valid() && phase == Pause && heap.Keys <= reach && HoldsOn(g, Now())
    {
      hide Inv, Collects, HoldsOn, Work, Narrowed, Moves;
      while phase != Finalize
        invariant Valid() && phase != Pause && HoldsOn(g, Now()) && Narrowed(Now(), reach)
        decreases Rank(phase), Work(Now()), |gray|
      {
        ghost var g1 := Now();
        SingleStep();
        Collected(g, g1, Now());
      }
      NarrowedEnd(Now(), reach);
      while phase != Pause
        invariant Valid() && (phase == Finalize || phase == Pause) && HoldsOn(g, Now()) && heap.Keys <= reach
        decreases Rank(phase), Work(Now()), |gray|
      {
        ghost var g1 := Now();
        SingleStep();
        Collected(g, g1, Now());
      }
    }

    /**
     `luaC_fullgc` from any phase, with finalizers that do nothing: what is left is what a trail of strong
     references leads to from the roots or a finalizer still to be called, and all that is held is left.
     */
    method FullGc()
      requires Valid()
      modifies this
      ensures Valid() && phase == Pause && HoldsOn(old(Now()), Now()) && forall o :: Held(old(Now()), o) ==> o in heap
      ensures forall o <- heap :: Wanted(old(Now()), o)
      ensures forall o, p :: RefersTo(heap, o, p) ==> p in heap
    {
      hide Inv, Collects, Held, HoldsOn, Wanted, WantsNoMore, Narrowed, Enough, SameBodies, Carries, RefersTo;
      ghost var g := Now();
      FinishSweep();
      ghost var g2 := Now();
      reach := AllWanted(g2);
      WantedEnough(g2);
      MarkRoot();
      BodiesCarry(g2, Now());
      AllHeldStay(g, g2, Now());
      FinishCycle(g);
      AllHeldThere(g, Now());
      AllWantedBefore(g, g2, heap.Keys);
      NoneDangleInPause(Now());
    }

    /** The part of `luaC_fullgc` before the marking. */
    method FinishSweep()
      requires Valid()
      modifies this`heap, this`gray, this`grayagain, this`weak, this`tmudata, this`open, this`udata, this`white,
               this`unswept, this`phase
      ensures Valid() && phase == Finalize && HoldsOn(old(Now()), Now()) && WantsNoMore(old(Now()), Now())
    {
      hide Inv, Collects, HoldsOn, Work, Moves, WantsNoMore, SameBodies, Carries;
      ghost var g := Now();
      HoldsOnStart(g);
      WantsSame(g, g);
      if phase == Pause || phase == Propagate {
        Reset();
        UnchangedBodies(heap);
        BodiesCarry(g, Now());
        AllHeldStay(g, g, Now());
        WantsSame(g, Now());
      }
      while phase != Finalize
        invariant Valid() && phase != Pause && phase != Propagate && HoldsOn(g, Now()) && WantsNoMore(g, Now())
        decreases Rank(phase), Work(Now()), |gray|
      {
        ghost var g1 := Now();
        SingleStep();
        Collected(g, g1, Now());
        SweepWants(g1, Now());
        WantsTransitive(g, g1, Now());
      }
    }

    /** A collection from pause to pause without interruption. */
    method Cycle()
      requires Valid() && phase == Pause
      modifies this
      ensures Valid() && phase == Pause && (forall o <- heap :: Wanted(old(Now()), o)) && HoldsOn(old(Now()), Now())
    {
      hide Inv, HoldsOn, Wanted, Narrowed, Enough, SameBodies, Carries;
      ghost var g := Now();
      HoldsOnStart(g);
      reach := AllWanted(g);
      WantedEnough(g);
      MarkRoot();
      BodiesCarry(g, Now());
      AllHeldStay(g, g, Now());
      FinishCycle(g);
    }

    // -------------------------------------------------------------- the running program

    method Push(v: Val)
      requires Valid() && AliveVals(heap, white, [v])
      modifies this`heap
      ensures Valid() && IsThread(old(heap), running) && Now() == Pushed(old(Now()), [v])
    {
      hide Inv, Carries;
      Waiting(Now());
      PushedInv(Now(), [v]);
      heap := PutBody(heap, running, heap[running].body.(stack := heap[running].body.stack + [v]));
    }

    /** The upvalues at and above the level have been closed before. */
    method Pop(n: nat)
      requires Valid() && (IsThread(heap, running) ==> n <= |heap[running].body.stack|)
      requires forall u <- open :: UpvalueOf(heap, u, running) ==> heap[u].body.level < n
      modifies this`heap
      ensures Valid() && IsThread(old(heap), running)
      ensures heap == PutBody(old(heap), running, old(heap)[running].body.(stack := old(heap)[running].body.stack[..n]))
    {
      Waiting(Now());
      AllOpen(Now());
      var b := heap[running].body;
      StackInv(Now(), running, b.(stack := b.stack[..n]), []);
      heap := PutBody(heap, running, b.(stack := b.stack[..n]));
    }

    /** A slot of a thread, directly or through an open upvalue; the thread may be dead. */
    method SetSlot(t: nat, l: nat, v: Val)
      requires Valid() && HasSlot(heap, t, l) && AliveVals(heap, white, [v])
      modifies this`heap
      ensures Valid() && heap == PutBody(old(heap), t, old(heap)[t].body.(stack := old(heap)[t].body.stack[l := v]))
    {
      ghost var g := Now();
      var b := heap[t].body;
      forall u | u in open && heap[u].body.thread == t ensures heap[u].body.level < |b.stack| {
        assert HasSlot(heap, t, heap[u].body.level);
      }
      StackInv(g, t, b.(stack := b.stack[l := v]), [v]);
      heap := PutBody(heap, t, b.(stack := b.stack[l := v]));
    }

    method SetGlobals(t: nat, v: Val)
      requires Valid() && IsThread(heap, t) && AliveVals(heap, white, [v])
      modifies this`heap
      ensures Valid() && heap == PutBody(old(heap), t, old(heap)[t].body.(globals := v))
    {
      ghost var g := Now();
      var b := heap[t].body;
      forall u | u in open && heap[u].body.thread == t ensures heap[u].body.level < |b.stack| {
        assert HasSlot(heap, t, heap[u].body.level);
      }
      StackInv(g, t, b.(globals := v), [v]);
      heap := PutBody(heap, t, b.(globals := v));
    }

    /** A value stored in a userdatum, closed upvalue, closure or prototype, followed by `luaC_barrierf`. */
    method Store(o: nat, b: Body, v: Val)
      requires Valid() && AliveIn(heap, white, o) && SameKind(heap[o].body, b) && !b.Tab?
      requires Adds(heap, heap[o].body, b, [v]) && AliveVals(heap, white, [v])
      modifies this`heap, this`gray
      ensures Valid() && OnlyBody(old(heap), heap, o, b)
    {
      hide Inv, Round, Whole, OnlyBody, Adds;
      ghost var g := Now();
      var barrier := v.Ref? && v.o in heap && heap[v.o].color.White? && heap[o].color == Black;
      WhitenedBody(heap, o, b, White(white));
      if !barrier {
        if heap[o].color == Black { NoBarrier(heap, white, [v]); }
        QuietStore(g, o, b, [v]);
        heap := PutBody(heap, o, b);
      } else if phase == Propagate {
        ForwardReady(g, o, b, v);
        heap := PutBody(heap, o, b);
        MarkVal(v);
        ForwardInv(g, o, b, [v], heap, gray);
        RoundOnlyBody(g.heap, o, b, g.gray, heap, gray);
      } else {
        QuietStore(g, o, b, [v]);
        heap := PutBody(heap, o, b);
        WhitenInv(Now(), o);
        heap := Paint(heap, o, White(white));
      }
    }

    /** Keys, values or a metatable stored in a table, followed by `luaC_barrierback`. */
    method StoreTable(t: nat, b: Body, vs: seq<Val>)
      requires Valid() && AliveIn(heap, white, t) && heap[t].body.Tab? && b.Tab?
      requires Adds(heap, heap[t].body, b, vs) && AliveVals(heap, white, vs)
      modifies this`heap, this`grayagain
      ensures Valid() && OnlyBody(old(heap), heap, t, b)
    {
      hide Inv, OnlyBody, Adds;
      ghost var g := Now();
      WhitenedBody(heap, t, b, Gray);
      if heap[t].color == Black && exists v <- vs :: v.Ref? && v.o in heap && heap[v.o].color.White? {
        BackInv(g, t, b, vs);
        heap := Paint(PutBody(heap, t, b), t, Gray);
        grayagain := [t] + grayagain;
      } else {
        if heap[t].color == Black { NoBarrier(heap, white, vs); }
        QuietStore(g, t, b, vs);
        heap := PutBody(heap, t, b);
      }
    }

    /** `OP_SETUPVAL`: the upvalue has the new value, wherever that lives. */
    method SetUpvalue(u: nat, v: Val)
      requires Valid() && AliveIn(heap, white, u) && (heap[u].body.Open? || heap[u].body.Closed?)
               && AliveVals(heap, white, [v])
      modifies this`heap, this`gray
      ensures Valid() && heap.Keys == old(heap.Keys) && AllVals(heap, heap[u].body) == [v]
              && WritesUpvalue(old(Now()), Now(), u, v)
    {
      if heap[u].body.Open? {
        assert HasSlot(heap, heap[u].body.thread, heap[u].body.level);
        SetSlot(heap[u].body.thread, heap[u].body.level, v);
      } else {
        Store(u, Closed(v), v);
      }
    }

    /** A new object, of the current white. */
    method NewObject(o: nat, b: Body)
      requires Valid() && MayCreate(Now(), o, b)
      modifies this`heap, this`open, this`udata
      ensures Valid() && Now() == Created(old(Now()), o, b)
    {
      CreatedInv(Now(), o, b);
      heap := heap[o := Obj(White(white), b)];
      if b.Open? { open := [o] + open; }
      if b.Udata? { udata := [o] + udata; }
    }

    /** `luaS_newlstr` finds the string `o`, which may be dead. */
    method Intern(o: nat)
      requires Valid() && o in heap && heap[o].body.Str?
      modifies this`heap
      ensures Valid() && AliveIn(heap, white, o) && SameBodies(old(heap), heap)
      ensures heap == if IsDead(old(Now()), o) then Paint(old(heap), o, White(white)) else old(heap)
    {
      if heap[o].color == White(!white) {
        RescuedInv(Now(), o);
        heap := Paint(heap, o, White(white));
      }
    }

    /** `luaF_findupval`: an upvalue for a slot of the running thread, a new one (`o`) only if there is none. */
    method FindUpval(level: nat, o: nat) returns (u: nat)
      requires Valid() && HasSlot(heap, running, level) && o !in heap
      modifies this`heap, this`open
      ensures Valid() && AliveIn(heap, white, u) && heap[u].body == Open(running, level)
      ensures u == o <==> forall p <- old(open) :: p in old(heap) ==> old(heap)[p].body != Open(running, level)
      ensures Captures(old(Now()), Now(), level, o, u)
    {
      hide Inv;
      SlotAlive(Now(), level);
      AllOpen(Now());
      var i := 0;
      while i < |open|
        invariant 0 <= i <= |open| && forall p <- open[..i] :: p in heap ==> heap[p].body != Open(running, level)
      {
        u := open[i];
        if heap[u].body == Open(running, level) {
          if heap[u].color == White(!white) {
            RescuedInv(Now(), u);
            heap := Paint(heap, u, White(white));
          }
          return;
        }
        assert open[..i + 1] == open[..i] + [u];
        i := i + 1;
      }
      assert open[..i] == open;
      u := o;
      CreatedInv(Now(), o, Open(running, level));
      heap, open := heap[o := Obj(White(white), Open(running, level))], [o] + open;
    }

    /** `luaC_linkupval` on a gray upvalue while marking. */
    method CloseGray(u: nat)
      requires Valid() && phase == Propagate && UpvalueOf(heap, u, running) && heap[u].color == Gray
      modifies this`heap, this`gray, this`open
      ensures Valid() && SameValues(old(heap), heap) && open == Without(old(open), u)
      ensures heap.Keys == old(heap.Keys) && SameBodies(Close(old(heap), u, Black), heap)
      ensures heap[u].color == Black && Marked(heap, AllVals(old(heap), old(heap)[u].body))
    {
      hide Inv, Round, Whole, SameValues;
      ghost var g := Now();
      CloseReady(g, u);
      ClosedValues(heap, u, Black);
      heap := Close(heap, u, Black);
      ghost var h1 := heap;
      MarkVal(heap[u].body.value);
      CloseMarking(g, u, heap, gray);
      RoundValues(h1, g.gray, heap, gray);
      RoundMarks(h1, g.gray, heap, gray);
      SameValuesTransitive(g.heap, h1, heap);
      open := Without(open, u);
    }

    /** One round of `luaF_close`. */
    method CloseUpval(u: nat)
      requires Valid() && UpvalueOf(heap, u, running)
      modifies this`heap, this`gray, this`open, this`unswept
      ensures Valid() && SameValues(old(heap), heap) && open == Without(old(open), u)
      ensures forall o :: AliveIn(old(heap), white, o) ==> AliveIn(heap, white, o)
      ensures heap.Keys <= old(heap.Keys) && (u in heap ==> heap[u].body.Closed?)
      ensures forall o <- heap :: o != u ==> heap[o].body == old(heap)[o].body
    {
      hide Inv, SameValues;
      ghost var g := Now();
      if heap[u].color == Gray && phase == Propagate {
        CloseGray(u);
        AllAlive(Now());
      } else {
        if heap[u].color == White(!white) {
          FreeUpvalue(g, u);
          ClosedValues(heap, u, White(white));
          heap := heap - {u};
        } else {
          CloseQuietly(g, u);
          ClosedValues(heap, u, White(white));
          heap := Close(heap, u, White(white));
        }
        open, unswept := Without(open, u), unswept - {u};
      }
    }

    /** `luaF_close`: the open upvalues from the level up keep their values when the stack shrinks. */
    method CloseUpvals(level: nat)
      requires Valid()
      modifies this`heap, this`gray, this`open, this`unswept
      ensures Valid() && heap.Keys <= old(heap.Keys)
      ensures ClosesFrom(old(Now()), Now(), level)
    {
      hide Inv, SameValues;
      ghost var g, h := Now(), heap;
      AllOpen(Now());
      SameValuesStart(h);
      var us := open;
      var i := 0;
      while i < |us|
        invariant 0 <= i <= |us| && Valid() && SameValues(h, heap) && heap.Keys <= h.Keys
        invariant forall o <- heap :: BodyOrClosed(g, heap, o, level)
        invariant forall o :: AliveIn(h, white, o) ==> AliveIn(heap, white, o)
        invariant forall u <- open :: UpvalueOf(heap, u, running) && heap[u].body.level >= level ==> u in us[i..]
      {
        var u := us[i];
        assert us[i..] == [u] + us[i + 1..];
        if UpvalueOf(heap, u, running) && heap[u].body.level >= level {
          ghost var h1 := heap;
          CloseUpval(u);
          SameValuesTransitive(h, h1, heap);
        }
        i := i + 1;
      }
    }

    /** The metatables of the basic types have no barrier; they are marked again at the end. */
    method SetMetatable(i: nat, v: Val)
      requires Valid() && i <= |mt| && AliveVals(heap, white, [v])
      modifies this`mt
      ensures Valid() && mt == if i < |old(mt)| then old(mt)[i := v] else old(mt) + [v]
    {
      ghost var old' := mt;
      mt := if i < |mt| then mt[i := v] else mt + [v];
      assert forall w <- mt :: w in old' || w == v;
      RootChanged(State(main, running, registry, old', heap, phase, white, gray, grayagain, weak, tmudata, open, udata,
        unswept), running, mt);
    }

    /** `resume` and `yield`. */
    method Switch(t: nat)
      requires Valid() && IsThread(heap, t) && AliveIn(heap, white, t)
      modifies this`running
      ensures Valid() && running == t
    {
      RootChanged(Now(), t, mt);
      running := t;
    }

    // -------------------------------------------------------------- runs

    method CollectorStep(c: Command)
      requires Valid() && Enabled(Now(), c) && (c.Collect? || c.Abandon? || c.Restart?)
      modifies this
      ensures Valid() && Performs(old(Now()), c, Now()) && FreesGarbage(old(Now()), Now())
    {
      hide Inv, FreesGarbage, Moves;
      ghost var g := Now();
      match c {
        case Collect =>
          SingleStep();
        case Abandon =>
          Reset();
          OnlyGarbage(g, Now());
        case Restart =>
          MarkRoot();
          OnlyGarbage(g, Now());
      }
    }

    method ObjectStep(c: Command)
      requires Valid() && Enabled(Now(), c)
               && (c.WriteObject? || c.WriteTable? || c.Create? || c.FindString? || c.WriteMetatable? || c.SwitchTo?)
      modifies this
      ensures Valid() && Performs(old(Now()), c, Now()) && FreesGarbage(old(Now()), Now())
    {
      hide Inv, FreesGarbage, Adds;
      ghost var g := Now();
      Waiting(g);
      match c {
        case WriteObject(o, b, v) => Store(o, b, v);
        case WriteTable(t, b, vs) => StoreTable(t, b, vs);
        case Create(o, b) => NewObject(o, b);
        case FindString(o) => Intern(o);
        case WriteMetatable(i, v) => SetMetatable(i, v);
        case SwitchTo(t) => Switch(t);
      }
      OnlyGarbage(g, Now());
    }

    method StackStep(c: Command)
      requires Valid() && Enabled(Now(), c)
      requires c.PushValue? || c.PopTo? || c.WriteSlot? || c.WriteGlobals? || c.WriteUpvalue? || c.Capture?
               || c.CloseFrom?
      modifies this
      ensures Valid() && Performs(old(Now()), c, Now()) && FreesGarbage(old(Now()), Now())
    {
      hide Inv, FreesGarbage;
      ghost var g := Now();
      Waiting(g);
      match c {
        case PushValue(v) => Push(v);
        case PopTo(n) => Pop(n);
        case WriteSlot(t, l, v) => SetSlot(t, l, v);
        case WriteGlobals(t, v) => SetGlobals(t, v);
        case WriteUpvalue(u, v) => SetUpvalue(u, v);
        case Capture(l, o) => var u := FindUpval(l, o); assert Captures(g, Now(), l, o, u);
        case CloseFrom(l) => CloseUpvals(l);
      }
      OnlyGarbage(g, Now());
    }

    /**
     Any interleaving of steps of the collector and of the program: each command is performed in its turn
     if it can be. While marking, no black object refers to a white one (`NoBlackToWhite`), and no step
     frees anything reachable.
     */
    method Run(cs: seq<Command>) returns (trace: seq<State>)
      requires Valid()
      modifies this
      ensures Valid() && SafeRun(trace) && Obeys(trace, cs) && trace[0] == old(Now()) && trace[|cs|] == Now()
    {
      hide Inv, FreesGarbage, SafeRun, Enabled, Performs, Obeys;
      trace := [Now()];
      SafeRunStarts(Now());
      NothingToObey(Now());
      for i := 0 to |cs|
        invariant Valid() && SafeRun(trace) && Obeys(trace, cs[..i]) && |trace| == i + 1 && trace[0] == old(Now())
                  && trace[i] == Now()
      {
        var c := cs[i];
        ghost var g := Now();
        if Enabled(Now(), c) {
          if c.Collect? || c.Abandon? || c.Restart? {
            CollectorStep(c);
          } else if c.WriteObject? || c.WriteTable? || c.Create? || c.FindString? || c.WriteMetatable? || c.SwitchTo? {
            ObjectStep(c);
          } else {
            StackStep(c);
          }
        } else {
          OnlyGarbage(g, g);
        }
        SafeRunExtends(trace, Now());
        ObeysMore(trace, cs[..i], c, Now());
        assert cs[..i + 1] == cs[..i] + [c];
        trace := trace + [Now()];
      }
      assert cs[..|cs|] == cs;
    }
  }
}
