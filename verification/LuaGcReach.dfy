/**
 Why a collection that the program does not interrupt gets rid of all garbage: marking stays within
 every set of objects that is closed under the references the collector follows, and the sweep frees
 whatever marking has not met.
 */
module LuaGcReach {
  import opened LuaHeap
  import opened LuaGcFirm
  import opened LuaGcState
  import opened LuaGcSteps
  import opened LuaGcRuns

  predicate AllIn(vs: seq<Val>, x: set<nat>) { forall v <- vs :: v.Ref? ==> v.o in x }

  predicate StringsIn(h: Heap, vs: seq<Val>, x: set<nat>) {
    forall v <- vs :: v.Ref? && v.o in h && h[v.o].body.Str? ==> v.o in x
  }

  /** Closed under strong references, and references to strings, which weak tables keep too. */
  predicate ClosedUnder(h: Heap, x: set<nat>) {
    forall o <- h :: o in x ==> AllIn(StrongVals(h, h[o].body), x) && StringsIn(h, AllVals(h, h[o].body), x)
  }

  predicate Inside(h: Heap, x: set<nat>) { forall o <- h :: !h[o].color.White? ==> o in x }

  /** Everything marked is in the set, and so will be what is marked next. */
  predicate Confines(h: Heap, x: set<nat>) { ClosedUnder(h, x) && Inside(h, x) }

  /** Marking an object of the set. */
  lemma MarkInside(h: Heap, o: nat, c: Color, x: set<nat>)
    requires o in h
    ensures Confines(h, x) && o in x ==> Confines(Paint(h, o, c), x) && AllIn(StrongVals(h, h[o].body), x)
  {
    if Confines(h, x) && o in x {
      var h' := Paint(h, o, c);
      forall p | p in h' && p in x
        ensures AllIn(StrongVals(h', h'[p].body), x) && StringsIn(h', AllVals(h', h'[p].body), x) {
        PaintKeeps(h, o, c);
        SameStrong(h, h', h[p].body);
      }
    }
  }

  lemma SameStrong(h: Heap, h': Heap, b: Body)
    requires AllVals(h', b) == AllVals(h, b)
    ensures StrongVals(h', b) == StrongVals(h, b)
  {
  }

  /** A marked object leads to objects of the set only. */
  lemma MarkedLeadsInside(h: Heap, o: nat, x: set<nat>)
    requires Nonwhite(h, o)
    ensures Confines(h, x) ==> o in x && AllIn(StrongVals(h, h[o].body), x)
  {
  }

  lemma RelabelsConfine(h: Heap, h': Heap, x: set<nat>)
    requires Relabels(h, h')
    ensures Confines(h, x) ==> Confines(h', x)
  {
    if Confines(h, x) {
      forall o | o in h' && o in x
        ensures AllIn(StrongVals(h', h'[o].body), x) && StringsIn(h', AllVals(h', h'[o].body), x) {
        RelabelsKeep(h, h', o);
      }
    }
  }

  /** The strings of a table that is cleared. */
  lemma ClearedStrings(h: Heap, h1: Heap, o: nat, x: set<nat>)
    requires ClosedUnder(h, x) && o in x && SameThere(h, h1, o) && h[o].body.Tab?
    requires h1.Keys == h.Keys && forall p <- h :: h1[p].body.Str? <==> h[p].body.Str?
    ensures StringsIn(h1, AllVals(h1, ClearedBody(h1, h1[o].body)), x)
  {
    var b, b' := h[o].body, ClearedBody(h1, h1[o].body);
    forall v | v in AllVals(h1, b') && v.Ref? && v.o in h1 && h1[v.o].body.Str? ensures v.o in x {
      EntryValsFrom(b'.entries, true, true, v);
      EntryValsFrom(b.entries, true, true, v);
      assert v in AllVals(h, b);
    }
  }

  /** The roots, the running thread, and what the finalizers still to come will be given. */
  predicate RootsIn(g: State, x: set<nat>) {
    && g.main in x && g.running in x && AllIn([g.registry] + g.mt, x) && (forall o <- g.tmu :: o in x)
    && (forall o <- g.udata ::
          o in g.heap && g.heap[o].body.Udata? && g.heap[o].body.hasGc && !g.heap[o].body.finalized ==> o in x)
  }

  /** The set is closed and has all that a collection starts from. */
  predicate Enough(g: State, x: set<nat>) { ClosedUnder(g.heap, x) && RootsIn(g, x) }

  /** How far a collection has come in getting rid of everything outside the set. */
  ghost predicate Narrowed(g: State, x: set<nat>) {
    match g.phase
    case Pause => Enough(g, x)
    case Propagate => Confines(g.heap, x) && RootsIn(g, x)
    case Finalize => g.heap.Keys <= x
    case _ => forall o <- g.heap :: o in x || (o in g.unswept && IsDead(g, o))
  }

  lemma SameRootsIn(g: State, g': State, x: set<nat>)
    requires SameRoots(g, g') && SameBodies(g.heap, g'.heap) && g'.tmu == g.tmu && g'.udata == g.udata
    ensures RootsIn(g, x) ==> RootsIn(g', x)
  {
  }

  /**
   Before a collection nothing is marked but userdata that wait for their finalizer, and the roots lead into the set.
   */
  lemma RootValsIn(g: State, x: set<nat>)
    requires Inv(g) && (g.phase == Pause || g.phase == Finalize)
    ensures Enough(g, x) ==>
            Confines(g.heap, x) && IsThread(g.heap, g.main) && AllIn(RootVals(g.heap, g.main, g.registry, g.mt), x)
  {
    if Enough(g, x) {
      assert RestWhite(g.heap, g.white, {}, g.tmu) && Inside(g.heap, x);
      var b := g.heap[g.main].body;
      assert AllIn(StrongVals(g.heap, b), x) && b.globals in StrongVals(g.heap, b);
      assert g.registry in [g.registry] + g.mt && forall v <- g.mt :: v in [g.registry] + g.mt;
    }
  }

  lemma RootsNarrow(g: State, g': State, x: set<nat>)
    requires SameRoots(g, g') && SameBodies(g.heap, g'.heap) && g'.tmu == g.tmu && g'.udata == g.udata
             && g'.phase == Propagate
    requires Enough(g, x) ==> Confines(g'.heap, x)
    ensures Enough(g, x) ==> Narrowed(g', x)
  {
    SameRootsIn(g, g', x);
  }

  lemma ConfinesMeans(h: Heap, x: set<nat>)
    ensures Confines(h, x) <==> ClosedUnder(h, x) && Inside(h, x)
  {
  }

  lemma StringsOfCleared(h: Heap, h1: Heap, o: nat, x: set<nat>)
    requires Trims(h, h1) && SameThere(h, h1, o) && h1[o].body.Tab?
    ensures Confines(h, x) && o in x ==> StringsIn(h1, AllVals(h1, ClearedBody(h1, h1[o].body)), x)
  {
    if Confines(h, x) && o in x { ClearedStrings(h, h1, o, x); }
  }

  lemma BodyInside(h: Heap, o: nat, b: Body, x: set<nat>)
    requires o in h
    ensures Inside(h, x) ==> Inside(h[o := h[o].(body := b)], x)
  {
  }

  /** After the last marking everything is within the set, and so are the weak tables. */
  lemma AtomicWithin(g: State, h5: Heap, h8: Heap, tmu: seq<nat>, weak: seq<nat>, again: seq<nat>, x: set<nat>)
    requires g.phase == Propagate && Tri(h8, [], again, weak, tmu) && Flagged(g.heap, h5)
    requires Confines(g.heap, x) && AllIn([Ref(g.running)] + g.mt, x) ==> Confines(h5, x)
    requires forall o :: o in tmu <==> o in g.tmu || (o in g.udata && ToFinalize(h5, o))
    requires Confines(h5, x) && (forall o <- tmu :: o in x) ==> Confines(h8, x)
    ensures Narrowed(g, x) ==> Confines(h8, x) && forall o <- weak :: o in x
  {
    if Narrowed(g, x) {
      assert forall v <- [Ref(g.running)] + g.mt :: v == Ref(g.running) || v in [g.registry] + g.mt;
      assert Confines(h5, x);
      forall o | o in tmu ensures o in x {
        if o !in g.tmu { assert o in g.udata && ToFinalize(h5, o); }
      }
    }
  }

  lemma FlipNarrows(g: State, g': State, x: set<nat>)
    requires g'.phase == SweepString && g'.unswept == g'.heap.Keys - SetOf(g'.tmu) && Inv(g')
             && NoneDead(g'.heap, !g'.white)
    requires Narrowed(g, x) ==> Inside(g'.heap, x)
    ensures Narrowed(g, x) ==> Narrowed(g', x)
  {
    if Narrowed(g, x) {
      forall o | o in g'.heap && o !in x ensures o in g'.unswept && IsDead(g', o) {
        assert g'.heap[o].color.White?;
      }
    }
  }

  // ---------------------------------------------------------------- the sweep

  lemma SweptNarrows(g: State, o: nat, x: set<nat>)
    requires InSweep(g.phase) && o in g.heap
    ensures Narrowed(g, x) ==> Narrowed(Swept(g, o), x)
  {
    if Narrowed(g, x) {
      var g' := Swept(g, o);
      forall p | p in g'.heap && p !in x ensures p in g'.unswept && IsDead(g', p) {
        assert p in g.unswept && IsDead(g, p);
      }
    }
  }

  lemma ThreadNarrows(g: State, t: nat, x: set<nat>)
    requires InSweep(g.phase) && t in g.heap
    ensures Narrowed(g, x) ==> Narrowed(ThreadSwept(g, t), x)
  {
    if Narrowed(g, x) {
      var g' := ThreadSwept(g, t);
      forall p | p in g'.heap && p !in x ensures p in g'.unswept && IsDead(g', p) {
        assert p in g.unswept && IsDead(g, p);
      }
    }
  }

  lemma PhaseNarrows(g: State, g': State, x: set<nat>)
    requires Inv(g) && g' == g.(phase := g'.phase)
    requires (g.phase == SweepString && g'.phase == Sweep)
             || (g.phase == Sweep && g.unswept == {} && g'.phase == Finalize)
             || (g.phase == Finalize && g'.phase == Pause)
    ensures Narrowed(g, x) ==> Narrowed(g', x)
  {
    if g.phase == Finalize && Narrowed(g, x) {
      StartTri(g.heap, g.white, g.main, g.running, g.open, g.udata, g.tmu);
      forall o | o in g.heap ensures AllIn(StrongVals(g.heap, g.heap[o].body), x)
        && StringsIn(g.heap, AllVals(g.heap, g.heap[o].body), x) {
        assert AliveVals(g.heap, g.white, AllVals(g.heap, g.heap[o].body));
        StrongWithin(g.heap, g.heap[o].body);
      }
      forall v | v in [g.registry] + g.mt && v.Ref? ensures v.o in x {
        assert v in [g.registry] || v in g.mt;
      }
    }
  }

  // ---------------------------------------------------------------- what a collection is for

  /** A reference the collector follows. */
  predicate Follows(h: Heap, o: nat, p: nat) {
    && o in h
    && (MentionsStrongly(h, h[o].body, Ref(p)) || (Mentions(h, h[o].body, Ref(p)) && p in h && h[p].body.Str?))
  }

  ghost predicate IsTrail(h: Heap, ps: seq<nat>) {
    |ps| > 0 && forall i, j :: 0 <= i < j == i + 1 < |ps| ==> Follows(h, ps[i], ps[j])
  }

  /** A root, or a userdatum whose finalizer has not been called. */
  predicate IsSource(g: State, o: nat) {
    IsRoot(g, o) || (o in g.udata && o in g.heap && g.heap[o].body.Udata? && g.heap[o].body.hasGc
      && !g.heap[o].body.finalized)
  }

  /** What a collection has to keep: a trail of strong references leads there. */
  ghost predicate Wanted(g: State, o: nat) {
    exists ps :: IsTrail(g.heap, ps) && IsSource(g, ps[0]) && ps[|ps| - 1] == o
  }

  ghost function AllWanted(g: State): set<nat> { set o | o in g.heap && Wanted(g, o) }

  lemma SourceWanted(g: State, o: nat)
    requires IsSource(g, o)
    ensures Wanted(g, o)
  {
    assert IsTrail(g.heap, [o]) && [o][0] == o;
  }

  lemma WantedFurther(g: State, o: nat, p: nat)
    requires Wanted(g, o) && Follows(g.heap, o, p)
    ensures Wanted(g, p)
  {
    var ps :| IsTrail(g.heap, ps) && IsSource(g, ps[0]) && ps[|ps| - 1] == o;
    var qs := ps + [p];
    forall i, j | 0 <= i < j == i + 1 < |qs| ensures Follows(g.heap, qs[i], qs[j]) {
      if j < |ps| { assert Follows(g.heap, ps[i], ps[j]); }
    }
    assert IsTrail(g.heap, qs);
  }

  /** What is wanted is closed under what the collector follows. */
  lemma WantedEnough(g: State)
    requires Inv(g) && (g.phase == Pause || g.phase == Finalize)
    ensures Enough(g, AllWanted(g))
  {
    var x := AllWanted(g);
    StartTri(g.heap, g.white, g.main, g.running, g.open, g.udata, g.tmu);
    AliveWhole(g.heap, g.white);
    forall o | o in g.heap && o in x
      ensures AllIn(StrongVals(g.heap, g.heap[o].body), x) && StringsIn(g.heap, AllVals(g.heap, g.heap[o].body), x) {
      FollowedWanted(g, o);
    }
    WantedRoots(g);
  }

  lemma FollowedWanted(g: State, o: nat)
    requires Inv(g) && o in g.heap && Whole(g.heap) && Wanted(g, o)
    ensures AllIn(StrongVals(g.heap, g.heap[o].body), AllWanted(g))
    ensures StringsIn(g.heap, AllVals(g.heap, g.heap[o].body), AllWanted(g))
  {
    hide Inv, Wanted, Mentions, MentionsStrongly;
    var b := g.heap[o].body;
    StrongWithin(g.heap, b);
    forall v | v in AllVals(g.heap, b) && v.Ref?
               && (v in StrongVals(g.heap, b) || (v.o in g.heap && g.heap[v.o].body.Str?))
      ensures v.o in AllWanted(g)
    {
      ValsAreFields(g.heap, b, v);
      WantedFurther(g, o, v.o);
    }
  }

  lemma WantedRoots(g: State)
    requires Inv(g)
    ensures RootsIn(g, AllWanted(g))
  {
    forall o | IsSource(g, o) ensures Wanted(g, o) { SourceWanted(g, o); }
    forall v | v in [g.registry] + g.mt && v.Ref? ensures v.o in AllWanted(g) {
      assert v in [g.registry] || v in g.mt;
      assert IsSource(g, v.o);
    }
    assert IsSource(g, g.main) && IsSource(g, g.running);
  }

  lemma NarrowedEnd(g: State, x: set<nat>)
    requires g.phase == Finalize && Narrowed(g, x)
    ensures g.heap.Keys <= x
  {
  }

  // ---------------------------------------------------------------- before the marking of a full collection

  /** Nothing has become wanted. */
  ghost predicate WantsNoMore(g: State, g': State) { forall o :: Wanted(g', o) ==> Wanted(g, o) }

  lemma WantsSame(g: State, g': State)
    requires SameRoots(g, g') && g'.heap == g.heap && g'.tmu == g.tmu && g'.udata == g.udata
    ensures WantsNoMore(g, g')
  {
    forall o | Wanted(g', o) ensures Wanted(g, o) {
      var ps :| IsTrail(g'.heap, ps) && IsSource(g', ps[0]) && ps[|ps| - 1] == o;
      assert IsTrail(g.heap, ps) && IsSource(g, ps[0]);
    }
  }

  lemma WantsTransitive(g: State, g1: State, g2: State)
    requires WantsNoMore(g, g1) && WantsNoMore(g1, g2)
    ensures WantsNoMore(g, g2)
  {
  }

  /** Objects that are left refer to what they referred to. */
  ghost predicate FollowsLess(h: Heap, h': Heap) { forall o, p :: Follows(h', o, p) ==> Follows(h, o, p) }

  lemma WantsLess(g: State, g': State)
    requires FollowsLess(g.heap, g'.heap) && forall o :: IsSource(g', o) ==> IsSource(g, o)
    ensures WantsNoMore(g, g')
  {
    forall o | Wanted(g', o) ensures Wanted(g, o) {
      var ps :| IsTrail(g'.heap, ps) && IsSource(g', ps[0]) && ps[|ps| - 1] == o;
      forall i, j | 0 <= i < j == i + 1 < |ps|
        ensures Follows(g.heap, ps[i], ps[j]) { assert Follows(g'.heap, ps[i], ps[j]); }
      assert IsTrail(g.heap, ps);
    }
  }

  lemma SweptWants(g: State, o: nat)
    requires o in g.heap && !g.heap[o].body.Thread?
    ensures WantsNoMore(g, Swept(g, o))
  {
    var g' := Swept(g, o);
    forall a, p | Follows(g'.heap, a, p) ensures Follows(g.heap, a, p) {
      if IsDead(g, o) { SameSlots(g.heap, g'.heap, o, g.heap[a].body); } else { PaintKeeps(g.heap, o, White(g.white)); }
      SameStrong(g.heap, g'.heap, g.heap[a].body);
    }
    WantsLess(g, g');
  }

  lemma ThreadWants(g: State, t: nat)
    requires Inv(g) && IsThread(g.heap, t)
    ensures WantsNoMore(g, ThreadSwept(g, t))
  {
    var g' := ThreadSwept(g, t);
    assert g'.heap == SweptThread(g.heap, g.white, t);
    hide Inv, Follows, ThreadSwept, SweptThread, WantsNoMore, IsSource;
    forall a, p | Follows(g'.heap, a, p) ensures Follows(g.heap, a, p) { ThreadFollows(g, t, a, p); }
    ThreadSources(g, t);
    WantsLess(g, g');
  }

  lemma ThreadFollows(g: State, t: nat, a: nat, p: nat)
    requires Inv(g) && IsThread(g.heap, t) && Follows(SweptThread(g.heap, g.white, t), a, p)
    ensures Follows(g.heap, a, p)
  {
    ThreadVals(g.heap, g.white, t, a);
    ThreadBodies(g.heap, g.white, t, a, p);
  }

  lemma ThreadBodies(h: Heap, white: bool, t: nat, a: nat, p: nat)
    requires IsThread(h, t) && a in SweptThread(h, white, t)
    ensures a in h && (SweptThread(h, white, t)[a].body.Tab? <==> h[a].body.Tab?)
    ensures h[a].body.Tab? ==> SweptThread(h, white, t)[a].body == h[a].body
    ensures p in SweptThread(h, white, t) && SweptThread(h, white, t)[p].body.Str? ==> p in h && h[p].body.Str?
  {
  }

  lemma ThreadSources(g: State, t: nat)
    requires IsThread(g.heap, t)
    ensures forall o :: IsSource(ThreadSwept(g, t), o) ==> IsSource(g, o)
  {
  }

  lemma SweepWants(g: State, g': State)
    requires Inv(g) && InSweep(g.phase) && Moves(g, g')
    ensures WantsNoMore(g, g')
  {
    hide WantsNoMore, ThreadSwept, Swept;
    if PhaseOver(g, g') {
      WantsSame(g, g');
    } else {
      var o :| SweepsObject(g, g', o);
      if g.heap[o].body.Thread? { ThreadWants(g, o); } else { SweptWants(g, o); }
    }
  }

  lemma PauseNarrowed(g: State, x: set<nat>)
    requires g.phase == Pause
    ensures Narrowed(g, x) <==> Enough(g, x)
  {
  }

  lemma AllWantedBefore(g: State, g': State, left: set<nat>)
    requires WantsNoMore(g, g') && left <= AllWanted(g')
    ensures forall o <- left :: Wanted(g, o)
  {
  }
}
