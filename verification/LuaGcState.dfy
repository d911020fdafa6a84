/**
 The state of Lua's collector (`lgc.c`) and the invariant that all steps of the collector and of the
 running program keep.

 The lists to be swept are the set of objects that the sweep has yet to visit.
 */
module LuaGcState {
  import opened LuaHeap

  datatype Phase = Pause | Propagate | SweepString | Sweep | Finalize

  /** In a sweep, objects of the other white are dead. */
  predicate AliveIn(h: Heap, white: bool, o: nat) { o in h && h[o].color != White(!white) }

  predicate AliveVals(h: Heap, white: bool, vs: seq<Val>) {
    forall v <- vs :: v.Ref? ==> AliveIn(h, white, v.o)
  }

  lemma NothingAlive(h: Heap, white: bool)
    ensures AliveVals(h, white, [])
  {
  }

  lemma NoneAlive(h: Heap, white: bool)
    ensures AliveVals(h, white, [Nil])
  {
  }

  /** Nothing alive refers to anything dead or freed, not even weakly. */
  predicate AliveClosed(h: Heap, white: bool) {
    forall o <- h :: AliveIn(h, white, o) ==> AliveVals(h, white, AllVals(h, h[o].body))
  }

  predicate NoneDead(h: Heap, white: bool) {
    forall o <- h :: h[o].color != White(!white)
  }

  /** Open upvalues point into the stack of an existing thread. */
  predicate Shaped(h: Heap) {
    forall o <- h :: h[o].body.Open? ==> HasSlot(h, h[o].body.thread, h[o].body.level)
  }

  predicate HasSlot(h: Heap, t: nat, l: nat) { IsThread(h, t) && l < |h[t].body.stack| }

  predicate IsThread(h: Heap, o: nat) { o in h && h[o].body.Thread? }

  ghost predicate Structured(h: Heap, main: nat, running: nat, open: seq<nat>, udata: seq<nat>, tmu: seq<nat>) {
    && Shaped(h) && IsThread(h, main) && IsThread(h, running)
    && (forall o :: o in open <==> o in h && h[o].body.Open?)
    && (forall o <- udata :: o in h && h[o].body.Udata?)
    && (forall o <- tmu :: o in h && h[o].body.Udata?)
    && (forall o <- h :: h[o].body.Udata? ==> o in udata || o in tmu)
  }

  /** Everything the program starts from is alive. */
  predicate RootsAlive(h: Heap, white: bool, main: nat, running: nat, registry: Val, mt: seq<Val>, tmu: seq<nat>) {
    && AliveIn(h, white, main) && AliveIn(h, white, running) && AliveVals(h, white, [registry])
       && AliveVals(h, white, mt)
    && forall o <- tmu :: AliveIn(h, white, o)
  }

  ghost predicate SameBodies(h: Heap, h': Heap) {
    h'.Keys == h.Keys && forall o <- h :: h'[o].body == h[o].body
  }

  lemma StructureKept(h: Heap, h': Heap, main: nat, running: nat, open: seq<nat>, udata: seq<nat>, tmu: seq<nat>)
    requires SameBodies(h, h') && Structured(h, main, running, open, udata, tmu)
    ensures Structured(h', main, running, open, udata, tmu)
  {
    forall o | o in h' && h'[o].body.Open? ensures HasSlot(h', h'[o].body.thread, h'[o].body.level) {
      assert HasSlot(h, h[o].body.thread, h[o].body.level);
    }
  }

  lemma RootsKept(h: Heap, h': Heap, white: bool, main: nat, running: nat, registry: Val, mt: seq<Val>, tmu: seq<nat>)
    requires RootsAlive(h, white, main, running, registry, mt, tmu) && forall o :: AliveIn(h, white, o) ==>
             AliveIn(h', white, o)
    ensures RootsAlive(h', white, main, running, registry, mt, tmu)
  {
  }

  function SetOf(xs: seq<nat>): set<nat> { set o | o in xs }

  datatype State = State(
    main: nat, running: nat, registry: Val, mt: seq<Val>, heap: Heap, phase: Phase, white: bool,
    gray: seq<nat>, again: seq<nat>, weak: seq<nat>, tmu: seq<nat>, open: seq<nat>, udata: seq<nat>, unswept: set<nat>)

  ghost predicate Inv(g: State) {
    && Structured(g.heap, g.main, g.running, g.open, g.udata, g.tmu)
    && RootsAlive(g.heap, g.white, g.main, g.running, g.registry, g.mt, g.tmu)
    && AliveClosed(g.heap, g.white) && InPhase(g)
  }

  ghost predicate InPhase(g: State) {
    match g.phase
    case Pause => g.unswept == {} && g.tmu == [] && RestWhite(g.heap, g.white, {}, [])
    case Propagate =>
      && g.unswept == {} && NoneDead(g.heap, g.white) && Tri(g.heap, g.gray, g.again, g.weak, g.tmu)
      && Nonwhite(g.heap, g.main) && Marked(g.heap, [g.registry])
    case Finalize => g.unswept == {} && RestWhite(g.heap, g.white, {}, g.tmu)
    case _ => Sweeping(g.heap, g.white, g.unswept, g.tmu, g.phase)
  }

  /**
   What is not to be swept any more is white, and a thread is swept together with its open upvalues. No
   userdatum to be freed has its finalizer still to come.
   */
  ghost predicate Sweeping(h: Heap, white: bool, unswept: set<nat>, tmu: seq<nat>, phase: Phase) {
    && unswept <= h.Keys && (forall o <- tmu :: o !in unswept) && RestWhite(h, white, unswept, tmu)
    && (forall o <- unswept :: h[o].body.Open? ==> h[o].body.thread in unswept)
    && (phase == Sweep ==> forall o <- unswept :: !h[o].body.Str?) && NonePending(h, White(!white))
  }

  /** All userdata of this colour have been flagged as finalized. */
  predicate NonePending(h: Heap, c: Color) {
    forall o <- h :: h[o].body.Udata? && h[o].color == c ==> h[o].body.finalized
  }

  lemma TrimsColors(h: Heap, h': Heap, tmu: seq<nat>)
    requires Trims(h, h') && forall o <- tmu :: o in h && h[o].body.Udata? && h[o].color == Black
    ensures forall o <- tmu :: o in h' && h'[o].color == Black
  {
  }

  lemma RunningMarked(h: Heap, running: nat, mt: seq<Val>)
    requires Marked(h, [Ref(running)] + mt)
    ensures Nonwhite(h, running) && Marked(h, mt)
  {
    var vs := [Ref(running)] + mt;
    assert vs[0] in vs;
  }

  lemma EvolvedUdata(g: State, h: Heap)
    requires Inv(g) && Evolves(g.heap, h)
    ensures forall o :: o in g.udata || o in g.tmu <==> o in h && h[o].body.Udata?
  {
  }

  /** No userdatum that is still white has its finalizer to come. */
  predicate AllFlagged(h: Heap) { forall o <- h :: h[o].body.Udata? && h[o].color.White? ==> h[o].body.finalized }

  lemma SeparatedMeans(h: Heap, us: seq<nat>, tmu: seq<nat>, h': Heap, kept: seq<nat>, tmu': seq<nat>)
    requires Separated(h, us, tmu, h', kept, tmu') && forall o :: o in us || o in tmu <==> o in h && h[o].body.Udata?
    ensures Relabels(h, h') && (forall o :: o in kept || o in tmu' <==> o in us || o in tmu)
    ensures forall o :: o in tmu' <==> o in tmu || (o in us && ToFinalize(h, o))
    ensures tmu <= tmu' && Subsequence(tmu'[|tmu|..], us)
    ensures forall o <- h' :: h'[o].body.Udata? && h'[o].color.White? ==> h'[o].body.finalized || o in tmu'
    ensures forall o <- tmu' :: o in h' && h'[o].body.Udata?
  {
    PickedInOrder(h, us);
    assert tmu'[|tmu|..] == Picked(h, us);
  }

  lemma FlaggedAll(h: Heap, h': Heap, tmu: seq<nat>)
    requires Darkens(h, h') && (forall o <- h :: h[o].body.Udata? && h[o].color.White? ==>
             h[o].body.finalized || o in tmu)
    requires forall o <- tmu :: o in h' && h'[o].color == Black
    ensures AllFlagged(h')
  {
  }

  lemma NoneOf(h: Heap, white: bool)
    requires AllFlagged(h)
    ensures NonePending(h, White(white))
  {
  }

  // ---------------------------------------------------------------- the steps of `atomic`

  lemma AtomicReady(g: State)
    requires Inv(g) && g.phase == Propagate
    ensures Whole(g.heap) && Tri(g.heap, g.gray, g.again, g.weak, g.tmu) && Shaped(g.heap)
    ensures forall o :: o in g.open <==> o in g.heap && g.heap[o].body.Open?
  {
    AliveWhole(g.heap, g.white);
  }

  lemma DistinctSwap(a: seq<nat>, b: seq<nat>)
    requires Distinct(a + b)
    ensures Distinct(b + a)
  {
    var c, d := a + b, b + a;
    forall i, j | 0 <= i < j < |d| ensures d[i] != d[j] {
      var i', j' := if i < |b| then i + |a| else i - |b|, if j < |b| then j + |a| else j - |b|;
      assert c[i'] == d[i] && c[j'] == d[j];
      if i' < j' { assert c[i'] != c[j']; } else { assert c[j'] != c[i']; }
    }
  }

  lemma RegrayWeak(h: Heap, again: seq<nat>, weak: seq<nat>, tmu: seq<nat>)
    requires Tri(h, [], again, weak, tmu)
    ensures Tri(h, weak, again, [], tmu)
  {
    assert [] + again + weak == again + weak && weak + again + [] == weak + again;
    DistinctSwap(again, weak);
  }

  lemma RegrayAgain(h: Heap, again: seq<nat>, weak: seq<nat>, tmu: seq<nat>)
    requires Tri(h, [], again, weak, tmu)
    ensures Tri(h, again, [], weak, tmu)
  {
    assert [] + again + weak == again + [] + weak;
  }

  lemma RunningThere(g: State, h: Heap)
    requires Inv(g) && Darkens(g.heap, h)
    ensures forall v <- [Ref(g.running)] + g.mt :: v.Ref? ==> v.o in h
  {
  }

  lemma RoundInAtomic(h: Heap, gray: seq<nat>, h': Heap, gray': seq<nat>, again: seq<nat>, weak: seq<nat>,
                      tmu: seq<nat>)
    requires Tri(h, gray, again, weak, tmu) && Round(h, gray, h', gray') && Whole(h) && UpvaluesDone(h)
    ensures Tri(h', gray', again, weak, tmu) && Whole(h') && UpvaluesDone(h') && Darkens(h, h')
  {
    RoundKeepsTri(h, gray, h', gray', again, weak, tmu);
    RoundKeepsUpvalues(h, gray, h', gray');
    MarksWhole(h, h');
  }

  lemma RelabelsInAtomic(h: Heap, h': Heap, again: seq<nat>, weak: seq<nat>)
    requires Relabels(h, h') && Whole(h) && UpvaluesDone(h)
    ensures Whole(h') && UpvaluesDone(h') && forall o, w :: Traversed(h, o, w) ==> Traversed(h', o, w)
  {
    RelabelsWhole(h, h');
    forall o, w | Traversed(h, o, w) ensures Traversed(h', o, w) { RelabelsKeep(h, h', o); }
    forall o | o in h' && h'[o].body.Open? && !h'[o].color.White?
      ensures Marked(h', AllVals(h', h'[o].body)) { RelabelsKeep(h, h', o); }
  }

  /** After the last propagation only the weak references of weak tables may lead to white objects. */
  lemma EverythingDone(h: Heap, again: seq<nat>, weak: seq<nat>, tmu: seq<nat>)
    requires Tri(h, [], again, weak, tmu) && UpvaluesDone(h)
    requires (forall o <- again :: Traversed(h, o, false)) && (forall o <- weak :: Traversed(h, o, true))
    requires forall o <- tmu :: o in h && h[o].color == Black && Marked(h, AllVals(h, h[o].body))
    ensures Distinct(weak) && forall o <- h :: !h[o].color.White? && o !in weak ==> Marked(h, AllVals(h, h[o].body))
  {
    var all := [] + again + weak;
    forall i, j | 0 <= i < j < |weak| ensures weak[i] != weak[j] { assert all[|again| + i] != all[|again| + j]; }
    forall o | o in h && !h[o].color.White? && o !in weak ensures Marked(h, AllVals(h, h[o].body)) {
      if h[o].color == Gray && Listable(h[o].body) { assert o in again && Traversed(h, o, false); }
    }
  }

  /** Marks are not lost, and an object stays what it is. */
  ghost predicate Evolves(h: Heap, h': Heap) {
    && h'.Keys == h.Keys
    && forall o <- h ::
         && (h'[o].color == h[o].color || !h'[o].color.White?)
         && (h'[o].body == h[o].body || (h[o].body.Udata? && h'[o].body.Udata?) || (h[o].body.Tab? && h'[o].body.Tab?))
  }

  lemma DarkensEvolves(h: Heap, h': Heap)
    requires Darkens(h, h')
    ensures Evolves(h, h')
  {
  }

  lemma DarkensBodies(h: Heap, h': Heap)
    requires Darkens(h, h')
    ensures SameBodies(h, h')
  {
  }

  lemma MarksBodies(h: Heap, h': Heap)
    requires Marks(h, h')
    ensures SameBodies(h, h')
  {
  }

  lemma FlaggedThen(h: Heap, h1: Heap, h2: Heap)
    requires Relabels(h, h1) && SameBodies(h1, h2)
    ensures Flagged(h, h2)
  {
  }

  lemma MarkedUnflagged(h: Heap, h1: Heap, h2: Heap)
    requires Relabels(h, h1) && SameBodies(h1, h2)
    ensures forall o :: Nonwhite(h, o) ==> h2[o].body == h[o].body
  {
  }

  lemma FlaggedSince(h: Heap, h1: Heap, h2: Heap)
    requires SameBodies(h, h1) && Flagged(h1, h2)
    ensures Flagged(h, h2)
  {
  }

  lemma RelabelsEvolves(h: Heap, h': Heap)
    requires Relabels(h, h')
    ensures Evolves(h, h')
  {
  }

  lemma TrimsEvolves(h: Heap, h': Heap)
    requires Trims(h, h')
    ensures Evolves(h, h')
  {
  }

  lemma EvolvesTransitive(h: Heap, h1: Heap, h2: Heap)
    requires Evolves(h, h1) && Evolves(h1, h2)
    ensures Evolves(h, h2)
  {
  }

  lemma EvolvesKeeps(h: Heap, h': Heap)
    requires Evolves(h, h')
    ensures h'.Keys == h.Keys && (forall o :: Nonwhite(h, o) ==> Nonwhite(h', o)) && forall vs :: Marked(h, vs) ==>
            Marked(h', vs)
    ensures forall w :: NoneDead(h, w) ==> NoneDead(h', w)
  {
  }

  lemma EvolvesStructured(h: Heap, h': Heap, main: nat, running: nat, open: seq<nat>, udata: seq<nat>, tmu: seq<nat>,
                          udata': seq<nat>, tmu': seq<nat>)
    requires Evolves(h, h') && Structured(h, main, running, open, udata, tmu)
    requires forall o :: o in udata' || o in tmu' <==> o in udata || o in tmu
    ensures Structured(h', main, running, open, udata', tmu')
  {
    forall o | o in h' && h'[o].body.Open? ensures HasSlot(h', h'[o].body.thread, h'[o].body.level) {
      assert HasSlot(h, h[o].body.thread, h[o].body.level);
    }
  }

  /** The flip: what is marked is alive, and what is not is dead. */
  lemma FlipInv(g: State, h: Heap, tmu: seq<nat>, udata: seq<nat>, gray: seq<nat>, again: seq<nat>, weak: seq<nat>)
    requires Inv(g) && g.phase == Propagate && Evolves(g.heap, h) && NonePending(h, White(g.white))
    requires forall o :: o in udata || o in tmu <==> o in g.udata || o in g.tmu
    requires forall o <- h :: !h[o].color.White? ==> Marked(h, AllVals(h, h[o].body))
    requires Nonwhite(h, g.running) && Marked(h, g.mt) && forall o <- tmu :: o in h && h[o].color == Black
    ensures Inv(g.(heap := h, white := !g.white, phase := SweepString, unswept := h.Keys - SetOf(tmu),
                   tmu := tmu, udata := udata, gray := gray, again := again, weak := weak))
  {
    EvolvesKeeps(g.heap, h);
    assert NoneDead(h, g.white) && Marked(h, [g.registry]) && Nonwhite(h, g.main);
    EvolvesStructured(g.heap, h, g.main, g.running, g.open, g.udata, g.tmu, udata, tmu);
    FlipAlive(h, g.white, g.main, g.running, g.registry, g.mt, tmu);
    FlipSweeping(h, !g.white, g.main, g.running, g.open, udata, tmu);
    hide Structured, RootsAlive, AliveClosed, Sweeping, Evolves;
  }

  lemma AtomicInv(g: State, h5: Heap, h8: Heap, h: Heap, tmu: seq<nat>, udata: seq<nat>, gray: seq<nat>,
                  again: seq<nat>, weak: seq<nat>)
    requires Inv(g) && g.phase == Propagate && Evolves(g.heap, h5) && Evolves(h5, h8) && Trims(h8, h)
    requires Marked(h5, [Ref(g.running)] + g.mt) && NonePending(h8, White(g.white))
    requires forall o :: o in udata || o in tmu <==> o in g.udata || o in g.tmu
    requires forall o <- tmu :: o in h8 && h8[o].body.Udata? && h8[o].color == Black
    requires forall o <- h :: !h[o].color.White? ==> Marked(h, AllVals(h, h[o].body))
    ensures Inv(g.(heap := h, white := !g.white, phase := SweepString, unswept := h.Keys - SetOf(tmu),
                   tmu := tmu, udata := udata, gray := gray, again := again, weak := weak))
    ensures h.Keys == g.heap.Keys && NoneDead(h, g.white)
  {
    PhaseNoneDead(g);
    hide Inv, Marked, Trims, Evolves, AllVals;
    TrimsEvolves(h8, h);
    TrimsColors(h8, h, tmu);
    EvolvesTransitive(h5, h8, h);
    EvolvesKeeps(h5, h);
    EvolvesTransitive(g.heap, h5, h);
    EvolvesKeeps(g.heap, h);
    RunningMarked(h5, g.running, g.mt);
    TrimsPending(h8, h, White(g.white));
    FlipInv(g, h, tmu, udata, gray, again, weak);
  }

  lemma PhaseNoneDead(g: State)
    requires Inv(g) && g.phase == Propagate
    ensures NoneDead(g.heap, g.white)
  {
  }

  lemma TrimsPending(h: Heap, h': Heap, c: Color)
    requires Trims(h, h') && NonePending(h, c)
    ensures NonePending(h', c)
  {
  }

  lemma FlipAlive(h: Heap, white: bool, main: nat, running: nat, registry: Val, mt: seq<Val>, tmu: seq<nat>)
    requires NoneDead(h, white) && forall o <- h :: !h[o].color.White? ==> Marked(h, AllVals(h, h[o].body))
    requires Nonwhite(h, main) && Nonwhite(h, running) && Marked(h, [registry]) && Marked(h, mt)
    requires forall o <- tmu :: o in h && h[o].color == Black
    ensures AliveClosed(h, !white) && RootsAlive(h, !white, main, running, registry, mt, tmu)
  {
    forall o | o in h && AliveIn(h, !white, o) ensures AliveVals(h, !white, AllVals(h, h[o].body)) {
      assert Marked(h, AllVals(h, h[o].body));
    }
  }

  lemma FlipSweeping(h: Heap, white: bool, main: nat, running: nat, open: seq<nat>, udata: seq<nat>, tmu: seq<nat>)
    requires Structured(h, main, running, open, udata, tmu) && NonePending(h, White(!white))
             && forall o <- tmu :: o in h && h[o].color == Black
    ensures Sweeping(h, white, h.Keys - SetOf(tmu), tmu, SweepString)
  {
    var unswept := h.Keys - SetOf(tmu);
    forall o | o in unswept && h[o].body.Open? ensures h[o].body.thread in unswept {
      assert HasSlot(h, h[o].body.thread, h[o].body.level);
    }
  }

  lemma NothingTrimmed(h: Heap)
    ensures Trims(h, h)
  {
  }

  lemma NothingCleared(h: Heap)
    ensures AllCleared(h, h)
  {
  }

  predicate SameThere(h: Heap, h': Heap, o: nat) { o in h && o in h' && h'[o].body == h[o].body }

  lemma OthersThere(h: Heap, h1: Heap, h2: Heap, weak: seq<nat>, i: nat)
    requires i < |weak| && Distinct(weak) && forall o <- weak[i..] :: SameThere(h, h1, o)
    requires h2.Keys == h1.Keys && forall p <- h1 :: p != weak[i] ==> h2[p].body == h1[p].body
    ensures forall o <- weak[i + 1..] :: SameThere(h, h2, o)
  {
    forall o | o in weak[i + 1..] ensures SameThere(h, h2, o) {
      var j :| i + 1 <= j < |weak| && weak[j] == o;
      assert weak[i] != weak[j] && weak[i..][j - i] == o;
      assert o in weak[i..] && SameThere(h, h1, o);
    }
  }

  lemma TraversedWeak(h: Heap, o: nat)
    requires Traversed(h, o, true)
    ensures o in h && IsWeak(h[o].body)
  {
  }

  lemma ClearReady(h: Heap, o: nat)
    requires Traversed(h, o, true) && Whole(h)
    ensures o in h && h[o].body.Tab? && forall v <- AllVals(h, ClearedBody(h, h[o].body)) :: v.Ref? ==> v.o in h
  {
    var b := h[o].body;
    var b' := ClearedBody(h, b);
    forall v | v in AllVals(h, b') && v.Ref? ensures v in AllVals(h, b) {
      EntryValsFrom(b'.entries, true, true, v);
      EntryValsFrom(b.entries, true, true, v);
    }
  }

  lemma Cleared(h: Heap, h2: Heap, h': Heap, o: nat, weak: seq<nat>, i: nat)
    requires Traversed(h, o, true) && Whole(h) && i < |weak| && weak[i] == o && Distinct(weak)
    requires Trims(h, h2) && (forall p <- h :: h2[p].body == h[p].body) && h[o].body.Tab?
    requires h' == h2[o := h2[o].(body := ClearedBody(h, h[o].body))]
    requires forall v <- AllVals(h, ClearedBody(h, h[o].body)) :: v.Ref? && v.o in h && h[v.o].body.Str? ==>
             Nonwhite(h2, v.o)
    requires forall p <- weak[i..] :: Traversed(h, p, true)
    requires forall p <- h :: !h[p].color.White? && p !in weak[i..] ==> Marked(h, AllVals(h, h[p].body))
    ensures Trims(h, h') && Whole(h') && forall p <- weak[i + 1..] :: Traversed(h', p, true)
    ensures forall p <- h' :: !h'[p].color.White? && p !in weak[i + 1..] ==> Marked(h', AllVals(h', h'[p].body))
  {
    var b' := ClearedBody(h, h[o].body);
    assert Trims(h, h');
    assert weak[i..] == [o] + weak[i + 1..];
    ClearReady(h, o);
    forall p | p in h' ensures AllVals(h', h'[p].body) == AllVals(h, if p == o then b' else h[p].body) {
      TrimsKeep(h, h', h'[p].body);
    }
    forall v | v in AllVals(h, b') && v.Ref? ensures Nonwhite(h', v.o) {
      ClearedVals(h, h[o].body, v);
    }
    ClearedRest(h, h', o, weak, i);
  }

  lemma ClearedRest(h: Heap, h': Heap, o: nat, weak: seq<nat>, i: nat)
    requires Trims(h, h') && Whole(h) && i < |weak| && weak[i] == o && Distinct(weak) && o in h && h[o].body.Tab?
             && h'[o].body.Tab?
    requires forall p <- h :: p != o ==> h'[p].body == h[p].body
    requires Marked(h', AllVals(h', h'[o].body))
    requires forall p <- weak[i..] :: Traversed(h, p, true)
    requires forall p <- h :: !h[p].color.White? && p !in weak[i..] ==> Marked(h, AllVals(h, h[p].body))
    ensures Whole(h') && forall p <- weak[i + 1..] :: Traversed(h', p, true)
    ensures forall p <- h' :: !h'[p].color.White? && p !in weak[i + 1..] ==> Marked(h', AllVals(h', h'[p].body))
  {
    assert weak[i..] == [o] + weak[i + 1..];
    hide Marked, Trims, Whole, Traversed, AllVals;
    assert Whole(h') by { TrimmedWhole(h, h', o); }
    forall p | p in weak[i + 1..] ensures Traversed(h', p, true) {
      var j :| i + 1 <= j < |weak| && weak[j] == p;
      assert weak[i] != weak[j] && p in weak[i..];
      TrimmedTraversed(h, h', o, p);
    }
    forall p | p in h' && !h'[p].color.White? && p !in weak[i + 1..] ensures Marked(h', AllVals(h', h'[p].body)) {
      if p != o {
        assert p !in weak[i..];
        TrimmedMarked(h, h', o, p);
      }
    }
  }

  lemma TrimmedWhole(h: Heap, h': Heap, o: nat)
    requires Trims(h, h') && Whole(h) && o in h && (forall p <- h :: p != o ==> h'[p].body == h[p].body)
             && Marked(h', AllVals(h', h'[o].body))
    ensures Whole(h')
  {
    forall p, v | p in h' && v in AllVals(h', h'[p].body) && v.Ref? ensures v.o in h' {
      if p != o { TrimsKeep(h, h', h[p].body); }
    }
  }

  lemma TrimmedTraversed(h: Heap, h': Heap, o: nat, p: nat)
    requires Trims(h, h') && p != o && Traversed(h, p, true) && forall q <- h :: q != o ==> h'[q].body == h[q].body
    ensures Traversed(h', p, true)
  {
    TrimsKeep(h, h', h[p].body);
  }

  lemma TrimmedMarked(h: Heap, h': Heap, o: nat, p: nat)
    requires Trims(h, h') && p != o && p in h && (forall q <- h :: q != o ==> h'[q].body == h[q].body)
             && !h'[p].color.White?
    requires !h[p].color.White? ==> Marked(h, AllVals(h, h[p].body))
    ensures Marked(h', AllVals(h', h'[p].body))
  {
    TrimsKeep(h, h', h[p].body);
  }

  lemma DarkensKeepMarked(h: Heap, h': Heap, xs: seq<nat>)
    requires Darkens(h, h') && forall o <- xs :: o in h && h[o].color == Black && Marked(h, AllVals(h, h[o].body))
    ensures forall o <- xs :: o in h' && h'[o].color == Black && Marked(h', AllVals(h', h'[o].body))
  {
    forall o | o in xs ensures o in h' && h'[o].color == Black && Marked(h', AllVals(h', h'[o].body)) {
      DarkensKeeps(h, h', h[o].body);
    }
  }

  lemma RemarkUpvalues(h: Heap, gray: seq<nat>, u: nat, w: bool, h': Heap, gray': seq<nat>)
    requires UpvaluesDone(h) && u in h && h[u].body.Udata? && Round(Paint(h, u, White(w)), gray, h', gray')
             && Darkens(h, h')
    ensures UpvaluesDone(h')
  {
    var h1 := Paint(h, u, White(w));
    forall o | o in h' && h'[o].body.Open? && !h'[o].color.White? ensures Marked(h', AllVals(h', h'[o].body)) {
      DarkensKeeps(h, h', h[o].body);
      if h1[o].color.White? { assert Settled(h', gray', o); }
    }
  }

  /** Colours get darker, everything else is as before. */
  lemma DarkerInv(g: State, h': Heap, gray': seq<nat>, again': seq<nat>, weak': seq<nat>)
    requires Inv(g) && g.phase == Propagate && Darkens(g.heap, h') && Tri(h', gray', again', weak', g.tmu)
    ensures Inv(g.(heap := h', gray := gray', again := again', weak := weak')) && h'.Keys == g.heap.Keys
  {
    DarkerAlive(g.heap, h', g.white);
    DarkensKeeps(g.heap, h', Str);
    hide Tri, Structured, RootsAlive, Marked, AliveClosed;
    StructureKept(g.heap, h', g.main, g.running, g.open, g.udata, g.tmu);
    RootsKept(g.heap, h', g.white, g.main, g.running, g.registry, g.mt, g.tmu);
  }

  lemma DarkerAlive(h: Heap, h': Heap, white: bool)
    requires Darkens(h, h') && AliveClosed(h, white) && NoneDead(h, white)
    ensures (forall o :: AliveIn(h, white, o) ==> AliveIn(h', white, o)) && NoneDead(h', white)
            && AliveClosed(h', white) && SameBodies(h, h')
  {
    forall o | o in h' ensures AliveVals(h', white, AllVals(h', h'[o].body)) {
      DarkensKeeps(h, h', h[o].body);
      assert AliveVals(h, white, AllVals(h, h[o].body));
    }
  }

  lemma PropagateReady(g: State)
    requires Inv(g) && g.phase == Propagate
    ensures Whole(g.heap) && Tri(g.heap, g.gray, g.again, g.weak, g.tmu)
  {
    AliveWhole(g.heap, g.white);
  }

  lemma SlotThere(h: Heap, o: nat)
    requires Whole(h) && o in h && h[o].body.Open?
    ensures var v := Slot(h, h[o].body.thread, h[o].body.level); (v.Ref? ==> v.o in h) && AllVals(h, h[o].body) == [v]
  {
    var v := Slot(h, h[o].body.thread, h[o].body.level);
    assert AllVals(h, h[o].body) == [v] && v in AllVals(h, h[o].body);
  }

  lemma NotBlack(h: Heap, gray: seq<nat>, again: seq<nat>, weak: seq<nat>, tmu: seq<nat>, o: nat)
    requires Tri(h, gray, again, weak, tmu) && o in h && h[o].body.Open?
    ensures h[o].color != Black
  {
  }

  lemma UpvalueSkipped(h: Heap, open: seq<nat>, i: nat)
    requires i < |open| && open[i] in h && h[open[i]].color.White?
    ensures forall o :: o in open[i..] && o in h && !h[o].color.White? ==> o in open[i + 1..]
  {
    assert open[i..] == [open[i]] + open[i + 1..];
  }

  lemma UpvalueRound(h: Heap, h1: Heap, g1: seq<nat>, h2: Heap, g2: seq<nat>, open: seq<nat>, i: nat, again: seq<nat>,
                     weak: seq<nat>, tmu: seq<nat>)
    requires Darkens(h, h1) && Round(h1, g1, h2, g2) && i < |open| && open[i] in h1 && h1[open[i]].body.Open?
             && Whole(h1)
    requires Tri(h1, g1, again, weak, tmu) && Marked(h2, AllVals(h1, h1[open[i]].body))
    requires forall o <- h1 :: h1[o].body.Open? && !h1[o].color.White? ==>
             Marked(h1, AllVals(h1, h1[o].body)) || o in open[i..]
    ensures Darkens(h, h2) && Whole(h2) && Tri(h2, g2, again, weak, tmu)
    ensures forall o <- h2 :: h2[o].body.Open? && !h2[o].color.White? ==>
            Marked(h2, AllVals(h2, h2[o].body)) || o in open[i + 1..]
  {
    MarksWhole(h1, h2);
    RoundKeepsTri(h1, g1, h2, g2, again, weak, tmu);
    assert open[i..] == [open[i]] + open[i + 1..];
    forall o | o in h2 && h2[o].body.Open? && !h2[o].color.White?
      ensures Marked(h2, AllVals(h2, h2[o].body)) || o in open[i + 1..] {
      MarksKeep(h1, h2, h1[o].body);
      if h1[o].color.White? { assert Settled(h2, g2, o); }
    }
  }

  lemma RootsThere(g: State)
    requires Inv(g) && (g.phase == Pause || g.phase == Finalize)
    ensures IsThread(g.heap, g.main) && Whole(g.heap)
            && forall v <- RootVals(g.heap, g.main, g.registry, g.mt) :: v.Ref? ==> v.o in g.heap
  {
    StartTri(g.heap, g.white, g.main, g.running, g.open, g.udata, g.tmu);
    AliveWhole(g.heap, g.white);
    assert AliveVals(g.heap, g.white, AllVals(g.heap, g.heap[g.main].body));
    assert g.heap[g.main].body.globals in AllVals(g.heap, g.heap[g.main].body);
  }

  lemma RootInv(g: State, h': Heap, gray': seq<nat>)
    requires Inv(g) && (g.phase == Pause || g.phase == Finalize) && Round(g.heap, [], h', gray')
             && IsThread(g.heap, g.main)
    requires Marked(h', RootVals(g.heap, g.main, g.registry, g.mt))
    ensures Inv(g.(heap := h', gray := gray', again := [], weak := [], phase := Propagate))
  {
    StartTri(g.heap, g.white, g.main, g.running, g.open, g.udata, g.tmu);
    MarkedRoots(g.heap, h', g.white, g.main, g.registry, g.mt, gray', g.tmu);
    hide Tri, Round, Structured, RootsAlive, Marked, AliveClosed;
    StructureKept(g.heap, h', g.main, g.running, g.open, g.udata, g.tmu);
    RootsKept(g.heap, h', g.white, g.main, g.running, g.registry, g.mt, g.tmu);
  }

  /** What `markroot` marks. */
  function RootVals(h: Heap, main: nat, registry: Val, mt: seq<Val>): seq<Val>
    requires IsThread(h, main)
  {
    [Ref(main), h[main].body.globals, registry] + mt
  }

  /** Outside the sets still to be dealt with every object has the current white. */
  predicate RestWhite(h: Heap, white: bool, unswept: set<nat>, tmu: seq<nat>) {
    forall o <- h ::
      && (o !in unswept && o !in tmu ==> h[o].color == White(white))
      && (o in tmu ==> h[o].color == Black || h[o].color == White(white))
  }

  lemma AliveWhole(h: Heap, white: bool)
    requires AliveClosed(h, white) && NoneDead(h, white)
    ensures Whole(h)
  {
    forall o, v | o in h && v in AllVals(h, h[o].body) && v.Ref? ensures v.o in h {
      assert AliveVals(h, white, AllVals(h, h[o].body));
    }
  }

  lemma StartTri(h: Heap, white: bool, main: nat, running: nat, open: seq<nat>, udata: seq<nat>, tmu: seq<nat>)
    requires Structured(h, main, running, open, udata, tmu)
    ensures RestWhite(h, white, {}, tmu) ==> Tri(h, [], [], [], tmu) && NoneDead(h, white)
    ensures IsThread(h, main) && IsThread(h, running)
  {
  }

  lemma MarksAlive(h: Heap, h': Heap, white: bool)
    requires Marks(h, h') && AliveClosed(h, white)
    ensures forall o :: AliveIn(h, white, o) ==> AliveIn(h', white, o)
    ensures NoneDead(h, white) ==> NoneDead(h', white) && AliveClosed(h', white)
  {
    if NoneDead(h, white) {
      forall o | o in h' ensures AliveVals(h', white, AllVals(h', h'[o].body)) {
        MarksKeep(h, h', h[o].body);
        assert AliveVals(h, white, AllVals(h, h[o].body));
      }
    }
  }

  lemma MarkedRoots(h: Heap, h': Heap, white: bool, main: nat, registry: Val, mt: seq<Val>, gray': seq<nat>,
                    tmu: seq<nat>)
    requires Tri(h, [], [], [], tmu) && Round(h, [], h', gray') && AliveClosed(h, white) && NoneDead(h, white)
             && IsThread(h, main)
    requires Marked(h', RootVals(h, main, registry, mt))
    ensures Tri(h', gray', [], [], tmu) && AliveClosed(h', white) && NoneDead(h', white) && Nonwhite(h', main)
            && Marked(h', [registry])
    ensures forall o :: AliveIn(h, white, o) ==> AliveIn(h', white, o)
    ensures SameBodies(h, h')
  {
    RoundKeepsTri(h, [], h', gray', [], [], tmu);
    MarksAlive(h, h', white);
    var vs := RootVals(h, main, registry, mt);
    assert vs[0] == Ref(main) && vs[2] == registry && vs[0] in vs && vs[2] in vs;
  }

  /** A thread or weak table whose values have been followed. */
  predicate Traversed(h: Heap, o: nat, weak: bool) {
    Done(h, o) && if weak then IsWeak(h[o].body) else h[o].body.Thread?
  }

  lemma DarkensNothing(h: Heap)
    ensures Darkens(h, h)
  {
  }

  lemma StayTraversed(h: Heap, h': Heap)
    requires Darkens(h, h')
    ensures forall o, w :: Traversed(h, o, w) ==> Traversed(h', o, w)
  {
    forall o, w | Traversed(h, o, w) ensures Traversed(h', o, w) { StaysDone(h, h', o); }
  }

  lemma RoundMarks(h: Heap, gray: seq<nat>, h': Heap, gray': seq<nat>)
    requires Round(h, gray, h', gray')
    ensures Marks(h, h') && h'.Keys == h.Keys
  {
  }

  lemma FirstGray(h: Heap, o: nat, rest: seq<nat>, again: seq<nat>, weak: seq<nat>, tmu: seq<nat>)
    requires Tri(h, [o] + rest, again, weak, tmu)
    ensures o in h && h[o].color == Gray && Listable(h[o].body)
  {
    assert o in [o] + rest;
  }

  lemma WholeStrong(h: Heap, o: nat)
    requires Whole(h) && o in h
    ensures forall v <- StrongVals(h, h[o].body) :: v.Ref? ==> v.o in h
  {
    StrongWithin(h, h[o].body);
  }

  lemma StrongWithin(h: Heap, b: Body)
    ensures forall v <- StrongVals(h, b) :: v in AllVals(h, b)
  {
    if b.Tab? { EntriesWithin(b.entries, !b.weakKeys, !b.weakValues); }
  }

  lemma {:induction false} EntriesWithin(es: seq<Entry>, keys: bool, vals: bool)
    ensures forall v <- EntryVals(es, keys, vals) :: v in EntryVals(es, true, true)
  {
    if es != [] { EntriesWithin(es[1..], keys, vals); }
  }

  lemma StrongIsAll(h: Heap, h1: Heap, b: Body, o: nat)
    requires !IsWeak(b) && o in h && h1 == Paint(h, o, Black)
    ensures StrongVals(h1, b) == AllVals(h, b) == StrongVals(h, b)
  {
  }

  lemma UdataThere(h: Heap, o: nat)
    requires Whole(h) && o in h && h[o].body.Udata?
    ensures (h[o].body.meta.Ref? ==> h[o].body.meta.o in h) && (h[o].body.env.Ref? ==> h[o].body.env.o in h)
  {
    assert h[o].body.meta in AllVals(h, h[o].body) && h[o].body.env in AllVals(h, h[o].body);
  }

  lemma SlotOrValue(h: Heap, o: nat)
    requires Whole(h) && o in h && (h[o].body.Open? || h[o].body.Closed?)
    ensures forall v <- AllVals(h, h[o].body) :: v.Ref? ==> v.o in h
  {
  }

  lemma StringMarked(h: Heap, gray: seq<nat>, o: nat)
    requires o in h && h[o].color.White? && h[o].body.Str?
    ensures Round(h, gray, Paint(h, o, Gray), gray)
  {
    RoundNothing(Paint(h, o, Gray), gray);
    RoundFrom(h, gray, o, Gray, Paint(h, o, Gray), gray);
  }

  lemma UdataMarked(h: Heap, gray: seq<nat>, o: nat, h2: Heap, gray2: seq<nat>, h3: Heap, gray3: seq<nat>)
    requires o in h && h[o].color.White? && h[o].body.Udata?
    requires Round(Paint(h, o, Black), gray, h2, gray2) && Marked(h2, [h[o].body.meta])
    requires Round(h2, gray2, h3, gray3) && Marked(h3, [h[o].body.env])
    ensures Round(h, gray, h3, gray3) && Nonwhite(h3, o)
  {
    RoundsCompose(Paint(h, o, Black), gray, h2, gray2, h3, gray3);
    MarksKeep(h2, h3, h[o].body);
    assert h[o].body.meta in [h[o].body.meta] && h[o].body.env in [h[o].body.env];
    RoundFrom(h, gray, o, Black, h3, gray3);
  }

  lemma UpvalueMarked(h: Heap, gray: seq<nat>, o: nat, h': Heap, gray': seq<nat>)
    requires o in h && h[o].color.White? && (h[o].body.Open? || h[o].body.Closed?)
    requires Round(Paint(h, o, Gray), gray, h', gray') && Marked(h', AllVals(h, h[o].body))
    ensures h'.Keys == h.Keys && Nonwhite(h', o)
    ensures h[o].body.Open? ==> Round(h, gray, h', gray')
    ensures h[o].body.Closed? ==> Round(h, gray, Paint(h', o, Black), gray')
  {
    PaintKeeps(h, o, Gray);
    MarksKeep(Paint(h, o, Gray), h', h[o].body);
    if h[o].body.Open? { RoundFrom(h, gray, o, Gray, h', gray'); } else { RoundBlackens(h, gray, o, h', gray'); }
  }

  lemma Listed(h: Heap, gray: seq<nat>, o: nat)
    requires o in h && h[o].color.White? && Listable(h[o].body)
    ensures Round(h, gray, Paint(h, o, Gray), [o] + gray)
  {
    var gray' := [o] + gray;
    assert gray'[1..] == gray && gray'[..1] == [o];
  }

  /** A round that leaves the traversed object gray. */
  lemma KeptRound(h: Heap, rest: seq<nat>, h': Heap, gray': seq<nat>, o: nat)
    requires Round(h, rest, h', gray') && Whole(h) && o in h && Marked(h', StrongVals(h, h[o].body))
    ensures Darkens(h, h') && Whole(h') && Done(h', o)
    ensures |Whites(h')| < |Whites(h)| || (|Whites(h')| == |Whites(h)| && gray' == rest)
    ensures UpvaluesDone(h) ==> UpvaluesDone(h')
  {
    MarksWhole(h, h');
    MarksKeep(h, h', h[o].body);
    RoundShrinks(h, rest, h', gray');
    if UpvaluesDone(h) { RoundKeepsUpvalues(h, rest, h', gray'); }
  }

  lemma RoundShrinks(h: Heap, gray: seq<nat>, h': Heap, gray': seq<nat>)
    requires Round(h, gray, h', gray')
    ensures |Whites(h')| < |Whites(h)| || (|Whites(h')| == |Whites(h)| && gray' == gray)
  {
    Fewer(Whites(h'), Whites(h));
    if |gray'| > |gray| {
      assert gray'[0] in Whites(h) && gray'[0] !in Whites(h');
    }
  }

  lemma BlackenedRound(h: Heap, rest: seq<nat>, h': Heap, gray': seq<nat>, o: nat)
    requires o in h && h[o].color == Gray && Listable(h[o].body) && Whole(h)
    requires Round(Paint(h, o, Black), rest, h', gray') && Marked(h', AllVals(h, h[o].body))
    ensures Darkens(h, h') && Whole(h') && Marked(h', AllVals(h', h[o].body))
    ensures |Whites(h')| < |Whites(h)| || (|Whites(h')| == |Whites(h)| && gray' == rest)
    ensures UpvaluesDone(h) ==> UpvaluesDone(h')
  {
    var h1 := Paint(h, o, Black);
    PaintKeeps(h, o, Black);
    MarksWhole(h1, h');
    MarksKeep(h1, h', h[o].body);
    assert Whites(h1) == Whites(h);
    RoundShrinks(h1, rest, h', gray');
    if UpvaluesDone(h) {
      assert UpvaluesDone(h1);
      RoundKeepsUpvalues(h1, rest, h', gray');
    }
  }
}
