/**
 Why the steps of the sweep and of the running program keep the invariant of `LuaGcState`, and why
 nothing the program can reach is ever freed.
 */
module LuaGcSteps {
  import opened LuaHeap
  import opened LuaGcFirm
  import opened LuaGcState

  // ---------------------------------------------------------------- reachability

  /** A field of `o` refers to `p`. */
  predicate RefersTo(h: Heap, o: nat, p: nat) { o in h && Mentions(h, h[o].body, Ref(p)) }

  ghost predicate IsPath(h: Heap, ps: seq<nat>) {
    |ps| > 0 && forall i, j :: 0 <= i < j == i + 1 < |ps| ==> RefersTo(h, ps[i], ps[j])
  }

  /** What the program starts from, and the userdata that finalizers will be given. */
  predicate IsRoot(g: State, o: nat) {
    o == g.main || o == g.running || Ref(o) == g.registry || Ref(o) in g.mt || o in g.tmu
  }

  /** There is a chain of references, strong or weak, from a root. */
  ghost predicate Reachable(g: State, o: nat) {
    exists ps :: IsPath(g.heap, ps) && IsRoot(g, ps[0]) && ps[|ps| - 1] == o
  }

  lemma {:induction false} PathAlive(g: State, ps: seq<nat>, i: nat)
    requires Inv(g) && IsPath(g.heap, ps) && IsRoot(g, ps[0]) && i < |ps|
    ensures AliveIn(g.heap, g.white, ps[i])
  {
    if i == 0 {
      if Ref(ps[0]) == g.registry { assert g.registry in [g.registry]; }
    } else {
      PathAlive(g, ps, i - 1);
      assert RefersTo(g.heap, ps[i - 1], ps[i]);
      ValsAreFields(g.heap, g.heap[ps[i - 1]].body, Ref(ps[i]));
      assert AliveVals(g.heap, g.white, AllVals(g.heap, g.heap[ps[i - 1]].body));
    }
  }

  /** In every state, in the middle of a sweep too, what is reachable is alive. */
  lemma ReachableAlive(g: State, o: nat)
    requires Inv(g) && Reachable(g, o)
    ensures AliveIn(g.heap, g.white, o)
  {
    var ps :| IsPath(g.heap, ps) && IsRoot(g, ps[0]) && ps[|ps| - 1] == o;
    PathAlive(g, ps, |ps| - 1);
  }

  /** Every reference in a field of an object that is alive names an object that is alive. */
  ghost predicate NothingDangles(g: State) {
    forall o, p :: AliveIn(g.heap, g.white, o) && RefersTo(g.heap, o, p) ==> AliveIn(g.heap, g.white, p)
  }

  lemma NoneDangle(g: State)
    requires Inv(g)
    ensures NothingDangles(g)
  {
    hide InPhase, Structured, Mentions, AllVals;
    forall o, p | AliveIn(g.heap, g.white, o) && RefersTo(g.heap, o, p) ensures AliveIn(g.heap, g.white, p) {
      ValsAreFields(g.heap, g.heap[o].body, Ref(p));
      assert AliveVals(g.heap, g.white, AllVals(g.heap, g.heap[o].body));
    }
  }

  /** Between two collections that is every reference in the heap. */
  lemma NoneDangleInPause(g: State)
    requires Inv(g) && g.phase == Pause
    ensures forall o, p :: RefersTo(g.heap, o, p) ==> p in g.heap
  {
    NoneDangle(g);
    hide Mentions;
  }

  /** A step frees only what is not reachable. */
  ghost predicate FreesGarbage(g: State, g': State) {
    forall o :: o in g.heap && o !in g'.heap ==> !Reachable(g, o)
  }

  lemma OnlyGarbage(g: State, g': State)
    requires Inv(g) && forall o :: AliveIn(g.heap, g.white, o) ==> o in g'.heap
    ensures FreesGarbage(g, g')
  {
    forall o | o in g.heap && Reachable(g, o) ensures o in g'.heap { ReachableAlive(g, o); }
  }

  /** While objects are being marked, no black object refers to a white one, those to be finalized excepted. */
  lemma NoBlackToWhite(g: State, o: nat, p: nat)
    requires Inv(g) && g.phase == Propagate && o in g.heap && g.heap[o].color == Black && o !in g.tmu
             && RefersTo(g.heap, o, p)
    ensures Nonwhite(g.heap, p)
  {
    assert Marked(g.heap, AllVals(g.heap, g.heap[o].body));
    hide Inv, Mentions;
    ValsAreFields(g.heap, g.heap[o].body, Ref(p));
  }

  /** The state that `lua_newstate` sets up. */
  function Initial(m: nat, r: nat, t: nat): State {
    var empty := Obj(White(false), Tab(Nil, [], [], false, false));
    State(m, m, Ref(r), [], map[m := Obj(White(false), Thread(Ref(t), [])), r := empty, t := empty], Pause, false, [],
      [], [], [], [], [], {})
  }

  lemma InitialInv(m: nat, r: nat, t: nat)
    requires m != r && m != t && r != t
    ensures Inv(Initial(m, r, t)) && Initial(m, r, t).heap.Keys == {m, r, t}
  {
    var g := Initial(m, r, t);
    assert forall o :: o in g.heap <==> o == m || o == r || o == t;
  }

  // ---------------------------------------------------------------- the sweep

  function Without(xs: seq<nat>, o: nat): (ys: seq<nat>)
    ensures forall x :: x in ys <==> x in xs && x != o
  {
    if xs == [] then [] else (if xs[0] == o then [] else [xs[0]]) + Without(xs[1..], o)
  }

  predicate InSweep(p: Phase) { p == SweepString || p == Sweep }

  predicate IsDead(g: State, o: nat)
    requires o in g.heap
  {
    g.heap[o].color == White(!g.white)
  }

  /** One object visited by `sweeplist`. */
  function Swept(g: State, o: nat): State
    requires o in g.heap
  {
    if IsDead(g, o) then g.(heap := g.heap - {o}, udata := Without(g.udata, o), unswept := g.unswept - {o})
    else g.(heap := Paint(g.heap, o, White(g.white)), unswept := g.unswept - {o})
  }

  /** A userdatum is not freed while its finalizer is still to be called. */
  lemma FinalizedFirst(g: State, o: nat)
    requires Inv(g) && InSweep(g.phase) && o in g.heap && IsDead(g, o) && g.heap[o].body.Udata?
    ensures g.heap[o].body.finalized && o !in g.tmu
  {
    hide Tri;
    assert NonePending(g.heap, White(!g.white));
  }

  /** Removing a dead object leaves the living alone. */
  lemma FreeAlive(h: Heap, h': Heap, white: bool, o: nat)
    requires AliveClosed(h, white) && o in h && h[o].color == White(!white) && !h[o].body.Thread? && h' == h - {o}
    ensures AliveClosed(h', white) && forall p :: AliveIn(h, white, p) ==> AliveIn(h', white, p)
  {
    forall p | p in h' && AliveIn(h', white, p) ensures AliveVals(h', white, AllVals(h', h'[p].body)) {
      SameSlots(h, h', o, h[p].body);
      assert AliveVals(h, white, AllVals(h, h[p].body));
    }
  }

  lemma SameSlots(h: Heap, h': Heap, o: nat, b: Body)
    requires o in h && !h[o].body.Thread? && h' == h - {o}
    ensures AllVals(h', b) == AllVals(h, b)
  {
  }

  lemma PaintAlive(h: Heap, white: bool, o: nat, c: Color)
    requires AliveClosed(h, white) && AliveIn(h, white, o) && c != White(!white)
    ensures AliveClosed(Paint(h, o, c), white) && forall p :: AliveIn(h, white, p) ==> AliveIn(Paint(h, o, c), white, p)
    ensures SameBodies(h, Paint(h, o, c))
  {
    var h' := Paint(h, o, c);
    PaintKeeps(h, o, c);
    forall p | p in h' && AliveIn(h', white, p) ensures AliveVals(h', white, AllVals(h', h'[p].body)) {
      assert AliveVals(h, white, AllVals(h, h[p].body));
    }
  }

  lemma FreeStructured(g: State, o: nat)
    requires Inv(g) && o in g.heap && IsDead(g, o) && !g.heap[o].body.Thread? && !g.heap[o].body.Open?
    ensures Structured(g.heap - {o}, g.main, g.running, g.open, Without(g.udata, o), g.tmu)
  {
    var h' := g.heap - {o};
    forall p | p in h' && h'[p].body.Open? ensures HasSlot(h', h'[p].body.thread, h'[p].body.level) {
      assert HasSlot(g.heap, g.heap[p].body.thread, g.heap[p].body.level);
    }
  }

  lemma SweptInv(g: State, o: nat)
    requires Inv(g) && InSweep(g.phase) && o in g.unswept && o in g.heap && !g.heap[o].body.Thread?
             && !g.heap[o].body.Open?
    ensures Inv(Swept(g, o))
  {
    var g' := Swept(g, o);
    SweptSweeping(g, o);
    if IsDead(g, o) {
      FreeStructured(g, o);
      FreeAlive(g.heap, g'.heap, g.white, o);
    } else {
      PaintAlive(g.heap, g.white, o, White(g.white));
      StructureKept(g.heap, g'.heap, g.main, g.running, g.open, g.udata, g.tmu);
    }
    hide Structured, RootsAlive, AliveClosed, Sweeping;
    RootsKept(g.heap, g'.heap, g.white, g.main, g.running, g.registry, g.mt, g.tmu);
  }

  lemma SweptSweeping(g: State, o: nat)
    requires Inv(g) && InSweep(g.phase) && o in g.unswept && o in g.heap && !g.heap[o].body.Thread?
    ensures var g' := Swept(g, o); Sweeping(g'.heap, g.white, g'.unswept, g.tmu, g.phase)
  {
  }

  // ---------------------------------------------------------------- threads and their open upvalues

  predicate UpvalueOf(h: Heap, u: nat, t: nat) { u in h && h[u].body.Open? && h[u].body.thread == t }

  /**
   What the sweep of a thread leaves: dead upvalues of it are freed, and the others become white. If
   the thread itself is dead, the values of its other upvalues move into the upvalues before it is freed.
   */
  function SweptThread(h: Heap, white: bool, t: nat): Heap
    requires t in h
  {
    var dead := h[t].color == White(!white);
    map o | o in h && !(UpvalueOf(h, o, t) && h[o].color == White(!white)) && !(o == t && dead) ::
      if UpvalueOf(h, o, t) then Obj(White(white), if dead then Closed(Slot(h, t, h[o].body.level)) else h[o].body)
      else if o == t then h[o].(color := White(white))
      else h[o]
  }

  function StillOpen(h: Heap, open: seq<nat>): (ys: seq<nat>)
    ensures forall x :: x in ys <==> x in open && x in h && h[x].body.Open?
  {
    if open == [] then [] else (if open[0] in h
      && h[open[0]].body.Open? then [open[0]] else []) + StillOpen(h, open[1..])
  }

  lemma ThreadAlive(h: Heap, white: bool, t: nat)
    requires AliveClosed(h, white) && Shaped(h) && IsThread(h, t)
    ensures var h' := SweptThread(h, white, t);
            AliveClosed(h', white) && forall p :: AliveIn(h, white, p) ==> AliveIn(h', white, p)
  {
    var h' := SweptThread(h, white, t);
    forall p | AliveIn(h, white, p) ensures AliveIn(h', white, p) {}
    forall p | p in h' && AliveIn(h', white, p) ensures AliveVals(h', white, AllVals(h', h'[p].body)) {
      ThreadVals(h, white, t, p);
      assert AliveVals(h, white, AllVals(h, h[p].body));
    }
  }

  /** The surviving objects hold what they held. */
  lemma ThreadVals(h: Heap, white: bool, t: nat, p: nat)
    requires Shaped(h) && IsThread(h, t) && p in SweptThread(h, white, t)
    ensures var h' := SweptThread(h, white, t);
            AllVals(h', h'[p].body) == AllVals(h, h[p].body) && (AliveIn(h', white, p) ==> AliveIn(h, white, p))
  {
    if h[p].body.Open? { assert HasSlot(h, h[p].body.thread, h[p].body.level); }
  }

  lemma ThreadStructured(g: State, t: nat)
    requires Inv(g) && IsThread(g.heap, t)
    ensures var h' := SweptThread(g.heap, g.white, t); Structured(h', g.main, g.running, StillOpen(h', g.open),
            g.udata, g.tmu)
  {
    var h' := SweptThread(g.heap, g.white, t);
    forall o | o in h' && h'[o].body.Open? ensures HasSlot(h', h'[o].body.thread, h'[o].body.level) {
      assert HasSlot(g.heap, g.heap[o].body.thread, g.heap[o].body.level);
    }
  }

  function ThreadSwept(g: State, t: nat): State
    requires t in g.heap
  {
    var h' := SweptThread(g.heap, g.white, t);
    g.(heap := h', open := StillOpen(h', g.open),
      unswept := g.unswept - {t} - (set u | u in g.unswept && UpvalueOf(g.heap, u, t)))
  }

  lemma ThreadSweeping(g: State, t: nat)
    requires Inv(g) && InSweep(g.phase) && t in g.unswept && IsThread(g.heap, t)
    ensures var g' := ThreadSwept(g, t); Sweeping(g'.heap, g.white, g'.unswept, g.tmu, g.phase)
  {
    var g' := ThreadSwept(g, t);
    forall o | o in g'.unswept
      ensures o in g'.heap && g'.heap[o] == g.heap[o]
        && (g.heap[o].body.Open? ==> g.heap[o].body.thread in g'.unswept) {
      assert !UpvalueOf(g.heap, o, t) && o != t;
    }
  }

  lemma ThreadSweptInv(g: State, t: nat)
    requires Inv(g) && InSweep(g.phase) && t in g.unswept && IsThread(g.heap, t)
    ensures Inv(ThreadSwept(g, t))
  {
    var g' := ThreadSwept(g, t);
    ThreadSweeping(g, t);
    ThreadStructured(g, t);
    ThreadAlive(g.heap, g.white, t);
    hide Structured, RootsAlive, AliveClosed, Sweeping, SweptThread;
    RootsKept(g.heap, g'.heap, g.white, g.main, g.running, g.registry, g.mt, g.tmu);
  }

  /** The heap after the open upvalues of `t` among `us` have been swept. */
  function SweptUpvals(h: Heap, white: bool, t: nat, us: seq<nat>): Heap {
    map o | o in h && !(o in us && UpvalueOf(h, o, t) && h[o].color == White(!white)) ::
      if o in us && UpvalueOf(h, o, t) then h[o].(color := White(white)) else h[o]
  }

  lemma SweptUpvalsStep(h: Heap, white: bool, t: nat, us: seq<nat>, u: nat)
    ensures var h1 := SweptUpvals(h, white, t, us);
            SweptUpvals(h, white, t, us + [u]) ==
            if !UpvalueOf(h1, u, t) then h1 else if h1[u].color == White(!white) then h1 - {u}
              else Paint(h1, u, White(white))
    ensures UpvalueOf(SweptUpvals(h, white, t, us), u, t) ==> UpvalueOf(h, u, t)
    ensures UpvalueOf(h, u, t) && !UpvalueOf(SweptUpvals(h, white, t, us), u, t) ==> u in us
  {
    var h1 := SweptUpvals(h, white, t, us);
    if u in us || u !in h || !UpvalueOf(h, u, t) { assert SweptUpvals(h, white, t, us + [u]) == h1; }
  }

  lemma NoUpvalsSwept(h: Heap, white: bool, t: nat)
    ensures SweptUpvals(h, white, t, []) == h
  {
  }

  /** The heap after the open upvalues of `t` among `us` have been closed. */
  function ClosedUpvals(h: Heap, t: nat, us: seq<nat>): Heap {
    map o | o in h :: if o in us && UpvalueOf(h, o, t) then h[o].(body := Closed(Slot(h, t, h[o].body.level))) else h[o]
  }

  lemma AllOpen(g: State)
    requires Inv(g)
    ensures forall o :: o in g.open <==> o in g.heap && g.heap[o].body.Open?
  {
  }

  lemma SweptUpvalsAre(h: Heap, white: bool, t: nat, open: seq<nat>, h': Heap)
    requires IsThread(h, t) && forall o :: o in open <==> o in h && h[o].body.Open?
    requires var h1 := SweptUpvals(h, white, t, open);
             h' == if h[t].color == White(!white) then ClosedUpvals(h1, t, open) - {t} else Paint(h1, t, White(white))
    ensures h' == SweptThread(h, white, t)
  {
    var h1 := SweptUpvals(h, white, t, open);
    assert h1[t] == h[t] && forall l :: Slot(h1, t, l) == Slot(h, t, l);
    assert h'.Keys == SweptThread(h, white, t).Keys;
  }

  lemma UnsweptAre(g: State, t: nat)
    requires Inv(g)
    ensures g.unswept - (set u | u in g.open && UpvalueOf(g.heap, u, t)) - {t} ==
            g.unswept - {t} - (set u | u in g.unswept && UpvalueOf(g.heap, u, t))
  {
  }

  // ---------------------------------------------------------------- phases

  lemma SweepEnds(g: State)
    requires Inv(g)
    ensures g.phase == SweepString && (forall o <- g.unswept :: o in g.heap ==> !g.heap[o].body.Str?) ==>
            Inv(g.(phase := Sweep))
    ensures g.phase == Sweep && g.unswept == {} ==> Inv(g.(phase := Finalize))
    ensures g.phase == Finalize && g.tmu == [] ==> Inv(g.(phase := Pause))
  {
    hide Structured, RootsAlive, AliveClosed;
  }

  /** The start of `luaC_fullgc`: give the marking up and sweep, which only turns everything white. */
  lemma ResetInv(g: State)
    requires Inv(g) && (g.phase == Pause || g.phase == Propagate)
    ensures Inv(g.(gray := [], again := [], weak := [], unswept := g.heap.Keys - SetOf(g.tmu), phase := SweepString))
  {
    var unswept := g.heap.Keys - SetOf(g.tmu);
    forall o | o in unswept && g.heap[o].body.Open? ensures g.heap[o].body.thread in unswept {
      assert HasSlot(g.heap, g.heap[o].body.thread, g.heap[o].body.level);
    }
    forall o | o in g.tmu ensures g.heap[o].color == Black || g.heap[o].color == White(g.white) {}
  }

  // ---------------------------------------------------------------- changing an object

  function PutBody(h: Heap, o: nat, b: Body): Heap
    requires o in h
  {
    h[o := h[o].(body := b)]
  }

  predicate SameKind(b: Body, b': Body) {
    (b.Udata? && b'.Udata? && b'.finalized == b.finalized) || (b.Closed? && b'.Closed?) || (b.Code? && b'.Code?)
      || (b.Tab? && b'.Tab?)
  }

  /** The new body holds nothing but what the old one held and `vs`. */
  predicate Adds(h: Heap, b: Body, b': Body, vs: seq<Val>) {
    forall v <- AllVals(h, b') :: v in AllVals(h, b) || v in vs
  }

  lemma PutKeeps(h: Heap, o: nat, b': Body)
    requires o in h && SameKind(h[o].body, b')
    ensures forall b :: AllVals(PutBody(h, o, b'), b) == AllVals(h, b)
  {
    var h' := PutBody(h, o, b');
    forall b ensures AllVals(h', b) == AllVals(h, b) {
      assert forall t, l :: Slot(h', t, l) == Slot(h, t, l);
    }
  }

  lemma PutAlive(h: Heap, white: bool, o: nat, b': Body, vs: seq<Val>)
    requires AliveClosed(h, white) && AliveIn(h, white, o) && SameKind(h[o].body, b') && Adds(h, h[o].body, b', vs)
             && AliveVals(h, white, vs)
    ensures AliveClosed(PutBody(h, o, b'), white) && forall p :: AliveIn(h, white, p) <==>
            AliveIn(PutBody(h, o, b'), white, p)
  {
    var h' := PutBody(h, o, b');
    PutKeeps(h, o, b');
    forall p | p in h' && AliveIn(h', white, p) ensures AliveVals(h', white, AllVals(h', h'[p].body)) {
      assert AliveVals(h, white, AllVals(h, h[p].body));
      if p == o {
        forall v | v in AllVals(h, b') && v.Ref?
          ensures AliveIn(h', white, v.o) { assert v in AllVals(h, h[o].body) || v in vs; }
      }
    }
  }

  lemma PutStructured(h: Heap, o: nat, b': Body, main: nat, running: nat, open: seq<nat>, udata: seq<nat>,
                      tmu: seq<nat>)
    requires Structured(h, main, running, open, udata, tmu) && o in h && SameKind(h[o].body, b')
    ensures Structured(PutBody(h, o, b'), main, running, open, udata, tmu)
  {
    var h' := PutBody(h, o, b');
    forall p | p in h' && h'[p].body.Open? ensures HasSlot(h', h'[p].body.thread, h'[p].body.level) {
      assert HasSlot(h, h[p].body.thread, h[p].body.level);
    }
  }

  /** The changed object is exempt from the tri-colour invariant until its barrier has been through. */
  lemma PutTri(h: Heap, o: nat, b': Body, vs: seq<Val>, gray: seq<nat>, again: seq<nat>, weak: seq<nat>, tmu: seq<nat>)
    requires Tri(h, gray, again, weak, tmu) && o in h && SameKind(h[o].body, b') && Adds(h, h[o].body, b', vs)
    ensures Tri(PutBody(h, o, b'), gray, again, weak, tmu + [o])
    ensures Marked(h, vs) || h[o].color != Black ==> Tri(PutBody(h, o, b'), gray, again, weak, tmu)
  {
    var h' := PutBody(h, o, b');
    PutKeeps(h, o, b');
    assert forall us :: Marked(h', us) <==> Marked(h, us);
    forall p | p in h' && h'[p].color == Black && p !in tmu
      ensures p != o || Marked(h, vs) ==> Marked(h', AllVals(h', h'[p].body))
    {
      assert Marked(h, AllVals(h, h[p].body));
    }
  }

  /** A change that needs no barrier. */
  lemma QuietStore(g: State, o: nat, b': Body, vs: seq<Val>)
    requires Inv(g) && AliveIn(g.heap, g.white, o) && SameKind(g.heap[o].body, b')
             && Adds(g.heap, g.heap[o].body, b', vs) && AliveVals(g.heap, g.white, vs)
    requires g.phase == Propagate && g.heap[o].color == Black ==> Marked(g.heap, vs)
    ensures Inv(g.(heap := PutBody(g.heap, o, b')))
  {
    var h' := PutBody(g.heap, o, b');
    PutAlive(g.heap, g.white, o, b', vs);
    PutStructured(g.heap, o, b', g.main, g.running, g.open, g.udata, g.tmu);
    if g.phase == Propagate { PutTri(g.heap, o, b', vs, g.gray, g.again, g.weak, g.tmu); }
    PutPhase(g, o, b');
    hide Structured, RootsAlive, AliveClosed, Tri;
    RootsKept(g.heap, h', g.white, g.main, g.running, g.registry, g.mt, g.tmu);
  }

  lemma PutPhase(g: State, o: nat, b': Body)
    requires InPhase(g) && o in g.heap && SameKind(g.heap[o].body, b')
    ensures g.phase != Propagate ==> InPhase(g.(heap := PutBody(g.heap, o, b')))
    ensures g.phase == Propagate ==>
            var h' := PutBody(g.heap, o, b'); NoneDead(h', g.white) && Nonwhite(h', g.main) && Marked(h', [g.registry])
  {
    hide Tri;
  }

  /** `luaC_barrierf` while marking: the new values are marked at once. */
  lemma ForwardInv(g: State, o: nat, b': Body, vs: seq<Val>, h': Heap, gray': seq<nat>)
    requires Inv(g) && g.phase == Propagate && AliveIn(g.heap, g.white, o) && SameKind(g.heap[o].body, b')
    requires Adds(g.heap, g.heap[o].body, b', vs) && AliveVals(g.heap, g.white, vs) && g.heap[o].color == Black
    requires Round(PutBody(g.heap, o, b'), g.gray, h', gray') && Marked(h', vs)
    ensures Inv(g.(heap := h', gray := gray'))
  {
    var h1 := PutBody(g.heap, o, b');
    PutAlive(g.heap, g.white, o, b', vs);
    PutStructured(g.heap, o, b', g.main, g.running, g.open, g.udata, g.tmu);
    PutPhase(g, o, b');
    ForwardTri(g.heap, o, b', vs, g.gray, g.again, g.weak, g.tmu, h', gray');
    RoundMarks(h1, g.gray, h', gray');
    MarksAlive(h1, h', g.white);
    MarksKeep(h1, h', Str);
    hide Structured, RootsAlive, AliveClosed, Tri, Round;
    StructureKept(h1, h', g.main, g.running, g.open, g.udata, g.tmu);
    RootsKept(g.heap, h', g.white, g.main, g.running, g.registry, g.mt, g.tmu);
  }

  lemma ForwardTri(h: Heap, o: nat, b': Body, vs: seq<Val>, gray: seq<nat>, again: seq<nat>, weak: seq<nat>,
                   tmu: seq<nat>, h': Heap, gray': seq<nat>)
    requires Tri(h, gray, again, weak, tmu) && o in h && SameKind(h[o].body, b') && Adds(h, h[o].body, b', vs)
             && h[o].color == Black
    requires Round(PutBody(h, o, b'), gray, h', gray') && Marked(h', vs)
    ensures Tri(h', gray', again, weak, tmu)
  {
    var h1 := PutBody(h, o, b');
    PutTri(h, o, b', vs, gray, again, weak, tmu);
    PutKeeps(h, o, b');
    RoundKeepsTri(h1, gray, h', gray', again, weak, tmu + [o]);
    MarksKeep(h1, h', b');
    assert forall us :: Marked(h1, us) <==> Marked(h, us);
    forall p | p in h' && h'[p].color == Black && p !in tmu ensures Marked(h', AllVals(h', h'[p].body)) {
      if p == o {
        assert Marked(h', AllVals(h, h[o].body));
      } else {
        assert p !in tmu + [o];
      }
    }
  }

  /** `luaC_barrierf` in the other phases: the object turns white, to avoid further barriers. */
  lemma WhitenInv(g: State, o: nat)
    requires Inv(g) && g.phase != Propagate && AliveIn(g.heap, g.white, o)
    ensures Inv(g.(heap := Paint(g.heap, o, White(g.white))))
  {
    var h' := Paint(g.heap, o, White(g.white));
    PaintAlive(g.heap, g.white, o, White(g.white));
    assert InPhase(g.(heap := h'));
    hide Structured, RootsAlive, AliveClosed, InPhase;
    StructureKept(g.heap, h', g.main, g.running, g.open, g.udata, g.tmu);
    RootsKept(g.heap, h', g.white, g.main, g.running, g.registry, g.mt, g.tmu);
  }

  /** Black tables exist while marking, and until they are swept. */
  lemma BlackTable(g: State, t: nat)
    requires Inv(g) && t in g.heap && g.heap[t].color == Black && g.heap[t].body.Tab?
    ensures g.phase == Propagate || (InSweep(g.phase) && t in g.unswept)
  {
  }

  /** `luaC_barrierback`: the table turns gray again. */
  lemma BackInv(g: State, t: nat, b': Body, vs: seq<Val>)
    requires Inv(g) && t in g.heap && g.heap[t].color == Black && g.heap[t].body.Tab? && b'.Tab?
    requires Adds(g.heap, g.heap[t].body, b', vs) && AliveVals(g.heap, g.white, vs)
    ensures Inv(g.(heap := Paint(PutBody(g.heap, t, b'), t, Gray), again := [t] + g.again))
  {
    var h1 := PutBody(g.heap, t, b');
    var h' := Paint(h1, t, Gray);
    PutAlive(g.heap, g.white, t, b', vs);
    PaintAlive(h1, g.white, t, Gray);
    PutStructured(g.heap, t, b', g.main, g.running, g.open, g.udata, g.tmu);
    BlackTable(g, t);
    PutPhase(g, t, b');
    BackPhase(g, t, b', vs);
    hide Structured, RootsAlive, AliveClosed, InPhase;
    StructureKept(h1, h', g.main, g.running, g.open, g.udata, g.tmu);
    RootsKept(g.heap, h', g.white, g.main, g.running, g.registry, g.mt, g.tmu);
  }

  lemma BackPhase(g: State, t: nat, b': Body, vs: seq<Val>)
    requires Inv(g) && t in g.heap && g.heap[t].color == Black && g.heap[t].body.Tab? && b'.Tab?
             && Adds(g.heap, g.heap[t].body, b', vs)
    ensures InPhase(g.(heap := Paint(PutBody(g.heap, t, b'), t, Gray), again := [t] + g.again))
  {
    hide Structured, RootsAlive, AliveClosed, Tri, Adds, AllVals;
    BlackTable(g, t);
    PutPhase(g, t, b');
    if g.phase == Propagate {
      PutTri(g.heap, t, b', vs, g.gray, g.again, g.weak, g.tmu);
      BackTri(PutBody(g.heap, t, b'), t, g.gray, g.again, g.weak, g.tmu);
    } else {
      GraySweeping(PutBody(g.heap, t, b'), g.white, g.unswept, g.tmu, g.phase, t);
    }
  }

  lemma GraySweeping(h: Heap, white: bool, unswept: set<nat>, tmu: seq<nat>, phase: Phase, t: nat)
    requires Sweeping(h, white, unswept, tmu, phase) && t in unswept
    ensures Sweeping(Paint(h, t, Gray), white, unswept, tmu, phase)
  {
  }

  lemma BackTri(h: Heap, t: nat, gray: seq<nat>, again: seq<nat>, weak: seq<nat>, tmu: seq<nat>)
    requires Tri(h, gray, again, weak, tmu + [t]) && t in h && h[t].color == Black && h[t].body.Tab?
    ensures Tri(Paint(h, t, Gray), gray, [t] + again, weak, tmu)
  {
    var h' := Paint(h, t, Gray);
    PaintKeeps(h, t, Gray);
    assert t !in gray && t !in again && t !in weak;
    assert gray + again + weak == gray + (again + weak) && gray + ([t] + again) + weak == gray + ([t] + (again + weak));
    DistinctInsert(t, gray, again + weak);
    forall p | p in h' && h'[p].color == Black && p !in tmu ensures Marked(h', AllVals(h', h'[p].body)) {
      assert p != t && p !in tmu + [t];
      assert Marked(h, AllVals(h, h[p].body));
    }
  }

  // ---------------------------------------------------------------- stacks

  /** Everything on the new stack, and the new table of globals, is as it was or one of `vs`. */
  predicate Restacks(b: Body, b': Body, vs: seq<Val>)
    requires b.Thread? && b'.Thread?
  {
    && (b'.globals == b.globals || b'.globals in vs)
    && forall l :: 0 <= l < |b'.stack| ==> (l < |b.stack| && b'.stack[l] == b.stack[l]) || b'.stack[l] in vs
  }

  /** A change to a thread, which may be dead: threads and open upvalues are never black, so there is no barrier. */
  lemma StackInv(g: State, t: nat, b': Body, vs: seq<Val>)
    requires Inv(g) && IsThread(g.heap, t) && b'.Thread? && Restacks(g.heap[t].body, b', vs)
             && AliveVals(g.heap, g.white, vs)
    requires forall u <- g.open :: g.heap[u].body.thread == t ==> g.heap[u].body.level < |b'.stack|
    ensures Inv(g.(heap := PutBody(g.heap, t, b')))
  {
    var h' := PutBody(g.heap, t, b');
    StackAlive(g, t, b', vs);
    StackStructured(g, t, b');
    StackPhase(g, t, b');
    hide Structured, RootsAlive, AliveClosed, InPhase;
    RootsKept(g.heap, h', g.white, g.main, g.running, g.registry, g.mt, g.tmu);
  }

  lemma StackAlive(g: State, t: nat, b': Body, vs: seq<Val>)
    requires Inv(g) && IsThread(g.heap, t) && b'.Thread? && Restacks(g.heap[t].body, b', vs)
             && AliveVals(g.heap, g.white, vs)
    ensures var h' := PutBody(g.heap, t, b');
            AliveClosed(h', g.white) && forall p :: AliveIn(g.heap, g.white, p) <==> AliveIn(h', g.white, p)
  {
    var h, h' := g.heap, PutBody(g.heap, t, b');
    forall p | p in h' && AliveIn(h', g.white, p) ensures AliveVals(h', g.white, AllVals(h', h'[p].body)) {
      StackAliveAt(g, t, b', vs, p);
    }
  }

  lemma StackAliveAt(g: State, t: nat, b': Body, vs: seq<Val>, p: nat)
    requires Inv(g) && IsThread(g.heap, t) && b'.Thread? && Restacks(g.heap[t].body, b', vs)
             && AliveVals(g.heap, g.white, vs)
    requires p in g.heap && AliveIn(g.heap, g.white, p)
    ensures var h' := PutBody(g.heap, t, b'); AliveVals(h', g.white, AllVals(h', h'[p].body))
  {
    var h, h' := g.heap, PutBody(g.heap, t, b');
    assert AliveVals(h, g.white, AllVals(h, h[p].body));
    if p == t {
      StackVals(h, t, b', vs);
    } else if h[p].body.Open? && h[p].body.thread == t {
      assert p in g.open && HasSlot(h, t, h[p].body.level);
      var l := h[p].body.level;
      assert Slot(h', t, l) == Nil || Slot(h', t, l) == Slot(h, t, l) || Slot(h', t, l) in vs;
    } else {
      assert AllVals(h', h'[p].body) == AllVals(h, h[p].body);
    }
  }

  lemma StackVals(h: Heap, t: nat, b': Body, vs: seq<Val>)
    requires IsThread(h, t) && b'.Thread? && Restacks(h[t].body, b', vs)
    ensures forall v <- AllVals(PutBody(h, t, b'), b') :: v in AllVals(h, h[t].body) || v in vs
  {
    forall v | v in AllVals(PutBody(h, t, b'), b') ensures v in AllVals(h, h[t].body) || v in vs {
      if v != b'.globals {
        assert v in b'.stack;
        var l :| 0 <= l < |b'.stack| && b'.stack[l] == v;
      }
    }
  }

  lemma StackStructured(g: State, t: nat, b': Body)
    requires Inv(g) && IsThread(g.heap, t) && b'.Thread?
    requires forall u <- g.open :: g.heap[u].body.thread == t ==> g.heap[u].body.level < |b'.stack|
    ensures Structured(PutBody(g.heap, t, b'), g.main, g.running, g.open, g.udata, g.tmu)
  {
    var h' := PutBody(g.heap, t, b');
    forall p | p in h' && h'[p].body.Open? ensures HasSlot(h', h'[p].body.thread, h'[p].body.level) {
      assert p in g.open && HasSlot(g.heap, g.heap[p].body.thread, g.heap[p].body.level);
    }
  }

  lemma StackPhase(g: State, t: nat, b': Body)
    requires Inv(g) && IsThread(g.heap, t) && b'.Thread?
    ensures InPhase(g.(heap := PutBody(g.heap, t, b')))
  {
    if g.phase == Propagate { StackTri(g.heap, t, b', g.gray, g.again, g.weak, g.tmu); }
  }

  lemma StackTri(h: Heap, t: nat, b': Body, gray: seq<nat>, again: seq<nat>, weak: seq<nat>, tmu: seq<nat>)
    requires Tri(h, gray, again, weak, tmu) && IsThread(h, t) && b'.Thread?
    ensures Tri(PutBody(h, t, b'), gray, again, weak, tmu)
  {
    var h' := PutBody(h, t, b');
    forall p | p in h' && h'[p].color == Black && p !in tmu ensures Marked(h', AllVals(h', h'[p].body)) {
      assert p != t && !h[p].body.Open?;
      assert Marked(h, AllVals(h, h[p].body));
      assert AllVals(h', h[p].body) == AllVals(h, h[p].body);
    }
  }

  // ---------------------------------------------------------------- new objects

  /** `luaC_link`, `luaS_newudata` and the new upvalue of `luaF_findupval`: a new object has the current white. */
  function Created(g: State, o: nat, b: Body): State {
    g.(heap := g.heap[o := Obj(White(g.white), b)],
       open := if b.Open? then [o] + g.open else g.open,
       udata := if b.Udata? then [o] + g.udata else g.udata)
  }

  predicate MayCreate(g: State, o: nat, b: Body) {
    && o !in g.heap && AliveVals(g.heap, g.white, AllVals(g.heap, b))
    && (b.Open? ==> HasSlot(g.heap, b.thread, b.level))
  }

  lemma CreatedVals(g: State, o: nat, b: Body, p: nat)
    requires Shaped(g.heap) && MayCreate(g, o, b) && p in Created(g, o, b).heap
    ensures var h' := Created(g, o, b).heap;
              AllVals(h', h'[p].body) == AllVals(g.heap, if p == o then b else g.heap[p].body)
  {
    if p != o && g.heap[p].body.Open? { assert HasSlot(g.heap, g.heap[p].body.thread, g.heap[p].body.level); }
  }

  lemma CreatedAlive(g: State, o: nat, b: Body)
    requires Shaped(g.heap) && AliveClosed(g.heap, g.white) && MayCreate(g, o, b)
    ensures var h' := Created(g, o, b).heap;
            AliveClosed(h', g.white) && forall p :: AliveIn(g.heap, g.white, p) ==> AliveIn(h', g.white, p)
  {
    var h' := Created(g, o, b).heap;
    forall p | p in h' && AliveIn(h', g.white, p) ensures AliveVals(h', g.white, AllVals(h', h'[p].body)) {
      CreatedVals(g, o, b, p);
      if p != o { assert AliveVals(g.heap, g.white, AllVals(g.heap, g.heap[p].body)); }
    }
  }

  lemma CreatedStructured(g: State, o: nat, b: Body)
    requires Inv(g) && MayCreate(g, o, b)
    ensures var g' := Created(g, o, b); Structured(g'.heap, g.main, g.running, g'.open, g'.udata, g.tmu)
  {
    var h' := Created(g, o, b).heap;
    forall p | p in h' && h'[p].body.Open? ensures HasSlot(h', h'[p].body.thread, h'[p].body.level) {
      if p != o { assert HasSlot(g.heap, g.heap[p].body.thread, g.heap[p].body.level); }
    }
  }

  lemma CreatedTri(g: State, o: nat, b: Body)
    requires Tri(g.heap, g.gray, g.again, g.weak, g.tmu) && Shaped(g.heap) && MayCreate(g, o, b)
    ensures Tri(Created(g, o, b).heap, g.gray, g.again, g.weak, g.tmu)
  {
    var h' := Created(g, o, b).heap;
    forall p | p in h' && h'[p].color == Black && p !in g.tmu ensures Marked(h', AllVals(h', h'[p].body)) {
      CreatedVals(g, o, b, p);
      assert Marked(g.heap, AllVals(g.heap, g.heap[p].body));
    }
  }

  lemma CreatedColors(h: Heap, white: bool, o: nat, b: Body, unswept: set<nat>, tmu: seq<nat>, phase: Phase)
    requires o !in h && (forall p <- tmu :: p in h)
    ensures var h' := h[o := Obj(White(white), b)];
            && (forall p :: Nonwhite(h, p) ==> Nonwhite(h', p)) && (forall vs :: Marked(h, vs) ==> Marked(h', vs))
            && (NoneDead(h, white) ==> NoneDead(h', white))
               && (RestWhite(h, white, {}, tmu) ==> RestWhite(h', white, {}, tmu))
            && (Sweeping(h, white, unswept, tmu, phase) ==> Sweeping(h', white, unswept, tmu, phase))
  {
  }

  lemma CreatedPhase(g: State, o: nat, b: Body)
    requires Inv(g) && MayCreate(g, o, b)
    ensures InPhase(Created(g, o, b))
  {
    hide Tri, RootsAlive, AliveClosed, RestWhite, NoneDead, Nonwhite, Marked, Sweeping;
    CreatedColors(g.heap, g.white, o, b, g.unswept, g.tmu, g.phase);
    if g.phase == Propagate { CreatedTri(g, o, b); }
  }

  lemma CreatedInv(g: State, o: nat, b: Body)
    requires Inv(g) && MayCreate(g, o, b)
    ensures Inv(Created(g, o, b))
  {
    CreatedAlive(g, o, b);
    CreatedStructured(g, o, b);
    CreatedPhase(g, o, b);
    hide Structured, RootsAlive, AliveClosed, InPhase, MayCreate;
    RootsKept(g.heap, Created(g, o, b).heap, g.white, g.main, g.running, g.registry, g.mt, g.tmu);
  }

  /** `changewhite`: a dead string or open upvalue that the sweep has not reached is used again. */
  lemma RescuedInv(g: State, o: nat)
    requires Inv(g) && o in g.heap && IsDead(g, o) && AliveVals(g.heap, g.white, AllVals(g.heap, g.heap[o].body))
    ensures Inv(g.(heap := Paint(g.heap, o, White(g.white))))
  {
    var h' := Paint(g.heap, o, White(g.white));
    RescuedAlive(g.heap, g.white, o);
    DeadInSweep(g, o);
    WhiteSweeping(g.heap, g.white, g.unswept, g.tmu, g.phase, o);
    hide Structured, RootsAlive, AliveClosed, Sweeping, Tri, RestWhite, Paint;
    StructureKept(g.heap, h', g.main, g.running, g.open, g.udata, g.tmu);
    RootsKept(g.heap, h', g.white, g.main, g.running, g.registry, g.mt, g.tmu);
  }

  lemma RescuedAlive(h: Heap, white: bool, o: nat)
    requires AliveClosed(h, white) && o in h && AliveVals(h, white, AllVals(h, h[o].body))
    ensures var h' := Paint(h, o, White(white));
            AliveClosed(h', white) && SameBodies(h, h') && forall p :: AliveIn(h, white, p) ==> AliveIn(h', white, p)
  {
    var h' := Paint(h, o, White(white));
    PaintKeeps(h, o, White(white));
    forall p | p in h' && AliveIn(h', white, p) ensures AliveVals(h', white, AllVals(h', h'[p].body)) {
      assert AliveVals(h, white, AllVals(h, h[p].body));
    }
  }

  lemma DeadInSweep(g: State, o: nat)
    requires InPhase(g) && o in g.heap && IsDead(g, o)
    ensures InSweep(g.phase)
  {
    hide Tri;
  }

  lemma WhiteSweeping(h: Heap, white: bool, unswept: set<nat>, tmu: seq<nat>, phase: Phase, o: nat)
    requires Sweeping(h, white, unswept, tmu, phase) && o in h
    ensures Sweeping(Paint(h, o, White(white)), white, unswept, tmu, phase)
  {
  }

  // ---------------------------------------------------------------- roots

  lemma RootChanged(g: State, running: nat, mt: seq<Val>)
    requires Inv(g) && IsThread(g.heap, running) && AliveIn(g.heap, g.white, running) && AliveVals(g.heap, g.white, mt)
    ensures Inv(g.(running := running, mt := mt))
  {
  }

  // ---------------------------------------------------------------- closing upvalues

  function Close(h: Heap, u: nat, c: Color): Heap
    requires u in h && h[u].body.Open?
  {
    h[u := Obj(c, Closed(Slot(h, h[u].body.thread, h[u].body.level)))]
  }

  lemma CloseKeeps(h: Heap, u: nat, c: Color)
    requires u in h && h[u].body.Open?
    ensures var h' := Close(h, u, c);
              (forall b :: AllVals(h', b) == AllVals(h, b)) && AllVals(h', h'[u].body) == AllVals(h, h[u].body)
  {
    var h' := Close(h, u, c);
    forall b ensures AllVals(h', b) == AllVals(h, b) {
      assert forall t, l :: Slot(h', t, l) == Slot(h, t, l);
    }
  }

  lemma CloseAlive(h: Heap, white: bool, u: nat, c: Color)
    requires AliveClosed(h, white) && AliveIn(h, white, u) && h[u].body.Open? && c != White(!white)
    ensures AliveClosed(Close(h, u, c), white) && forall p :: AliveIn(h, white, p) <==>
            AliveIn(Close(h, u, c), white, p)
  {
    var h' := Close(h, u, c);
    CloseKeeps(h, u, c);
    forall p | p in h' && AliveIn(h', white, p) ensures AliveVals(h', white, AllVals(h', h'[p].body)) {
      assert AliveVals(h, white, AllVals(h, h[p].body));
    }
  }

  lemma CloseStructured(g: State, u: nat, c: Color)
    requires Inv(g) && u in g.heap && g.heap[u].body.Open?
    ensures Structured(Close(g.heap, u, c), g.main, g.running, Without(g.open, u), g.udata, g.tmu)
  {
    var h' := Close(g.heap, u, c);
    forall p | p in h' && h'[p].body.Open? ensures HasSlot(h', h'[p].body.thread, h'[p].body.level) {
      assert HasSlot(g.heap, g.heap[p].body.thread, g.heap[p].body.level);
    }
  }

  lemma CloseTri(h: Heap, u: nat, c: Color, gray: seq<nat>, again: seq<nat>, weak: seq<nat>, tmu: seq<nat>)
    requires Tri(h, gray, again, weak, tmu) && u in h && h[u].body.Open? && c == if h[u].color == Gray then Black
             else h[u].color
    ensures Tri(Close(h, u, c), gray, again, weak, tmu + [u])
            && (c != Black ==> Tri(Close(h, u, c), gray, again, weak, tmu))
  {
    var h' := Close(h, u, c);
    CloseKeeps(h, u, c);
    forall p | p in h' && h'[p].color == Black && p !in tmu && p != u ensures Marked(h', AllVals(h', h'[p].body)) {
      assert Marked(h, AllVals(h, h[p].body));
    }
  }

  /** `luaC_linkupval` on an upvalue that was not gray, or outside the marking. */
  lemma CloseQuietly(g: State, u: nat)
    requires Inv(g) && AliveIn(g.heap, g.white, u) && g.heap[u].body.Open?
             && (g.phase == Propagate ==> g.heap[u].color != Gray)
    ensures Inv(g.(heap := Close(g.heap, u, White(g.white)), open := Without(g.open, u), unswept := g.unswept - {u}))
  {
    CloseAlive(g.heap, g.white, u, White(g.white));
    CloseStructured(g, u, White(g.white));
    ClosePhase(g, u);
    hide Structured, RootsAlive, AliveClosed, InPhase;
    RootsKept(g.heap, Close(g.heap, u, White(g.white)), g.white, g.main, g.running, g.registry, g.mt, g.tmu);
  }

  lemma ClosePhase(g: State, u: nat)
    requires Inv(g) && AliveIn(g.heap, g.white, u) && g.heap[u].body.Open?
             && (g.phase == Propagate ==> g.heap[u].color != Gray)
    ensures InPhase(g.(heap := Close(g.heap, u, White(g.white)), open := Without(g.open, u),
            unswept := g.unswept - {u}))
  {
    hide Tri, RootsAlive, AliveClosed, RestWhite, NoneDead, Nonwhite, Marked, Close;
    if InSweep(g.phase) {
      CloseSweeping(g.heap, g.white, g.unswept, g.tmu, g.phase, u);
    } else if g.phase == Propagate {
      NotBlack(g.heap, g.gray, g.again, g.weak, g.tmu, u);
      CloseTri(g.heap, u, White(g.white), g.gray, g.again, g.weak, g.tmu);
      CloseColors(g.heap, g.white, u);
    } else {
      CloseRest(g.heap, g.white, g.tmu, u);
    }
  }

  lemma CloseColors(h: Heap, white: bool, u: nat)
    requires u in h && h[u].body.Open? && h[u].color == White(white)
    ensures forall o :: Nonwhite(h, o) ==> Nonwhite(Close(h, u, White(white)), o)
    ensures forall vs :: Marked(h, vs) ==> Marked(Close(h, u, White(white)), vs)
    ensures NoneDead(h, white) ==> NoneDead(Close(h, u, White(white)), white)
  {
  }

  lemma CloseRest(h: Heap, white: bool, tmu: seq<nat>, u: nat)
    requires RestWhite(h, white, {}, tmu) && u in h && h[u].body.Open?
    ensures RestWhite(Close(h, u, White(white)), white, {}, tmu)
  {
  }

  lemma CloseSweeping(h: Heap, white: bool, unswept: set<nat>, tmu: seq<nat>, phase: Phase, u: nat)
    requires Sweeping(h, white, unswept, tmu, phase) && Shaped(h) && u in h && h[u].body.Open?
    ensures Sweeping(Close(h, u, White(white)), white, unswept - {u}, tmu, phase)
  {
    forall o | o in unswept - {u} && h[o].body.Open? ensures h[o].body.thread in unswept - {u} {
      assert HasSlot(h, h[o].body.thread, h[o].body.level);
    }
  }

  /** `luaC_linkupval` on a gray upvalue while marking: it turns black, and the barrier marks its value. */
  lemma CloseMarking(g: State, u: nat, h': Heap, gray': seq<nat>)
    requires Inv(g) && g.phase == Propagate && u in g.heap && g.heap[u].body.Open? && g.heap[u].color == Gray
    requires Round(Close(g.heap, u, Black), g.gray, h', gray') && Marked(h', AllVals(g.heap, g.heap[u].body))
    ensures Inv(g.(heap := h', gray := gray', open := Without(g.open, u)))
  {
    var h1 := Close(g.heap, u, Black);
    CloseAlive(g.heap, g.white, u, Black);
    CloseStructured(g, u, Black);
    CloseMarked(g.heap, u, h', gray', g.gray, g.again, g.weak, g.tmu);
    hide Structured, RootsAlive, AliveClosed, Tri, Round;
    CloseBlack(g.heap, g.white, u);
    hide Close, NoneDead, Nonwhite;
    RoundMarks(h1, g.gray, h', gray');
    MarksAlive(h1, h', g.white);
    MarksMain(h1, h', g.main);
    MarksKeep(h1, h', Str);
    StructureKept(h1, h', g.main, g.running, Without(g.open, u), g.udata, g.tmu);
    RootsKept(g.heap, h', g.white, g.main, g.running, g.registry, g.mt, g.tmu);
  }

  lemma CloseBlack(h: Heap, white: bool, u: nat)
    requires u in h && h[u].body.Open?
    ensures forall o :: Nonwhite(h, o) ==> Nonwhite(Close(h, u, Black), o)
    ensures forall vs :: Marked(h, vs) ==> Marked(Close(h, u, Black), vs)
    ensures NoneDead(h, white) ==> NoneDead(Close(h, u, Black), white)
  {
  }

  lemma MarksMain(h: Heap, h': Heap, o: nat)
    requires Marks(h, h') && Nonwhite(h, o)
    ensures Nonwhite(h', o)
  {
  }

  lemma CloseMarked(h: Heap, u: nat, h': Heap, gray': seq<nat>, gray: seq<nat>, again: seq<nat>, weak: seq<nat>,
                    tmu: seq<nat>)
    requires Tri(h, gray, again, weak, tmu) && u in h && h[u].body.Open? && h[u].color == Gray
    requires Round(Close(h, u, Black), gray, h', gray') && Marked(h', AllVals(h, h[u].body))
    ensures Tri(h', gray', again, weak, tmu)
  {
    var h1 := Close(h, u, Black);
    CloseTri(h, u, Black, gray, again, weak, tmu);
    RoundKeepsTri(h1, gray, h', gray', again, weak, tmu + [u]);
    CloseKeeps(h, u, Black);
    MarksKeep(h1, h', h1[u].body);
    forall p | p in h' && h'[p].color == Black && p !in tmu ensures Marked(h', AllVals(h', h'[p].body)) {
      if p != u { assert p !in tmu + [u]; }
    }
  }

  /** `luaF_close` on a dead upvalue. */
  lemma FreeUpvalue(g: State, u: nat)
    requires Inv(g) && u in g.heap && g.heap[u].body.Open? && IsDead(g, u)
    ensures Inv(g.(heap := g.heap - {u}, open := Without(g.open, u), unswept := g.unswept - {u}))
  {
    var h' := g.heap - {u};
    FreeAlive(g.heap, h', g.white, u);
    FreeOpen(g, u);
    DeadInSweep(g, u);
    FreeSweeping(g.heap, g.white, g.unswept, g.tmu, g.phase, u);
    hide Structured, RootsAlive, AliveClosed, Sweeping, Tri, RestWhite;
    RootsKept(g.heap, h', g.white, g.main, g.running, g.registry, g.mt, g.tmu);
  }

  lemma FreeOpen(g: State, u: nat)
    requires Inv(g) && u in g.heap && g.heap[u].body.Open?
    ensures Structured(g.heap - {u}, g.main, g.running, Without(g.open, u), g.udata, g.tmu)
  {
    var h' := g.heap - {u};
    forall p | p in h' && h'[p].body.Open? ensures HasSlot(h', h'[p].body.thread, h'[p].body.level) {
      assert HasSlot(g.heap, g.heap[p].body.thread, g.heap[p].body.level);
    }
  }

  lemma FreeSweeping(h: Heap, white: bool, unswept: set<nat>, tmu: seq<nat>, phase: Phase, u: nat)
    requires Sweeping(h, white, unswept, tmu, phase) && Shaped(h) && u in h && h[u].body.Open?
    ensures Sweeping(h - {u}, white, unswept - {u}, tmu, phase)
  {
    forall o | o in unswept - {u} && h[o].body.Open? ensures h[o].body.thread in unswept - {u} {
      assert HasSlot(h, h[o].body.thread, h[o].body.level);
    }
  }

  // ---------------------------------------------------------------- finalizers

  /** `GCTM` takes the first userdatum off the list, and makes it an ordinary object again. */
  function Finalized(g: State): State
    requires g.tmu != [] && g.tmu[0] in g.heap
  {
    var o := g.tmu[0];
    g.(heap := Paint(g.heap, o, White(g.white)), tmu := g.tmu[1..], udata := [o] + g.udata)
  }

  lemma FinalizedInv(g: State)
    requires Inv(g) && g.phase == Finalize && g.tmu != [] && g.tmu[0] in g.heap
    ensures Inv(Finalized(g)) && AliveIn(Finalized(g).heap, g.white, g.tmu[0])
  {
    var o := g.tmu[0];
    var h' := Paint(g.heap, o, White(g.white));
    PaintAlive(g.heap, g.white, o, White(g.white));
    assert g.tmu == [o] + g.tmu[1..];
    assert InPhase(Finalized(g));
    StructureKept(g.heap, h', g.main, g.running, g.open, g.udata, g.tmu);
    assert Structured(h', g.main, g.running, g.open, [o] + g.udata, g.tmu[1..]);
    RootsKept(g.heap, h', g.white, g.main, g.running, g.registry, g.mt, g.tmu);
    hide Structured, AliveClosed, InPhase;
  }

  // ---------------------------------------------------------------- what a whole collection keeps

  predicate Holds(h: Heap, o: nat, p: nat) { RefersTo(h, o, p) && !IsWeak(h[o].body) }

  ghost predicate IsHolding(h: Heap, ps: seq<nat>) {
    |ps| > 0 && forall i, j :: 0 <= i < j == i + 1 < |ps| ==> Holds(h, ps[i], ps[j])
  }

  /** Reachable from the program's own roots by references that no weak table is needed for. */
  ghost predicate Held(g: State, o: nat) {
    exists ps :: IsHolding(g.heap, ps) && IsHolder(g, ps[0]) && ps[|ps| - 1] == o
  }

  lemma HeldAlive(g: State, o: nat)
    requires Inv(g) && Held(g, o)
    ensures o in g.heap
  {
    var ps :| IsHolding(g.heap, ps) && IsHolder(g, ps[0]) && ps[|ps| - 1] == o;
    HoldingPath(g.heap, ps);
    PathAlive(g, ps, |ps| - 1);
  }

  lemma HoldingPath(h: Heap, ps: seq<nat>)
    requires IsHolding(h, ps)
    ensures IsPath(h, ps)
  {
    forall i, j | 0 <= i < j == i + 1 < |ps| ensures RefersTo(h, ps[i], ps[j]) { assert Holds(h, ps[i], ps[j]); }
  }

  lemma HeldStays(g: State, g': State, o: nat)
    requires Inv(g) && Carries(g, g') && Held(g, o)
    ensures Held(g', o)
  {
    var ps :| IsHolding(g.heap, ps) && IsHolder(g, ps[0]) && ps[|ps| - 1] == o;
    HoldingPath(g.heap, ps);
    hide Inv, Mentions;
    forall i, j | 0 <= i < j == i + 1 < |ps| ensures Holds(g'.heap, ps[i], ps[j]) {
      assert Holds(g.heap, ps[i], ps[j]);
      PathAlive(g, ps, i);
      assert StillHolds(g.heap, g'.heap, ps[i]);
      ValsAreFields(g.heap, g.heap[ps[i]].body, Ref(ps[j]));
      ValsAreFields(g'.heap, g'.heap[ps[i]].body, Ref(ps[j]));
    }
    assert IsHolding(g'.heap, ps);
  }

  /** With no finalizer to be called, what is held is firm. */
  lemma HeldIsFirm(g: State, o: nat)
    requires Held(g, o) && g.tmu == []
    ensures Firm(g, o)
  {
    var ps :| IsHolding(g.heap, ps) && IsHolder(g, ps[0]) && ps[|ps| - 1] == o;
    forall i | 0 <= i < |ps| ensures Grounded(g, ps[..i], ps[i]) {
      if i > 0 {
        var before := ps[..i];
        assert before[i - 1] in before && Holds(g.heap, ps[i - 1], ps[i]);
        assert Backs(g, before, ps[i - 1], ps[i]);
      }
    }
    assert Derives(g, ps);
  }

  /** Userdatum 2 waits for its finalizer and is held by the registry; it holds userdatum 4 by way of table 3. */
  function HalfMarked(): (h: Heap)
    ensures h.Keys == {0, 1, 2, 3, 4}
  {
    map[0 := Obj(Gray, Thread(Nil, [])),
        1 := Obj(Black, Tab(Nil, [Ref(2)], [], false, false)),
        2 := Obj(Black, Udata(Nil, Ref(3), true, true)),
        3 := Obj(White(false), Tab(Nil, [Ref(4)], [], false, false)),
        4 := Obj(White(false), Udata(Nil, Nil, true, false))]
  }

  function HalfMarkedState(): State {
    State(0, 0, Ref(1), [], HalfMarked(), Propagate, false, [], [0], [], [2], [], [4], {})
  }

  lemma HalfMarkedVals()
    ensures var h := HalfMarked();
            && AllVals(h, h[0].body) == StrongVals(h, h[0].body) == [Nil] && AllVals(h, h[1].body) == [Nil, Ref(2)]
            && AllVals(h, h[2].body) == [Nil, Ref(3)] && AllVals(h, h[3].body) == [Nil, Ref(4)]
            && AllVals(h, h[4].body) == [Nil, Nil]
  {
  }

  lemma HalfMarkedColors()
    ensures var h := HalfMarked();
            && h[0].color == Gray && h[1].color == Black && h[2].color == Black && h[3].color == White(false)
            && h[4].color == White(false) && h[0].body.Thread? && h[1].body.Tab? && h[2].body.Udata? && h[3].body.Tab?
            && h[4].body.Udata?
  {
  }

  lemma HalfMarkedTri()
    ensures var h := HalfMarked(); Tri(h, [], [0], [], [2]) && NoneDead(h, false) && UpvaluesDone(h)
    ensures Traversed(HalfMarked(), 0, false)
  {
    HalfMarkedVals();
    HalfMarkedColors();
    hide AllVals, StrongVals, HalfMarked;
    assert [] + [0] + [] == [0];
  }

  lemma HalfMarkedAlive()
    ensures AliveClosed(HalfMarked(), false)
  {
    HalfMarkedVals();
    HalfMarkedColors();
    hide AllVals, HalfMarked;
  }

  lemma HalfMarkedInv()
    ensures Inv(HalfMarkedState())
  {
    HalfMarkedTri();
    HalfMarkedAlive();
    HalfMarkedColors();
    hide AllVals, HalfMarked, Tri, AliveClosed, NoneDead;
  }

  lemma HalfMarkedHolds()
    ensures Holds(HalfMarked(), 1, 2) && Holds(HalfMarked(), 2, 3) && Holds(HalfMarked(), 3, 4)
  {
    var h := HalfMarked();
    HalfMarkedVals();
    assert Ref(2) in [Nil, Ref(2)] && Ref(3) in [Nil, Ref(3)] && Ref(4) in [Nil, Ref(4)];
    ValsAreFields(h, h[1].body, Ref(2));
    ValsAreFields(h, h[2].body, Ref(3));
    ValsAreFields(h, h[3].body, Ref(4));
    hide Mentions, MentionsStrongly, AllVals;
  }

  /**
   Otherwise it need not be: with all marking done, a userdatum that is held by way of one that waits for
   its finalizer may still be white, and be separated to be finalized itself.
   */
  lemma HeldButSeparated() returns (g: State, o: nat)
    ensures Inv(g) && g.phase == Propagate && g.gray == [] && g.weak == [] && UpvaluesDone(g.heap)
    ensures Marked(g.heap, [Ref(g.running)] + g.mt) && forall p <- g.again :: Traversed(g.heap, p, false)
    ensures Held(g, o) && ToFinalize(g.heap, o) && o in g.udata
  {
    g, o := HalfMarkedState(), 4;
    HalfMarkedInv();
    HalfMarkedTri();
    HalfMarkedColors();
    HalfMarkedHolds();
    assert ToFinalize(g.heap, 4);
    hide Inv, UpvaluesDone, Traversed, Tri, HalfMarked, Holds, ToFinalize;
    var ps := [1, 2, 3, 4];
    assert IsHolding(g.heap, ps) && IsHolder(g, ps[0]) && ps[|ps| - 1] == o;
  }

  /** What was held is held, what was firm is firm, and weak tables have lost only shaky entries. */
  ghost predicate HoldsOn(g: State, g': State) { (forall o :: Held(g, o) ==> Held(g', o)) && FirmOn(g, g') }

  lemma HoldsOnStart(g: State)
    requires Inv(g)
    ensures HoldsOn(g, g)
  {
    FirmAtFirst(g);
  }

  lemma AllHeldThere(g: State, g': State)
    requires Inv(g') && HoldsOn(g, g')
    ensures forall o :: Held(g, o) ==> o in g'.heap
  {
    forall o | Held(g, o) ensures o in g'.heap { HeldAlive(g', o); }
  }

  lemma UnchangedBodies(h: Heap)
    ensures SameBodies(h, h)
  {
  }

  lemma AllHeldStay(g: State, g1: State, g2: State)
    requires Inv(g1) && Carries(g1, g2) && Spares(g1, g2) && HoldsOn(g, g1)
    ensures HoldsOn(g, g2)
  {
    hide Inv, Carries, Spares, FirmOn;
    forall o | Held(g, o) ensures Held(g2, o) { HeldStays(g1, g2, o); }
    FirmMore(g, g1, g2);
  }

  lemma BodiesCarry(g: State, g': State)
    requires SameRoots(g, g') && SameBodies(g.heap, g'.heap) && forall o <- g'.tmu :: o in g.tmu
    ensures Carries(g, g') && Spares(g, g')
  {
    SteadySpares(g, g');
    forall o | o in g.heap ensures AllVals(g'.heap, g.heap[o].body) == AllVals(g.heap, g.heap[o].body) {
      assert forall t, l :: Slot(g'.heap, t, l) == Slot(g.heap, t, l);
    }
  }

  lemma KeptCarry(g: State, g': State)
    requires SameRoots(g, g') && g'.heap.Keys == g.heap.Keys
             && forall o <- g.heap :: Kept(g'.heap, g.heap[o].body, g'.heap[o].body)
    ensures Carries(g, g')
  {
    var h, h' := g.heap, g'.heap;
    forall o | o in h && !IsWeak(h[o].body) ensures StillHolds(h, h', o) {
      assert Kept(h', h[o].body, h'[o].body);
      if h[o].body.Open? {
        var t, l := h[o].body.thread, h[o].body.level;
        assert t in h ==> Kept(h', h[t].body, h'[t].body);
        assert Slot(h', t, l) == Slot(h, t, l);
      }
    }
  }

  lemma SweptSpares(g: State, o: nat)
    requires o in g.heap
    ensures Spares(g, Swept(g, o))
  {
    SteadySpares(g, Swept(g, o));
  }

  lemma ThreadSpares(g: State, t: nat)
    requires IsThread(g.heap, t)
    ensures Spares(g, ThreadSwept(g, t))
  {
    SteadySpares(g, ThreadSwept(g, t));
  }

  /** Values pushed on the stack, and userdata that wait no longer, take nothing away. */
  lemma PushedSpares(g: State, vs: seq<Val>)
    requires g.phase == Finalize && g.tmu != [] && g.tmu[0] in g.heap && IsThread(g.heap, g.running)
    ensures Spares(g, Pushed(Finalized(g), vs))
  {
    SteadySpares(g, Pushed(Finalized(g), vs));
  }

  lemma SweptCarry(g: State, o: nat)
    requires o in g.heap && !g.heap[o].body.Thread?
    ensures Carries(g, Swept(g, o)) && forall p :: AliveIn(g.heap, g.white, p) ==> p in Swept(g, o).heap
  {
    var h' := Swept(g, o).heap;
    forall p | AliveIn(g.heap, g.white, p)
      ensures p in h' && h'[p].body == g.heap[p].body && AllVals(h', h'[p].body) == AllVals(g.heap, g.heap[p].body) {
      if IsDead(g, o) { SameSlots(g.heap, h', o, g.heap[p].body); } else { PaintKeeps(g.heap, o, White(g.white)); }
    }
  }

  lemma ThreadCarry(g: State, t: nat)
    requires Inv(g) && IsThread(g.heap, t)
    ensures Carries(g, ThreadSwept(g, t)) && forall p :: AliveIn(g.heap, g.white, p) ==> p in ThreadSwept(g, t).heap
  {
    var h' := SweptThread(g.heap, g.white, t);
    ThreadAlive(g.heap, g.white, t);
    forall p | AliveIn(g.heap, g.white, p)
      ensures p in h' && AllVals(h', h'[p].body) == AllVals(g.heap, g.heap[p].body)
              && IsWeak(h'[p].body) == IsWeak(g.heap[p].body)
    {
      assert AliveIn(h', g.white, p);
      ThreadVals(g.heap, g.white, t, p);
    }
  }

  lemma StackCarry(g: State, g': State, t: nat, vs: seq<Val>)
    requires IsThread(g.heap, t) && SameRoots(g, g') && Shaped(g.heap)
    requires g'.heap == PutBody(g.heap, t, g.heap[t].body.(stack := g.heap[t].body.stack + vs))
    ensures Carries(g, g')
  {
    var h, h' := g.heap, g'.heap;
    forall o | o in h && !IsWeak(h[o].body) ensures StillHolds(h, h', o) {
      if h[o].body.Open? && h[o].body.thread == t {
        var l := h[o].body.level;
        assert HasSlot(h, t, l) && Slot(h', t, l) == Slot(h, t, l);
      }
    }
  }

  /** Values pushed on the stack of the running thread. */
  function Pushed(g: State, vs: seq<Val>): State
    requires IsThread(g.heap, g.running)
  {
    var b := g.heap[g.running].body;
    g.(heap := PutBody(g.heap, g.running, b.(stack := b.stack + vs)))
  }

  lemma PushedInv(g: State, vs: seq<Val>)
    requires Inv(g) && AliveVals(g.heap, g.white, vs) && IsThread(g.heap, g.running)
    ensures Inv(Pushed(g, vs)) && Carries(g, Pushed(g, vs))
  {
    var b := g.heap[g.running].body;
    forall u | u in g.open && g.heap[u].body.thread == g.running ensures g.heap[u].body.level < |b.stack + vs| {
      assert HasSlot(g.heap, g.running, g.heap[u].body.level);
    }
    StackInv(g, g.running, b.(stack := b.stack + vs), vs);
    StackCarry(g, Pushed(g, vs), g.running, vs);
  }

  lemma Waiting(g: State)
    requires Inv(g)
    ensures IsThread(g.heap, g.running) && IsThread(g.heap, g.main) && g.unswept <= g.heap.Keys
    ensures forall o <- g.tmu :: o in g.heap
    ensures InSweep(g.phase) ==> forall o <- g.unswept :: g.heap[o].body.Open? ==>
            g.heap[o].body.thread in g.unswept && IsThread(g.heap, g.heap[o].body.thread)
  {
    if InSweep(g.phase) {
      forall o | o in g.unswept && g.heap[o].body.Open? ensures IsThread(g.heap, g.heap[o].body.thread) {
        assert HasSlot(g.heap, g.heap[o].body.thread, g.heap[o].body.level);
      }
    }
  }

  lemma StillAlive(g: State, vs: seq<Val>)
    requires Inv(g) && g.phase == Finalize && g.tmu != [] && g.tmu[0] in g.heap && AliveVals(g.heap, g.white, vs)
    ensures AliveVals(Finalized(g).heap, g.white, vs + [Ref(g.tmu[0])])
  {
    FinalizedInv(g);
  }

  // ---------------------------------------------------------------- progress

  function Rank(p: Phase): nat {
    match p case Pause => 0 case Finalize => 1 case Sweep => 2 case SweepString => 3 case Propagate => 4
  }

  function Work(g: State): nat { if g.phase == Propagate then |Whites(g.heap)| else |g.unswept| + |g.tmu| }

  /** A step of the collector brings the end of the collection closer. */
  predicate Advances(g: State, g': State) {
    || Rank(g'.phase) == Rank(g.phase) - 1
    || (g'.phase == g.phase && (Work(g') < Work(g) || (Work(g') == Work(g) && |g'.gray| < |g.gray|)))
  }

  /** What every single step of the collector does. */
  ghost predicate Collects(g: State, g': State) {
    Inv(g') && FreesGarbage(g, g') && Carries(g, g') && Spares(g, g') && g'.heap.Keys <= g.heap.Keys
      && (if g.phase == Pause then g'.phase == Propagate else Advances(g, g'))
  }

  lemma SweptCollects(g: State, o: nat)
    requires Inv(g) && InSweep(g.phase) && o in g.unswept && o in g.heap && !g.heap[o].body.Thread?
             && !g.heap[o].body.Open?
    ensures Collects(g, Swept(g, o))
  {
    SweptInv(g, o);
    SweptCarry(g, o);
    SweptSpares(g, o);
    OnlyGarbage(g, Swept(g, o));
    Fewer(Swept(g, o).unswept, g.unswept);
  }

  lemma ThreadSweptCollects(g: State, t: nat)
    requires Inv(g) && InSweep(g.phase) && t in g.unswept && IsThread(g.heap, t)
    ensures Collects(g, ThreadSwept(g, t))
  {
    ThreadSweptInv(g, t);
    ThreadCarry(g, t);
    ThreadSpares(g, t);
    OnlyGarbage(g, ThreadSwept(g, t));
    Fewer(ThreadSwept(g, t).unswept, g.unswept);
  }

  lemma SameCollects(g: State, g': State)
    requires Inv(g) && Inv(g') && SameRoots(g, g') && SameBodies(g.heap, g'.heap) && forall o <- g'.tmu :: o in g.tmu
    requires if g.phase == Pause then g'.phase == Propagate else Advances(g, g')
    ensures Collects(g, g')
  {
    BodiesCarry(g, g');
    OnlyGarbage(g, g');
  }

  lemma KeptCollects(g: State, g': State)
    requires Inv(g) && Inv(g') && SameRoots(g, g') && g.phase == Propagate && g'.phase == SweepString
    requires g'.heap.Keys == g.heap.Keys && MarksFirm(g, g'.heap, g'.tmu)
    requires forall o <- g.heap :: Kept(g'.heap, g.heap[o].body, g'.heap[o].body)
    ensures Collects(g, g')
  {
    KeptCarry(g, g');
    KeptSpares(g, g');
    OnlyGarbage(g, g');
  }

  lemma FinalizedCollects(g: State, g': State, vs: seq<Val>)
    requires Inv(g) && g.phase == Finalize && g.tmu != [] && g.tmu[0] in g.heap && IsThread(g.heap, g.running)
    requires AliveVals(Finalized(g).heap, g.white, vs) && g' == Pushed(Finalized(g), vs)
    ensures Collects(g, g')
  {
    hide Inv, Carries, FreesGarbage, Spares;
    FinalizedInv(g);
    PushedSpares(g, vs);
    var g1 := Finalized(g);
    PushedInv(g1, vs);
    BodiesCarry(g, g1);
    OnlyGarbage(g, g');
    CarriesOn(g, g1, g');
  }

  lemma CarriesOn(g: State, g1: State, g2: State)
    requires Carries(g, g1) && Carries(g1, g2) && g1.white == g.white && forall o :: AliveIn(g.heap, g.white, o) ==>
             AliveIn(g1.heap, g1.white, o)
    ensures Carries(g, g2)
  {
    forall o | AliveIn(g.heap, g.white, o) && !IsWeak(g.heap[o].body) ensures StillHolds(g.heap, g2.heap, o) {
      assert StillHolds(g.heap, g1.heap, o) && AliveIn(g1.heap, g.white, o) && StillHolds(g1.heap, g2.heap, o);
    }
  }

  lemma Collected(g: State, g1: State, g2: State)
    requires Inv(g1) && Collects(g1, g2) && HoldsOn(g, g1)
    ensures Inv(g2) && HoldsOn(g, g2) && g2.heap.Keys <= g1.heap.Keys && (g1.phase != Pause ==> Advances(g1, g2))
  {
    AllHeldStay(g, g1, g2);
  }

  // ---------------------------------------------------------------- steps of the program

  /** Every object left holds the values it held. */
  ghost predicate SameValues(h: Heap, h': Heap) {
    forall o <- h' :: o in h && AllVals(h', h'[o].body) == AllVals(h, h[o].body)
  }

  /** Besides colours, only the body of `o` is different. */
  ghost predicate OnlyBody(h: Heap, h': Heap, o: nat, b: Body) {
    o in h && SameBodies(PutBody(h, o, b), h')
  }

  lemma RoundOnlyBody(h: Heap, o: nat, b: Body, gray: seq<nat>, h': Heap, gray': seq<nat>)
    requires o in h && Round(PutBody(h, o, b), gray, h', gray')
    ensures OnlyBody(h, h', o, b)
  {
  }

  /** A new value is in the heap, and so the barrier can mark it. */
  lemma ForwardReady(g: State, o: nat, b': Body, v: Val)
    requires Inv(g) && g.phase == Propagate && AliveIn(g.heap, g.white, o) && SameKind(g.heap[o].body, b')
    requires Adds(g.heap, g.heap[o].body, b', [v]) && AliveVals(g.heap, g.white, [v])
    ensures Whole(PutBody(g.heap, o, b')) && (v.Ref? ==> v.o in g.heap)
  {
    assert v in [v];
    PutAlive(g.heap, g.white, o, b', [v]);
    AliveWhole(PutBody(g.heap, o, b'), g.white);
  }

  /** Nothing white among the values, or an object that is not black: no barrier is needed. */
  lemma NoBarrier(h: Heap, white: bool, vs: seq<Val>)
    requires AliveVals(h, white, vs) && forall v <- vs :: v.Ref? && v.o in h ==> !h[v.o].color.White?
    ensures Marked(h, vs)
  {
  }

  lemma WhitenedBody(h: Heap, o: nat, b: Body, c: Color)
    requires o in h
    ensures OnlyBody(h, Paint(PutBody(h, o, b), o, c), o, b) && OnlyBody(h, PutBody(h, o, b), o, b)
  {
  }

  lemma ClosedValues(h: Heap, u: nat, c: Color)
    requires u in h && h[u].body.Open?
    ensures SameValues(h, Close(h, u, c)) && SameValues(h, h - {u})
  {
    CloseKeeps(h, u, c);
    forall o | o in h - {u} ensures AllVals(h - {u}, h[o].body) ==
      AllVals(h, h[o].body) { SameSlots(h, h - {u}, u, h[o].body); }
  }

  lemma RoundValues(h: Heap, gray: seq<nat>, h': Heap, gray': seq<nat>)
    requires Round(h, gray, h', gray')
    ensures SameValues(h, h') && SameBodies(h, h')
  {
    forall o | o in h' ensures AllVals(h', h'[o].body) == AllVals(h, h[o].body) { MarksKeep(h, h', h[o].body); }
  }

  lemma SameValuesStart(h: Heap)
    ensures SameValues(h, h)
  {
  }

  lemma SameValuesTransitive(h: Heap, h1: Heap, h2: Heap)
    requires SameValues(h, h1) && SameValues(h1, h2)
    ensures SameValues(h, h2)
  {
  }

  lemma CloseReady(g: State, u: nat)
    requires Inv(g) && g.phase == Propagate && u in g.heap && g.heap[u].body.Open?
    ensures var h1 := Close(g.heap, u, Black);
              Whole(h1) && (h1[u].body.value.Ref? ==> h1[u].body.value.o in h1)
              && AllVals(g.heap, g.heap[u].body) == [h1[u].body.value]
  {
    var h1 := Close(g.heap, u, Black);
    CloseAlive(g.heap, g.white, u, Black);
    AliveWhole(h1, g.white);
    assert h1[u].body.value in AllVals(h1, h1[u].body);
  }

  /** The slots of the running thread are alive, and so a dead upvalue of it may be used again. */
  lemma SlotAlive(g: State, l: nat)
    requires Inv(g) && HasSlot(g.heap, g.running, l)
    ensures AliveVals(g.heap, g.white, [Slot(g.heap, g.running, l)])
  {
    assert AliveVals(g.heap, g.white, AllVals(g.heap, g.heap[g.running].body));
    assert g.heap[g.running].body.stack[l] in AllVals(g.heap, g.heap[g.running].body);
  }

  lemma AllAlive(g: State)
    requires Inv(g) && g.phase == Propagate
    ensures forall o <- g.heap :: AliveIn(g.heap, g.white, o)
  {
  }
}
