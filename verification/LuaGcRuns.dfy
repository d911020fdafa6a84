/**
 The steps that the collector and the running program can take, what each of them does, and runs of them
 in any order.
 */
module LuaGcRuns {
  import opened LuaHeap
  import opened LuaGcFirm
  import opened LuaGcState
  import opened LuaGcSteps

  /** The steps of the collector and of the program, with what they are applied to. */
  datatype Command =
    | Collect
    | Abandon
    | Restart
    | PushValue(v: Val)
    | PopTo(n: nat)
    | WriteSlot(t: nat, l: nat, v: Val)
    | WriteGlobals(t: nat, v: Val)
    | WriteObject(o: nat, b: Body, v: Val)
    | WriteTable(o: nat, b: Body, vs: seq<Val>)
    | WriteUpvalue(o: nat, v: Val)
    | Create(o: nat, b: Body)
    | FindString(o: nat)
    | Capture(l: nat, o: nat)
    | CloseFrom(l: nat)
    | WriteMetatable(i: nat, v: Val)
    | SwitchTo(t: nat)

  /** Operands are alive, except strings and upvalues that are looked up. */
  predicate Enabled(g: State, c: Command) {
    match c
    case Collect => true
    case Abandon => g.phase == Pause || g.phase == Propagate
    case Restart => g.phase == Finalize
    case PushValue(v) => AliveVals(g.heap, g.white, [v])
    case PopTo(n) =>
      && IsThread(g.heap, g.running) && n <= |g.heap[g.running].body.stack|
      && forall u <- g.open :: UpvalueOf(g.heap, u, g.running) ==> g.heap[u].body.level < n
    case WriteSlot(t, l, v) => HasSlot(g.heap, t, l) && AliveVals(g.heap, g.white, [v])
    case WriteGlobals(t, v) => IsThread(g.heap, t) && AliveVals(g.heap, g.white, [v])
    case WriteObject(o, b, v) =>
      && AliveIn(g.heap, g.white, o) && SameKind(g.heap[o].body, b) && !b.Tab?
      && Adds(g.heap, g.heap[o].body, b, [v]) && AliveVals(g.heap, g.white, [v])
    case WriteTable(o, b, vs) =>
      && AliveIn(g.heap, g.white, o) && g.heap[o].body.Tab? && b.Tab?
      && Adds(g.heap, g.heap[o].body, b, vs) && AliveVals(g.heap, g.white, vs)
    case WriteUpvalue(u, v) =>
      AliveIn(g.heap, g.white, u) && (g.heap[u].body.Open? || g.heap[u].body.Closed?) && AliveVals(g.heap, g.white, [v])
    case Create(o, b) => MayCreate(g, o, b)
    case FindString(o) => o in g.heap && g.heap[o].body.Str?
    case Capture(l, o) => HasSlot(g.heap, g.running, l) && o !in g.heap
    case CloseFrom(_) => true
    case WriteMetatable(i, v) => i <= |g.mt| && AliveVals(g.heap, g.white, [v])
    case SwitchTo(t) => IsThread(g.heap, t) && AliveIn(g.heap, g.white, t)
  }

  // ---------------------------------------------------------------- what the steps do

  /** Only the heap, the lists and the phase of a marking are different. */
  predicate OnlyMarking(g: State, g': State) {
    g' == g.(heap := g'.heap, gray := g'.gray, again := g'.again, weak := g'.weak, phase := g'.phase)
  }

  /** The phase after this one, once there is nothing left to do in it. */
  predicate PhaseOver(g: State, g': State) {
    match g.phase
    case SweepString => (forall o <- g.unswept :: o in g.heap ==> !g.heap[o].body.Str?) && g' == g.(phase := Sweep)
    case Sweep => g.unswept == {} && g' == g.(phase := Finalize)
    case _ => g.phase == Finalize && g.tmu == [] && g' == g.(phase := Pause)
  }

  /** One object is swept, a string first; an open upvalue goes with its thread. */
  predicate SweepsObject(g: State, g': State, o: nat) {
    && o in g.unswept && o in g.heap && (g.phase == SweepString ==> g.heap[o].body.Str?)
    && g' == if g.heap[o].body.Thread? then ThreadSwept(g, o) else Swept(g, o)
  }

  /** The first userdatum that waits is handed to its finalizer. */
  predicate Finalizes(g: State, g': State, vs: seq<Val>) {
    && g.tmu != [] && g.tmu[0] in g.heap && IsThread(Finalized(g).heap, g.running) && g' == Pushed(Finalized(g), vs)
    && (vs == [] || (|vs| == 2 && vs[1] == Ref(g.tmu[0])))
  }

  /** What a single step of the collector does, by phase. */
  ghost predicate Moves(g: State, g': State) {
    match g.phase
    case Pause => g'.phase == Propagate && OnlyMarking(g, g') && SameBodies(g.heap, g'.heap)
    case Propagate =>
      if g.gray != [] then g'.phase == Propagate && OnlyMarking(g, g') && SameBodies(g.heap, g'.heap)
      else
        && g'.phase == SweepString && g'.white != g.white && g'.unswept == g'.heap.Keys - SetOf(g'.tmu)
           && SameRoots(g, g') && g'.open == g.open
        && g.tmu <= g'.tmu && Subsequence(g'.tmu[|g.tmu|..], g.udata)
        && g'.heap.Keys == g.heap.Keys && forall o <- g.heap :: Kept(g'.heap, g.heap[o].body, g'.heap[o].body)
    case Finalize => PhaseOver(g, g') || exists vs :: Finalizes(g, g', vs)
    case _ => PhaseOver(g, g') || exists o :: SweepsObject(g, g', o)
  }

  lemma MovesByFinalizer(g: State, g': State, vs: seq<Val>)
    requires g.phase == Finalize && Finalizes(g, g', vs)
    ensures Moves(g, g')
  {
  }

  /** `luaF_close`: the upvalues from the level up are closed with the values they had. */
  ghost predicate ClosesFrom(g: State, g': State, level: nat) {
    && g' == g.(heap := g'.heap, gray := g'.gray, open := g'.open, unswept := g'.unswept)
    && SameValues(g.heap, g'.heap) && (forall o :: AliveIn(g.heap, g.white, o) ==> AliveIn(g'.heap, g.white, o))
    && (forall o <- g'.heap :: BodyOrClosed(g, g'.heap, o, level))
    && (forall u <- g'.open :: UpvalueOf(g'.heap, u, g.running) ==> g'.heap[u].body.level < level)
  }

  predicate BodyOrClosed(g: State, h: Heap, o: nat, level: nat) {
    o in h && o in g.heap &&
    (h[o].body == g.heap[o].body
      || (UpvalueOf(g.heap, o, g.running) && g.heap[o].body.level >= level && h[o].body.Closed?))
  }

  /** `luaF_findupval`. */
  predicate Captures(g: State, g': State, l: nat, o: nat, u: nat) {
    && AliveIn(g'.heap, g.white, u) && g'.heap[u].body == Open(g.running, l)
    && if u == o then (forall p <- g.open :: p in g.heap ==> g.heap[p].body != Open(g.running, l))
       && g' == Created(g, o, Open(g.running, l))
       else u in g.heap && g' == g.(heap := Paint(g.heap, u, g'.heap[u].color))
  }

  function Restacked(g: State, t: nat, b: Body): State
    requires t in g.heap
  {
    g.(heap := PutBody(g.heap, t, b))
  }

  /** What a step of the program does. */
  ghost predicate Works(g: State, c: Command, g': State)
    requires Enabled(g, c) && IsThread(g.heap, g.running)
  {
    match c
    case PushValue(v) => g' == Pushed(g, [v])
    case PopTo(n) => g' == Restacked(g, g.running, g.heap[g.running].body.(stack := g.heap[g.running].body.stack[..n]))
    case WriteSlot(t, l, v) => g' == Restacked(g, t, g.heap[t].body.(stack := g.heap[t].body.stack[l := v]))
    case WriteGlobals(t, v) => g' == Restacked(g, t, g.heap[t].body.(globals := v))
    case WriteObject(o, b, _) => OnlyBody(g.heap, g'.heap, o, b) && g' == g.(heap := g'.heap, gray := g'.gray)
    case WriteTable(t, b, _) => OnlyBody(g.heap, g'.heap, t, b) && g' == g.(heap := g'.heap, again := g'.again)
    case WriteUpvalue(u, v) => WritesUpvalue(g, g', u, v)
    case Create(o, b) => g' == Created(g, o, b)
    case FindString(o) => g' == if IsDead(g, o) then g.(heap := Paint(g.heap, o, White(g.white))) else g
    case Capture(l, o) => exists u :: Captures(g, g', l, o, u)
    case CloseFrom(l) => ClosesFrom(g, g', l)
    case WriteMetatable(i, v) => g' == g.(mt := if i < |g.mt| then g.mt[i := v] else g.mt + [v])
    case SwitchTo(t) => g' == g.(running := t)
    case _ => false
  }

  /** The value goes to the slot of an open upvalue, or to the upvalue itself. */
  ghost predicate WritesUpvalue(g: State, g': State, u: nat, v: Val)
    requires u in g.heap
  {
    var b := g.heap[u].body;
    if b.Open? then HasSlot(g.heap, b.thread, b.level)
      && g' == Restacked(g, b.thread, g.heap[b.thread].body.(stack := g.heap[b.thread].body.stack[b.level := v]))
    else OnlyBody(g.heap, g'.heap, u, Closed(v)) && g' == g.(heap := g'.heap, gray := g'.gray)
  }

  /** What a step does. */
  ghost predicate Performs(g: State, c: Command, g': State) {
    && Enabled(g, c)
    && match c
       case Collect => Collects(g, g') && Moves(g, g')
       case Abandon => g' == g.(gray := [], again := [], weak := [], unswept := g.heap.Keys - SetOf(g.tmu),
         phase := SweepString)
       case Restart => g'.phase == Propagate && OnlyMarking(g, g') && SameBodies(g.heap, g'.heap)
       case _ => IsThread(g.heap, g.running) && Works(g, c, g')
  }

  // ---------------------------------------------------------------- runs

  /**
   The states of a run: the invariant holds in all of them, no field of a living object refers to one that is
   dead or freed, and no step frees what is reachable before it.
   */
  ghost predicate SafeRun(gs: seq<State>) {
    && (forall g <- gs :: Inv(g) && NothingDangles(g))
    && forall i, j :: 0 <= i < j == i + 1 < |gs| ==> FreesGarbage(gs[i], gs[j])
  }

  /** Each command that can be performed is, in turn, and the others do nothing. */
  ghost predicate Obeys(gs: seq<State>, cs: seq<Command>) {
    && |gs| == |cs| + 1
    && forall i, j :: 0 <= i < j == i + 1 < |gs| ==>
       if Enabled(gs[i], cs[i]) then Performs(gs[i], cs[i], gs[j]) else gs[j] == gs[i]
  }

  lemma NothingToObey(g: State)
    ensures Obeys([g], [])
  {
  }

  lemma ObeysMore(gs: seq<State>, cs: seq<Command>, c: Command, g: State)
    requires Obeys(gs, cs) && |gs| == |cs| + 1 && if Enabled(gs[|cs|], c) then Performs(gs[|cs|], c, g)
             else g == gs[|cs|]
    ensures Obeys(gs + [g], cs + [c])
  {
    hide Enabled, Performs;
    var gs', cs' := gs + [g], cs + [c];
    forall i, j | 0 <= i < j == i + 1 < |gs'|
      ensures if Enabled(gs'[i], cs'[i]) then Performs(gs'[i], cs'[i], gs'[j]) else gs'[j] == gs'[i] {
      if j < |gs| { assert if Enabled(gs[i], cs[i]) then Performs(gs[i], cs[i], gs[j]) else gs[j] == gs[i]; }
    }
  }

  lemma SafeRunStarts(g: State)
    requires Inv(g)
    ensures SafeRun([g])
  {
    hide Inv, NothingDangles;
    NoneDangle(g);
  }

  lemma SafeRunExtends(gs: seq<State>, g: State)
    requires SafeRun(gs) && gs != [] && Inv(g) && FreesGarbage(gs[|gs| - 1], g)
    ensures SafeRun(gs + [g])
  {
    hide Inv, NothingDangles, FreesGarbage;
    NoneDangle(g);
    var gs' := gs + [g];
    forall i, j | 0 <= i < j == i + 1 < |gs'| ensures FreesGarbage(gs'[i], gs'[j]) {
      if j < |gs| { assert FreesGarbage(gs[i], gs[j]); }
    }
  }
}
