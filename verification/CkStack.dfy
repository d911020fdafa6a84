/**
 The generation-tagged stack of `ck_stack.h`: `push_upmc`/`push_mpmc` swing the head
 pointer alone, `pop_mpmc` swings head and generation together.

 Threads push nodes they hold, keep the nodes they pop, may push them again, hand them to
 another thread, or write anything into them while they hold them. Every access is one
 atomic step. The memory fields `stack` and `log` and the thread fields `start` and `at` are history.
 */
module CkStack {
  import CkCalls

  datatype Ptr = Null | At(id: nat)

  datatype Event =
    | Pushed(who: nat, node: nat)
    | Popped(who: nat, node: nat)
    | FoundEmpty(who: nat)

  datatype Outcome = Running | Stored | Took(node: nat) | WasEmpty | Lost

  /** The next access of a thread; `U` for push, `P` for pop. */
  datatype Pc = Idle | ULoad | UStore | UCas | PGen | PHead | PNext | PCas | Done

  /** `mine` is the set of nodes the thread holds; `once` marks the try-variants. */
  datatype Local = Local(
    pc: Pc, once: bool, mine: set<nat>, node: nat,
    head: Ptr, gen: nat, next: Ptr, outcome: Outcome, start: nat, at: int)

  datatype Memory = Memory(next: map<nat, Ptr>, head: Ptr, gen: nat, stack: seq<nat>, log: seq<Event>)

  datatype State = State(mem: Memory, threads: map<nat, Local>)

  /** An empty stack, every node in the hands of exactly one thread. */
  ghost predicate Init(s: State) {
    && s.mem.head == Null && s.mem.gen == 0 && s.mem.stack == [] && s.mem.log == []
    && (forall t <- s.threads :: s.threads[t].pc == Idle && s.threads[t].mine <= s.mem.next.Keys)
    && NoSharing(s.threads)
    && (forall n <- s.mem.next :: exists t <- s.threads :: n in s.threads[t].mine)
  }

  function Begin(l: Local, pc: Pc, once: bool, node: nat, start: nat): Local {
    l.(pc := pc, once := once, node := node, outcome := Running, start := start, at := -1)
  }

  function NextOf(m: Memory, p: Ptr): Ptr {
    if p.At? && p.id in m.next then m.next[p.id] else Null
  }

  /** The compare-and-swap of `push`: on failure the current head becomes the new snapshot. */
  function PushCas(m: Memory, t: nat, l: Local): (Memory, Local) {
    if m.head == l.head then
      (m.(head := At(l.node), stack := [l.node] + m.stack, log := m.log + [Pushed(t, l.node)]),
       l.(pc := Done, outcome := Stored, mine := l.mine - {l.node}, at := |m.log|))
    else if l.once then
      (m, l.(pc := Done, outcome := Lost))
    else
      (m, l.(pc := UStore, head := m.head))
  }

  /** A pop whose snapshot of the head is `m.head`: empty, or go on to read its successor. */
  function PopSnapshot(m: Memory, t: nat, l: Local, gen: nat): (Memory, Local) {
    if m.head == Null then
      (m.(log := m.log + [FoundEmpty(t)]), l.(pc := Done, outcome := WasEmpty, at := |m.log|))
    else
      (m, l.(pc := PNext, head := m.head, gen := gen))
  }

  /** The double-word compare-and-swap of `pop`; on failure both words are re-read at once. */
  function PopCas(m: Memory, t: nat, l: Local): (Memory, Local) {
    if m.head == l.head && m.gen == l.gen && l.head.At? then
      (m.(head := l.next, gen := l.gen + 1, stack := if m.stack == [] then [] else m.stack[1..],
        log := m.log + [Popped(t, l.head.id)]),
       l.(pc := Done, outcome := Took(l.head.id), mine := l.mine + {l.head.id}, at := |m.log|))
    else if l.once then
      (m, l.(pc := Done, outcome := Lost))
    else
      PopSnapshot(m, t, l, m.gen)
  }

  function Step(m: Memory, t: nat, l: Local): (Memory, Local) {
    match l.pc
    case ULoad => (m, l.(pc := UStore, head := m.head))
    case UStore => (m.(next := m.next[l.node := l.head]), l.(pc := UCas))
    case UCas => PushCas(m, t, l)
    case PGen => (m, l.(pc := PHead, gen := m.gen))
    case PHead => PopSnapshot(m, t, l, l.gen)
    case PNext => (m, l.(pc := PCas, next := NextOf(m, l.head)))
    case PCas => PopCas(m, t, l)
    case Done => (m, l.(pc := Idle))
    case Idle => (m, l)
  }

  function Act(s: State, t: nat): State
    requires t in s.threads
  {
    var (m, l) := Step(s.mem, t, s.threads[t]);
    State(m, s.threads[t := l])
  }

  function BeginPush(s: State, t: nat, once: bool, node: nat): State
    requires t in s.threads
  {
    s.(threads := s.threads[t := Begin(s.threads[t], ULoad, once, node, |s.mem.log|)])
  }

  function BeginPop(s: State, t: nat, once: bool): State
    requires t in s.threads
  {
    s.(threads := s.threads[t := Begin(s.threads[t], PGen, once, 0, |s.mem.log|)])
  }

  /** A thread overwrites a node it holds, as a client reusing its memory may. */
  function Scribble(s: State, node: nat, p: Ptr): State {
    s.(mem := s.mem.(next := s.mem.next[node := p]))
  }

  function Hand(s: State, t: nat, u: nat, node: nat): State
    requires t in s.threads && u in s.threads
  {
    var threads := s.threads[t := s.threads[t].(mine := s.threads[t].mine - {node})];
    s.(threads := threads[u := threads[u].(mine := threads[u].mine + {node})])
  }

  ghost predicate ClientStep(s: State, s': State, t: nat, node: nat)
    requires t in s.threads
  {
    && s.threads[t].pc == Idle && node in s.threads[t].mine
    && (|| (exists once :: s' == BeginPush(s, t, once, node))
        || (exists p :: s' == Scribble(s, node, p))
        || (exists u <- s.threads :: u != t && s.threads[u].pc == Idle && s' == Hand(s, t, u, node)))
  }

  ghost predicate StepOf(s: State, s': State, t: nat)
    requires t in s.threads
  {
    || s' == Act(s, t)
    || (s.threads[t].pc == Idle && exists once :: s' == BeginPop(s, t, once))
    || (exists node :: ClientStep(s, s', t, node))
  }

  ghost predicate Next(s: State, s': State) {
    exists t <- s.threads :: StepOf(s, s', t)
  }

  ghost predicate IsRun(run: seq<State>) {
    && |run| > 0 && Init(run[0])
    && forall i :: 0 <= i < |run| - 1 ==> Next(run[i], run[i + 1])
  }

  // ---------------------------------------------------------------- the atomic stack

  datatype Lifo = Legal(items: seq<nat>) | Illegal

  /** Runs the log on a sequential stack, top first. */
  function Replay(log: seq<Event>): Lifo {
    if log == [] then Legal([]) else
    var q := Replay(log[..|log| - 1]);
    if q.Illegal? then Illegal else
    match log[|log| - 1]
    case Pushed(_, n) => Legal([n] + q.items)
    case Popped(_, n) => if q.items != [] && q.items[0] == n then Legal(q.items[1..]) else Illegal
    case FoundEmpty(_) => if q.items == [] then q else Illegal
  }

  // ---------------------------------------------------------------- the invariant

  function Link(stack: seq<nat>, i: nat): Ptr {
    if i < |stack| then At(stack[i]) else Null
  }

  ghost predicate Shape(m: Memory) {
    && m.head == Link(m.stack, 0)
    && (forall i :: 0 <= i < |m.stack| ==> m.stack[i] in m.next && m.next[m.stack[i]] == Link(m.stack, i + 1))
    && (forall i, j :: 0 <= i < j < |m.stack| ==> m.stack[i] != m.stack[j])
  }

  ghost predicate MemoryInv(m: Memory) {
    Shape(m) && Replay(m.log) == Legal(m.stack)
  }

  ghost predicate InLog(m: Memory, l: Local, e: Event) {
    l.start <= l.at < |m.log| && m.log[l.at] == e
  }

  /** A finished call returned what its own entry in the log says; a try-call may give up. */
  ghost predicate Linearized(m: Memory, t: nat, l: Local) {
    l.pc == Done ==>
      match l.outcome
      case Stored => InLog(m, l, Pushed(t, l.node))
      case Took(n) => InLog(m, l, Popped(t, n))
      case WasEmpty => InLog(m, l, FoundEmpty(t))
      case Lost => l.once && l.at == -1
      case Running => false
  }

  /** While the generation has not moved, the snapshot head is still in the stack. */
  ghost predicate Fresh(m: Memory, l: Local) {
    && l.at == -1 && l.gen <= m.gen && l.head.At?
    && (l.gen == m.gen ==> l.head.id in m.stack)
  }

  ghost predicate ThreadInv(m: Memory, t: nat, l: Local) {
    && l.mine <= m.next.Keys
    && (forall n <- l.mine :: n !in m.stack)
    && (l.pc == Idle || l.start <= |m.log|)
    && match l.pc
       case Idle => true
       case ULoad => l.at == -1 && l.node in l.mine
       case UStore => l.at == -1 && l.node in l.mine
       case UCas => l.at == -1 && l.node in l.mine && m.next[l.node] == l.head
       case PGen => l.at == -1
       case PHead => l.at == -1 && l.gen <= m.gen
       case PNext => Fresh(m, l)
       case PCas => Fresh(m, l) && (l.gen == m.gen ==> l.next == NextOf(m, l.head))
       case Done => Linearized(m, t, l)
  }

  /** No node is held by two threads. */
  ghost predicate NoSharing(threads: map<nat, Local>) {
    forall t, u :: t in threads && u in threads && t != u ==> threads[t].mine !! threads[u].mine
  }

  ghost predicate Held(threads: map<nat, Local>, n: nat) {
    exists t <- threads :: n in threads[t].mine
  }

  /** Every node is in the stack or in some thread's hands. */
  ghost predicate NothingLost(s: State) {
    forall n <- s.mem.next :: n in s.mem.stack || Held(s.threads, n)
  }

  ghost predicate AllThreads(s: State) {
    forall t <- s.threads :: ThreadInv(s.mem, t, s.threads[t])
  }

  ghost predicate Inv(s: State) {
    MemoryInv(s.mem) && AllThreads(s) && NoSharing(s.threads) && NothingLost(s)
  }

  // ---------------------------------------------------------------- one step

  /** How memory may change under another thread that holds the nodes `mine`. */
  ghost predicate Grows(m: Memory, m': Memory, mine: set<nat>) {
    && m'.next.Keys == m.next.Keys
    && m.log <= m'.log && m.gen <= m'.gen
    && (m.gen == m'.gen ==> forall n <- m.stack :: n in m'.stack && n in m.next && m'.next[n] == m.next[n])
    && (forall n <- mine :: n !in m'.stack && (n in m.next ==> m'.next[n] == m.next[n]))
  }

  lemma Undisturbed(m: Memory, m': Memory, t: nat, l: Local)
    requires Grows(m, m', l.mine) && ThreadInv(m, t, l)
    ensures ThreadInv(m', t, l)
  {
  }

  /** What one thread's step must establish: only its own nodes enter the stack or change. */
  ghost predicate GoodStep(m: Memory, l: Local, m': Memory, t: nat, l': Local) {
    && MemoryInv(m') && ThreadInv(m', t, l')
    && m'.next.Keys == m.next.Keys && m.log <= m'.log && m.gen <= m'.gen
    && (m.gen == m'.gen ==> forall n <- m.stack :: n in m'.stack && m'.next[n] == m.next[n])
    && (forall n <- m.next :: n !in l.mine ==> m'.next[n] == m.next[n])
    && (forall n <- m'.stack :: n in m.stack || n in l.mine)
    && (forall n <- l'.mine :: n in l.mine || n in m.stack)
    && (forall n <- m.next :: n in m.stack || n in l.mine ==> n in m'.stack || n in l'.mine)
  }

  lemma UndisturbedByStep(m: Memory, l: Local, m': Memory, t: nat, l': Local, u: nat, o: Local)
    requires Shape(m) && GoodStep(m, l, m', t, l') && ThreadInv(m, u, o) && o.mine !! l.mine
    ensures ThreadInv(m', u, o) && o.mine !! l'.mine
  {
    assert Grows(m, m', o.mine);
    Undisturbed(m, m', u, o);
  }

  lemma Compose(s: State, t: nat, m': Memory, l': Local)
    requires Inv(s) && t in s.threads && GoodStep(s.mem, s.threads[t], m', t, l')
    ensures Inv(State(m', s.threads[t := l']))
  {
    var s' := State(m', s.threads[t := l']);
    hide ThreadInv, Replay;
    forall u | u in s.threads && u != t
      ensures ThreadInv(m', u, s.threads[u]) && s.threads[u].mine !! l'.mine
    {
      assert ThreadInv(s.mem, u, s.threads[u]);
      UndisturbedByStep(s.mem, s.threads[t], m', t, l', u, s.threads[u]);
    }
    forall n | n in m'.next ensures n in m'.stack || Held(s'.threads, n) {
      if n !in m'.stack && n !in l'.mine {
        assert n in s.mem.next && Held(s.threads, n);
        var u :| u in s.threads && n in s.threads[u].mine;
        assert u in s'.threads && n in s'.threads[u].mine;
      } else if n in l'.mine {
        assert t in s'.threads && n in s'.threads[t].mine;
      }
    }
  }

  lemma StoreIsGood(m: Memory, t: nat, l: Local)
    requires MemoryInv(m) && ThreadInv(m, t, l) && l.pc.UStore?
    ensures GoodStep(m, l, Step(m, t, l).0, t, Step(m, t, l).1)
  {
    hide Replay;
    assert l.node !in m.stack;
    assert Shape(Step(m, t, l).0);
  }

  lemma PushIsGood(m: Memory, t: nat, l: Local)
    requires MemoryInv(m) && ThreadInv(m, t, l) && l.pc.UCas? && m.head == l.head
    ensures GoodStep(m, l, PushCas(m, t, l).0, t, PushCas(m, t, l).1)
  {
    var (m', l') := PushCas(m, t, l);
    assert l.node !in m.stack;
    forall i | 0 <= i < |m'.stack| ensures m'.stack[i] in m'.next && m'.next[m'.stack[i]] == Link(m'.stack, i + 1) {
      if i > 0 {
        assert m'.stack[i] == m.stack[i - 1];
      }
    }
    assert m'.log[..|m'.log| - 1] == m.log;
  }

  /** No ABA: when both words still match, the successor read earlier is the stack's second node. */
  lemma PopIsGood(m: Memory, t: nat, l: Local)
    requires MemoryInv(m) && ThreadInv(m, t, l) && l.pc.PCas? && m.head == l.head && m.gen == l.gen
    ensures l.head == Link(m.stack, 0) && l.next == Link(m.stack, 1)
    ensures GoodStep(m, l, PopCas(m, t, l).0, t, PopCas(m, t, l).1)
  {
    var (m', l') := PopCas(m, t, l);
    assert l.next == m.next[m.stack[0]];
    forall i | 0 <= i < |m'.stack| ensures m'.stack[i] in m'.next && m'.next[m'.stack[i]] == Link(m'.stack, i + 1) {
      assert m'.stack[i] == m.stack[i + 1];
    }
    assert m'.log[..|m'.log| - 1] == m.log;
  }

  lemma EmptyIsGood(m: Memory, t: nat, l: Local, gen: nat)
    requires MemoryInv(m) && ThreadInv(m, t, l) && l.at == -1 && !l.pc.Idle? && gen <= m.gen
    ensures GoodStep(m, l, PopSnapshot(m, t, l, gen).0, t, PopSnapshot(m, t, l, gen).1)
  {
    var (m', l') := PopSnapshot(m, t, l, gen);
    assert m' != m ==> m'.log[..|m'.log| - 1] == m.log;
    assert Shape(m');
  }

  lemma LoadIsGood(m: Memory, t: nat, l: Local)
    requires MemoryInv(m) && ThreadInv(m, t, l) && !l.pc.UStore? && Step(m, t, l).0 == m
    ensures GoodStep(m, l, m, t, Step(m, t, l).1)
  {
    hide Replay;
  }

  lemma StepIsGood(m: Memory, t: nat, l: Local)
    requires MemoryInv(m) && ThreadInv(m, t, l)
    ensures GoodStep(m, l, Step(m, t, l).0, t, Step(m, t, l).1)
  {
    hide GoodStep, MemoryInv;
    match l.pc
    case UStore => StoreIsGood(m, t, l);
    case UCas => if m.head == l.head { PushIsGood(m, t, l); } else { LoadIsGood(m, t, l); }
    case PHead => EmptyIsGood(m, t, l, l.gen);
    case PCas =>
      if m.head == l.head && m.gen == l.gen {
        PopIsGood(m, t, l);
      } else if l.once {
        LoadIsGood(m, t, l);
      } else {
        EmptyIsGood(m, t, l, m.gen);
      }
    case _ => LoadIsGood(m, t, l);
  }

  lemma BeginIsGood(m: Memory, t: nat, l: Local, pc: Pc, once: bool, node: nat)
    requires MemoryInv(m) && ThreadInv(m, t, l) && l.pc == Idle
    requires pc == PGen || (pc == ULoad && node in l.mine)
    ensures GoodStep(m, l, m, t, Begin(l, pc, once, node, |m.log|))
  {
    hide Replay;
  }

  lemma ScribbleIsGood(m: Memory, t: nat, l: Local, node: nat, p: Ptr)
    requires MemoryInv(m) && ThreadInv(m, t, l) && l.pc == Idle && node in l.mine
    ensures GoodStep(m, l, m.(next := m.next[node := p]), t, l)
  {
    hide Replay;
    assert node !in m.stack;
    assert Shape(m.(next := m.next[node := p]));
  }

  lemma HandKeepsThreads(s: State, t: nat, u: nat, node: nat)
    requires AllThreads(s) && t in s.threads && u in s.threads && t != u && node in s.threads[t].mine
    requires s.threads[t].pc == Idle && s.threads[u].pc == Idle
    ensures AllThreads(Hand(s, t, u, node))
  {
    var s' := Hand(s, t, u, node);
    assert ThreadInv(s.mem, t, s.threads[t]);
    forall v | v in s.threads ensures ThreadInv(s'.mem, v, s'.threads[v]) {
      assert ThreadInv(s.mem, v, s.threads[v]);
    }
  }

  lemma HandKeepsInv(s: State, t: nat, u: nat, node: nat)
    requires Inv(s) && t in s.threads && u in s.threads && t != u && node in s.threads[t].mine
    requires s.threads[t].pc == Idle && s.threads[u].pc == Idle
    ensures Inv(Hand(s, t, u, node))
  {
    hide MemoryInv, AllThreads;
    HandKeepsThreads(s, t, u, node);
    var s' := Hand(s, t, u, node);
    assert NoSharing(s'.threads);
    forall n | n in s'.mem.next ensures n in s'.mem.stack || Held(s'.threads, n) {
      if n == node {
        assert u in s'.threads && n in s'.threads[u].mine;
      } else if n !in s.mem.stack {
        assert Held(s.threads, n);
        var v :| v in s.threads && n in s.threads[v].mine;
        assert v in s'.threads && n in s'.threads[v].mine;
      }
    }
  }

  lemma ClientKeepsInv(s: State, s': State, t: nat, node: nat)
    requires Inv(s) && t in s.threads && ClientStep(s, s', t, node)
    ensures Inv(s')
  {
    hide MemoryInv, NothingLost, NoSharing, GoodStep;
    var m, l := s.mem, s.threads[t];
    assert ThreadInv(m, t, l);
    if once :| s' == BeginPush(s, t, once, node) {
      BeginIsGood(m, t, l, ULoad, once, node);
      Compose(s, t, m, s'.threads[t]);
    } else if p :| s' == Scribble(s, node, p) {
      ScribbleIsGood(m, t, l, node, p);
      assert s'.threads == s.threads[t := l];
      Compose(s, t, s'.mem, l);
    } else {
      var u :| u in s.threads && u != t && s.threads[u].pc == Idle && s' == Hand(s, t, u, node);
      HandKeepsInv(s, t, u, node);
    }
  }

  lemma NextKeepsInv(s: State, s': State)
    requires Inv(s) && Next(s, s')
    ensures Inv(s')
  {
    hide MemoryInv, NothingLost, NoSharing, GoodStep;
    var t :| t in s.threads && StepOf(s, s', t);
    assert ThreadInv(s.mem, t, s.threads[t]);
    if s' == Act(s, t) {
      StepIsGood(s.mem, t, s.threads[t]);
      Compose(s, t, s'.mem, s'.threads[t]);
    } else if once :| s' == BeginPop(s, t, once) {
      BeginIsGood(s.mem, t, s.threads[t], PGen, once, 0);
      Compose(s, t, s.mem, s'.threads[t]);
    } else {
      var node :| ClientStep(s, s', t, node);
      ClientKeepsInv(s, s', t, node);
    }
  }

  lemma {:induction false} RunsKeepInv(run: seq<State>, i: nat)
    requires IsRun(run) && i < |run|
    ensures Inv(run[i])
  {
    if i == 0 {
      assert forall n <- run[0].mem.next :: Held(run[0].threads, n);
    } else {
      RunsKeepInv(run, i - 1);
      assert Next(run[i - 1], run[i - 1 + 1]);
      NextKeepsInv(run[i - 1], run[i]);
    }
  }

  // ---------------------------------------------------------------- calls and their operations

  function Who(e: Event): nat { e.who }

  function CallOf(l: Local): CkCalls.Call { CkCalls.Call(l.pc != Idle, l.start, l.at) }

  function HistoryOf(s: State): CkCalls.History<nat, Event> {
    CkCalls.History(s.mem.log, map t | t in s.threads :: CallOf(s.threads[t]))
  }

  /** A step in the middle of a call performs its operation at most once. */
  lemma StepInCall(m: Memory, t: nat, l: Local)
    requires ThreadInv(m, t, l)
    ensures CkCalls.InCall(Who, m.log, CallOf(l), Step(m, t, l).0.log, t, CallOf(Step(m, t, l).1))
  {
    hide NextOf;
  }

  lemma InCalls(s: State, s': State, t: nat)
    requires t in s.threads && s'.threads.Keys == s.threads.Keys
    requires forall u <- s.threads :: u != t ==> CallOf(s'.threads[u]) == CallOf(s.threads[u])
    requires CkCalls.InCall(Who, s.mem.log, CallOf(s.threads[t]), s'.mem.log, t, CallOf(s'.threads[t]))
    ensures CkCalls.Next(Who, HistoryOf(s), HistoryOf(s'))
  {
    var h, h' := HistoryOf(s), HistoryOf(s');
    assert h'.calls == h.calls[t := h'.calls[t]];
    assert CkCalls.StepOf(Who, h, h', t);
  }

  lemma ActInCalls(s: State, t: nat)
    requires Inv(s) && t in s.threads
    ensures CkCalls.Next(Who, HistoryOf(s), HistoryOf(Act(s, t)))
  {
    assert ThreadInv(s.mem, t, s.threads[t]);
    hide Inv, ThreadInv, HistoryOf, Step, CkCalls.Next;
    StepInCall(s.mem, t, s.threads[t]);
    InCalls(s, Act(s, t), t);
  }

  lemma ClientInCalls(s: State, s': State, t: nat, node: nat)
    requires t in s.threads && ClientStep(s, s', t, node)
    ensures CkCalls.Next(Who, HistoryOf(s), HistoryOf(s'))
  {
    hide HistoryOf, CkCalls.Next;
    InCalls(s, s', t);
  }

  lemma NextInCalls(s: State, s': State)
    requires Inv(s) && Next(s, s')
    ensures CkCalls.Next(Who, HistoryOf(s), HistoryOf(s'))
  {
    hide Inv, HistoryOf, CkCalls.Next, ClientStep;
    var t :| t in s.threads && StepOf(s, s', t);
    if s' == Act(s, t) {
      ActInCalls(s, t);
    } else if once :| s.threads[t].pc == Idle && s' == BeginPop(s, t, once) {
      InCalls(s, s', t);
    } else {
      var node :| ClientStep(s, s', t, node);
      ClientInCalls(s, s', t, node);
    }
  }

  /** A run, seen as its calls. */
  lemma RunInCalls(run: seq<State>)
    requires IsRun(run)
    ensures CkCalls.IsRun(Who, CkCalls.Histories(HistoryOf, run))
  {
    hide Inv, Next, CkCalls.Next;
    var hs := CkCalls.Histories(HistoryOf, run);
    forall i, j | 0 <= i < j == i + 1 < |hs| ensures CkCalls.Next(Who, hs[i], hs[j]) {
      RunsKeepInv(run, i);
      NextInCalls(run[i], run[i + 1]);
    }
  }

  /**
   Every run refines an atomic stack, although nodes are reused: at each instant the log is a
   legal sequential history whose result is the linked list from the head, every finished call
   returned what its own entry says, no node is lost, and none is in two places. `CallsFit` adds that the
   log only grows, that it holds exactly one operation for each call that has taken effect and none for the
   others, and that it keeps the order of calls that follow each other.
   */
  lemma EveryRunIsLinearizable(run: seq<State>, i: nat)
    requires IsRun(run) && i < |run|
    ensures Shape(run[i].mem) && Replay(run[i].mem.log) == Legal(run[i].mem.stack)
    ensures forall t <- run[i].threads :: Linearized(run[i].mem, t, run[i].threads[t])
    ensures NoSharing(run[i].threads) && NothingLost(run[i])
    ensures forall t <- run[i].threads, n <- run[i].threads[t].mine :: n !in run[i].mem.stack
    ensures CkCalls.CallsFit(Who, CkCalls.Histories(HistoryOf, run), i)
  {
    RunInCalls(run);
    CkCalls.RunsFit(Who, CkCalls.Histories(HistoryOf, run), i);
    hide CkCalls.CallsFit, CkCalls.IsRun, Next;
    RunsKeepInv(run, i);
    forall t | t in run[i].threads ensures Linearized(run[i].mem, t, run[i].threads[t]) {
      assert ThreadInv(run[i].mem, t, run[i].threads[t]);
    }
  }
}
