/**
 The multi-producer multi-consumer queue of `ck_fifo.h`: a Michael-Scott list whose
 head, tail and next words pair a pointer with a generation counter.

 Every load, store and compare-and-swap is one atomic step of one thread; any number
 of threads interleave freely. The memory fields `chain` and `log` and the thread fields
 `hpos`, `tpos`, `start` and `at` are history: no branch of the queue reads them.
 */
module CkFifo {
  import CkCalls

  datatype Ptr = Null | At(id: nat)

  /** A pointer word with its generation. */
  datatype Word = Word(ptr: Ptr, gen: nat)

  datatype Entry = Entry(value: int, next: Word)

  /** One linearized operation, with the thread that performed it. */
  datatype Event =
    | Enqueued(who: nat, value: int)
    | Dequeued(who: nat, value: int)
    | FoundEmpty(who: nat)

  /** What a finished call returned. `Lost` is a try-operation that met contention. */
  datatype Outcome = Running | Stored | Took(value: int) | WasEmpty | Lost

  /** The next access a thread makes; `E` for enqueue, `D` for dequeue. */
  datatype Pc =
    | Idle
    | ETailGen | ETailPtr | ENextGen | ENextPtr | ECheck | EForward | ELink | ESwing
    | DHeadGen | DHeadPtr | DTailGen | DTailPtr | DNextGen | DNextPtr | DForward | DValue | DCommit
    | Done

  /** The local variables of a call. `once` marks the try-variants. */
  datatype Local = Local(
    pc: Pc, once: bool, node: nat, value: int,
    head: Word, tail: Word, next: Word, outcome: Outcome,
    hpos: nat, tpos: nat, start: nat, at: int)

  /** Shared memory, and the history of it: the entries ever linked, and the operations so far. */
  datatype Memory = Memory(heap: map<nat, Entry>, head: Word, tail: Word, chain: seq<nat>, log: seq<Event>)

  datatype State = State(mem: Memory, threads: map<nat, Local>)

  const NIL := Word(Null, 0)

  function Fresh(pc: Pc, once: bool, node: nat, value: int, start: nat): Local {
    Local(pc, once, node, value, NIL, NIL, NIL, Running, 0, 0, start, -1)
  }

  ghost predicate Init(s: State, stub: nat) {
    && s.mem == Memory(map[stub := Entry(0, NIL)], Word(At(stub), 0), Word(At(stub), 0), [stub], [])
    && (forall t <- s.threads :: s.threads[t].pc == Idle)
  }

  /** A call to enqueue stores the value and a null successor in a fresh entry first. */
  function BeginEnqueue(s: State, t: nat, once: bool, node: nat, value: int): State {
    State(s.mem.(heap := s.mem.heap[node := Entry(value, NIL)]),
          s.threads[t := Fresh(ETailGen, once, node, value, |s.mem.log|)])
  }

  function BeginDequeue(s: State, t: nat, once: bool): State {
    s.(threads := s.threads[t := Fresh(DHeadGen, once, 0, 0, |s.mem.log|)])
  }

  function EntryAt(m: Memory, p: Ptr): Entry {
    if p.At? && p.id in m.heap then m.heap[p.id] else Entry(0, NIL)
  }

  /** Loop again, or give up when the call is a try-variant. */
  function Retry(l: Local, first: Pc): Local {
    if l.once then l.(pc := Done, outcome := Lost) else l.(pc := first)
  }

  /** Enqueue's steps that only read shared memory. */
  function EnqueueLoad(m: Memory, l: Local): Local {
    match l.pc
    case ETailGen => l.(pc := ETailPtr, tail := l.tail.(gen := m.tail.gen))
    case ETailPtr => l.(pc := ENextGen, tail := l.tail.(ptr := m.tail.ptr), tpos := m.tail.gen)
    case ENextGen => l.(pc := ENextPtr, next := l.next.(gen := EntryAt(m, l.tail.ptr).next.gen))
    case ENextPtr => l.(pc := ECheck, next := l.next.(ptr := EntryAt(m, l.tail.ptr).next.ptr))
    case ECheck =>
      if m.tail.gen != l.tail.gen then Retry(l, ETailGen)
      else if l.next.ptr != Null then l.(pc := EForward)
      else l.(pc := ELink)
    case _ => l
  }

  /** Dequeue's steps that only read shared memory. */
  function DequeueLoad(m: Memory, l: Local): Local {
    match l.pc
    case DHeadGen => l.(pc := DHeadPtr, head := l.head.(gen := m.head.gen))
    case DHeadPtr => l.(pc := DTailGen, head := l.head.(ptr := m.head.ptr), hpos := m.head.gen)
    case DTailGen => l.(pc := DTailPtr, tail := l.tail.(gen := m.tail.gen))
    case DTailPtr => l.(pc := DNextGen, tail := l.tail.(ptr := m.tail.ptr), tpos := m.tail.gen)
    case DNextGen => l.(pc := DNextPtr, next := l.next.(gen := EntryAt(m, l.head.ptr).next.gen))
    case DValue => l.(pc := DCommit, value := EntryAt(m, l.next.ptr).value)
    case Done => l.(pc := Idle)
    case _ => l
  }

  /** `ck_pr_cas_ptr_2` on the tail word, as all three call sites use it. */
  function CasTail(m: Memory, expected: Word, ptr: Ptr): Memory {
    if m.tail == expected then m.(tail := Word(ptr, expected.gen + 1)) else m
  }

  /** Enqueue's compare-and-swap of the last entry's next word: the enqueue takes effect here. */
  function Link(m: Memory, t: nat, l: Local): (Memory, Local) {
    if l.tail.ptr.At? && l.tail.ptr.id in m.heap && m.heap[l.tail.ptr.id].next == l.next then
      var p := l.tail.ptr.id;
      (m.(heap := m.heap[p := m.heap[p].(next := Word(At(l.node), l.next.gen + 1))],
          chain := m.chain + [l.node],
          log := m.log + [Enqueued(t, l.value)]),
       l.(pc := ESwing, at := |m.log|))
    else
      (m, Retry(l, ETailGen))
  }

  /** Dequeue's load of the head's successor and the branch on it. */
  function LoadNext(m: Memory, t: nat, l: Local): (Memory, Local) {
    var next := EntryAt(m, l.head.ptr).next.ptr;
    var l' := l.(next := l.next.(ptr := next));
    if l.head.ptr == l.tail.ptr then
      if next == Null then
        (m.(log := m.log + [FoundEmpty(t)]), l'.(pc := Done, outcome := WasEmpty, at := |m.log|))
      else
        (m, l'.(pc := DForward))
    else if next == Null then
      (m, Retry(l', DHeadGen))
    else
      (m, l'.(pc := DValue))
  }

  /** Dequeue's compare-and-swap of the head word: a successful dequeue takes effect here. */
  function Commit(m: Memory, t: nat, l: Local): (Memory, Local) {
    if m.head == l.head then
      (m.(head := Word(l.next.ptr, l.head.gen + 1), log := m.log + [Dequeued(t, l.value)]),
       l.(pc := Done, outcome := Took(l.value), at := |m.log|))
    else
      (m, Retry(l, DHeadGen))
  }

  /** The one step a thread can take in the middle of a call. */
  function Step(m: Memory, t: nat, l: Local): (Memory, Local) {
    match l.pc
    case EForward => (CasTail(m, l.tail, l.next.ptr), Retry(l, ETailGen))
    case ELink => Link(m, t, l)
    case ESwing => (CasTail(m, l.tail, At(l.node)), l.(pc := Done, outcome := Stored))
    case DNextPtr => LoadNext(m, t, l)
    case DForward => (CasTail(m, l.tail, l.next.ptr), Retry(l, DHeadGen))
    case DCommit => Commit(m, t, l)
    case _ => (m, if HoldsNode(l) then EnqueueLoad(m, l) else DequeueLoad(m, l))
  }

  function Act(s: State, t: nat): State
    requires t in s.threads
  {
    var (m, l) := Step(s.mem, t, s.threads[t]);
    State(m, s.threads[t := l])
  }

  ghost predicate StepOf(s: State, s': State, t: nat)
    requires t in s.threads
  {
    || s' == Act(s, t)
    || (s.threads[t].pc == Idle && exists once :: s' == BeginDequeue(s, t, once))
    || (s.threads[t].pc == Idle &&
        exists once, node, value :: node !in s.mem.heap && s' == BeginEnqueue(s, t, once, node, value))
  }

  ghost predicate Next(s: State, s': State) {
    exists t <- s.threads :: StepOf(s, s', t)
  }

  ghost predicate IsRun(run: seq<State>, stub: nat) {
    && |run| > 0 && Init(run[0], stub)
    && forall i :: 0 <= i < |run| - 1 ==> Next(run[i], run[i + 1])
  }

  // ---------------------------------------------------------------- the atomic queue

  datatype Queue = Legal(items: seq<int>) | Illegal

  /** Runs the log on a sequential FIFO queue. */
  function Replay(log: seq<Event>): Queue {
    if log == [] then Legal([]) else
    var q := Replay(log[..|log| - 1]);
    if q.Illegal? then Illegal else
    match log[|log| - 1]
    case Enqueued(_, v) => Legal(q.items + [v])
    case Dequeued(_, v) => if q.items != [] && q.items[0] == v then Legal(q.items[1..]) else Illegal
    case FoundEmpty(_) => if q.items == [] then q else Illegal
  }

  function Stores(log: seq<Event>): seq<int> {
    if log == [] then [] else
    Stores(log[..|log| - 1]) + if log[|log| - 1].Enqueued? then [log[|log| - 1].value] else []
  }

  function Takes(log: seq<Event>): seq<int> {
    if log == [] then [] else
    Takes(log[..|log| - 1]) + if log[|log| - 1].Dequeued? then [log[|log| - 1].value] else []
  }

  /** A legal log dequeues the enqueued values in order, each once; the rest is still queued. */
  lemma {:induction false} LegalLogsAreFifo(log: seq<Event>)
    requires Replay(log).Legal?
    ensures Stores(log) == Takes(log) + Replay(log).items
  {
    if log != [] {
      LegalLogsAreFifo(log[..|log| - 1]);
    }
  }

  // ---------------------------------------------------------------- the invariant

  /** What the generations mean: head and tail are the entries at those positions of the chain. */
  ghost predicate Shape(m: Memory) {
    && m.head.gen <= m.tail.gen < |m.chain| <= m.tail.gen + 2
    && (forall i :: 0 <= i < |m.chain| ==> m.chain[i] in m.heap)
    && (forall i, j :: 0 <= i < j < |m.chain| ==> m.chain[i] != m.chain[j])
    && (forall i, j :: 0 <= i < j == i + 1 < |m.chain| ==> m.heap[m.chain[i]].next == Word(At(m.chain[j]), 1))
    && m.heap[m.chain[|m.chain| - 1]].next == NIL
    && m.head.ptr == At(m.chain[m.head.gen])
    && m.tail.ptr == At(m.chain[m.tail.gen])
  }

  /** The values behind the head entry, oldest first. */
  ghost function Contents(m: Memory): seq<int>
    requires Shape(m)
  {
    seq(|m.chain| - 1 - m.head.gen,
      i requires 0 <= i < |m.chain| - 1 - m.head.gen => m.heap[m.chain[m.head.gen + 1 + i]].value)
  }

  ghost predicate MemoryInv(m: Memory) {
    Shape(m) && Replay(m.log) == Legal(Contents(m))
  }

  /** An enqueue that has not linked its entry yet. */
  predicate HoldsNode(l: Local) {
    || l.pc.ETailGen? || l.pc.ETailPtr? || l.pc.ENextGen? || l.pc.ENextPtr?
    || l.pc.ECheck? || l.pc.EForward? || l.pc.ELink?
  }

  ghost predicate OwnsNode(m: Memory, l: Local) {
    l.at == -1 && l.node in m.heap && m.heap[l.node] == Entry(l.value, NIL) && l.node !in m.chain
  }

  /** The snapshot `w` was taken at position `pos` of the chain, no earlier than its generation. */
  ghost predicate Snapshot(m: Memory, w: Word, pos: nat, now: nat) {
    w.gen <= pos <= now && pos < |m.chain| && w.ptr == At(m.chain[pos])
  }

  /** `p`, read from the next word of the entry at `pos`, is not null. */
  ghost predicate Successor(m: Memory, p: Ptr, pos: nat) {
    pos + 1 < |m.chain| && p == At(m.chain[pos + 1]) && p.id in m.heap
  }

  ghost predicate BothSnapshots(m: Memory, l: Local) {
    && l.at == -1 && l.hpos <= l.tpos
    && Snapshot(m, l.head, l.hpos, m.head.gen) && Snapshot(m, l.tail, l.tpos, m.tail.gen)
  }

  ghost predicate InLog(m: Memory, l: Local, e: Event) {
    l.start <= l.at < |m.log| && m.log[l.at] == e
  }

  /**
   Linearizability of one finished call: its operation stands in the log, at a moment between
   the call's start and its end, with the outcome it returned; a try-call may also give up.
   */
  ghost predicate Linearized(m: Memory, t: nat, l: Local) {
    l.pc == Done ==>
      match l.outcome
      case Stored => InLog(m, l, Enqueued(t, l.value))
      case Took(v) => InLog(m, l, Dequeued(t, v))
      case WasEmpty => InLog(m, l, FoundEmpty(t))
      case Lost => l.once && l.at == -1
      case Running => false
  }

  /** What an enqueue knows before it has linked its entry. */
  ghost predicate EnqueueInv(m: Memory, l: Local) {
    && OwnsNode(m, l)
    && (l.pc.ETailPtr? ==> l.tail.gen <= m.tail.gen)
    && (!l.pc.ETailGen? && !l.pc.ETailPtr? ==> Snapshot(m, l.tail, l.tpos, m.tail.gen))
    && (l.pc.ENextPtr? ==> l.next.gen == 0 || l.tpos + 1 < |m.chain|)
    && (l.pc.ECheck? ==> l.next == NIL || Successor(m, l.next.ptr, l.tpos))
    && (l.pc.EForward? ==> Successor(m, l.next.ptr, l.tpos))
    && (l.pc.ELink? ==> l.next == NIL)
  }

  ghost predicate DequeueInv(m: Memory, t: nat, l: Local) {
    match l.pc
    case ESwing => InLog(m, l, Enqueued(t, l.value)) && Snapshot(m, l.tail, l.tpos, m.tail.gen)
      && Successor(m, At(l.node), l.tpos)
    case DHeadGen => l.at == -1
    case DHeadPtr => l.at == -1 && l.head.gen <= m.head.gen
    case DTailGen => l.at == -1 && Snapshot(m, l.head, l.hpos, m.head.gen)
    case DTailPtr => l.at == -1 && Snapshot(m, l.head, l.hpos, m.head.gen) && l.tail.gen <= m.tail.gen
    case DNextGen => BothSnapshots(m, l)
    case DNextPtr => BothSnapshots(m, l)
    case DForward => BothSnapshots(m, l) && Successor(m, l.next.ptr, l.hpos) && l.hpos == l.tpos
    case DValue => BothSnapshots(m, l) && Successor(m, l.next.ptr, l.hpos) && l.hpos < l.tpos
    case DCommit => BothSnapshots(m, l) && Successor(m, l.next.ptr, l.hpos) && l.hpos < l.tpos
      && l.value == EntryAt(m, l.next.ptr).value
    case Done => Linearized(m, t, l)
    case _ => true
  }

  /** What a thread knows at each point of its call. */
  ghost predicate ThreadInv(m: Memory, t: nat, l: Local) {
    && (l.pc == Idle || l.start <= |m.log|)
    && if HoldsNode(l) then EnqueueInv(m, l) else DequeueInv(m, t, l)
  }

  ghost predicate SeparateNodes(threads: map<nat, Local>) {
    forall t, u :: t in threads && u in threads && t != u && HoldsNode(threads[t]) && HoldsNode(threads[u]) ==>
      threads[t].node != threads[u].node
  }

  ghost predicate AllThreads(s: State) {
    forall t <- s.threads :: ThreadInv(s.mem, t, s.threads[t])
  }

  ghost predicate Inv(s: State) {
    MemoryInv(s.mem) && AllThreads(s) && SeparateNodes(s.threads)
  }

  /** How shared memory may change under the other threads' feet. */
  ghost predicate Grows(m: Memory, m': Memory) {
    && m.chain <= m'.chain && m.log <= m'.log
    && m.head.gen <= m'.head.gen && m.tail.gen <= m'.tail.gen
    && (forall p :: p in m.heap ==> p in m'.heap && m'.heap[p].value == m.heap[p].value)
    && (forall p :: p in m.heap && p !in m.chain ==> m'.heap[p] == m.heap[p])
  }

  lemma Undisturbed(m: Memory, m': Memory, t: nat, l: Local)
    requires Grows(m, m') && ThreadInv(m, t, l)
    requires HoldsNode(l) ==> l.node !in m'.chain
    ensures ThreadInv(m', t, l)
  {
  }

  /** A step of thread `t` keeps the threads' knowledge if it does so for `t` itself. */
  lemma Compose(s: State, s': State, t: nat, l': Local)
    requires AllThreads(s) && SeparateNodes(s.threads) && t in s.threads && Grows(s.mem, s'.mem)
    requires s'.threads == s.threads[t := l']
    requires s'.mem.chain == s.mem.chain
             || (HoldsNode(s.threads[t]) && !HoldsNode(l') && s'.mem.chain == s.mem.chain + [s.threads[t].node])
    requires ThreadInv(s'.mem, t, l')
    requires HoldsNode(l') ==> (HoldsNode(s.threads[t]) && l'.node == s.threads[t].node) || l'.node !in s.mem.heap
    ensures AllThreads(s') && SeparateNodes(s'.threads)
  {
    forall u | u in s'.threads ensures ThreadInv(s'.mem, u, s'.threads[u]) {
      if u != t {
        assert ThreadInv(s.mem, u, s.threads[u]);
        Undisturbed(s.mem, s'.mem, u, s.threads[u]);
      }
    }
  }

  /** `m'` continues `m` with a thread at `l'`: what one step must establish. */
  ghost predicate GoodStep(m: Memory, l: Local, m': Memory, t: nat, l': Local) {
    && MemoryInv(m') && Grows(m, m') && ThreadInv(m', t, l')
    && (m'.chain == m.chain || (HoldsNode(l) && !HoldsNode(l') && m'.chain == m.chain + [l.node]))
    && (HoldsNode(l') ==> HoldsNode(l) && l'.node == l.node)
  }

  /** What a load of the head or tail word, or of a next word, can return. */
  lemma CurrentWords(m: Memory)
    requires MemoryInv(m)
    ensures Snapshot(m, m.head, m.head.gen, m.head.gen) && Snapshot(m, m.tail, m.tail.gen, m.tail.gen)
    ensures m.head.gen <= m.tail.gen
  {
  }

  lemma NextOf(m: Memory, w: Word, pos: nat, now: nat)
    requires MemoryInv(m) && Snapshot(m, w, pos, now)
    ensures EntryAt(m, w.ptr).next == NIL || (pos + 1 < |m.chain| && Successor(m, EntryAt(m, w.ptr).next.ptr, pos))
    ensures pos + 1 < |m.chain| ==> EntryAt(m, w.ptr).next != NIL
  {
    NullIsLast(m, pos);
    if pos + 1 < |m.chain| {
      assert m.heap[m.chain[pos]].next.ptr == At(m.chain[pos + 1]);
    }
  }

  lemma EnqueueLoadIsGood(m: Memory, t: nat, l: Local)
    requires MemoryInv(m) && ThreadInv(m, t, l) && HoldsNode(l)
    ensures GoodStep(m, l, m, t, EnqueueLoad(m, l))
  {
    hide MemoryInv;
    CurrentWords(m);
    if l.pc.ENextGen? || l.pc.ENextPtr? {
      NextOf(m, l.tail, l.tpos, m.tail.gen);
    }
  }

  lemma DequeueLoadIsGood(m: Memory, t: nat, l: Local)
    requires MemoryInv(m) && ThreadInv(m, t, l) && !HoldsNode(l)
    ensures GoodStep(m, l, m, t, DequeueLoad(m, l))
  {
    hide MemoryInv, Successor;
    CurrentWords(m);
  }

  lemma CasTailGrows(m: Memory, expected: Word, pos: nat, ptr: Ptr)
    requires MemoryInv(m) && Snapshot(m, expected, pos, m.tail.gen) && Successor(m, ptr, pos)
    ensures Grows(m, CasTail(m, expected, ptr)) && MemoryInv(CasTail(m, expected, ptr))
  {
    var m' := CasTail(m, expected, ptr);
    assert Shape(m');
    assert Contents(m') == Contents(m);
  }

  lemma ForwardIsGood(m: Memory, t: nat, l: Local)
    requires MemoryInv(m) && ThreadInv(m, t, l) && l.pc.EForward?
    ensures GoodStep(m, l, Step(m, t, l).0, t, Step(m, t, l).1)
  {
    hide MemoryInv, Grows, Snapshot, Successor;
    CasTailGrows(m, l.tail, l.tpos, l.next.ptr);
  }

  lemma SwingIsGood(m: Memory, t: nat, l: Local)
    requires MemoryInv(m) && ThreadInv(m, t, l) && l.pc.ESwing?
    ensures GoodStep(m, l, Step(m, t, l).0, t, Step(m, t, l).1)
  {
    hide MemoryInv, Grows, Snapshot, Successor;
    CasTailGrows(m, l.tail, l.tpos, At(l.node));
  }

  lemma DequeueForwardIsGood(m: Memory, t: nat, l: Local)
    requires MemoryInv(m) && ThreadInv(m, t, l) && l.pc.DForward?
    ensures GoodStep(m, l, Step(m, t, l).0, t, Step(m, t, l).1)
  {
    hide MemoryInv, Grows, Snapshot, Successor;
    CasTailGrows(m, l.tail, l.tpos, l.next.ptr);
  }

  /** A next word is null only at the end of the chain. */
  lemma NullIsLast(m: Memory, pos: nat)
    requires Shape(m) && pos < |m.chain|
    ensures m.heap[m.chain[pos]].next.ptr == Null <==> pos == |m.chain| - 1
  {
    if pos < |m.chain| - 1 {
      assert m.heap[m.chain[pos]].next.ptr == At(m.chain[pos + 1]);
    }
  }

  lemma LinkKeepsShape(m: Memory, t: nat, l: Local)
    requires MemoryInv(m) && EnqueueInv(m, l) && l.pc.ELink? && Link(m, t, l).1.pc.ESwing?
    ensures l.tpos == |m.chain| - 1 == m.tail.gen
    ensures Grows(m, Link(m, t, l).0) && Shape(Link(m, t, l).0)
  {
    hide Replay, Contents;
    NullIsLast(m, l.tpos);
    LastIsTail(m, l);
    LinkedShape(m, t, l);
  }

  lemma LastIsTail(m: Memory, l: Local)
    requires Shape(m) && EnqueueInv(m, l) && l.pc.ELink? && l.tpos == |m.chain| - 1
    ensures l.tpos == m.tail.gen
  {
  }

  lemma LinkedShape(m: Memory, t: nat, l: Local)
    requires Shape(m) && EnqueueInv(m, l) && l.pc.ELink? && Link(m, t, l).1.pc.ESwing?
             && l.tpos == |m.chain| - 1 == m.tail.gen
    ensures Shape(Link(m, t, l).0)
  {
  }

  lemma LinkAtTheEnd(m: Memory, t: nat, l: Local)
    requires MemoryInv(m) && EnqueueInv(m, l) && l.pc.ELink? && Link(m, t, l).1.pc.ESwing?
    ensures MemoryInv(Link(m, t, l).0)
  {
    LinkKeepsShape(m, t, l);
    LinkAppends(m, t, l);
    hide Shape, Contents, EnqueueInv, Grows;
    var m' := Link(m, t, l).0;
    assert m'.log[..|m'.log| - 1] == m.log;
  }

  lemma LinkAppends(m: Memory, t: nat, l: Local)
    requires MemoryInv(m) && EnqueueInv(m, l) && l.pc.ELink? && Link(m, t, l).1.pc.ESwing? && Shape(Link(m, t, l).0)
    ensures Contents(Link(m, t, l).0) == Contents(m) + [l.value]
  {
    hide Replay;
  }

  lemma LinkIsGood(m: Memory, t: nat, l: Local)
    requires MemoryInv(m) && ThreadInv(m, t, l) && l.pc.ELink?
    ensures GoodStep(m, l, Link(m, t, l).0, t, Link(m, t, l).1)
  {
    hide MemoryInv;
    if Link(m, t, l).1.pc.ESwing? {
      LinkKeepsShape(m, t, l);
      LinkAtTheEnd(m, t, l);
    }
  }

  /** Reading a null successor of the head proves the queue empty at that instant. */
  lemma NullMeansEmpty(m: Memory, l: Local)
    requires MemoryInv(m) && BothSnapshots(m, l) && EntryAt(m, l.head.ptr).next.ptr == Null
    ensures Shape(m) && Contents(m) == []
  {
    NullIsLast(m, l.hpos);
  }

  lemma FoundEmptyKeepsInv(m: Memory, t: nat)
    requires MemoryInv(m) && Shape(m) && Contents(m) == []
    ensures MemoryInv(m.(log := m.log + [FoundEmpty(t)]))
  {
    var m' := m.(log := m.log + [FoundEmpty(t)]);
    assert Shape(m') && Contents(m') == Contents(m);
    assert m'.log[..|m'.log| - 1] == m.log;
  }

  lemma LoadNextIsGood(m: Memory, t: nat, l: Local)
    requires MemoryInv(m) && ThreadInv(m, t, l) && l.pc.DNextPtr?
    ensures GoodStep(m, l, LoadNext(m, t, l).0, t, LoadNext(m, t, l).1)
  {
    hide MemoryInv, Snapshot, Successor;
    NextOf(m, l.head, l.hpos, m.head.gen);
    if EntryAt(m, l.head.ptr).next.ptr == Null {
      NullMeansEmpty(m, l);
      FoundEmptyKeepsInv(m, t);
    } else if l.head.ptr == l.tail.ptr {
      SamePosition(m, l);
    } else {
      DifferentPosition(m, l);
    }
  }

  lemma SamePosition(m: Memory, l: Local)
    requires MemoryInv(m) && BothSnapshots(m, l) && l.head.ptr == l.tail.ptr
    ensures l.hpos == l.tpos
  {
  }

  lemma DifferentPosition(m: Memory, l: Local)
    requires BothSnapshots(m, l) && l.head.ptr != l.tail.ptr
    ensures l.hpos < l.tpos
  {
  }

  lemma CommitTakesTheFirst(m: Memory, t: nat, l: Local)
    requires MemoryInv(m) && l.pc.DCommit? && DequeueInv(m, t, l) && m.head == l.head
    ensures Grows(m, Commit(m, t, l).0) && MemoryInv(Commit(m, t, l).0)
  {
    CommitMovesHead(m, t, l);
    hide Shape, Contents, DequeueInv, Grows;
    var m' := Commit(m, t, l).0;
    assert m'.log[..|m'.log| - 1] == m.log;
  }

  lemma CommitMovesHead(m: Memory, t: nat, l: Local)
    requires MemoryInv(m) && l.pc.DCommit? && DequeueInv(m, t, l) && m.head == l.head
    ensures Grows(m, Commit(m, t, l).0) && Shape(Commit(m, t, l).0)
            && Contents(m) == [l.value] + Contents(Commit(m, t, l).0)
  {
    hide Replay;
    assert l.hpos == m.head.gen;
    CommitShape(m, t, l);
    var m' := Commit(m, t, l).0;
    hide Shape;
    CommitContents(m, m', l);
  }

  lemma CommitShape(m: Memory, t: nat, l: Local)
    requires Shape(m) && l.pc.DCommit? && DequeueInv(m, t, l) && m.head == l.head && l.hpos == m.head.gen
    ensures Shape(Commit(m, t, l).0) && Grows(m, Commit(m, t, l).0)
  {
    hide Contents;
  }

  lemma CommitContents(m: Memory, m': Memory, l: Local)
    requires Shape(m) && Shape(m') && m'.chain == m.chain && m'.heap == m.heap && m'.head.gen == m.head.gen + 1
    requires m.head.gen + 1 < |m.chain| && m.chain[m.head.gen + 1] in m.heap
             && l.value == m.heap[m.chain[m.head.gen + 1]].value
    ensures Contents(m) == [l.value] + Contents(m')
  {
    var a, b := Contents(m), [l.value] + Contents(m');
    assert |a| == |b|;
    forall i | 0 <= i < |a| ensures a[i] == b[i] {}
  }

  lemma CommitIsGood(m: Memory, t: nat, l: Local)
    requires MemoryInv(m) && ThreadInv(m, t, l) && l.pc.DCommit?
    ensures GoodStep(m, l, Commit(m, t, l).0, t, Commit(m, t, l).1)
  {
    hide MemoryInv, Snapshot, Successor;
    if m.head == l.head {
      CommitTakesTheFirst(m, t, l);
    }
  }

  lemma StepIsGood(m: Memory, t: nat, l: Local)
    requires MemoryInv(m) && ThreadInv(m, t, l)
    ensures GoodStep(m, l, Step(m, t, l).0, t, Step(m, t, l).1)
  {
    hide ThreadInv, MemoryInv, GoodStep;
    match l.pc
    case EForward => ForwardIsGood(m, t, l);
    case ESwing => SwingIsGood(m, t, l);
    case DForward => DequeueForwardIsGood(m, t, l);
    case ELink => LinkIsGood(m, t, l);
    case DNextPtr => LoadNextIsGood(m, t, l);
    case DCommit => CommitIsGood(m, t, l);
    case _ =>
      if HoldsNode(l) {
        EnqueueLoadIsGood(m, t, l);
      } else {
        DequeueLoadIsGood(m, t, l);
      }
  }

  lemma ActKeepsInv(s: State, t: nat)
    requires Inv(s) && t in s.threads
    ensures Inv(Act(s, t))
  {
    assert ThreadInv(s.mem, t, s.threads[t]);
    StepIsGood(s.mem, t, s.threads[t]);
    Compose(s, Act(s, t), t, Step(s.mem, t, s.threads[t]).1);
  }

  lemma BeginDequeueKeepsInv(s: State, t: nat, once: bool)
    requires Inv(s) && t in s.threads && s.threads[t].pc == Idle
    ensures Inv(BeginDequeue(s, t, once))
  {
    hide MemoryInv;
    var s' := BeginDequeue(s, t, once);
    Compose(s, s', t, s'.threads[t]);
  }

  lemma AllocationKeepsMemory(m: Memory, node: nat, value: int)
    requires MemoryInv(m) && node !in m.heap
    ensures var m' := m.(heap := m.heap[node := Entry(value, NIL)]); MemoryInv(m') && Grows(m, m')
  {
    var m' := m.(heap := m.heap[node := Entry(value, NIL)]);
    assert Shape(m') && Contents(m') == Contents(m);
  }

  lemma BeginEnqueueKeepsInv(s: State, t: nat, once: bool, node: nat, value: int)
    requires Inv(s) && t in s.threads && s.threads[t].pc == Idle && node !in s.mem.heap
    ensures Inv(BeginEnqueue(s, t, once, node, value))
  {
    var s' := BeginEnqueue(s, t, once, node, value);
    AllocationKeepsMemory(s.mem, node, value);
    assert node !in s.mem.chain;
    hide MemoryInv;
    Compose(s, s', t, s'.threads[t]);
  }

  lemma NextKeepsInv(s: State, s': State)
    requires Inv(s) && Next(s, s')
    ensures Inv(s')
  {
    var t :| t in s.threads && StepOf(s, s', t);
    if s' == Act(s, t) {
      ActKeepsInv(s, t);
    } else if once :| s' == BeginDequeue(s, t, once) {
      BeginDequeueKeepsInv(s, t, once);
    } else {
      var once, node, value :| node !in s.mem.heap && s' == BeginEnqueue(s, t, once, node, value);
      BeginEnqueueKeepsInv(s, t, once, node, value);
    }
  }

  lemma {:induction false} RunsKeepInv(run: seq<State>, stub: nat, i: nat)
    requires IsRun(run, stub) && i < |run|
    ensures Inv(run[i])
  {
    if i > 0 {
      RunsKeepInv(run, stub, i - 1);
      assert Next(run[i - 1], run[i - 1 + 1]);
      NextKeepsInv(run[i - 1], run[i]);
    }
  }

  // ---------------------------------------------------------------- calls and their operations

  function Who(e: Event): nat { e.who }

  function CallOf(l: Local): CkCalls.Call { CkCalls.Call(l.pc != Idle, l.start, l.at) }

  function HistoryOf(s: State): CkCalls.History<nat, Event> {
    CkCalls.History(s.mem.log, map t | t in s.threads :: CallOf(s.threads[t]))
  }

  /** A step in the middle of a call performs its operation at most once. */
  lemma StepInCall(m: Memory, t: nat, l: Local)
    requires ThreadInv(m, t, l)
    ensures CkCalls.InCall(Who, m.log, CallOf(l), Step(m, t, l).0.log, t, CallOf(Step(m, t, l).1))
  {
    hide Snapshot, Successor, EntryAt;
  }

  lemma InCalls(s: State, s': State, t: nat)
    requires t in s.threads && t in s'.threads && s'.threads == s.threads[t := s'.threads[t]]
    requires CkCalls.InCall(Who, s.mem.log, CallOf(s.threads[t]), s'.mem.log, t, CallOf(s'.threads[t]))
    ensures CkCalls.Next(Who, HistoryOf(s), HistoryOf(s'))
  {
    var h, h' := HistoryOf(s), HistoryOf(s');
    assert h'.calls == h.calls[t := h'.calls[t]];
    assert CkCalls.StepOf(Who, h, h', t);
  }

  lemma NextInCalls(s: State, s': State)
    requires Inv(s) && Next(s, s')
    ensures CkCalls.Next(Who, HistoryOf(s), HistoryOf(s'))
  {
    var t :| t in s.threads && StepOf(s, s', t);
    assert ThreadInv(s.mem, t, s.threads[t]);
    hide Inv, ThreadInv, HistoryOf, Step, CkCalls.Next;
    if s' == Act(s, t) {
      StepInCall(s.mem, t, s.threads[t]);
    }
    InCalls(s, s', t);
  }

  /** A run, seen as its calls. */
  lemma RunInCalls(run: seq<State>, stub: nat)
    requires IsRun(run, stub)
    ensures CkCalls.IsRun(Who, CkCalls.Histories(HistoryOf, run))
  {
    hide Inv, Next, CkCalls.Next;
    var hs := CkCalls.Histories(HistoryOf, run);
    forall i, j | 0 <= i < j == i + 1 < |hs| ensures CkCalls.Next(Who, hs[i], hs[j]) {
      RunsKeepInv(run, stub, i);
      NextInCalls(run[i], run[i + 1]);
    }
  }

  /**
   Every run is linearizable to an atomic FIFO queue: at each instant the log is a legal
   sequential history whose result is the queue's contents, every finished call returned what its
   own entry in the log says and that entry was made after the call began, the values come
   out in the order they went in, each once, and the tail lags the last entry by at most one.
   `CallsFit` adds that the log only grows, that it holds exactly one operation for each call that has
   taken effect and none for the others, and that it keeps the order of calls that follow each other.
   */
  lemma EveryRunIsLinearizable(run: seq<State>, stub: nat, i: nat)
    requires IsRun(run, stub) && i < |run|
    ensures var m := run[i].mem;
            && Shape(m) && Replay(m.log) == Legal(Contents(m))
            && (forall t <- run[i].threads :: Linearized(m, t, run[i].threads[t]))
            && Stores(m.log) == Takes(m.log) + Contents(m)
            && m.head.gen <= m.tail.gen && |m.chain| - 2 <= m.tail.gen < |m.chain|
    ensures CkCalls.CallsFit(Who, CkCalls.Histories(HistoryOf, run), i)
  {
    RunInCalls(run, stub);
    CkCalls.RunsFit(Who, CkCalls.Histories(HistoryOf, run), i);
    hide CkCalls.CallsFit, CkCalls.IsRun, Next;
    RunsKeepInv(run, stub, i);
    LegalLogsAreFifo(run[i].mem.log);
    forall t | t in run[i].threads ensures Linearized(run[i].mem, t, run[i].threads[t]) {
      assert ThreadInv(run[i].mem, t, run[i].threads[t]);
    }
  }
}
