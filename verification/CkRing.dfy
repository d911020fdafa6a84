/**
 The ring buffer of `ck_ring.h` with one producer and any number of consumers
 (`_ck_ring_enqueue_spsc`, `_ck_ring_trydequeue_spmc`, `_ck_ring_dequeue_spmc`).

 An element is `width` words; the producer stores it and a consumer copies it one word per
 step, so a copy can race with a store into the same slot. Counters are unbounded. The memory
 fields `items` and `log` and the fields `start` and `at` of a call are history.
 */
module CkRing {
  import opened Arith
  import CkCalls

  type Item = seq<int>

  datatype Event =
    | Enqueued(item: Item)
    | FoundFull
    | Dequeued(who: nat, item: Item)
    | FoundEmpty(who: nat)

  datatype Memory = Memory(
    size: nat, width: nat, buffer: seq<Item>, head: nat, tail: nat,
    items: seq<Item>, log: seq<Event>)

  datatype ProducerPc = PIdle | PLoad | PWrite | PPublish | PDone

  datatype Producer = Producer(pc: ProducerPc, item: Item, head: nat, i: nat, stored: bool, start: nat, at: int)

  datatype ConsumerPc = CIdle | CLoadHead | CLoadTail | CCopy | CCas | CDone

  datatype Outcome = Running | Took | WasEmpty | Lost

  /** `once` marks `trydequeue`, which gives up when its compare-and-swap fails. */
  datatype Consumer = Consumer(pc: ConsumerPc, once: bool, head: nat, tail: nat, data: Item, outcome: Outcome,
                               start: nat, at: int)

  datatype State = State(mem: Memory, producer: Producer, consumers: map<nat, Consumer>)

  /** The slot of a counter; the size is a power of two and the source masks with `size - 1`. */
  function Slot(size: nat, counter: nat): (r: nat)
    requires size > 0
    ensures r < size
  {
    counter % size
  }

  lemma SlotIsMask(k: nat, counter: nat)
    ensures BitAnd(counter, Pow2(k) - 1) == Slot(Pow2(k), counter)
  {
    MaskIsMod(counter, k);
  }

  ghost predicate Init(s: State) {
    && s.mem.size > 0 && |s.mem.buffer| == s.mem.size
    && (forall i :: 0 <= i < s.mem.size ==> |s.mem.buffer[i]| == s.mem.width)
    && s.mem.head == s.mem.tail == 0 && s.mem.items == [] && s.mem.log == []
    && s.producer.pc == PIdle
    && (forall t <- s.consumers :: s.consumers[t].pc == CIdle)
  }

  /** The producer's steps: fullness is tested against a head that may be stale by now. */
  function Produce(m: Memory, p: Producer): (Memory, Producer)
    requires m.size > 0 && |m.buffer| == m.size
  {
    match p.pc
    case PLoad =>
      if Slot(m.size, m.tail + 1) == Slot(m.size, m.head) then
        (m.(log := m.log + [FoundFull]), p.(pc := PDone, stored := false, head := m.head, at := |m.log|))
      else
        (m, p.(pc := if m.width == 0 then PPublish else PWrite, head := m.head, i := 0))
    case PWrite =>
      var k := Slot(m.size, m.tail);
      if p.i < |p.item| && p.i < |m.buffer[k]| then
        (m.(buffer := m.buffer[k := m.buffer[k][p.i := p.item[p.i]]]),
         p.(i := p.i + 1, pc := if p.i + 1 == m.width then PPublish else PWrite))
      else (m, p)
    case PPublish =>
      (m.(tail := m.tail + 1, items := m.items + [p.item], log := m.log + [Enqueued(p.item)]),
       p.(pc := PDone, stored := true, at := |m.log|))
    case PDone => (m, p.(pc := PIdle))
    case PIdle => (m, p)
  }

  function Consume(m: Memory, t: nat, c: Consumer): (Memory, Consumer)
    requires m.size > 0 && |m.buffer| == m.size
  {
    match c.pc
    case CLoadHead => (m, c.(pc := CLoadTail, head := m.head))
    case CLoadTail =>
      if c.head == m.tail then
        (m.(log := m.log + [FoundEmpty(t)]), c.(pc := CDone, outcome := WasEmpty, tail := m.tail, at := |m.log|))
      else
        (m, c.(pc := if m.width == 0 then CCas else CCopy, tail := m.tail, data := []))
    case CCopy =>
      var slot := m.buffer[Slot(m.size, c.head)];
      if |c.data| < |slot| then
        (m, c.(data := c.data + [slot[|c.data|]], pc := if |c.data| + 1 == m.width then CCas else CCopy))
      else (m, c)
    case CCas =>
      if m.head == c.head then
        (m.(head := m.head + 1, log := m.log + [Dequeued(t, c.data)]), c.(pc := CDone, outcome := Took, at := |m.log|))
      else if c.once then
        (m, c.(pc := CDone, outcome := Lost))
      else
        (m, c.(pc := CLoadTail, head := m.head))
    case CDone => (m, c.(pc := CIdle))
    case CIdle => (m, c)
  }

  function BeginEnqueue(s: State, item: Item): State {
    s.(producer := Producer(PLoad, item, 0, 0, false, |s.mem.log|, -1))
  }

  function BeginDequeue(s: State, t: nat, once: bool): State {
    s.(consumers := s.consumers[t := Consumer(CLoadHead, once, 0, 0, [], Running, |s.mem.log|, -1)])
  }

  ghost predicate ProducerStep(s: State, s': State)
    requires s.mem.size > 0 && |s.mem.buffer| == s.mem.size
  {
    || s' == s.(mem := Produce(s.mem, s.producer).0, producer := Produce(s.mem, s.producer).1)
    || (s.producer.pc == PIdle && exists item: Item :: |item| == s.mem.width && s' == BeginEnqueue(s, item))
  }

  ghost predicate ConsumerStep(s: State, s': State, t: nat)
    requires s.mem.size > 0 && |s.mem.buffer| == s.mem.size && t in s.consumers
  {
    var c := s.consumers[t];
    || s' == s.(mem := Consume(s.mem, t, c).0, consumers := s.consumers[t := Consume(s.mem, t, c).1])
    || (c.pc == CIdle && exists once :: s' == BeginDequeue(s, t, once))
  }

  ghost predicate Next(s: State, s': State) {
    && s.mem.size > 0 && |s.mem.buffer| == s.mem.size
    && (ProducerStep(s, s') || exists t <- s.consumers :: ConsumerStep(s, s', t))
  }

  ghost predicate IsRun(run: seq<State>) {
    && |run| > 0 && Init(run[0])
    && forall i :: 0 <= i < |run| - 1 ==> Next(run[i], run[i + 1])
  }

  // ---------------------------------------------------------------- the atomic bounded queue

  datatype Queue = Legal(items: seq<Item>) | Illegal

  /** Runs the log on a sequential queue that holds at most `size - 1` items. */
  function Replay(size: nat, log: seq<Event>): Queue {
    if log == [] then Legal([]) else
    var q := Replay(size, log[..|log| - 1]);
    if q.Illegal? then Illegal else
    match log[|log| - 1]
    case Enqueued(v) => if |q.items| + 1 < size then Legal(q.items + [v]) else Illegal
    case FoundFull => if |q.items| + 1 == size then q else Illegal
    case Dequeued(_, v) => if q.items != [] && q.items[0] == v then Legal(q.items[1..]) else Illegal
    case FoundEmpty(_) => if q.items == [] then q else Illegal
  }

  function Taken(log: seq<Event>): seq<Item> {
    if log == [] then [] else
    Taken(log[..|log| - 1]) + if log[|log| - 1].Dequeued? then [log[|log| - 1].item] else []
  }

  // ---------------------------------------------------------------- the invariant

  /** The live counters, each naming a slot that still holds its item. */
  ghost predicate Shape(m: Memory) {
    && m.size > 0 && |m.buffer| == m.size
    && (forall i :: 0 <= i < m.size ==> |m.buffer[i]| == m.width)
    && m.head <= m.tail == |m.items| && m.tail - m.head < m.size
    && (forall k :: m.head <= k < m.tail ==> m.buffer[Slot(m.size, k)] == m.items[k])
  }

  ghost predicate MemoryInv(m: Memory) {
    && Shape(m)
    && Replay(m.size, m.log) == Legal(m.items[m.head..])
    && Taken(m.log) == m.items[..m.head]
  }

  ghost predicate InLog(m: Memory, start: nat, at: int, e: Event) {
    start <= at < |m.log| && m.log[at] == e
  }

  /** A slot ahead of the tail is free as long as the producer is storing into it. */
  ghost predicate ProducerInv(m: Memory, p: Producer)
    requires Shape(m)
  {
    p.pc != PIdle ==>
    && p.start <= |m.log| && |p.item| == m.width
    && match p.pc
       case PLoad => p.at == -1
       case PWrite => p.at == -1 && m.tail + 1 - m.head < m.size && p.i < m.width
         && m.buffer[Slot(m.size, m.tail)][..p.i] == p.item[..p.i]
       case PPublish => p.at == -1 && m.tail + 1 - m.head < m.size && m.buffer[Slot(m.size, m.tail)] == p.item
       case PDone => InLog(m, p.start, p.at, if p.stored then Enqueued(p.item) else FoundFull)
       case PIdle => true
  }

  /** While the head has not moved past the snapshot, the words copied so far are the item's own. */
  ghost predicate ConsumerInv(m: Memory, t: nat, c: Consumer)
    requires Shape(m)
  {
    c.pc != CIdle ==>
    && c.start <= |m.log|
    && match c.pc
       case CLoadHead => c.at == -1
       case CLoadTail => c.at == -1 && c.head <= m.head
       case CCopy => c.at == -1 && c.head <= m.head && c.head < c.tail <= m.tail && |c.data| < m.width
         && (c.head == m.head ==> c.data <= m.items[c.head])
       case CCas => c.at == -1 && c.head <= m.head && c.head < c.tail <= m.tail && |c.data| == m.width
         && (c.head == m.head ==> c.data == m.items[c.head])
       case CDone => Linearized(m, t, c)
       case CIdle => true
  }

  /** A finished dequeue returned what its own entry in the log says, or is a try that gave up. */
  ghost predicate Linearized(m: Memory, t: nat, c: Consumer) {
    c.pc == CDone ==>
      match c.outcome
      case Took => InLog(m, c.start, c.at, Dequeued(t, c.data))
      case WasEmpty => InLog(m, c.start, c.at, FoundEmpty(t))
      case Lost => c.once && c.at == -1
      case Running => false
  }

  ghost predicate AllConsumers(s: State)
    requires Shape(s.mem)
  {
    forall t <- s.consumers :: ConsumerInv(s.mem, t, s.consumers[t])
  }

  ghost predicate Inv(s: State) {
    MemoryInv(s.mem) && ProducerInv(s.mem, s.producer) && AllConsumers(s)
  }

  // ---------------------------------------------------------------- one step

  /** Counters less than one lap apart have different slots. */
  lemma SlotsDiffer(size: nat, j: nat, k: nat)
    requires size > 0 && j < k < j + size
    ensures Slot(size, j) != Slot(size, k)
  {
    ModInjective(j, k, size);
  }

  lemma FullExactly(size: nat, head: nat, tail: nat)
    requires size > 0 && head <= tail && tail - head < size
    ensures Slot(size, tail + 1) == Slot(size, head) <==> tail + 1 - head == size
  {
    if tail + 1 - head < size {
      SlotsDiffer(size, head, tail + 1);
    } else {
      ModPlusN(head, size);
    }
  }

  /** Memory seen by a consumer only moves forward. */
  ghost predicate Grows(m: Memory, m': Memory) {
    m.head <= m'.head && m.tail <= m'.tail && m.items <= m'.items && m.log <= m'.log && m.width == m'.width
      && m.size == m'.size
  }

  lemma ConsumersUndisturbed(m: Memory, m': Memory, t: nat, c: Consumer)
    requires Shape(m) && ConsumerInv(m, t, c) && Grows(m, m') && Shape(m')
    ensures ConsumerInv(m', t, c)
  {
  }

  lemma LoadIsGood(m: Memory, p: Producer)
    requires MemoryInv(m) && ProducerInv(m, p) && p.pc.PLoad?
    ensures var (m', p') := Produce(m, p); MemoryInv(m') && ProducerInv(m', p') && Grows(m, m')
  {
    FullExactly(m.size, m.head, m.tail);
    if m.tail + 1 - m.head == m.size { FullIsLogged(m); }
    hide Replay, Taken;
  }

  /** A full ring may be reported as such. */
  lemma FullIsLogged(m: Memory)
    requires MemoryInv(m) && m.tail + 1 - m.head == m.size
    ensures MemoryInv(m.(log := m.log + [FoundFull]))
  {
    hide Slot;
    var m' := m.(log := m.log + [FoundFull]);
    assert m'.log[..|m'.log| - 1] == m.log;
  }

  lemma WriteIsGood(m: Memory, p: Producer)
    requires MemoryInv(m) && ProducerInv(m, p) && p.pc.PWrite?
    ensures var (m', p') := Produce(m, p); MemoryInv(m') && ProducerInv(m', p') && Grows(m, m')
  {
    var (m', p') := Produce(m, p);
    forall k | m.head <= k < m.tail ensures m'.buffer[Slot(m.size, k)] == m.items[k] {
      SlotsDiffer(m.size, k, m.tail);
    }
    var slot := m'.buffer[Slot(m.size, m.tail)];
    assert slot[..p'.i] == p.item[..p'.i];
    assert p'.i == m.width ==> slot == slot[..p'.i] && p.item == p.item[..p'.i];
  }

  lemma PublishIsGood(m: Memory, p: Producer)
    requires MemoryInv(m) && ProducerInv(m, p) && p.pc.PPublish?
    ensures var (m', p') := Produce(m, p); MemoryInv(m') && ProducerInv(m', p') && Grows(m, m')
  {
    var (m', p') := Produce(m, p);
    assert m'.log[..|m'.log| - 1] == m.log;
    assert m'.items[m'.head..] == m.items[m.head..] + [p.item];
    assert m'.items[..m'.head] == m.items[..m.head];
  }

  lemma ProduceIsGood(m: Memory, p: Producer)
    requires MemoryInv(m) && ProducerInv(m, p)
    ensures var (m', p') := Produce(m, p); MemoryInv(m') && ProducerInv(m', p') && Grows(m, m')
  {
    match p.pc
    case PLoad => LoadIsGood(m, p);
    case PWrite => WriteIsGood(m, p);
    case PPublish => PublishIsGood(m, p);
    case _ =>
  }

  /** What a consumer's step keeps for the producer: the slots and the tail are not its to change. */
  ghost predicate GoodConsume(m: Memory, t: nat, m': Memory, c': Consumer) {
    MemoryInv(m') && ConsumerInv(m', t, c') && Grows(m, m') && m'.buffer == m.buffer && m'.tail == m.tail
  }

  lemma CopyIsGood(m: Memory, t: nat, c: Consumer)
    requires MemoryInv(m) && ConsumerInv(m, t, c) && c.pc.CCopy?
    ensures GoodConsume(m, t, Consume(m, t, c).0, Consume(m, t, c).1)
  {
  }

  /** The winner's copy was never overwritten: its compare-and-swap takes the oldest item. */
  lemma TakeIsGood(m: Memory, t: nat, c: Consumer)
    requires MemoryInv(m) && ConsumerInv(m, t, c) && c.pc.CCas? && m.head == c.head
    ensures GoodConsume(m, t, Consume(m, t, c).0, Consume(m, t, c).1) && c.data == m.items[m.head]
  {
    var (m', c') := Consume(m, t, c);
    assert m'.log[..|m'.log| - 1] == m.log;
    assert m.items[m.head..][1..] == m'.items[m'.head..];
    assert m'.items[..m'.head] == m.items[..m.head] + [c.data];
  }

  lemma EmptyIsGood(m: Memory, t: nat, c: Consumer)
    requires MemoryInv(m) && ConsumerInv(m, t, c) && c.pc.CLoadTail?
    ensures GoodConsume(m, t, Consume(m, t, c).0, Consume(m, t, c).1)
  {
    if c.head == m.tail { EmptyIsLogged(m, t); }
    hide Replay, Taken, Slot;
  }

  /** An empty ring may be reported as such. */
  lemma EmptyIsLogged(m: Memory, t: nat)
    requires MemoryInv(m) && m.head == m.tail
    ensures MemoryInv(m.(log := m.log + [FoundEmpty(t)]))
  {
    hide Slot;
    var m' := m.(log := m.log + [FoundEmpty(t)]);
    assert m'.log[..|m'.log| - 1] == m.log;
    assert m.items[m.head..] == [];
  }

  lemma ConsumeIsGood(m: Memory, t: nat, c: Consumer)
    requires MemoryInv(m) && ConsumerInv(m, t, c)
    ensures GoodConsume(m, t, Consume(m, t, c).0, Consume(m, t, c).1)
  {
    match c.pc
    case CCopy => CopyIsGood(m, t, c);
    case CLoadTail => EmptyIsGood(m, t, c);
    case CCas => if m.head == c.head { TakeIsGood(m, t, c); }
    case _ =>
  }

  lemma ProducerStepKeepsInv(s: State, s': State)
    requires Inv(s) && ProducerStep(s, s')
    ensures Inv(s')
  {
    hide Replay, Taken;
    ProduceIsGood(s.mem, s.producer);
    forall u | u in s'.consumers ensures ConsumerInv(s'.mem, u, s'.consumers[u]) {
      assert ConsumerInv(s.mem, u, s.consumers[u]);
      ConsumersUndisturbed(s.mem, s'.mem, u, s.consumers[u]);
    }
  }

  lemma ConsumerStepKeepsInv(s: State, s': State, t: nat)
    requires Inv(s) && t in s.consumers && ConsumerStep(s, s', t)
    ensures Inv(s')
  {
    hide Replay, Taken, Consume;
    assert ConsumerInv(s.mem, t, s.consumers[t]);
    ConsumeIsGood(s.mem, t, s.consumers[t]);
    forall u | u in s'.consumers ensures ConsumerInv(s'.mem, u, s'.consumers[u]) {
      if u != t {
        assert ConsumerInv(s.mem, u, s.consumers[u]);
        ConsumersUndisturbed(s.mem, s'.mem, u, s.consumers[u]);
      }
    }
  }

  lemma NextKeepsInv(s: State, s': State)
    requires Inv(s) && Next(s, s')
    ensures Inv(s')
  {
    if ProducerStep(s, s') {
      ProducerStepKeepsInv(s, s');
    } else {
      var t :| t in s.consumers && ConsumerStep(s, s', t);
      ConsumerStepKeepsInv(s, s', t);
    }
  }

  lemma {:induction false} RunsKeepInv(run: seq<State>, i: nat)
    requires IsRun(run) && i < |run|
    ensures Inv(run[i])
  {
    if i > 0 {
      RunsKeepInv(run, i - 1);
      assert Next(run[i - 1], run[i - 1 + 1]);
      NextKeepsInv(run[i - 1], run[i]);
    }
  }

  // ---------------------------------------------------------------- calls and their operations

  datatype Caller = Enqueuer | Dequeuer(t: nat)

  function Who(e: Event): Caller { if e.Enqueued? || e.FoundFull? then Enqueuer else Dequeuer(e.who) }

  function Callers(s: State): set<Caller> { {Enqueuer} + set t | t in s.consumers :: Dequeuer(t) }

  function CallOf(s: State, k: Caller): CkCalls.Call
    requires k in Callers(s)
  {
    match k
    case Enqueuer => CkCalls.Call(s.producer.pc != PIdle, s.producer.start, s.producer.at)
    case Dequeuer(t) => var c := s.consumers[t]; CkCalls.Call(c.pc != CIdle, c.start, c.at)
  }

  function HistoryOf(s: State): CkCalls.History<Caller, Event> {
    CkCalls.History(s.mem.log, map k | k in Callers(s) :: CallOf(s, k))
  }

  lemma InCalls(s: State, s': State, k: Caller)
    requires Callers(s') == Callers(s) && k in Callers(s)
    requires forall n <- Callers(s) :: n != k ==> CallOf(s', n) == CallOf(s, n)
    requires CkCalls.InCall(Who, s.mem.log, CallOf(s, k), s'.mem.log, k, CallOf(s', k))
    ensures CkCalls.Next(Who, HistoryOf(s), HistoryOf(s'))
  {
    var h, h' := HistoryOf(s), HistoryOf(s');
    assert h'.calls == h.calls[k := h'.calls[k]];
    assert CkCalls.StepOf(Who, h, h', k);
  }

  /** A step performs the operation of its call at most once. */
  lemma ProducerInCall(s: State, s': State)
    requires Inv(s) && ProducerStep(s, s')
    ensures CkCalls.Next(Who, HistoryOf(s), HistoryOf(s'))
  {
    hide Replay, Taken, CkCalls.Next, HistoryOf;
    assert CkCalls.InCall(Who, s.mem.log, CallOf(s, Enqueuer), s'.mem.log, Enqueuer, CallOf(s', Enqueuer));
    InCalls(s, s', Enqueuer);
  }

  lemma ConsumerInCall(s: State, s': State, t: nat)
    requires Inv(s) && t in s.consumers && ConsumerStep(s, s', t)
    ensures CkCalls.Next(Who, HistoryOf(s), HistoryOf(s'))
  {
    hide Replay, Taken, CkCalls.Next, HistoryOf;
    assert ConsumerInv(s.mem, t, s.consumers[t]);
    var k := Dequeuer(t);
    assert CkCalls.InCall(Who, s.mem.log, CallOf(s, k), s'.mem.log, k, CallOf(s', k));
    InCalls(s, s', k);
  }

  lemma NextInCalls(s: State, s': State)
    requires Inv(s) && Next(s, s')
    ensures CkCalls.Next(Who, HistoryOf(s), HistoryOf(s'))
  {
    hide Inv, HistoryOf, CkCalls.Next;
    if ProducerStep(s, s') {
      ProducerInCall(s, s');
    } else {
      var t :| t in s.consumers && ConsumerStep(s, s', t);
      ConsumerInCall(s, s', t);
    }
  }

  /** A run, seen as its calls. */
  lemma RunInCalls(run: seq<State>)
    requires IsRun(run)
    ensures CkCalls.IsRun(Who, CkCalls.Histories(HistoryOf, run))
  {
    hide Inv, Next, CkCalls.Next;
    var hs := CkCalls.Histories(HistoryOf, run);
    forall i, j | 0 <= i < j == i + 1 < |hs| ensures CkCalls.Next(Who, hs[i], hs[j]) {
      RunsKeepInv(run, i);
      NextInCalls(run[i], run[i + 1]);
    }
  }

  /**
   Every run delivers the enqueued sequence in order, each item once and untorn, holding at most
   `size - 1` items: the log is a legal history of a bounded queue whose contents lie between the
   counters, and every call returned what its own entry in the log says. `CallsFit` adds that the log only
   grows, that it holds exactly one operation for each call that has taken effect and none for the others,
   and that it keeps the order of calls that follow each other.
   */
  lemma EveryRunIsLinearizable(run: seq<State>, i: nat)
    requires IsRun(run) && i < |run|
    ensures var m := run[i].mem;
            && m.head <= m.tail == |m.items| && m.tail - m.head <= m.size - 1
            && Replay(m.size, m.log) == Legal(m.items[m.head..])
            && Taken(m.log) == m.items[..m.head]
    ensures forall t <- run[i].consumers :: Linearized(run[i].mem, t, run[i].consumers[t])
    ensures run[i].producer.pc == PDone ==>
              InLog(run[i].mem, run[i].producer.start, run[i].producer.at,
                    if run[i].producer.stored then Enqueued(run[i].producer.item) else FoundFull)
    ensures CkCalls.CallsFit(Who, CkCalls.Histories(HistoryOf, run), i)
  {
    RunInCalls(run);
    CkCalls.RunsFit(Who, CkCalls.Histories(HistoryOf, run), i);
    hide CkCalls.CallsFit, CkCalls.IsRun, Next;
    RunsKeepInv(run, i);
    forall t | t in run[i].consumers ensures Linearized(run[i].mem, t, run[i].consumers[t]) {
      assert ConsumerInv(run[i].mem, t, run[i].consumers[t]);
    }
  }
}
