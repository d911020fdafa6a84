/**
 What the calls of the ring of `ck_ring.h` come to: producer or consumer left alone finish with the result they
 should have, and a try to dequeue gives up only if another consumer has moved the head in the meantime.
 */
module CkRingProgress {
  import CkCalls
  import opened CkRing
  import opened CkSteps

  function Step(m: Memory, t: nat, c: Consumer): (Memory, Consumer) {
    if m.size > 0 && |m.buffer| == m.size then Consume(m, t, c) else (m, c)
  }

  function Store(m: Memory, t: nat, p: Producer): (Memory, Producer) {
    if m.size > 0 && |m.buffer| == m.size then Produce(m, p) else (m, p)
  }

  // ---------------------------------------------------------------- a consumer alone

  lemma {:induction false} CopyAlone(m: Memory, t: nat, c: Consumer) returns (n: nat)
    requires Shape(m) && c.pc == CCopy && |c.data| < m.width && c.data <= m.buffer[Slot(m.size, c.head)]
    ensures Alone(Step, m, t, c, n) == (m, c.(pc := CCas, data := m.buffer[Slot(m.size, c.head)]))
    decreases m.width - |c.data|
  {
    hide Slot;
    var slot := m.buffer[Slot(m.size, c.head)];
    assert |slot| == m.width;
    var c' := Step(m, t, c).1;
    if |c.data| + 1 == m.width {
      assert c'.data == slot;
      AloneOnce(Step, m, t, c);
      n := 1;
    } else {
      var k := CopyAlone(m, t, c');
      n := k + 1;
    }
  }

  /** A dequeue takes the oldest item, or says that there is none. */
  lemma DequeueAlone(m: Memory, t: nat, c: Consumer) returns (n: nat)
    requires MemoryInv(m) && c.pc == CLoadHead
    ensures var (m', c') := Alone(Step, m, t, c, n);
            && c'.pc == CDone
            && if m.head == m.tail then c'.outcome == WasEmpty && m' == m.(log := m.log + [FoundEmpty(t)])
               else c'.outcome == Took && c'.data == m.items[m.head] && m'.head == m.head + 1
                    && m'.log == m.log + [Dequeued(t, m.items[m.head])]
  {
    hide Alone, Replay, Taken, Slot;
    var c1 := Step(m, t, c).1;
    AloneOnce(Step, m, t, c);
    AloneMore(Step, m, t, c, 1, m, c1);
    n := 2;
    if m.head != m.tail {
      var c2 := Step(m, t, c1).1;
      assert m.buffer[Slot(m.size, m.head)] == m.items[m.head];
      var k := 0;
      var c3 := c2;
      if m.width > 0 {
        k := CopyAlone(m, t, c2);
        c3 := c2.(pc := CCas, data := m.items[m.head]);
        AloneThen(Step, m, t, c, 2, k);
      }
      AloneMore(Step, m, t, c, 2 + k, m, c3);
      n := 3 + k;
    }
  }

  lemma TakenAlone(run: seq<State>, i: nat, t: nat) returns (n: nat)
    requires IsRun(run) && i < |run| && t in run[i].consumers && run[i].consumers[t].pc == CLoadHead
    ensures var m := run[i].mem;
            var (m', c') := Alone(Step, m, t, run[i].consumers[t], n);
            && Shape(m) && c'.pc == CDone
            && if m.head == m.tail then c'.outcome == WasEmpty
               else c'.outcome == Took && c'.data == m.items[m.head] && m'.head == m.head + 1
  {
    RunsKeepInv(run, i);
    assert MemoryInv(run[i].mem);
    hide Inv, Alone, Replay, Taken;
    n := DequeueAlone(run[i].mem, t, run[i].consumers[t]);
  }

  ghost predicate UpToDate(m: Memory, c: Consumer) { c.pc in {CLoadTail, CCopy, CCas} ==> c.head == m.head }

  /** How many steps are left at most. */
  ghost function Left(m: Memory, c: Consumer): nat {
    (match c.pc
     case CIdle => 0
     case CDone => 0
     case CCas => 1
     case CCopy => if |c.data| <= m.width then 1 + m.width - |c.data| else 0
     case CLoadTail => 2 + m.width
     case CLoadHead => 3 + m.width) + if UpToDate(m, c) then 0 else 4 + m.width
  }

  lemma ComesCloser(m: Memory, t: nat, c: Consumer)
    requires Shape(m) && ConsumerInv(m, t, c) && c.pc != CIdle && c.pc != CDone
    ensures var (m', c') := Step(m, t, c); c'.pc != CIdle && c'.once == c.once && Left(m', c') < Left(m, c)
  {
    hide Slot;
  }

  lemma {:induction false} EndsAlone(m: Memory, t: nat, c: Consumer) returns (n: nat)
    requires MemoryInv(m) && ConsumerInv(m, t, c) && c.pc != CIdle
    ensures var (m', c') := Alone(Step, m, t, c, n); c'.pc == CDone && (c'.outcome == Lost ==> c.once)
    decreases Left(m, c)
  {
    hide Replay, Taken, Step, Left;
    n := 0;
    if c.pc != CDone {
      ComesCloser(m, t, c);
      StepKeeps(m, t, c);
      var (m', c') := Step(m, t, c);
      var k := EndsAlone(m', t, c');
      n := k + 1;
    }
  }

  lemma StepKeeps(m: Memory, t: nat, c: Consumer)
    requires MemoryInv(m) && ConsumerInv(m, t, c)
    ensures var (m', c') := Step(m, t, c); MemoryInv(m') && ConsumerInv(m', t, c')
  {
    ConsumeIsGood(m, t, c);
  }

  /** Whatever state a run is in, a dequeue that is left alone finishes; only a try can have given up. */
  lemma FinishesAlone(run: seq<State>, i: nat, t: nat) returns (n: nat)
    requires IsRun(run) && i < |run| && t in run[i].consumers && run[i].consumers[t].pc != CIdle
    ensures var c' := Alone(Step, run[i].mem, t, run[i].consumers[t], n).1;
            c'.pc == CDone && (c'.outcome == Lost ==> run[i].consumers[t].once)
  {
    RunsKeepInv(run, i);
    assert MemoryInv(run[i].mem) && ConsumerInv(run[i].mem, t, run[i].consumers[t]);
    hide Inv, Replay, Taken;
    n := EndsAlone(run[i].mem, t, run[i].consumers[t]);
  }

  // ---------------------------------------------------------------- the producer alone

  ghost function ToStore(m: Memory, p: Producer): nat {
    match p.pc
    case PIdle => 0
    case PDone => 0
    case PPublish => 1
    case PWrite => if p.i <= m.width then 1 + m.width - p.i else 0
    case PLoad => 2 + m.width
  }

  /** A producer that has begun to store does so: it needs nobody. */
  lemma {:induction false} StoresAlone(m: Memory, t: nat, p: Producer) returns (n: nat)
    requires MemoryInv(m) && ProducerInv(m, p) && (p.pc == PWrite || p.pc == PPublish)
    ensures var (m', p') := Alone(Store, m, t, p, n);
            p'.pc == PDone && p'.stored && m'.items == m.items + [p.item] && m'.tail == m.tail + 1
    decreases ToStore(m, p)
  {
    hide Replay, Taken;
    ProduceIsGood(m, p);
    var (m', p') := Store(m, t, p);
    if p.pc == PPublish {
      AloneOnce(Store, m, t, p);
      n := 1;
    } else {
      WriteMoves(m, t, p);
      hide Store, Produce, ToStore;
      var k := StoresAlone(m', t, p');
      n := k + 1;
    }
  }

  lemma WriteMoves(m: Memory, t: nat, p: Producer)
    requires MemoryInv(m) && ProducerInv(m, p) && p.pc == PWrite
    ensures var (m', p') := Store(m, t, p);
            && (p'.pc == PWrite || p'.pc == PPublish) && p'.item == p.item && m'.items == m.items && m'.tail == m.tail
            && ToStore(m', p') < ToStore(m, p)
  {
    hide Replay, Taken, Slot;
  }

  /** An enqueue stores its item exactly if fewer than `size - 1` are there when it looks. */
  lemma EnqueueAlone(run: seq<State>, i: nat) returns (n: nat)
    requires IsRun(run) && i < |run| && run[i].producer.pc == PLoad
    ensures var m, p := run[i].mem, run[i].producer;
            var (m', p') := Alone(Store, m, 0, p, n);
            && Shape(m) && p'.pc == PDone && p'.stored == (m.tail - m.head < m.size - 1)
            && m'.items == if p'.stored then m.items + [p.item] else m.items
  {
    RunsKeepInv(run, i);
    var m, p := run[i].mem, run[i].producer;
    assert MemoryInv(m) && ProducerInv(m, p);
    hide Inv, Replay, Taken, Alone;
    FullExactly(m.size, m.head, m.tail);
    AloneOnce(Store, m, 0, p);
    ProduceIsGood(m, p);
    var (m1, p1) := Store(m, 0, p);
    n := 1;
    if p1.pc != PDone {
      var k := StoresAlone(m1, 0, p1);
      AloneThen(Store, m, 0, p, 1, k);
      n := 1 + k;
    }
  }

  // ---------------------------------------------------------------- giving up

  ghost predicate OnTrack(m: Memory, c: Consumer) { UpToDate(m, c) && (c.pc == CDone ==> c.outcome != Lost) }

  ghost predicate Uncontended(s: State, t: nat) {
    && t in s.consumers && s.consumers[t].pc != CIdle
    && (s.consumers[t].at != -1 || OnTrack(s.mem, s.consumers[t]))
  }

  lemma OwnStep(m: Memory, t: nat, c: Consumer)
    requires (c.at != -1 || OnTrack(m, c)) && c.pc != CIdle && c.pc != CDone
    ensures var (m', c') := Step(m, t, c); c'.at != -1 || OnTrack(m', c')
  {
    hide Slot;
  }

  lemma AtTheEnds(m: Memory, t: nat, c: Consumer)
    requires m.size > 0 && |m.buffer| == m.size && (c.pc == CIdle || c.pc == CDone)
    ensures Consume(m, t, c).1.pc == CIdle
  {
  }

  lemma CallBegins(s: State, s': State, t: nat)
    requires t in s.consumers && s.consumers[t].pc == CIdle && Next(s, s') && t in s'.consumers
             && s'.consumers[t].pc != CIdle
    ensures Uncontended(s', t)
  {
    hide Consume, Produce;
    AtTheEnds(s.mem, t, s.consumers[t]);
    if !ProducerStep(s, s') {
      var u :| u in s.consumers && ConsumerStep(s, s', u);
    }
  }

  lemma WhoseStep(s: State, s': State, t: nat)
    requires Next(s, s') && t in s.consumers && s.consumers[t].pc != CIdle
    ensures t in s'.consumers
    ensures s'.consumers[t] == s.consumers[t] || (s'.mem, s'.consumers[t]) == Step(s.mem, t, s.consumers[t])
  {
    hide Consume, Produce;
    if !ProducerStep(s, s') {
      var u :| u in s.consumers && ConsumerStep(s, s', u);
    }
  }

  lemma CallGoesOn(s: State, s': State, t: nat)
    requires Next(s, s') && Uncontended(s, t) && s'.mem.head == s.mem.head && t in s'.consumers
             && s'.consumers[t].pc != CIdle
    ensures Uncontended(s', t)
  {
    WhoseStep(s, s', t);
    if s.consumers[t].pc == CDone { AtTheEnds(s.mem, t, s.consumers[t]); }
    hide Next, Consume, Produce;
    if s'.consumers[t] != s.consumers[t] { OwnStep(s.mem, t, s.consumers[t]); }
  }

  /** One call of consumer `t`, from when it is idle at `i` up to `j`. */
  ghost predicate OneCall(run: seq<State>, i: nat, j: nat, t: nat) {
    CkCalls.OneCall(CkCalls.Histories(HistoryOf, run), i, j, Dequeuer(t))
  }

  lemma OneCallIs(run: seq<State>, i: nat, j: nat, t: nat)
    requires OneCall(run, i, j, t)
    ensures i < j < |run| && t in run[i].consumers && run[i].consumers[t].pc == CIdle
    ensures forall k :: i < k <= j ==> t in run[k].consumers && run[k].consumers[t].pc != CIdle
    ensures i + 1 < j ==> OneCall(run, i, j - 1, t)
  {
    var hs := CkCalls.Histories(HistoryOf, run);
    forall k | i < k <= j ensures t in run[k].consumers && run[k].consumers[t].pc != CIdle {
      assert Dequeuer(t) in hs[k].calls && hs[k].calls[Dequeuer(t)].active;
    }
  }

  lemma {:induction false} StillUncontended(run: seq<State>, i: nat, j: nat, t: nat)
    requires IsRun(run) && OneCall(run, i, j, t) && i < j < |run|
    requires forall k :: i <= k <= j ==> run[k].mem.head == run[i].mem.head
    ensures Uncontended(run[j], t)
    decreases j
  {
    hide Next, Uncontended, OneCall;
    OneCallIs(run, i, j, t);
    assert Next(run[j - 1], run[j - 1 + 1]);
    if j == i + 1 {
      CallBegins(run[i], run[j], t);
    } else {
      StillUncontended(run, i, j - 1, t);
      assert run[j - 1].mem.head == run[i].mem.head == run[j].mem.head;
      CallGoesOn(run[j - 1], run[j], t);
    }
  }

  /** A try to dequeue gives up only if the head moved while it was going on. */
  lemma LostMeansContention(run: seq<State>, i: nat, j: nat, t: nat)
    requires IsRun(run) && OneCall(run, i, j, t) && j < |run| && t in run[j].consumers
    requires run[j].consumers[t].pc == CDone && run[j].consumers[t].outcome == Lost
    ensures i < j && exists k :: i < k <= j && run[k].mem.head != run[i].mem.head
  {
    RunsKeepInv(run, j);
    assert ConsumerInv(run[j].mem, t, run[j].consumers[t]);
    hide Inv, OneCall;
    OneCallIs(run, i, j, t);
    if forall k :: i < k <= j ==> run[k].mem.head == run[i].mem.head {
      StillUncontended(run, i, j, t);
      assert false;
    }
  }
}
