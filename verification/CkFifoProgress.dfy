/**
 What the calls of the queue of `ck_fifo.h` come to: a thread that is left alone finishes its call, whatever
 the others were doing when they stopped, and a try-call gives up only if another thread got in its way.
 */
module CkFifoProgress {
  import CkCalls
  import opened CkFifo
  import opened CkSteps

  /** The tail is not at the last entry. */
  predicate Lagging(m: Memory) { m.tail.gen + 1 < |m.chain| }

  predicate First(l: Local) { l.pc.ETailGen? || l.pc.DHeadGen? }

  // ---------------------------------------------------------------- one round of the loop

  function EnqueueLoaded(m: Memory, l: Local): Local {
    l.(pc := ECheck, tail := m.tail, tpos := m.tail.gen, next := EntryAt(m, m.tail.ptr).next)
  }

  lemma EnqueueLoads(m: Memory, t: nat, l: Local)
    requires l.pc.ETailGen?
    ensures Alone(Step, m, t, l, 4) == (m, EnqueueLoaded(m, l))
  {
    hide EntryAt, Alone;
    var l1 := Step(m, t, l).1;
    var l2 := Step(m, t, l1).1;
    var l3 := Step(m, t, l2).1;
    AloneOnce(Step, m, t, l);
    AloneMore(Step, m, t, l, 1, m, l1);
    AloneMore(Step, m, t, l, 2, m, l2);
    AloneMore(Step, m, t, l, 3, m, l3);
  }

  function DequeueLoaded(m: Memory, l: Local): Local {
    l.(pc := DNextPtr, head := m.head, hpos := m.head.gen, tail := m.tail, tpos := m.tail.gen,
       next := l.next.(gen := EntryAt(m, m.head.ptr).next.gen))
  }

  lemma DequeueLoads(m: Memory, t: nat, l: Local)
    requires l.pc.DHeadGen?
    ensures Alone(Step, m, t, l, 5) == (m, DequeueLoaded(m, l))
  {
    hide EntryAt, Alone;
    var l1 := Step(m, t, l).1;
    var l2 := Step(m, t, l1).1;
    var l3 := Step(m, t, l2).1;
    var l4 := Step(m, t, l3).1;
    AloneOnce(Step, m, t, l);
    AloneMore(Step, m, t, l, 1, m, l1);
    AloneMore(Step, m, t, l, 2, m, l2);
    AloneMore(Step, m, t, l, 3, m, l3);
    AloneMore(Step, m, t, l, 4, m, l4);
  }

  /** The tail moved on to the last entry. */
  function Forwarded(m: Memory): Memory
    requires m.tail.gen + 1 < |m.chain|
  {
    m.(tail := Word(At(m.chain[m.tail.gen + 1]), m.tail.gen + 1))
  }

  lemma ForwardedIs(m: Memory)
    requires MemoryInv(m) && Lagging(m)
    ensures var m' := Forwarded(m); MemoryInv(m') && !Lagging(m') && Contents(m') == Contents(m)
  {
    hide Replay;
  }

  /** What the words say of the end of the list. */
  lemma TailNext(m: Memory)
    requires Shape(m)
    ensures EntryAt(m, m.tail.ptr).next == if Lagging(m) then Word(At(m.chain[m.tail.gen + 1]), 1) else NIL
    ensures m.head.ptr == m.tail.ptr <==> m.head.gen == m.tail.gen
    ensures m.head.gen < m.tail.gen ==> EntryAt(m, m.head.ptr).next == Word(At(m.chain[m.head.gen + 1]), 1)
  {
    var i := m.tail.gen;
    if Lagging(m) {
      var j := i + 1;
      assert m.heap[m.chain[i]].next == Word(At(m.chain[j]), 1);
    }
    if m.head.gen < i {
      var k := m.head.gen + 1;
      assert m.heap[m.chain[m.head.gen]].next == Word(At(m.chain[k]), 1);
    }
  }

  /** An enqueue that meets a tail that does not lag stores its value: seven steps. */
  lemma EnqueueAlone(m: Memory, t: nat, l: Local)
    requires MemoryInv(m) && ThreadInv(m, t, l) && l.pc.ETailGen? && !Lagging(m)
    ensures var (m', l') := Alone(Step, m, t, l, 7);
            && l'.pc == Done && l'.outcome == Stored && m'.log == m.log + [Enqueued(t, l.value)]
            && m'.chain == m.chain + [l.node] && !Lagging(m') && m'.head == m.head
  {
    EnqueueLoads(m, t, l);
    TailNext(m);
    hide Replay, ThreadInv, Alone;
    var l4 := EnqueueLoaded(m, l);
    AloneMore(Step, m, t, l, 4, m, l4);
    var l5 := l4.(pc := ELink);
    assert Step(m, t, l4) == (m, l5);
    AloneMore(Step, m, t, l, 5, m, l5);
    var (m6, l6) := Link(m, t, l5);
    AloneMore(Step, m, t, l, 6, m6, l6);
  }

  /** One that meets a tail that lags moves it, and begins again unless it is a try. */
  lemma EnqueueForwards(m: Memory, t: nat, l: Local)
    requires MemoryInv(m) && l.pc.ETailGen? && Lagging(m)
    ensures Alone(Step, m, t, l, 6) == (Forwarded(m), Retry(EnqueueLoaded(m, l).(pc := EForward), ETailGen))
  {
    EnqueueLoads(m, t, l);
    TailNext(m);
    hide Replay, Alone;
    var l4 := EnqueueLoaded(m, l);
    AloneMore(Step, m, t, l, 4, m, l4);
    AloneMore(Step, m, t, l, 5, m, l4.(pc := EForward));
  }

  lemma DequeueSteps(m: Memory, t: nat, l: Local) returns (l6: Local, l7: Local)
    requires MemoryInv(m) && m.head.gen < m.tail.gen
    ensures Contents(m) != [] && Step(m, t, DequeueLoaded(m, l)) == (m, l6) && Step(m, t, l6) == (m, l7)
    ensures l7.pc == DCommit && l7.head == m.head && l7.value == Contents(m)[0]
  {
    TailNext(m);
    hide Replay;
    var l5 := DequeueLoaded(m, l);
    l6 := l5.(pc := DValue, next := l5.next.(ptr := At(m.chain[m.head.gen + 1])));
    assert Step(m, t, l5) == (m, l6);
    l7 := l6.(pc := DCommit, value := Contents(m)[0]);
  }

  /** A dequeue that finds head and tail apart takes the oldest value, also if the tail lags: eight steps. */
  lemma DequeueAlone(m: Memory, t: nat, l: Local)
    requires MemoryInv(m) && l.pc.DHeadGen? && m.head.gen < m.tail.gen
    ensures var (m', l') := Alone(Step, m, t, l, 8);
            && l'.pc == Done && Contents(m) != [] && l'.outcome == Took(Contents(m)[0])
            && m'.log == m.log + [Dequeued(t, Contents(m)[0])]
  {
    DequeueLoads(m, t, l);
    var l6, l7 := DequeueSteps(m, t, l);
    assert Step(m, t, l7) == Commit(m, t, l7);
    hide Alone, Step, MemoryInv, Contents;
    AloneMore(Step, m, t, l, 5, m, DequeueLoaded(m, l));
    AloneMore(Step, m, t, l, 6, m, l6);
    AloneMore(Step, m, t, l, 7, m, l7);
  }

  /** One that finds them together says that there is nothing, or moves a tail that lags and begins again. */
  lemma DequeueEmpty(m: Memory, t: nat, l: Local)
    requires MemoryInv(m) && l.pc.DHeadGen? && m.head.gen == m.tail.gen && !Lagging(m)
    ensures var (m', l') := Alone(Step, m, t, l, 6);
            l'.pc == Done && l'.outcome == WasEmpty && Contents(m) == [] && m' == m.(log := m.log + [FoundEmpty(t)])
  {
    DequeueLoads(m, t, l);
    TailNext(m);
    hide Replay, Alone;
    AloneMore(Step, m, t, l, 5, m, DequeueLoaded(m, l));
  }

  lemma DequeueForwards(m: Memory, t: nat, l: Local)
    requires MemoryInv(m) && l.pc.DHeadGen? && m.head.gen == m.tail.gen && Lagging(m)
    ensures var (m', l') := Alone(Step, m, t, l, 7);
            && m' == Forwarded(m) && Contents(m) != [] && l'.once == l.once
            && if l.once then l'.pc == Done && l'.outcome == Lost else l'.pc == DHeadGen
  {
    DequeueLoads(m, t, l);
    TailNext(m);
    hide Replay, Alone;
    var l5 := DequeueLoaded(m, l);
    var l6 := LoadNext(m, t, l5).1;
    assert Step(m, t, l5) == (m, l6) && l6.pc == DForward;
    AloneMore(Step, m, t, l, 5, m, l5);
    AloneMore(Step, m, t, l, 6, m, l6);
  }

  /**
   What a try to dequeue comes to that runs alone: the oldest value if there is one, unless the tail still points
   at the entry before it.
   */
  lemma TryDequeueAlone(run: seq<State>, stub: nat, i: nat, t: nat) returns (n: nat)
    requires IsRun(run, stub) && i < |run| && t in run[i].threads && run[i].threads[t].pc == DHeadGen
    ensures MemoryInv(run[i].mem)
    ensures var m, l := run[i].mem, run[i].threads[t];
            var l' := Alone(Step, m, t, l, n).1;
            && l'.pc == Done
            && if Contents(m) == [] then l'.outcome == WasEmpty
               else if l.once && Lagging(m) && m.head.gen == m.tail.gen then l'.outcome == Lost
               else l'.outcome == Took(Contents(m)[0])
  {
    RunsKeepInv(run, stub, i);
    var m, l := run[i].mem, run[i].threads[t];
    assert MemoryInv(m) && ThreadInv(m, t, l);
    hide Inv, Alone;
    if m.head.gen < m.tail.gen {
      DequeueAlone(m, t, l);
      n := 8;
    } else if !Lagging(m) {
      DequeueEmpty(m, t, l);
      n := 6;
    } else {
      DequeueForwards(m, t, l);
      n := 7;
      if !l.once {
        var (m', l') := Alone(Step, m, t, l, 7);
        ForwardedIs(m);
        DequeueAlone(m', t, l');
        AloneThen(Step, m, t, l, 7, 8);
        n := 15;
      }
    }
  }

  lemma {:induction false} AloneKeeps(m: Memory, t: nat, l: Local, n: nat)
    requires MemoryInv(m) && ThreadInv(m, t, l)
    ensures var (m', l') := Alone(Step, m, t, l, n); MemoryInv(m') && ThreadInv(m', t, l')
    decreases n
  {
    hide MemoryInv, ThreadInv, Step;
    if n > 0 {
      StepIsGood(m, t, l);
      var (m', l') := Step(m, t, l);
      AloneKeeps(m', t, l', n - 1);
    }
  }

  // ---------------------------------------------------------------- from anywhere in a call

  /** How far it is, at most, to the end of the call or of this round. */
  function Distance(pc: Pc): nat {
    match pc
    case Idle => 0
    case Done => 0
    case ETailGen => 0
    case DHeadGen => 0
    case ETailPtr => 7
    case ENextGen => 6
    case ENextPtr => 5
    case ECheck => 4
    case ELink => 3
    case EForward => 1
    case ESwing => 1
    case DHeadPtr => 8
    case DTailGen => 7
    case DTailPtr => 6
    case DNextGen => 5
    case DNextPtr => 4
    case DValue => 3
    case DCommit => 2
    case DForward => 1
  }

  lemma ComesCloser(m: Memory, t: nat, l: Local)
    requires Distance(l.pc) > 0
    ensures var l' := Step(m, t, l).1; l'.pc != Idle && l'.once == l.once && Distance(l'.pc) < Distance(l.pc)
  {
  }

  lemma {:induction false} RoundEnds(m: Memory, t: nat, l: Local) returns (n: nat)
    requires MemoryInv(m) && ThreadInv(m, t, l) && l.pc != Idle
    ensures var (m', l') := Alone(Step, m, t, l, n); l'.once == l.once && (First(l') || l'.pc == Done)
    decreases Distance(l.pc)
  {
    hide MemoryInv, ThreadInv, Step;
    n := 0;
    if Distance(l.pc) > 0 {
      ComesCloser(m, t, l);
      StepIsGood(m, t, l);
      var (m', l') := Step(m, t, l);
      var k := RoundEnds(m', t, l');
      n := k + 1;
    } else {
      AtRest(l);
    }
  }

  lemma AtRest(l: Local)
    requires l.pc != Idle && Distance(l.pc) == 0
    ensures First(l) || l.pc == Done
  {
  }

  /** A round of its own, with nobody in the way, is the last, or the last but one. */
  lemma LastRounds(m: Memory, t: nat, l: Local) returns (n: nat)
    requires MemoryInv(m) && ThreadInv(m, t, l) && First(l)
    ensures var l' := Alone(Step, m, t, l, n).1; l'.pc == Done && l'.once == l.once
  {
    hide Alone, MemoryInv, ThreadInv, Step;
    if l.pc == ETailGen {
      if Lagging(m) {
        EnqueueForwards(m, t, l);
        AloneKeeps(m, t, l, 6);
        ForwardedIs(m);
        var (m', l') := Alone(Step, m, t, l, 6);
        n := 6;
        if !l.once {
          EnqueueAlone(m', t, l');
          AloneThen(Step, m, t, l, 6, 7);
          n := 13;
        }
      } else {
        EnqueueAlone(m, t, l);
        n := 7;
      }
    } else if m.head.gen < m.tail.gen {
      DequeueAlone(m, t, l);
      n := 8;
    } else {
      n := LastDequeues(m, t, l);
    }
    OnceStays(m, t, l, n);
  }

  lemma LastDequeues(m: Memory, t: nat, l: Local) returns (n: nat)
    requires MemoryInv(m) && ThreadInv(m, t, l) && l.pc == DHeadGen && m.head.gen >= m.tail.gen
    ensures Alone(Step, m, t, l, n).1.pc == Done
  {
    hide Alone, ThreadInv, Step;
    if Lagging(m) {
      DequeueForwards(m, t, l);
      n := 7;
      if !l.once {
        ForwardedIs(m);
        var (m', l') := Alone(Step, m, t, l, 7);
        DequeueAlone(m', t, l');
        AloneThen(Step, m, t, l, 7, 8);
        n := 15;
      }
    } else {
      DequeueEmpty(m, t, l);
      n := 6;
    }
  }

  lemma {:induction false} OnceStays(m: Memory, t: nat, l: Local, n: nat)
    ensures Alone(Step, m, t, l, n).1.once == l.once
    decreases n
  {
    if n > 0 {
      var (m', l') := Step(m, t, l);
      OnceStays(m', t, l', n - 1);
    }
  }

  /**
   Whatever state a run is in, a thread in the middle of a call that is left alone finishes it; only a
   try-call can have given up.
   */
  lemma FinishesAlone(run: seq<State>, stub: nat, i: nat, t: nat) returns (n: nat)
    requires IsRun(run, stub) && i < |run| && t in run[i].threads && run[i].threads[t].pc != Idle
    ensures var l, l' := run[i].threads[t], Alone(Step, run[i].mem, t, run[i].threads[t], n).1;
            l'.pc == Done && (l'.outcome == Lost ==> l.once)
  {
    RunsKeepInv(run, stub, i);
    var m, l := run[i].mem, run[i].threads[t];
    assert MemoryInv(m) && ThreadInv(m, t, l);
    hide Inv, Alone, MemoryInv, ThreadInv;
    n := RoundEnds(m, t, l);
    var (m', l') := Alone(Step, m, t, l, n);
    AloneKeeps(m, t, l, n);
    if First(l') {
      var k := LastRounds(m', t, l');
      AloneThen(Step, m, t, l, n, k);
      n := n + k;
    }
    AloneKeeps(m, t, l, n);
    OnceStays(m, t, l, n);
    DoneMeans(Alone(Step, m, t, l, n).0, t, Alone(Step, m, t, l, n).1);
  }

  lemma DoneMeans(m: Memory, t: nat, l: Local)
    requires ThreadInv(m, t, l) && l.pc == Done
    ensures l.outcome == Lost ==> l.once && l.at == -1
  {
  }

  // ---------------------------------------------------------------- giving up

  predicate SameWords(m: Memory, m': Memory) { m'.head == m.head && m'.tail == m.tail && m'.chain == m.chain }

  /** All that the call has read is still so, and it is on its way. */
  ghost predicate OnTrack(m: Memory, l: Local) {
    && l.pc != EForward && l.pc != DForward && l.pc != ESwing && l.pc != Idle
    && (l.pc == ETailPtr || l.pc == DTailPtr ==> l.tail.gen == m.tail.gen)
    && (l.pc in {ENextGen, ENextPtr, ECheck, ELink, DNextGen, DNextPtr} ==> l.tail == m.tail)
    && (l.pc == ENextPtr ==> l.next.gen == 0)
    && (l.pc in {ECheck, ELink} ==> l.next == NIL)
    && (l.pc == DHeadPtr ==> l.head.gen == m.head.gen)
    && (l.pc in {DTailGen, DTailPtr, DNextGen, DNextPtr, DValue, DCommit} ==> l.head == m.head)
    && (l.pc == Done ==> l.outcome != Lost)
  }

  /** With no tail that lags, a step keeps the call on its way or is its operation. */
  lemma StaysOnTrack(m: Memory, t: nat, l: Local)
    requires Shape(m) && !Lagging(m) && OnTrack(m, l) && l.pc != Done
    ensures var (m', l') := Step(m, t, l); l'.at != -1 || OnTrack(m', l')
  {
    TailNext(m);
    hide Shape;
  }

  lemma OthersKeepTrack(m: Memory, m': Memory, l: Local)
    requires OnTrack(m, l) && SameWords(m, m')
    ensures OnTrack(m', l)
  {
  }

  /** The state of a call from when it begins: its operation is performed, or it is on its way. */
  ghost predicate Uncontended(s: State, t: nat) {
    t in s.threads && s.threads[t].pc != Idle && (s.threads[t].at != -1 || OnTrack(s.mem, s.threads[t]))
  }

  lemma AtTheEnds(m: Memory, t: nat, l: Local)
    requires l.pc == Idle || l.pc == Done
    ensures Step(m, t, l).1.pc == Idle
  {
  }

  lemma CallBegins(s: State, s': State, t: nat)
    requires t in s.threads && s.threads[t].pc == Idle && Next(s, s') && t in s'.threads && s'.threads[t].pc != Idle
    ensures Uncontended(s', t)
  {
    var u :| u in s.threads && StepOf(s, s', u);
    hide Step;
    AtTheEnds(s.mem, t, s.threads[t]);
    assert u == t;
  }

  lemma WhoseStep(s: State, s': State, u: nat, t: nat)
    requires u in s.threads && t in s.threads && StepOf(s, s', u) && s.threads[t].pc != Idle
    ensures t in s'.threads && if u == t then s' == Act(s, t) else s'.threads[t] == s.threads[t]
  {
    hide Step;
  }

  lemma CallGoesOn(s: State, s': State, t: nat)
    requires Inv(s) && Next(s, s') && Uncontended(s, t) && !Lagging(s.mem) && SameWords(s.mem, s'.mem)
    requires t in s'.threads && s'.threads[t].pc != Idle
    ensures Uncontended(s', t)
  {
    var u :| u in s.threads && StepOf(s, s', u);
    assert Shape(s.mem);
    WhoseStep(s, s', u, t);
    hide Inv, Shape, OnTrack, Step, StepOf;
    if u != t {
      if s.threads[t].at == -1 { OthersKeepTrack(s.mem, s'.mem, s.threads[t]); }
    } else {
      if s.threads[t].pc == Done {
        AtTheEnds(s.mem, t, s.threads[t]);
        assert false;
      }
      OwnStep(s.mem, t, s.threads[t]);
    }
  }

  lemma OwnStep(m: Memory, t: nat, l: Local)
    requires Shape(m) && !Lagging(m) && (l.at != -1 || OnTrack(m, l)) && l.pc != Done
    ensures var (m', l') := Step(m, t, l); l'.at != -1 || OnTrack(m', l')
  {
    hide Step, OnTrack, Shape;
    if l.at == -1 {
      StaysOnTrack(m, t, l);
    } else {
      OperationStays(m, t, l);
    }
  }

  lemma OperationStays(m: Memory, t: nat, l: Local)
    requires l.at != -1
    ensures Step(m, t, l).1.at != -1
  {
  }

  /** One call of `t`, from when it is idle at `i` up to `j`. */
  ghost predicate OneCall(run: seq<State>, i: nat, j: nat, t: nat) {
    CkCalls.OneCall(CkCalls.Histories(HistoryOf, run), i, j, t)
  }

  lemma OneCallIs(run: seq<State>, i: nat, j: nat, t: nat)
    requires OneCall(run, i, j, t)
    ensures i < j < |run| && t in run[i].threads && run[i].threads[t].pc == Idle
    ensures forall k :: i < k <= j ==> t in run[k].threads && run[k].threads[t].pc != Idle
    ensures i + 1 < j ==> OneCall(run, i, j - 1, t)
  {
    var hs := CkCalls.Histories(HistoryOf, run);
    forall k | i < k <= j ensures t in run[k].threads && run[k].threads[t].pc != Idle {
      assert t in hs[k].calls && hs[k].calls[t].active;
    }
  }

  lemma {:induction false} StillUncontended(run: seq<State>, stub: nat, i: nat, j: nat, t: nat)
    requires IsRun(run, stub) && OneCall(run, i, j, t) && i < j < |run| && !Lagging(run[i].mem)
    requires forall k :: i <= k <= j ==> SameWords(run[i].mem, run[k].mem)
    ensures Uncontended(run[j], t)
    decreases j
  {
    hide Inv, Next, Uncontended, OneCall;
    OneCallIs(run, i, j, t);
    assert Next(run[j - 1], run[j - 1 + 1]);
    if j == i + 1 {
      CallBegins(run[i], run[j], t);
    } else {
      StillUncontended(run, stub, i, j - 1, t);
      RunsKeepInv(run, stub, j - 1);
      assert SameWords(run[i].mem, run[j - 1].mem) && SameWords(run[i].mem, run[j].mem);
      CallGoesOn(run[j - 1], run[j], t);
    }
  }

  /**
   A call gives up only if it is in somebody's way: the tail lagged when it began, or head, tail or a link of the
   list changed while it was going on.
   */
  lemma LostMeansContention(run: seq<State>, stub: nat, i: nat, j: nat, t: nat)
    requires IsRun(run, stub) && OneCall(run, i, j, t) && j < |run| && t in run[j].threads
    requires run[j].threads[t].pc == Done && run[j].threads[t].outcome == Lost
    ensures i < j && (Lagging(run[i].mem) || exists k :: i < k <= j && !SameWords(run[i].mem, run[k].mem))
  {
    RunsKeepInv(run, stub, j);
    assert ThreadInv(run[j].mem, t, run[j].threads[t]);
    DoneMeans(run[j].mem, t, run[j].threads[t]);
    hide Inv, ThreadInv, OneCall;
    OneCallIs(run, i, j, t);
    if !Lagging(run[i].mem) && forall k :: i < k <= j ==> SameWords(run[i].mem, run[k].mem) {
      StillUncontended(run, stub, i, j, t);
      assert false;
    }
  }
}
