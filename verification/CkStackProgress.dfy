/**
 What the calls of the stack of `ck_stack.h` come to: a thread that is left alone finishes its call with the
 result it should have, and a try-call gives up only if head or generation changed in the meantime.
 */
module CkStackProgress {
  import CkCalls
  import opened CkStack
  import opened CkSteps

  // ---------------------------------------------------------------- alone

  /** A push puts its node on top: three steps. */
  lemma PushAlone(m: Memory, t: nat, l: Local)
    requires l.pc.ULoad?
    ensures var (m', l') := Alone(Step, m, t, l, 3);
            && l'.pc == Done && l'.outcome == Stored && m'.stack == [l.node] + m.stack
            && m'.log == m.log + [Pushed(t, l.node)]
  {
    hide Alone;
    var l1 := Step(m, t, l).1;
    var (m2, l2) := Step(m, t, l1);
    AloneOnce(Step, m, t, l);
    AloneMore(Step, m, t, l, 1, m, l1);
    AloneMore(Step, m, t, l, 2, m2, l2);
  }

  /** A pop takes the top node, or says that there is none. */
  lemma PopAlone(m: Memory, t: nat, l: Local)
    requires MemoryInv(m) && l.pc.PGen?
    ensures m.stack == [] ==>
              var (m', l') := Alone(Step, m, t, l, 2);
              l'.pc == Done && l'.outcome == WasEmpty && m' == m.(log := m.log + [FoundEmpty(t)])
    ensures m.stack != [] ==>
              var (m', l') := Alone(Step, m, t, l, 4);
              && l'.pc == Done && l'.outcome == Took(m.stack[0]) && m'.stack == m.stack[1..]
              && m'.log == m.log + [Popped(t, m.stack[0])]
  {
    hide Alone, Replay;
    var l1 := Step(m, t, l).1;
    AloneOnce(Step, m, t, l);
    AloneMore(Step, m, t, l, 1, m, l1);
    if m.stack != [] {
      var l2 := Step(m, t, l1).1;
      var l3 := Step(m, t, l2).1;
      AloneMore(Step, m, t, l, 2, m, l2);
      AloneMore(Step, m, t, l, 3, m, l3);
    }
  }

  /** The same at any instant of any run at which a call begins. */
  lemma CallAlone(run: seq<State>, i: nat, t: nat) returns (n: nat)
    requires IsRun(run) && i < |run| && t in run[i].threads && run[i].threads[t].pc in {ULoad, PGen}
    ensures var m, l := run[i].mem, run[i].threads[t];
            var (m', l') := Alone(Step, m, t, l, n);
            && l'.pc == Done
            && l'.outcome == (if l.pc == ULoad then Stored else if m.stack == [] then WasEmpty else Took(m.stack[0]))
            && m'.stack == if l.pc == ULoad then [l.node] + m.stack else if m.stack == [] then [] else m.stack[1..]
  {
    RunsKeepInv(run, i);
    var m, l := run[i].mem, run[i].threads[t];
    assert MemoryInv(m);
    hide Inv, Alone, MemoryInv;
    if l.pc == ULoad {
      PushAlone(m, t, l);
      n := 3;
    } else {
      PopAlone(m, t, l);
      n := if m.stack == [] then 2 else 4;
    }
  }

  lemma {:induction false} AloneKeeps(m: Memory, t: nat, l: Local, n: nat)
    requires MemoryInv(m) && ThreadInv(m, t, l)
    ensures var (m', l') := Alone(Step, m, t, l, n); MemoryInv(m') && ThreadInv(m', t, l') && l'.once == l.once
    decreases n
  {
    hide MemoryInv, ThreadInv, Step;
    if n > 0 {
      StepIsGood(m, t, l);
      OnceStays(m, t, l);
      var (m', l') := Step(m, t, l);
      AloneKeeps(m', t, l', n - 1);
    }
  }

  lemma OnceStays(m: Memory, t: nat, l: Local)
    ensures Step(m, t, l).1.once == l.once
  {
  }

  /** Head and generation are what the call has read. */
  ghost predicate UpToDate(m: Memory, l: Local) {
    && (l.pc in {UStore, UCas} ==> l.head == m.head)
    && (l.pc == PHead ==> l.gen == m.gen)
    && (l.pc in {PNext, PCas} ==> l.head == m.head && l.head.At? && l.gen == m.gen)
  }

  /** How many steps are left at most; a call that is not up to date has to begin again. */
  ghost function Left(m: Memory, l: Local): nat {
    (match l.pc
     case Idle => 0
     case Done => 0
     case UCas => 1
     case UStore => 2
     case ULoad => 3
     case PCas => 1
     case PNext => 2
     case PHead => 3
     case PGen => 4) + if UpToDate(m, l) then 0 else 4
  }

  lemma ComesCloser(m: Memory, t: nat, l: Local)
    requires l.pc != Idle && l.pc != Done
    ensures var (m', l') := Step(m, t, l); l'.pc != Idle && Left(m', l') < Left(m, l)
  {
  }

  lemma {:induction false} EndsAlone(m: Memory, t: nat, l: Local) returns (n: nat)
    requires l.pc != Idle
    ensures Alone(Step, m, t, l, n).1.pc == Done && n <= Left(m, l)
    decreases Left(m, l)
  {
    hide Step, Left;
    n := 0;
    if l.pc != Done {
      ComesCloser(m, t, l);
      var (m', l') := Step(m, t, l);
      var k := EndsAlone(m', t, l');
      n := k + 1;
    }
  }

  /** Whatever state a run is in, a call that is left alone finishes; only a try-call can have given up. */
  lemma FinishesAlone(run: seq<State>, i: nat, t: nat) returns (n: nat)
    requires IsRun(run) && i < |run| && t in run[i].threads && run[i].threads[t].pc != Idle
    ensures var l, l' := run[i].threads[t], Alone(Step, run[i].mem, t, run[i].threads[t], n).1;
            l'.pc == Done && (l'.outcome == Lost ==> l.once) && n <= 8
  {
    RunsKeepInv(run, i);
    var m, l := run[i].mem, run[i].threads[t];
    assert MemoryInv(m) && ThreadInv(m, t, l);
    hide Inv, Alone, MemoryInv, ThreadInv;
    n := EndsAlone(m, t, l);
    AloneKeeps(m, t, l, n);
    DoneMeans(Alone(Step, m, t, l, n).0, t, Alone(Step, m, t, l, n).1);
  }

  lemma DoneMeans(m: Memory, t: nat, l: Local)
    requires ThreadInv(m, t, l) && l.pc == Done
    ensures l.outcome == Lost ==> l.once && l.at == -1
  {
  }

  // ---------------------------------------------------------------- giving up

  ghost predicate OnTrack(m: Memory, l: Local) { UpToDate(m, l) && (l.pc == Done ==> l.outcome != Lost) }

  /** The call has performed its operation, or is on its way with what it has read still true. */
  ghost predicate Uncontended(s: State, t: nat) {
    && t in s.threads && s.threads[t].pc != Idle
    && (s.threads[t].at != -1 || OnTrack(s.mem, s.threads[t]))
  }

  predicate SameWords(m: Memory, m': Memory) { m'.head == m.head && m'.gen == m.gen }

  lemma OwnStep(m: Memory, t: nat, l: Local)
    requires (l.at != -1 || OnTrack(m, l)) && l.pc != Idle && l.pc != Done
    ensures var (m', l') := Step(m, t, l); l'.at != -1 || OnTrack(m', l')
  {
  }

  lemma AtTheEnds(m: Memory, t: nat, l: Local)
    requires l.pc == Idle || l.pc == Done
    ensures Step(m, t, l).1.pc == Idle
  {
  }

  lemma WhoseStep(s: State, s': State, u: nat, t: nat)
    requires u in s.threads && t in s.threads && StepOf(s, s', u) && s.threads[t].pc != Idle
    ensures t in s'.threads && if u == t then s' == Act(s, t) else s'.threads[t] == s.threads[t]
  {
    hide Step;
  }

  lemma CallBegins(s: State, s': State, t: nat)
    requires t in s.threads && s.threads[t].pc == Idle && Next(s, s') && t in s'.threads && s'.threads[t].pc != Idle
    ensures Uncontended(s', t)
  {
    var u :| u in s.threads && StepOf(s, s', u);
    hide Step;
    AtTheEnds(s.mem, t, s.threads[t]);
  }

  lemma CallGoesOn(s: State, s': State, t: nat)
    requires Next(s, s') && Uncontended(s, t) && SameWords(s.mem, s'.mem) && t in s'.threads && s'.threads[t].pc != Idle
    ensures Uncontended(s', t)
  {
    var u :| u in s.threads && StepOf(s, s', u);
    WhoseStep(s, s', u, t);
    hide StepOf, Step;
    if u == t {
      if s.threads[t].pc == Done {
        AtTheEnds(s.mem, t, s.threads[t]);
        assert false;
      }
      OwnStep(s.mem, t, s.threads[t]);
    }
  }

  /** One call of `t`, from when it is idle at `i` up to `j`. */
  ghost predicate OneCall(run: seq<State>, i: nat, j: nat, t: nat) {
    CkCalls.OneCall(CkCalls.Histories(HistoryOf, run), i, j, t)
  }

  lemma OneCallIs(run: seq<State>, i: nat, j: nat, t: nat)
    requires OneCall(run, i, j, t)
    ensures i < j < |run| && t in run[i].threads && run[i].threads[t].pc == Idle
    ensures forall k :: i < k <= j ==> t in run[k].threads && run[k].threads[t].pc != Idle
    ensures i + 1 < j ==> OneCall(run, i, j - 1, t)
  {
    var hs := CkCalls.Histories(HistoryOf, run);
    forall k | i < k <= j ensures t in run[k].threads && run[k].threads[t].pc != Idle {
      assert t in hs[k].calls && hs[k].calls[t].active;
    }
  }

  lemma {:induction false} StillUncontended(run: seq<State>, i: nat, j: nat, t: nat)
    requires IsRun(run) && OneCall(run, i, j, t) && i < j < |run|
    requires forall k :: i <= k <= j ==> SameWords(run[i].mem, run[k].mem)
    ensures Uncontended(run[j], t)
    decreases j
  {
    hide Next, Uncontended, OneCall;
    OneCallIs(run, i, j, t);
    assert Next(run[j - 1], run[j - 1 + 1]);
    if j == i + 1 {
      CallBegins(run[i], run[j], t);
    } else {
      StillUncontended(run, i, j - 1, t);
      assert SameWords(run[i].mem, run[j - 1].mem) && SameWords(run[i].mem, run[j].mem);
      CallGoesOn(run[j - 1], run[j], t);
    }
  }

  /** A call gives up only if head or generation changed while it was going on. */
  lemma LostMeansContention(run: seq<State>, i: nat, j: nat, t: nat)
    requires IsRun(run) && OneCall(run, i, j, t) && j < |run| && t in run[j].threads
    requires run[j].threads[t].pc == Done && run[j].threads[t].outcome == Lost
    ensures i < j && exists k :: i < k <= j && !SameWords(run[i].mem, run[k].mem)
  {
    RunsKeepInv(run, j);
    assert ThreadInv(run[j].mem, t, run[j].threads[t]);
    DoneMeans(run[j].mem, t, run[j].threads[t]);
    hide Inv, ThreadInv, OneCall;
    OneCallIs(run, i, j, t);
    if forall k :: i < k <= j ==> SameWords(run[i].mem, run[k].mem) {
      StillUncontended(run, i, j, t);
      assert false;
    }
  }
}
