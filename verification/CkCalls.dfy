/**
 Calls and their operations, for the linearizable structures of Concurrency Kit.

 A history is the log of the operations so far and, for every thread, the length of the log when its
 latest call began and the place of the call's operation in the log, -1 if it has none yet. `owner` says
 which thread an operation belongs to.
 */
module CkCalls {
  datatype Call = Call(active: bool, start: nat, at: int)

  datatype History<K, E> = History(log: seq<E>, calls: map<K, Call>)

  /** What a step of a thread may do: nothing of note, end its call, begin one, or perform its operation. */
  predicate InCall<K(==), E(==)>(owner: E -> K, log: seq<E>, c: Call, log': seq<E>, t: K, c': Call) {
    || (log' == log && (c' == c || c' == c.(active := false)))
    || (log' == log && !c.active && c' == Call(true, |log|, -1))
    || (|log'| == |log| + 1 && log <= log' && owner(log'[|log|]) == t && c.active && c.at == -1
        && c' == c.(at := |log|))
  }

  predicate StepOf<K(==), E(==)>(owner: E -> K, h: History<K, E>, h': History<K, E>, t: K) {
    && t in h.calls && t in h'.calls && h'.calls == h.calls[t := h'.calls[t]]
    && InCall(owner, h.log, h.calls[t], h'.log, t, h'.calls[t])
  }

  ghost predicate Next<K(!new), E>(owner: E -> K, h: History<K, E>, h': History<K, E>) {
    exists t :: StepOf(owner, h, h', t)
  }

  ghost predicate IsRun<K(!new), E>(owner: E -> K, hs: seq<History<K, E>>) {
    && |hs| > 0 && hs[0].log == [] && (forall t <- hs[0].calls :: !hs[0].calls[t].active)
    && forall i, j :: 0 <= i < j == i + 1 < |hs| ==> Next(owner, hs[i], hs[j])
  }

  /** The histories of a run of states. */
  function Histories<S, K, E>(of: S -> History<K, E>, run: seq<S>): (hs: seq<History<K, E>>)
    ensures |hs| == |run| && forall i :: 0 <= i < |run| ==> hs[i] == of(run[i])
  {
    seq(|run|, i requires 0 <= i < |run| => of(run[i]))
  }

  // ---------------------------------------------------------------- one operation for each call

  /** The operations of `t` since position `start`. */
  function OperationsOf<K(==), E>(owner: E -> K, log: seq<E>, start: nat, t: K): set<nat> {
    set p | start <= p < |log| && owner(log[p]) == t
  }

  /** A call has exactly the one operation it knows of. */
  predicate OneOperation<K(==), E>(owner: E -> K, log: seq<E>, t: K, c: Call) {
    && c.start <= |log| && -1 <= c.at < |log|
    && OperationsOf(owner, log, c.start, t) == (if c.at == -1 then {} else {c.at as nat})
  }

  ghost predicate OneEach<K(!new), E>(owner: E -> K, h: History<K, E>) {
    forall t <- h.calls :: h.calls[t].active ==> OneOperation(owner, h.log, t, h.calls[t])
  }

  lemma StepKeepsOneEach<K(!new), E>(owner: E -> K, h: History<K, E>, h': History<K, E>, t: K)
    requires OneEach(owner, h) && StepOf(owner, h, h', t)
    ensures OneEach(owner, h')
  {
    forall u | u in h'.calls && h'.calls[u].active ensures OneOperation(owner, h'.log, u, h'.calls[u]) {
      var c := h.calls[u];
      if h'.calls[u] == c && h'.log == h.log {
      } else if u != t {
        assert OneOperation(owner, h.log, u, c);
        assert OperationsOf(owner, h'.log, c.start, u) == OperationsOf(owner, h.log, c.start, u);
      } else if h'.log != h.log {
        assert OneOperation(owner, h.log, t, c);
        assert OperationsOf(owner, h'.log, c.start, t) == OperationsOf(owner, h.log, c.start, t) + {|h.log|};
      } else {
        assert OperationsOf(owner, h.log, |h.log|, t) == {};
      }
    }
  }

  lemma {:induction false} RunsKeepOneEach<K(!new), E>(owner: E -> K, hs: seq<History<K, E>>, i: nat)
    requires IsRun(owner, hs) && i < |hs|
    ensures OneEach(owner, hs[i])
  {
    if i > 0 {
      RunsKeepOneEach(owner, hs, i - 1);
      assert Next(owner, hs[i - 1], hs[i]);
      var t :| StepOf(owner, hs[i - 1], hs[i], t);
      StepKeepsOneEach(owner, hs[i - 1], hs[i], t);
    }
  }

  /** The log is only added to. */
  lemma {:induction false} LogGrows<K(!new), E>(owner: E -> K, hs: seq<History<K, E>>, i: nat, j: nat)
    requires IsRun(owner, hs) && i <= j < |hs|
    ensures hs[i].log <= hs[j].log
  {
    if i < j {
      LogGrows(owner, hs, i, j - 1);
      assert Next(owner, hs[j - 1], hs[j]);
    }
  }

  // ---------------------------------------------------------------- one call for each operation

  /** At the step from `j` to the next state the call of `t` performs operation `p`. */
  ghost predicate Performed<K, E>(hs: seq<History<K, E>>, j: nat, t: K, p: nat) {
    && j + 1 < |hs| && |hs[j].log| == p && t in hs[j].calls && t in hs[j + 1].calls
    && var c, c' := hs[j].calls[t], hs[j + 1].calls[t];
       c.active && c.at == -1 && c.start <= p && c' == c.(at := p)
  }

  /** Every operation in the log was performed by a call in progress of the thread it belongs to. */
  lemma {:induction false} EveryOperationHasACall<K(!new), E>(owner: E -> K, hs: seq<History<K, E>>, i: nat, p: nat)
    returns (j: nat)
    requires IsRun(owner, hs) && i < |hs| && p < |hs[i].log|
    ensures j < i && Performed(hs, j, owner(hs[i].log[p]), p)
  {
    var k := i - 1;
    assert Next(owner, hs[k], hs[i]);
    if p < |hs[k].log| {
      j := EveryOperationHasACall(owner, hs, k, p);
      assert hs[i].log[p] == hs[k].log[p];
    } else {
      var t :| StepOf(owner, hs[k], hs[i], t);
      RunsKeepOneEach(owner, hs, k);
      assert OneOperation(owner, hs[k].log, t, hs[k].calls[t]);
      j := k;
    }
  }

  // ---------------------------------------------------------------- the order of calls

  predicate Effective<K(==), E>(h: History<K, E>, t: K) { t in h.calls && h.calls[t].active && h.calls[t].at != -1 }

  predicate Idle<K(==), E>(h: History<K, E>, t: K) { t in h.calls && !h.calls[t].active }

  /** The call of a thread that was idle began later, and says so. */
  lemma {:induction false} BeginsLater<K(!new), E>(owner: E -> K, hs: seq<History<K, E>>, k: nat, j: nat, u: K)
    requires IsRun(owner, hs) && k <= j < |hs| && Idle(hs[k], u)
    ensures u in hs[j].calls && (hs[j].calls[u].active ==> hs[j].calls[u].start >= |hs[k].log|)
  {
    if k < j {
      BeginsLater(owner, hs, k, j - 1, u);
      LogGrows(owner, hs, k, j - 1);
      assert Next(owner, hs[j - 1], hs[j]);
    }
  }

  /** A call that begins after another has performed its operation performs its own later. */
  lemma OrderIsKept<K(!new), E>(owner: E -> K, hs: seq<History<K, E>>, i: nat, t: K, k: nat, j: nat, u: K)
    requires IsRun(owner, hs) && i <= k <= j < |hs| && Effective(hs[i], t) && Idle(hs[k], u) && Effective(hs[j], u)
    ensures hs[i].calls[t].at < hs[j].calls[u].at
  {
    BeginsLater(owner, hs, k, j, u);
    LogGrows(owner, hs, i, k);
    RunsKeepOneEach(owner, hs, i);
    RunsKeepOneEach(owner, hs, j);
    var c := hs[j].calls[u];
    assert OneOperation(owner, hs[j].log, u, c) && c.at as nat in OperationsOf(owner, hs[j].log, c.start, u);
    assert OneOperation(owner, hs[i].log, t, hs[i].calls[t]);
  }

  /** The instants after `i` up to `j` are those of one call of `t`, which is idle at `i`. */
  ghost predicate OneCall<K(!new), E>(hs: seq<History<K, E>>, i: nat, j: nat, t: K) {
    && i < j < |hs| && Idle(hs[i], t)
    && forall k :: i < k <= j ==> t in hs[k].calls && hs[k].calls[t].active
  }

  // ---------------------------------------------------------------- all of it

  ghost predicate WasPerformed<K(!new), E>(owner: E -> K, hs: seq<History<K, E>>, i: nat, p: nat)
    requires i < |hs| && p < |hs[i].log|
  {
    exists j :: 0 <= j < i && Performed(hs, j, owner(hs[i].log[p]), p)
  }

  /**
   Calls and log fit together: the log is only added to; a call in progress or just finished has exactly
   the one operation it knows of, or none; every operation was performed by a call in progress; and if a
   thread is idle after a call has taken effect, then its own next call takes effect later in the log.
   */
  ghost predicate CallsFit<K(!new), E>(owner: E -> K, hs: seq<History<K, E>>, i: nat)
    requires i < |hs|
  {
    && (forall j :: i <= j < |hs| ==> hs[i].log <= hs[j].log)
    && OneEach(owner, hs[i])
    && (forall p :: 0 <= p < |hs[i].log| ==> WasPerformed(owner, hs, i, p))
    && (forall t, k, j, u :: i <= k <= j < |hs| && Effective(hs[i], t) && Idle(hs[k], u) && Effective(hs[j], u) ==>
          hs[i].calls[t].at < hs[j].calls[u].at)
  }

  lemma RunsFit<K(!new), E>(owner: E -> K, hs: seq<History<K, E>>, i: nat)
    requires IsRun(owner, hs) && i < |hs|
    ensures CallsFit(owner, hs, i)
  {
    hide Next, Performed, OneOperation;
    forall j | i <= j < |hs| ensures hs[i].log <= hs[j].log { LogGrows(owner, hs, i, j); }
    RunsKeepOneEach(owner, hs, i);
    forall p | 0 <= p < |hs[i].log| ensures WasPerformed(owner, hs, i, p) {
      var j := EveryOperationHasACall(owner, hs, i, p);
    }
    forall t, k, j, u | i <= k <= j < |hs| && Effective(hs[i], t) && Idle(hs[k], u) && Effective(hs[j], u)
      ensures hs[i].calls[t].at < hs[j].calls[u].at
    {
      OrderIsKept(owner, hs, i, t, k, j, u);
    }
  }
}
