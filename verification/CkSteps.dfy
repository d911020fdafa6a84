/**
 What follows from a state, for the state machines of Concurrency Kit.
 */
module CkSteps {
  ghost predicate Steps<S(!new)>(next: (S, S) -> bool, run: seq<S>) {
    |run| > 0 && forall i, j :: 0 <= i < j == i + 1 < |run| ==> next(run[i], run[j])
  }

  ghost predicate Leads<S(!new)>(next: (S, S) -> bool, s: S, s': S) {
    exists run :: Steps(next, run) && run[0] == s && run[|run| - 1] == s'
  }

  lemma LeadsToItself<S(!new)>(next: (S, S) -> bool, s: S)
    ensures Leads(next, s, s)
  {
    assert Steps(next, [s]) && [s][0] == s;
  }

  lemma LeadsOn<S(!new)>(next: (S, S) -> bool, s: S, s1: S, s2: S)
    requires Leads(next, s, s1) && next(s1, s2)
    ensures Leads(next, s, s2)
  {
    var run :| Steps(next, run) && run[0] == s && run[|run| - 1] == s1;
    var run' := run + [s2];
    forall i, j | 0 <= i < j == i + 1 < |run'| ensures next(run'[i], run'[j]) {
      if j < |run| { assert next(run[i], run[j]); }
    }
    assert Steps(next, run') && run'[0] == s && run'[|run'| - 1] == s2;
  }

  lemma LeadsThrough<S(!new)>(next: (S, S) -> bool, s: S, s1: S, s2: S)
    requires Leads(next, s, s1) && Leads(next, s1, s2)
    ensures Leads(next, s, s2)
  {
    var a :| Steps(next, a) && a[0] == s && a[|a| - 1] == s1;
    var b :| Steps(next, b) && b[0] == s1 && b[|b| - 1] == s2;
    var run := a + b[1..];
    forall i, j | 0 <= i < j == i + 1 < |run| ensures next(run[i], run[j]) {
      if j < |a| {
        assert next(a[i], a[j]);
      } else {
        assert next(b[i - |a| + 1], b[j - |a| + 1]);
        assert run[i] == b[i - |a| + 1];
      }
    }
    assert Steps(next, run) && run[0] == s && run[|run| - 1] == s2;
  }

  // ---------------------------------------------------------------- one thread alone

  /** Thread `t` takes `n` steps on the memory while all others stand still. */
  function Alone<M, L>(step: (M, nat, L) -> (M, L), m: M, t: nat, l: L, n: nat): (M, L)
    decreases n
  {
    if n == 0 then (m, l) else var (m', l') := step(m, t, l); Alone(step, m', t, l', n - 1)
  }

  lemma {:induction false} AloneThen<M, L>(step: (M, nat, L) -> (M, L), m: M, t: nat, l: L, a: nat, b: nat)
    ensures var (m', l') := Alone(step, m, t, l, a); Alone(step, m, t, l, a + b) == Alone(step, m', t, l', b)
    decreases a
  {
    if a > 0 {
      var (m', l') := step(m, t, l);
      AloneThen(step, m', t, l', a - 1, b);
    }
  }

  lemma AloneOnce<M, L>(step: (M, nat, L) -> (M, L), m: M, t: nat, l: L)
    ensures Alone(step, m, t, l, 1) == step(m, t, l)
  {
    var (m', l') := step(m, t, l);
    assert Alone(step, m', t, l', 0) == (m', l');
  }

  /** One more step after those before. */
  lemma AloneMore<M, L>(step: (M, nat, L) -> (M, L), m: M, t: nat, l: L, n: nat, m1: M, l1: L)
    requires Alone(step, m, t, l, n) == (m1, l1)
    ensures Alone(step, m, t, l, n + 1) == step(m1, t, l1)
  {
    AloneThen(step, m, t, l, n, 1);
    AloneOnce(step, m1, t, l1);
  }

  // ---------------------------------------------------------------- how far the threads are from idle

  /** The ranks of the threads below `n` added up. */
  function Sum<L>(rank: L -> nat, m: map<nat, L>, n: nat): nat {
    if n == 0 then 0 else Sum(rank, m, n - 1) + if n - 1 in m then rank(m[n - 1]) else 0
  }

  lemma {:induction false} SumUpdate<L>(rank: L -> nat, m: map<nat, L>, n: nat, t: nat, l: L)
    requires t in m
    ensures Sum(rank, m[t := l], n) == Sum(rank, m, n) + if t < n then rank(l) - rank(m[t]) else 0
  {
    if n > 0 { SumUpdate(rank, m, n - 1, t, l); }
  }

  /** The ranks of the first `k` threads added up. */
  function Total<L>(rank: L -> nat, ls: seq<L>, k: nat): nat
    requires k <= |ls|
  {
    if k == 0 then 0 else Total(rank, ls, k - 1) + rank(ls[k - 1])
  }

  lemma {:induction false} TotalUpdate<L>(rank: L -> nat, ls: seq<L>, k: nat, t: nat, l: L)
    requires k <= |ls| && t < |ls|
    ensures Total(rank, ls[t := l], k) == Total(rank, ls, k) + if t < k then rank(l) - rank(ls[t]) else 0
  {
    if k > 0 { TotalUpdate(rank, ls, k - 1, t, l); }
  }

  lemma {:induction false} AllBelow<L(!new)>(m: map<nat, L>) returns (n: nat)
    ensures forall t <- m :: t < n
    decreases |m|
  {
    if m == map[] {
      return 0;
    }
    var t :| t in m;
    var m' := m - {t};
    assert m.Keys == m'.Keys + {t};
    n := AllBelow(m');
    assert forall u <- m :: u == t || u in m';
    n := if t < n then n else t + 1;
  }

  /** If each number is that of a thread of its own, there are no more numbers than threads. */
  lemma {:induction false} NoMoreThan<L(!new)>(has: (L, nat) -> bool, m: map<nat, L>, ns: set<nat>, ts: set<nat>)
    requires ts <= m.Keys && forall n <- ns :: exists t <- ts :: has(m[t], n)
    requires forall l, a, b :: has(l, a) && has(l, b) ==> a == b
    ensures |ns| <= |ts|
    decreases |ns|
  {
    if ns != {} {
      var n :| n in ns;
      var t :| t in ts && has(m[t], n);
      forall k | k in ns - {n} ensures exists u <- ts - {t} :: has(m[u], k) {
        var u :| u in ts && has(m[u], k);
        assert u != t;
      }
      NoMoreThan(has, m, ns - {n}, ts - {t});
    }
  }
}
