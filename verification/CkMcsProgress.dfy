/**
 The MCS tree barrier of `ck_barrier_mcs.c` opens: once all threads have entered an episode, each of them
 leaves it, by steps of threads inside the barrier.
 */
module CkMcsProgress {
  import opened CkMcs
  import opened CkSteps

  /** A thread inside the barrier takes its next step; nobody enters. */
  ghost predicate GoesOn(s: State, s': State) {
    Sized(s) && exists i :: 0 <= i < |s.threads| && s.threads[i].pc != Idle && s' == Step(s, i)
  }

  lemma GoingOnIsNext(s: State, i: nat)
    requires Sized(s) && i < |s.threads| && s.threads[i].pc != Idle
    ensures Next(s, Step(s, i)) && GoesOn(s, Step(s, i))
  {
  }

  ghost predicate AllEntered(threads: seq<Local>, episode: nat) {
    forall u :: 0 <= u < |threads| ==> Entered(threads[u], episode)
  }

  // ---------------------------------------------------------------- how far a thread has to go

  /** The steps to the end of episode `e` for a thread that has entered it and finds nothing to wait for. */
  function Left(l: Local, e: nat): nat {
    if l.episode > e then 0 else
    match l.pc
    case Idle => 0
    case Check(j) => if j < 4 then 12 - j else 9
    case Reinit(j) => if j < 4 then 8 - j else 5
    case Notify => 4
    case Await => 3
    case Wake(j) => if j == 0 then 2 else 1
  }

  function Rank(e: nat): Local -> nat { l => Left(l, e) }

  /** Thread `i` is in episode `e`, and its step takes it further. */
  ghost predicate CanMove(s: State, e: nat, i: nat) {
    && Sized(s) && i < |s.threads| && s.threads[i].pc != Idle
    && Left(Step(s, i).threads[i], e) < Left(s.threads[i], e)
  }

  // ---------------------------------------------------------------- somebody has nothing to wait for

  predicate Checks(l: Local, e: nat) { l.episode == e && l.pc.Check? }

  predicate Awaits(l: Local, e: nat) { l.episode == e && l.pc.Await? }

  predicate Through(l: Local, e: nat) { l.episode > e }

  /** Where a thread of episode `e` has nothing to wait for. */
  predicate Runs(l: Local, e: nat) { l.episode == e && (l.pc.Reinit? || l.pc.Notify? || l.pc.Wake?) }

  /** The last of the first `n` threads that are waiting for their children, or `n`. */
  lemma {:induction false} LastCheck(threads: seq<Local>, e: nat, n: nat) returns (i: nat)
    requires n <= |threads|
    ensures i <= n && (i < n ==> Checks(threads[i], e))
    ensures forall u :: 0 <= u < n && Checks(threads[u], e) ==> u <= i < n
  {
    i := n;
    if n > 0 {
      if Checks(threads[n - 1], e) { return n - 1; }
      i := LastCheck(threads, e, n - 1);
      i := if i == n - 1 then n else i;
    }
  }

  /** The first thread from `k` on that is waiting to be woken, or the end. */
  lemma {:induction false} FirstAwait(threads: seq<Local>, e: nat, k: nat) returns (i: nat)
    requires k <= |threads|
    ensures k <= i <= |threads| && (i < |threads| ==> Awaits(threads[i], e))
    ensures forall u :: k <= u < |threads| && Awaits(threads[u], e) ==> i <= u
    decreases |threads| - k
  {
    i := k;
    if k < |threads| && !Awaits(threads[k], e) { i := FirstAwait(threads, e, k + 1); }
  }

  lemma {:induction false} SomeRunner(threads: seq<Local>, e: nat, k: nat) returns (i: nat)
    requires k <= |threads|
    ensures i <= k && (i < k ==> Runs(threads[i], e))
    ensures i == k ==> forall u :: 0 <= u < k ==> !Runs(threads[u], e)
  {
    i := k;
    if k > 0 {
      if Runs(threads[k - 1], e) { return k - 1; }
      i := SomeRunner(threads, e, k - 1);
      i := if i == k - 1 then k else i;
    }
  }

  /** A thread whose children have all told it of their arrival gets past them. */
  lemma CheckPasses(s: State, e: nat, i: nat)
    requires Inv(s) && i < |s.threads| && Checks(s.threads[i], e)
    requires forall u :: i < u < |s.threads| ==> Awaits(s.threads[u], e) || Through(s.threads[u], e)
    ensures CanMove(s, e, i)
  {
    var j := s.threads[i].pc.j;
    assert PcInv(i, s.threads[i]);
    assert SlotInv(s, i, j);
    var c := 4 * i + j + 1;
    assert c < |s.threads| ==> Awaits(s.threads[c], e) || Through(s.threads[c], e);
    assert !s.notready[i][j];
  }

  /** A thread whose parent in the wake-up tree is through has been woken. */
  lemma AwaitPasses(s: State, e: nat, i: nat)
    requires Inv(s) && i < |s.threads| && Awaits(s.threads[i], e)
    requires forall u :: 0 <= u < i ==> Through(s.threads[u], e)
    ensures CanMove(s, e, i)
  {
    assert PcInv(i, s.threads[i]);
    var p, j := (i - 1) / 2, (i - 1) % 2;
    assert 2 * p + j + 1 == i;
    assert WakeInv(s, p, j) && Through(s.threads[p], e);
    assert Woken(s.threads[p], j) == e + 1;
  }

  lemma RunnerMoves(s: State, e: nat, i: nat)
    requires Inv(s) && i < |s.threads| && Runs(s.threads[i], e)
    ensures CanMove(s, e, i)
  {
    assert PcInv(i, s.threads[i]);
  }

  lemma OfFour(l: Local, e: nat)
    requires Entered(l, e) && !Runs(l, e)
    ensures Checks(l, e) || Awaits(l, e) || Through(l, e)
  {
  }

  /** In an episode that all have entered and not all have left, somebody can go on. */
  lemma SomeoneCanMove(s: State, e: nat) returns (i: nat)
    requires Inv(s) && AllEntered(s.threads, e)
    ensures if i < |s.threads| then CanMove(s, e, i) else forall u :: 0 <= u < |s.threads| ==> Through(s.threads[u], e)
  {
    hide Inv, CanMove, Checks, Awaits, Through, Runs, Entered;
    var n := |s.threads|;
    i := SomeRunner(s.threads, e, n);
    if i < n {
      RunnerMoves(s, e, i);
      return;
    }
    forall u | 0 <= u < n
      ensures Checks(s.threads[u], e) || Awaits(s.threads[u], e) || Through(s.threads[u], e)
    {
      OfFour(s.threads[u], e);
    }
    i := LastCheck(s.threads, e, n);
    if i < n {
      CheckPasses(s, e, i);
      return;
    }
    i := FirstAwait(s.threads, e, 0);
    if i < n { AwaitPasses(s, e, i); }
  }

  // ---------------------------------------------------------------- everybody leaves

  lemma StepKeepsEntered(s: State, i: nat, e: nat)
    requires Sized(s) && i < |s.threads| && AllEntered(s.threads, e)
    ensures AllEntered(Step(s, i).threads, e)
    ensures |Step(s, i).threads| == |s.threads| && Step(s, i).threads == s.threads[i := Step(s, i).threads[i]]
  {
    forall u | 0 <= u < |s.threads| ensures Entered(Step(s, i).threads[u], e) { assert Entered(s.threads[u], e); }
  }

  lemma {:induction false} AllGetThrough(s: State, e: nat) returns (s': State)
    requires Inv(s) && AllEntered(s.threads, e)
    ensures Leads(GoesOn, s, s') && |s'.threads| == |s.threads|
    ensures forall u :: 0 <= u < |s'.threads| ==> s'.threads[u].episode > e
    decreases Total(Rank(e), s.threads, |s.threads|)
  {
    hide Inv, Step, Leads, GoesOn, Total, AllEntered, Entered, Left;
    var n := |s.threads|;
    LeadsToItself(GoesOn, s);
    var i := SomeoneCanMove(s, e);
    if i >= n { return s; }
    var s1 := Step(s, i);
    GoingOnIsNext(s, i);
    NextKeepsInv(s, s1);
    StepKeepsEntered(s, i, e);
    TotalUpdate(Rank(e), s.threads, n, i, s1.threads[i]);
    s' := AllGetThrough(s1, e);
    LeadsOn(GoesOn, s, s, s1);
    LeadsThrough(GoesOn, s, s1, s');
  }

  /** Once all threads have entered an episode, in whatever state a run is, all of them get out of it. */
  lemma EverybodyLeaves(run: seq<State>, i: nat, e: nat) returns (s': State)
    requires IsRun(run) && i < |run| && AllEntered(run[i].threads, e)
    ensures Leads(GoesOn, run[i], s') && |s'.threads| == |run[i].threads|
    ensures forall u :: 0 <= u < |s'.threads| ==> s'.threads[u].episode > e
  {
    RunsKeepInv(run, i);
    s' := AllGetThrough(run[i], e);
  }
}
