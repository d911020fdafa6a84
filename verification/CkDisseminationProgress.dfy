/**
 The dissemination barrier of `ck_barrier_dissemination.c` opens: once all threads have entered an episode,
 each of them leaves it, by steps of threads inside the barrier.
 */
module CkDisseminationProgress {
  import opened CkDissemination
  import opened CkSteps

  /** A thread inside the barrier takes its next step; nobody enters. */
  ghost predicate GoesOn(s: State, s': State) {
    exists i :: 0 <= i < |s.threads| && s.threads[i].pc != Idle && s' == Step(s, i)
  }

  lemma GoingOnIsNext(s: State, i: nat)
    requires i < |s.threads| && s.threads[i].pc != Idle
    ensures Next(s, Step(s, i)) && GoesOn(s, Step(s, i))
  {
  }

  // ---------------------------------------------------------------- how far a thread has to go

  /** The steps to the end of episode `e` for a thread that has entered it, with `n` threads. */
  function Left(l: Local, e: nat, n: nat): nat {
    if l.episode > e || l.pc == Idle || l.round >= Rounds(n) then 0 else
    2 * (Rounds(n) - l.round) - if l.pc == Wait then 1 else 0
  }

  function Rank(e: nat, n: nat): Local -> nat { l => Left(l, e, n) }

  /** No thread has further to go than `i`. */
  ghost predicate IsLast(threads: seq<Local>, e: nat, i: nat, k: nat)
    requires k <= |threads|
  {
    i < k && forall u :: 0 <= u < k ==> Left(threads[u], e, |threads|) <= Left(threads[i], e, |threads|)
  }

  lemma {:induction false} Last(threads: seq<Local>, e: nat, k: nat) returns (i: nat)
    requires 0 < k <= |threads|
    ensures IsLast(threads, e, i, k)
  {
    hide Left;
    i := k - 1;
    if k > 1 {
      var j := Last(threads, e, k - 1);
      if Left(threads[i], e, |threads|) < Left(threads[j], e, |threads|) { i := j; }
    }
  }

  // ---------------------------------------------------------------- the last thread can move on

  lemma LastCanMove(s: State, e: nat, i: nat)
    requires Inv(s) && AllEntered(s.threads, e) && IsLast(s.threads, e, i, |s.threads|)
    requires Left(s.threads[i], e, |s.threads|) > 0
    ensures Left(Step(s, i).threads[i], e, |s.threads|) < Left(s.threads[i], e, |s.threads|)
  {
    var n, l := |s.threads|, s.threads[i];
    assert ThreadInv(s.threads, i) && Entered(l, e);
    if l.pc == Wait {
      var j := SourceOf(n, i, l.round);
      assert ThreadInv(s.threads, j) && Entered(s.threads[j], e) && FlagInv(s, j, l.round, l.parity);
      assert Left(s.threads[j], e, n) <= Left(l, e, n);
      assert Signals(s.threads[j], l.round) > l.episode;
      EpisodesClose(s.threads, i, j);
      FlagMeansSignal(Signals(s.threads[j], l.round), l.episode);
    }
  }

  // ---------------------------------------------------------------- everybody leaves

  lemma StepKeepsEntered(s: State, i: nat, e: nat)
    requires i < |s.threads| && AllEntered(s.threads, e)
    ensures AllEntered(Step(s, i).threads, e)
    ensures |Step(s, i).threads| == |s.threads| && Step(s, i).threads == s.threads[i := Step(s, i).threads[i]]
  {
    forall u | 0 <= u < |s.threads| ensures Entered(Step(s, i).threads[u], e) { assert Entered(s.threads[u], e); }
  }

  lemma NobodyLeft(s: State, e: nat, i: nat)
    requires Inv(s) && AllEntered(s.threads, e) && IsLast(s.threads, e, i, |s.threads|)
    requires Left(s.threads[i], e, |s.threads|) == 0
    ensures forall u :: 0 <= u < |s.threads| ==> s.threads[u].episode > e
  {
    forall u | 0 <= u < |s.threads| ensures s.threads[u].episode > e {
      assert ThreadInv(s.threads, u) && Entered(s.threads[u], e);
    }
  }

  lemma {:induction false} AllGetThrough(s: State, e: nat) returns (s': State)
    requires Inv(s) && |s.threads| > 0 && AllEntered(s.threads, e)
    ensures Leads(GoesOn, s, s') && |s'.threads| == |s.threads|
    ensures forall u :: 0 <= u < |s'.threads| ==> s'.threads[u].episode > e
    decreases Total(Rank(e, |s.threads|), s.threads, |s.threads|)
  {
    hide Inv, Step, Leads, GoesOn, Total, AllEntered, Entered;
    var n := |s.threads|;
    LeadsToItself(GoesOn, s);
    var i := Last(s.threads, e, n);
    if Left(s.threads[i], e, n) == 0 {
      NobodyLeft(s, e, i);
      return s;
    }
    LastCanMove(s, e, i);
    var s1 := Step(s, i);
    GoingOnIsNext(s, i);
    NextKeepsInv(s, s1);
    StepKeepsEntered(s, i, e);
    TotalUpdate(Rank(e, n), s.threads, n, i, s1.threads[i]);
    s' := AllGetThrough(s1, e);
    LeadsOn(GoesOn, s, s, s1);
    LeadsThrough(GoesOn, s, s1, s');
  }

  /** Once all threads have entered an episode, in whatever state a run is, all of them get out of it. */
  lemma EverybodyLeaves(run: seq<State>, i: nat, e: nat) returns (s': State)
    requires IsRun(run) && i < |run| && AllEntered(run[i].threads, e)
    ensures Leads(GoesOn, run[i], s') && |s'.threads| == |run[i].threads|
    ensures forall u :: 0 <= u < |s'.threads| ==> s'.threads[u].episode > e
  {
    RunsKeepInv(run, i);
    s' := AllGetThrough(run[i], e);
  }
}
