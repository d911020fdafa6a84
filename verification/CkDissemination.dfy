/**
 The dissemination barrier of `ck_barrier_dissemination.c`, for every number of threads and
 any number of episodes. A store to a partner's flag and a load of one's own flag are atomic
 steps. The thread field `episode` is history: the source keeps only parity and sense.
 */
module CkDissemination {
  import opened Arith

  /** One word of a thread's two flag sets. */
  datatype Flag = Flag(thread: nat, parity: nat, round: nat)

  datatype Pc = Idle | Signal | Wait

  datatype Local = Local(pc: Pc, round: nat, parity: nat, sense: bool, episode: nat)

  /** `flags` lists the words ever stored to; all others are still zero. */
  datatype State = State(flags: map<Flag, bool>, threads: seq<Local>)

  /** `ck_internal_log(ck_internal_power_2(nthr))`: the least power of two that covers all threads. */
  function Rounds(nthr: nat): (r: nat)
    ensures Pow2(r) >= nthr && (r > 0 ==> Pow2(r - 1) < nthr)
  {
    if nthr <= 1 then 0 else 1 + Rounds((nthr + 1) / 2)
  }

  /** The thread that `i` unblocks in round `k`. */
  function Partner(nthr: nat, i: nat, k: nat): (j: nat)
    requires nthr > 0
    ensures j < nthr
  {
    (i + Pow2(k)) % nthr
  }

  /** For a power of two the source masks instead of dividing. */
  lemma PartnerByMask(bits: nat, i: nat, k: nat)
    ensures BitAnd(i + Pow2(k), Pow2(bits) - 1) == Partner(Pow2(bits), i, k)
  {
    MaskIsMod(i + Pow2(k), bits);
  }

  function Read(flags: map<Flag, bool>, f: Flag): bool {
    f in flags && flags[f]
  }

  ghost predicate Init(s: State) {
    && |s.threads| > 0 && s.flags == map[]
    && (forall i :: 0 <= i < |s.threads| ==> s.threads[i] == Local(Idle, 0, 0, true, 0))
  }

  /** The end of the call: the other flag set is next, and every second time the other sense. */
  function Leave(l: Local): Local {
    l.(pc := Idle, round := 0, sense := if l.parity == 1 then !l.sense else l.sense,
      parity := if l.parity == 1 then 0 else 1, episode := l.episode + 1)
  }

  function Step(s: State, i: nat): State
    requires i < |s.threads|
  {
    var n, l := |s.threads|, s.threads[i];
    match l.pc
    case Idle =>
      s.(threads := s.threads[i := if Rounds(n) == 0 then Leave(l) else l.(pc := Signal, round := 0)])
    case Signal =>
      State(s.flags[Flag(Partner(n, i, l.round), l.parity, l.round) := l.sense], s.threads[i := l.(pc := Wait)])
    case Wait =>
      if Read(s.flags, Flag(i, l.parity, l.round)) != l.sense then s
      else s.(threads := s.threads[i := if l.round + 1 >= Rounds(n) then
        Leave(l) else l.(pc := Signal, round := l.round + 1)])
  }

  ghost predicate Next(s: State, s': State) {
    exists i :: 0 <= i < |s.threads| && s' == Step(s, i)
  }

  ghost predicate IsRun(run: seq<State>) {
    && |run| > 0 && Init(run[0])
    && forall i :: 0 <= i < |run| - 1 ==> Next(run[i], run[i + 1])
  }

  // ---------------------------------------------------------------- the invariant

  predicate SenseOf(episode: nat) { episode / 2 % 2 == 0 }

  /** In how many episodes the thread has signalled in round `k`. */
  function Signals(l: Local, k: nat): nat {
    l.episode + if l.pc != Idle && (k < l.round || (k == l.round && l.pc == Wait)) then 1 else 0
  }

  /** The value a flag of parity `p` has after signals in episodes `0 .. count - 1`. */
  function LastSense(count: nat, p: nat): bool {
    if count > 0 && (count - 1) % 2 == p then SenseOf(count - 1)
    else if count > 1 then SenseOf(count - 2)
    else false
  }

  predicate Entered(l: Local, episode: nat) {
    l.episode > episode || (l.episode == episode && l.pc != Idle)
  }

  ghost predicate AllEntered(threads: seq<Local>, episode: nat) {
    forall u :: 0 <= u < |threads| ==> Entered(threads[u], episode)
  }

  /** Thread `i` has heard, directly or not, from the `Pow2(k)` threads up to itself. */
  ghost predicate Heard(threads: seq<Local>, i: nat, k: nat, episode: nat) {
    forall d :: 0 <= d < Pow2(k) ==> Entered(Back(threads, i, d), episode)
  }

  function Back(threads: seq<Local>, i: nat, d: nat): Local
  {
    if |threads| == 0 then Local(Idle, 0, 0, true, 0) else threads[(i - d) % |threads|]
  }

  ghost predicate ThreadInv(threads: seq<Local>, i: nat)
    requires i < |threads|
  {
    var l := threads[i];
    && l.parity == l.episode % 2 && l.sense == SenseOf(l.episode)
    && (l.pc != Idle ==> l.round < Rounds(|threads|) && Heard(threads, i, l.round, l.episode))
    && (l.episode > 0 ==> AllEntered(threads, l.episode - 1))
  }

  ghost predicate FlagInv(s: State, i: nat, k: nat, p: nat)
    requires i < |s.threads|
  {
    Read(s.flags, Flag(Partner(|s.threads|, i, k), p, k)) == LastSense(Signals(s.threads[i], k), p)
  }

  ghost predicate AllFlags(s: State) {
    forall i, k, p {:trigger FlagInv(s, i, k, p)} ::
        0 <= i < |s.threads| && 0 <= k < Rounds(|s.threads|) && 0 <= p <= 1 ==> FlagInv(s, i, k, p)
  }

  ghost predicate Inv(s: State) {
    && |s.threads| > 0
    && (forall i :: 0 <= i < |s.threads| ==> ThreadInv(s.threads, i))
    && AllFlags(s)
  }

  // ---------------------------------------------------------------- arithmetic of partners

  lemma ModOfMod(x: int, d: int, n: nat)
    requires n > 0
    ensures (x % n - d) % n == (x - d) % n
  {
    var q, r := x / n, x % n;
    var q', r' := (r - d) / n, (r - d) % n;
    assert x - d == (q + q') * n + r' by {
      assert x == q * n + r && r - d == q' * n + r';
      assert (q + q') * n == q * n + q' * n;
    }
    DivModUnique(x - d, q + q', r', n);
  }

  lemma PartnersDiffer(n: nat, i: nat, j: nat, k: nat)
    requires i < n && j < n && i != j
    ensures Partner(n, i, k) != Partner(n, j, k)
  {
    ModInjective(if i < j then i + Pow2(k) else j + Pow2(k), if i < j then j + Pow2(k) else i + Pow2(k), n);
  }

  /** Who unblocks thread `i` in round `k`. */
  lemma SourceOf(n: nat, i: nat, k: nat) returns (j: nat)
    requires i < n
    ensures j < n && j == (i - Pow2(k)) % n && Partner(n, j, k) == i
  {
    j := (i - Pow2(k)) % n;
    ModOfMod(i - Pow2(k), -(Pow2(k) as int), n);
    assert i % n == i by { DivModUnique(i, 0, i, n); }
  }

  /** Every thread is some distance less than `n` behind thread `i`. */
  lemma SomeDistance(n: nat, i: nat, u: nat) returns (d: nat)
    requires i < n && u < n
    ensures d < n && u == (i - d) % n
  {
    if u <= i {
      d := i - u;
      DivModUnique(i - d, 0, u, n);
    } else {
      d := i - u + n;
      DivModUnique(i - d, -1, u, n);
    }
  }

  // ---------------------------------------------------------------- one step

  lemma SenseAlternates(e: nat)
    ensures SenseOf(e + 2) != SenseOf(e)
    ensures e % 2 == 1 ==> SenseOf(e + 1) != SenseOf(e)
    ensures e % 2 == 0 ==> SenseOf(e + 1) == SenseOf(e)
  {
  }

  /** Two parities with sense reversal suffice: the awaited value means a signal of this very episode. */
  lemma FlagMeansSignal(count: nat, e: nat)
    requires e <= count + 1 && count <= e + 2
    ensures LastSense(count, e % 2) == SenseOf(e) <==> count > e
  {
    if count + 1 == e {
      if e >= 2 { SenseAlternates(e - 2); }
    } else if count == e && e >= 2 {
      SenseAlternates(e - 2);
    }
  }

  lemma EpisodesClose(threads: seq<Local>, i: nat, j: nat)
    requires i < |threads| && j < |threads| && ThreadInv(threads, i) && ThreadInv(threads, j)
    ensures threads[i].episode <= threads[j].episode + 1 && threads[j].episode <= threads[i].episode + 1
  {
    if threads[i].episode > 0 { assert Entered(threads[j], threads[i].episode - 1); }
    if threads[j].episode > 0 { assert Entered(threads[i], threads[j].episode - 1); }
  }

  /** A thread that has signalled in round `k` of an episode had heard from `Pow2(k)` threads. */
  lemma SignallerHeard(threads: seq<Local>, j: nat, k: nat, e: nat)
    requires j < |threads| && ThreadInv(threads, j) && threads[j].episode <= e + 1 && Signals(threads[j], k) > e
    ensures Heard(threads, j, k, e)
  {
    var l := threads[j];
    if l.episode == e {
      Pow2Monotone(k, l.round);
      forall d | 0 <= d < Pow2(k) ensures Entered(Back(threads, j, d), e) {
        assert 0 <= d < Pow2(l.round);
      }
    }
  }

  lemma BackAgain(threads: seq<Local>, i: nat, p: nat, d: nat)
    requires i < |threads|
    ensures 0 <= (i - p) % |threads| < |threads| && Back(threads, (i - p) % |threads|, d) == Back(threads, i, p + d)
  {
    ModOfMod(i - p, d, |threads|);
    assert i - p - d == i - (p + d);
  }

  lemma HeardTwice(threads: seq<Local>, i: nat, j: nat, k: nat, e: nat)
    requires i < |threads| && j == (i - Pow2(k)) % |threads|
    requires Heard(threads, i, k, e) && Heard(threads, j, k, e)
    ensures Heard(threads, i, k + 1, e)
  {
    hide Back;
    forall d | 0 <= d < Pow2(k + 1) ensures Entered(Back(threads, i, d), e) {
      if d >= Pow2(k) {
        BackAgain(threads, i, Pow2(k), d - Pow2(k));
        assert Entered(Back(threads, j, d - Pow2(k)), e);
      }
    }
  }

  /** Passing the wait of round `k` doubles what a thread has heard. */
  lemma WaitDoubles(s: State, i: nat)
    requires Inv(s) && i < |s.threads| && s.threads[i].pc == Wait
    requires Read(s.flags, Flag(i, s.threads[i].parity, s.threads[i].round)) == s.threads[i].sense
    ensures Heard(s.threads, i, s.threads[i].round + 1, s.threads[i].episode)
  {
    var n, l := |s.threads|, s.threads[i];
    assert ThreadInv(s.threads, i);
    var j := SourceOf(n, i, l.round);
    assert ThreadInv(s.threads, j) && FlagInv(s, j, l.round, l.parity);
    hide Heard;
    EpisodesClose(s.threads, i, j);
    FlagMeansSignal(Signals(s.threads[j], l.round), l.episode);
    SignallerHeard(s.threads, j, l.round, l.episode);
    HeardTwice(s.threads, i, j, l.round, l.episode);
  }

  lemma HeardAll(threads: seq<Local>, i: nat, k: nat, e: nat)
    requires i < |threads| && Heard(threads, i, k, e) && Pow2(k) >= |threads|
    ensures AllEntered(threads, e)
  {
    forall u | 0 <= u < |threads| ensures Entered(threads[u], e) {
      var d := SomeDistance(|threads|, i, u);
      assert Entered(Back(threads, i, d), e);
    }
  }

  /** Nothing a thread has heard is ever unsaid. */
  ghost predicate Advances(threads: seq<Local>, threads': seq<Local>) {
    |threads'| == |threads| && forall u, e: nat :: 0 <= u < |threads| && Entered(threads[u], e) ==>
      Entered(threads'[u], e)
  }

  lemma OthersUndisturbed(threads: seq<Local>, threads': seq<Local>, j: nat)
    requires Advances(threads, threads') && j < |threads| && ThreadInv(threads, j) && threads'[j] == threads[j]
    ensures ThreadInv(threads', j)
  {
    var l := threads[j];
    forall d | 0 <= d < Pow2(l.round) && l.pc != Idle ensures Entered(Back(threads', j, d), l.episode) {
      assert Entered(Back(threads, j, d), l.episode);
    }
  }

  lemma SelfHeard(threads: seq<Local>, i: nat, e: nat)
    requires i < |threads| && Entered(threads[i], e)
    ensures Heard(threads, i, 0, e)
  {
    DivModUnique(i, 0, i, |threads|);
  }

  lemma HeardGrows(threads: seq<Local>, threads': seq<Local>, i: nat, k: nat, e: nat)
    requires Advances(threads, threads') && i < |threads| && Heard(threads, i, k, e)
    ensures Heard(threads', i, k, e)
  {
    forall d | 0 <= d < Pow2(k) ensures Entered(Back(threads', i, d), e) {
      assert Entered(Back(threads, i, d), e);
    }
  }

  lemma LeaveKeepsPhase(l: Local)
    requires l.parity == l.episode % 2 && l.sense == SenseOf(l.episode)
    ensures Leave(l).parity == Leave(l).episode % 2 && Leave(l).sense == SenseOf(Leave(l).episode)
  {
    SenseAlternates(l.episode);
  }

  lemma StepAdvances(s: State, i: nat)
    requires i < |s.threads|
    ensures Advances(s.threads, Step(s, i).threads)
  {
  }

  lemma EnterKeepsMe(s: State, i: nat)
    requires Inv(s) && i < |s.threads| && s.threads[i].pc == Idle
    ensures ThreadInv(Step(s, i).threads, i)
  {
    var s', l := Step(s, i), s.threads[i];
    assert ThreadInv(s.threads, i);
    hide Heard;
    StepAdvances(s, i);
    LeaveKeepsPhase(l);
    SelfHeard(s'.threads, i, l.episode);
    if Rounds(|s.threads|) == 0 {
      HeardAll(s'.threads, i, 0, l.episode);
    } else if l.episode > 0 {
      assert AllEntered(s'.threads, l.episode - 1);
    }
  }

  lemma WaitKeepsMe(s: State, i: nat)
    requires Inv(s) && i < |s.threads| && s.threads[i].pc == Wait && Step(s, i) != s
    ensures ThreadInv(Step(s, i).threads, i)
  {
    var s', l := Step(s, i), s.threads[i];
    assert ThreadInv(s.threads, i);
    WaitDoubles(s, i);
    hide Heard;
    StepAdvances(s, i);
    LeaveKeepsPhase(l);
    HeardGrows(s.threads, s'.threads, i, l.round + 1, l.episode);
    if l.round + 1 >= Rounds(|s.threads|) {
      Pow2Monotone(Rounds(|s.threads|), l.round + 1);
      HeardAll(s'.threads, i, l.round + 1, l.episode);
    } else if l.episode > 0 {
      assert AllEntered(s'.threads, l.episode - 1);
    }
  }

  lemma StepKeepsMe(s: State, i: nat)
    requires Inv(s) && i < |s.threads|
    ensures ThreadInv(Step(s, i).threads, i)
  {
    var l := s.threads[i];
    if l.pc == Idle {
      EnterKeepsMe(s, i);
    } else if l.pc == Signal {
      assert ThreadInv(s.threads, i);
      hide Heard;
      StepAdvances(s, i);
      HeardGrows(s.threads, Step(s, i).threads, i, l.round, l.episode);
    } else if Step(s, i) != s {
      WaitKeepsMe(s, i);
    }
  }

  lemma FlagKept(s: State, i: nat, j: nat, k: nat, p: nat)
    requires i < |s.threads| && j < |s.threads| && k < Rounds(|s.threads|) && p <= 1
    requires ThreadInv(s.threads, i) && FlagInv(s, j, k, p)
    ensures FlagInv(Step(s, i), j, k, p)
  {
    hide Partner, Heard, AllEntered;
    var s', l := Step(s, i), s.threads[i];
    if j != i {
      PartnersDiffer(|s.threads|, i, j, k);
    } else if l.pc == Signal && k == l.round {
      assert Signals(s'.threads[i], k) == l.episode + 1 && Signals(l, k) == l.episode;
    } else {
      assert Signals(s'.threads[i], k) == Signals(l, k);
    }
  }

  lemma StepKeepsFlags(s: State, i: nat)
    requires Inv(s) && i < |s.threads|
    ensures AllFlags(Step(s, i))
  {
    assert |Step(s, i).threads| == |s.threads|;
    hide Step, FlagInv;
    forall j, k, p | 0 <= j < |s.threads| && 0 <= k < Rounds(|s.threads|) && 0 <= p <= 1
      ensures FlagInv(Step(s, i), j, k, p) {
      assert FlagInv(s, j, k, p) && ThreadInv(s.threads, i);
      FlagKept(s, i, j, k, p);
    }
  }

  lemma NextKeepsInv(s: State, s': State)
    requires Inv(s) && Next(s, s')
    ensures Inv(s')
  {
    var i :| 0 <= i < |s.threads| && s' == Step(s, i);
    StepAdvances(s, i);
    StepKeepsMe(s, i);
    StepKeepsFlags(s, i);
    forall j | 0 <= j < |s.threads| ensures ThreadInv(s'.threads, j) {
      if j != i {
        assert ThreadInv(s.threads, j);
        OthersUndisturbed(s.threads, s'.threads, j);
      }
    }
  }

  lemma {:induction false} RunsKeepInv(run: seq<State>, i: nat)
    requires IsRun(run) && i < |run|
    ensures Inv(run[i])
  {
    if i > 0 {
      RunsKeepInv(run, i - 1);
      assert Next(run[i - 1], run[i - 1 + 1]);
      NextKeepsInv(run[i - 1], run[i]);
    }
  }

  /** No thread has left an episode that some thread has not entered. */
  lemma NobodyLeavesEarly(run: seq<State>, i: nat, t: nat, u: nat, episode: nat)
    requires IsRun(run) && i < |run| && t < |run[i].threads| && u < |run[i].threads|
    requires run[i].threads[t].episode > episode
    ensures Entered(run[i].threads[u], episode)
  {
    RunsKeepInv(run, i);
    assert ThreadInv(run[i].threads, t);
    assert Entered(run[i].threads[u], run[i].threads[t].episode - 1);
  }

  /**
   In every run a waiting thread finds its sense in its flag exactly when its partner has signalled in this round of
   this episode.
   */
  lemma SignalsAreNeverConfused(run: seq<State>, i: nat, t: nat)
    requires IsRun(run) && i < |run| && t < |run[i].threads| && run[i].threads[t].pc == Wait
    ensures var l := run[i].threads[t];
            exists j :: 0 <= j < |run[i].threads| && Partner(|run[i].threads|, j, l.round) == t
                        && (Read(run[i].flags, Flag(t, l.parity, l.round)) == l.sense <==>
                           Signals(run[i].threads[j], l.round) > l.episode)
  {
    RunsKeepInv(run, i);
    var s, l := run[i], run[i].threads[t];
    var j := SourceOf(|s.threads|, t, l.round);
    assert ThreadInv(s.threads, t) && ThreadInv(s.threads, j) && FlagInv(s, j, l.round, l.parity);
    EpisodesClose(s.threads, t, j);
    FlagMeansSignal(Signals(s.threads[j], l.round), l.episode);
  }
}
