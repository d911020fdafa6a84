/**
 Nobody waits in vain for the phase-fair lock of `ck_pflock.h`: its history is exactly what its threads are
 doing, so that a release is a release, and in every state of every run somebody inside the lock can move on.
 */
module CkPflockProgress {
  import opened CkPflock
  import opened CkSteps
  import opened Ranges

  // ---------------------------------------------------------------- the counts are the threads

  predicate ReadsWith(l: Local, n: nat) { IsReader(l) && l.number == n }

  predicate WritesWith(l: Local, n: nat) { IsWriter(l) && l.ticket == n }

  ghost predicate HasReader(s: State, n: nat) { exists t <- s.threads :: ReadsWith(s.threads[t], n) }

  ghost predicate HasWriter(s: State, n: nat) { exists t <- s.threads :: WritesWith(s.threads[t], n) }

  /** Every arrival that has not left is that of a reader, every ticket handed out and not served that of a writer. */
  ghost predicate Owned(s: State) {
    && (forall n <- s.lock.inside :: HasReader(s, n))
    && (forall n {:trigger HasWriter(s, n)} :: s.lock.wout <= n < s.lock.win ==> HasWriter(s, n))
  }

  ghost predicate Acts(s: State, s': State, t: nat) {
    && t in s.threads && t in s'.threads && s'.threads == s.threads[t := s'.threads[t]]
    && StepOf(s.lock, s.threads[t], s'.lock, s'.threads[t])
  }

  lemma NextKeepsOwned(s: State, s': State)
    requires Inv(s) && Owned(s) && Next(s, s')
    ensures Owned(s')
  {
    var t :| t in s.threads && t in s'.threads && s'.threads == s.threads[t := s'.threads[t]]
             && StepOf(s.lock, s.threads[t], s'.lock, s'.threads[t]);
    assert Acts(s, s', t);
    hide Inv, Owned, Acts, HasReader, HasWriter;
    forall n | n in s'.lock.inside ensures HasReader(s', n) { StillReads(s, s', t, n); }
    forall n {:trigger HasWriter(s', n)} | s'.lock.wout <= n < s'.lock.win ensures HasWriter(s', n) {
      StillWrites(s, s', t, n);
    }
    OwnedBy(s');
  }

  lemma OwnedBy(s: State)
    requires forall n <- s.lock.inside :: HasReader(s, n)
    requires forall n {:trigger HasWriter(s, n)} :: s.lock.wout <= n < s.lock.win ==> HasWriter(s, n)
    ensures Owned(s)
  {
  }

  lemma StillReads(s: State, s': State, t: nat, n: nat)
    requires Inv(s) && Owned(s) && Acts(s, s', t) && n in s'.lock.inside
    ensures HasReader(s', n)
  {
    assert ThreadInv(s.lock, s.threads[t]);
    if !ReadsWith(s'.threads[t], n) {
      assert n in s.lock.inside && HasReader(s, n);
      var u :| u in s.threads && ReadsWith(s.threads[u], n);
      assert u != t && ReadsWith(s'.threads[u], n);
    }
  }

  lemma StillWrites(s: State, s': State, t: nat, n: nat)
    requires Inv(s) && Owned(s) && Acts(s, s', t) && s'.lock.wout <= n < s'.lock.win
    ensures HasWriter(s', n)
  {
    assert ThreadInv(s.lock, s.threads[t]);
    if !WritesWith(s'.threads[t], n) {
      assert s.lock.wout <= n < s.lock.win && HasWriter(s, n);
      var u :| u in s.threads && WritesWith(s.threads[u], n);
      assert u != t && WritesWith(s'.threads[u], n);
    }
  }

  ghost predicate Sound(s: State) { Inv(s) && Owned(s) }

  lemma NextKeepsSound(s: State, s': State)
    requires Sound(s) && Next(s, s')
    ensures Sound(s')
  {
    NextKeepsInv(s, s');
    NextKeepsOwned(s, s');
  }

  lemma {:induction false} RunsAreSound(run: seq<State>, i: nat)
    requires IsRun(run) && i < |run|
    ensures Sound(run[i])
  {
    hide Inv, Owned, Next;
    if i == 0 {
      RunsKeepInv(run, i);
      OwnedBy(run[0]);
    } else {
      RunsAreSound(run, i - 1);
      assert Next(run[i - 1], run[i - 1 + 1]);
      NextKeepsSound(run[i - 1], run[i]);
    }
  }

  /** In every run the arrivals that have not left are exactly the readers, and the tickets not served the writers. */
  lemma CountsAreThreads(run: seq<State>, i: nat, n: nat)
    requires IsRun(run) && i < |run|
    ensures n in run[i].lock.inside <==> HasReader(run[i], n)
    ensures run[i].lock.wout <= n < run[i].lock.win <==> HasWriter(run[i], n)
  {
    RunsAreSound(run, i);
    var s := run[i];
    if t :| t in s.threads && ReadsWith(s.threads[t], n) { assert ThreadInv(s.lock, s.threads[t]); }
    if t :| t in s.threads && WritesWith(s.threads[t], n) { assert ThreadInv(s.lock, s.threads[t]); }
  }

  /** When all threads are idle the lock is as good as new: arrivals and departures are the same. */
  lemma IdleMeansFree(run: seq<State>, i: nat)
    requires IsRun(run) && i < |run| && forall t <- run[i].threads :: run[i].threads[t].pc == Idle
    ensures var k := run[i].lock; k.rin == k.rout && k.win == k.wout && k.rin % RINC == 0
  {
    RunsAreSound(run, i);
    var s := run[i];
    assert forall n: nat :: !HasReader(s, n) && !HasWriter(s, n);
    assert s.lock.inside == {} by { assert forall n <- s.lock.inside :: HasReader(s, n); }
    assert !HasWriter(s, s.lock.wout);
    assert LockInv(s.lock) && TurnInv(s);
  }

  // ---------------------------------------------------------------- when a waiting thread passes

  /** A reader waits exactly for the end of the phase it arrived in. */
  lemma ReaderPassesExactly(run: seq<State>, i: nat, r: nat)
    requires IsRun(run) && i < |run| && r in run[i].threads && run[i].threads[r].pc == RWait
    ensures var k, l := run[i].lock, run[i].threads[r];
            Step(k, l).1.pc == RIn <==> k.phase.NoWriter? || k.phase.ticket != l.phase
  {
    RunsAreSound(run, i);
    var k, l := run[i].lock, run[i].threads[r];
    assert ThreadInv(k, l);
    ReaderPasses(k, l);
  }

  lemma ReaderPasses(k: Lock, l: Local)
    requires LockInv(k) && ThreadInv(k, l) && l.pc == RWait
    ensures Step(k, l).1.pc == RIn <==> k.phase.NoWriter? || k.phase.ticket != l.phase
    ensures k.phase.Announced? && l.number < k.phase.since ==> k.phase.ticket != l.phase
  {
    Digits(Arrivals(k), PhaseBits(k.phase));
  }

  /** A writer gets its turn exactly when all writers with earlier tickets have left. */
  lemma TurnComesExactly(run: seq<State>, i: nat, w: nat)
    requires IsRun(run) && i < |run| && w in run[i].threads && run[i].threads[w].pc == WTurn
    ensures var k, l := run[i].lock, run[i].threads[w];
            Step(k, l).1.pc == WAnnounce <==> forall n: nat :: n < l.ticket ==> !HasWriter(run[i], n)
  {
    RunsAreSound(run, i);
    var s := run[i];
    var k, l := s.lock, s.threads[w];
    assert ThreadInv(k, l);
    if k.wout < l.ticket { assert HasWriter(s, k.wout); }
    forall n: nat | n < l.ticket && HasWriter(s, n) ensures k.wout <= n { CountsAreThreads(run, i, n); }
  }

  /** It enters exactly when all readers that arrived before its announcement have left. */
  lemma DrainEndsExactly(run: seq<State>, i: nat, w: nat)
    requires IsRun(run) && i < |run| && w in run[i].threads && run[i].threads[w].pc == WDrain
    ensures var k, l := run[i].lock, run[i].threads[w];
            && k.phase.Announced? && k.phase.ticket == l.ticket
            && (Step(k, l).1.pc == WIn <==> forall n: nat :: n < k.phase.since ==> !HasReader(run[i], n))
  {
    RunsAreSound(run, i);
    var s := run[i];
    var k, l := s.lock, s.threads[w];
    assert ThreadInv(k, l);
    Drained(k, l);
    forall n: nat ensures n in k.inside <==> HasReader(s, n) { CountsAreThreads(run, i, n); }
  }

  lemma Drained(k: Lock, l: Local)
    requires LockInv(k) && ThreadInv(k, l) && l.pc == WDrain
    ensures k.rout == l.snapshot <==> forall n <- k.inside :: k.phase.since <= n
  {
    var since := k.phase.since;
    if k.rout == l.snapshot {
      EarlierOnesLeft(k.inside, since, Arrivals(k));
    } else if forall n <- k.inside :: since <= n {
      assert k.inside == Range(since, Arrivals(k));
      RangeSize(since, Arrivals(k));
    }
  }

  // ---------------------------------------------------------------- somebody can move on

  function Rank(l: Local): nat {
    match l.pc
    case Idle => 0
    case RWait => 2
    case RIn => 1
    case WTurn => 5
    case WAnnounce => 4
    case WDrain => 3
    case WIn => 2
    case WRelease => 1
  }

  ghost predicate CanMove(s: State, t: nat) {
    t in s.threads && Rank(Step(s.lock, s.threads[t]).1) < Rank(s.threads[t])
  }

  /** Unless all threads are idle one of them has a step that takes it further. */
  lemma SomeoneCanMove(s: State) returns (t: nat)
    requires Sound(s) && exists u <- s.threads :: s.threads[u].pc != Idle
    ensures CanMove(s, t)
  {
    var k := s.lock;
    if u :| u in s.threads && s.threads[u].pc == RIn {
      return u;
    }
    if u :| u in s.threads && IsOwner(s.threads[u]) {
      t := OwnerCanMove(s, u);
    } else {
      t := OthersCanMove(s);
    }
  }

  lemma ReaderCanMove(s: State, t: nat)
    requires Inv(s) && t in s.threads && s.threads[t].pc == RWait
    requires s.lock.phase.NoWriter? || s.threads[t].number < s.lock.phase.since
    ensures CanMove(s, t)
  {
    assert ThreadInv(s.lock, s.threads[t]);
    hide ThreadInv, LockInv;
    ReaderPasses(s.lock, s.threads[t]);
  }

  lemma OwnerCanMove(s: State, u: nat) returns (t: nat)
    requires Sound(s) && u in s.threads && IsOwner(s.threads[u]) && forall v <- s.threads :: s.threads[v].pc != RIn
    ensures CanMove(s, t)
  {
    var k, l := s.lock, s.threads[u];
    assert LockInv(k) && ThreadInv(k, l);
    t := u;
    if l.pc == WDrain {
      Drained(k, l);
      hide LockInv, ThreadInv, Inv, CanMove;
      if n :| n in k.inside && n < k.phase.since {
        assert HasReader(s, n);
        t :| t in s.threads && ReadsWith(s.threads[t], n);
        ReaderCanMove(s, t);
      } else {
        assert CanMove(s, u) by { DrainedCanMove(s, u); }
      }
    }
  }

  lemma DrainedCanMove(s: State, u: nat)
    requires u in s.threads && s.threads[u].pc == WDrain && s.lock.rout == s.threads[u].snapshot
    ensures CanMove(s, u)
  {
  }

  lemma OthersCanMove(s: State) returns (t: nat)
    requires Sound(s) && (forall v <- s.threads :: s.threads[v].pc != RIn && !IsOwner(s.threads[v]))
    requires exists u <- s.threads :: s.threads[u].pc != Idle
    ensures CanMove(s, t)
  {
    var k := s.lock;
    assert k.phase.NoWriter? by { assert TurnInv(s); }
    t :| t in s.threads && s.threads[t].pc != Idle;
    assert s.threads[t].pc == WTurn ==> k.wout < k.win by { assert ThreadInv(k, s.threads[t]); }
    hide Inv;
    if s.threads[t].pc == RWait {
      ReaderCanMove(s, t);
    } else {
      assert HasWriter(s, k.wout);
      t :| t in s.threads && WritesWith(s.threads[t], k.wout);
    }
  }

  predicate InSection(l: Local) { l.pc == RIn || l.pc == WIn }

  function After(s: State, t: nat): State
    requires t in s.threads
  {
    var (k, l) := Step(s.lock, s.threads[t]);
    State(k, s.threads[t := l])
  }

  /** A thread inside the lock moves on; nobody else asks for it. */
  ghost predicate GoesOn(s: State, s': State) { exists t :: CanMove(s, t) && s' == After(s, t) }

  lemma GoingOnIsNext(s: State, t: nat)
    requires CanMove(s, t)
    ensures Next(s, After(s, t)) && GoesOn(s, After(s, t))
  {
    hide Step;
    assert Acts(s, After(s, t), t);
  }

  /** Threads that do not use the lock are not needed. */
  ghost predicate IdleStay(s: State, s': State) {
    forall u <- s.threads :: s.threads[u].pc == Idle ==> u in s'.threads && s'.threads[u] == s.threads[u]
  }

  /** A thread that has asked for the lock gets it, if those inside go on; `n` bounds the threads. */
  lemma {:induction false} GetsIn(s: State, t: nat, n: nat) returns (s': State)
    requires Sound(s) && t in s.threads && (Waits(s.threads[t]) || InSection(s.threads[t]))
    requires forall u <- s.threads :: u < n
    ensures Leads(GoesOn, s, s') && t in s'.threads && InSection(s'.threads[t]) && IdleStay(s, s')
    decreases Sum(Rank, s.threads, n)
  {
    hide Sound, Next, Step, Sum, Leads, GoesOn;
    LeadsToItself(GoesOn, s);
    if InSection(s.threads[t]) {
      return s;
    }
    assert s.threads[t].pc != Idle;
    var u := SomeoneCanMove(s);
    var s1 := After(s, u);
    GoingOnIsNext(s, u);
    NextKeepsSound(s, s1);
    SumUpdate(Rank, s.threads, n, u, s1.threads[u]);
    StaysOrEnters(s.lock, s.threads[t]);
    s' := GetsIn(s1, t, n);
    LeadsOn(GoesOn, s, s, s1);
    LeadsThrough(GoesOn, s, s1, s');
  }

  predicate Waits(l: Local) { l.pc in {RWait, WTurn, WAnnounce, WDrain} }

  lemma StaysOrEnters(k: Lock, l: Local)
    requires Waits(l)
    ensures var l' := Step(k, l).1; Waits(l') || InSection(l')
  {
  }

  /**
   From every state of every run a thread that waits gets in by steps of the threads that use the lock: if the
   others are idle, by its own.
   */
  lemma NobodyWaitsInVain(run: seq<State>, i: nat, t: nat) returns (s': State)
    requires IsRun(run) && i < |run| && t in run[i].threads && Waits(run[i].threads[t])
    ensures Leads(GoesOn, run[i], s') && t in s'.threads && InSection(s'.threads[t]) && IdleStay(run[i], s')
  {
    RunsAreSound(run, i);
    var n := AllBelow(run[i].threads);
    s' := GetsIn(run[i], t, n);
  }
}
