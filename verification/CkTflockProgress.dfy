/**
 Nobody waits in vain for the task-fair lock of `ck_tflock.h`: its counts are exactly what its threads are
 doing, so that a release is a release, and somebody inside the lock can always move on. With fewer than 2^15
 threads at a time using it the bound of `CkTflock` is kept by itself.
 */
module CkTflockProgress {
  import opened CkSteps
  import opened CkTflock
  import opened CkTflockBound
  import opened Ranges

  // ---------------------------------------------------------------- the counts are the threads

  predicate ReadsWith(l: Local, n: nat) { IsReader(l) && l.number == n }

  predicate WritesWith(l: Local, n: nat) { IsWriter(l) && l.writers == n }

  ghost predicate HasReader(s: State, n: nat) { exists t <- s.threads :: ReadsWith(s.threads[t], n) }

  ghost predicate HasWriter(s: State, n: nat) { exists t <- s.threads :: WritesWith(s.threads[t], n) }

  /** Every request that has not completed is that of a thread. */
  ghost predicate Owned(s: State) {
    && (forall n <- s.lock.inside :: HasReader(s, n))
    && (forall n {:trigger HasWriter(s, n)} :: s.lock.doneW <= n < s.lock.reqW ==> HasWriter(s, n))
  }

  ghost predicate Acts(s: State, s': State, t: nat) {
    && t in s.threads && t in s'.threads && s'.threads == s.threads[t := s'.threads[t]]
    && StepOf(s.lock, s.threads[t], s'.lock, s'.threads[t])
  }

  lemma OwnedBy(s: State)
    requires forall n <- s.lock.inside :: HasReader(s, n)
    requires forall n {:trigger HasWriter(s, n)} :: s.lock.doneW <= n < s.lock.reqW ==> HasWriter(s, n)
    ensures Owned(s)
  {
  }

  lemma StillReads(s: State, s': State, t: nat, n: nat)
    requires Inv(s) && Owned(s) && Acts(s, s', t) && n in s'.lock.inside
    ensures HasReader(s', n)
  {
    hide Half, Packed, ClearAdd;
    assert ThreadInv(s.lock, s.threads[t]);
    if !ReadsWith(s'.threads[t], n) {
      assert n in s.lock.inside && HasReader(s, n);
      var u :| u in s.threads && ReadsWith(s.threads[u], n);
      assert u != t && ReadsWith(s'.threads[u], n);
    }
  }

  lemma StillWrites(s: State, s': State, t: nat, n: nat)
    requires Inv(s) && Owned(s) && Acts(s, s', t) && s'.lock.doneW <= n < s'.lock.reqW
    ensures HasWriter(s', n)
  {
    hide Half, Packed, ClearAdd;
    assert ThreadInv(s.lock, s.threads[t]);
    if !WritesWith(s'.threads[t], n) {
      assert s.lock.doneW <= n < s.lock.reqW && HasWriter(s, n);
      var u :| u in s.threads && WritesWith(s.threads[u], n);
      assert u != t && WritesWith(s'.threads[u], n);
    }
  }

  lemma NextKeepsOwned(s: State, s': State)
    requires Inv(s) && Owned(s) && Next(s, s')
    ensures Owned(s')
  {
    var t :| t in s.threads && t in s'.threads && s'.threads == s.threads[t := s'.threads[t]]
             && StepOf(s.lock, s.threads[t], s'.lock, s'.threads[t]);
    assert Acts(s, s', t);
    hide Inv, Owned, Acts, HasReader, HasWriter;
    forall n | n in s'.lock.inside ensures HasReader(s', n) { StillReads(s, s', t, n); }
    forall n {:trigger HasWriter(s', n)} | s'.lock.doneW <= n < s'.lock.reqW ensures HasWriter(s', n) {
      StillWrites(s, s', t, n);
    }
    OwnedBy(s');
  }

  ghost predicate Sound(s: State) { Inv(s) && Owned(s) }

  lemma NextKeepsSound(s: State, s': State)
    requires Sound(s) && Bounded(s.lock) && Next(s, s')
    ensures Sound(s')
  {
    hide Inv, Owned;
    NextKeepsInv(s, s');
    NextKeepsOwned(s, s');
  }

  lemma InitIsSound(s: State)
    requires Init(s)
    ensures Sound(s) && Bounded(s.lock)
  {
  }

  lemma {:induction false} RunsAreSound(run: seq<State>, i: nat)
    requires IsRun(run) && i < |run|
    ensures Sound(run[i])
  {
    hide Sound, Next, Init;
    if i == 0 {
      InitIsSound(run[0]);
    } else {
      RunsAreSound(run, i - 1);
      assert Next(run[i - 1], run[i - 1 + 1]);
      NextKeepsSound(run[i - 1], run[i]);
    }
  }

  /** In every run the reader requests that have not completed are exactly the readers, and so for writers. */
  lemma CountsAreThreads(run: seq<State>, i: nat, n: nat)
    requires IsRun(run) && i < |run|
    ensures n in run[i].lock.inside <==> HasReader(run[i], n)
    ensures run[i].lock.doneW <= n < run[i].lock.reqW <==> HasWriter(run[i], n)
  {
    RunsAreSound(run, i);
    var s := run[i];
    hide Half, Packed;
    if t :| t in s.threads && ReadsWith(s.threads[t], n) { assert ThreadInv(s.lock, s.threads[t]); }
    if t :| t in s.threads && WritesWith(s.threads[t], n) { assert ThreadInv(s.lock, s.threads[t]); }
  }

  /** When all threads are idle everything requested has completed, and the two words are the same. */
  lemma IdleMeansFree(run: seq<State>, i: nat)
    requires IsRun(run) && i < |run| && forall t <- run[i].threads :: run[i].threads[t].pc == Idle
    ensures var k := run[i].lock; k.reqR == k.doneR && k.reqW == k.doneW && k.request == k.completion
  {
    RunsAreSound(run, i);
    var s := run[i];
    hide Half;
    assert forall n: nat :: !HasReader(s, n) && !HasWriter(s, n);
    assert s.lock.inside == {} by { assert forall n <- s.lock.inside :: HasReader(s, n); }
    assert !HasWriter(s, s.lock.doneW);
    assert LockInv(s.lock);
  }

  // ---------------------------------------------------------------- few threads keep the bound

  ghost function Busy(s: State): set<nat> { set t | t in s.threads && s.threads[t].pc != Idle }

  lemma FewWriters(s: State)
    requires Owned(s) && s.lock.doneW <= s.lock.reqW
    ensures s.lock.reqW - s.lock.doneW <= |Busy(s)|
  {
    var ns := Range(s.lock.doneW, s.lock.reqW);
    RangeSize(s.lock.doneW, s.lock.reqW);
    forall n | n in ns ensures exists t <- Busy(s) :: WritesWith(s.threads[t], n) {
      assert HasWriter(s, n);
      var t :| t in s.threads && WritesWith(s.threads[t], n);
      assert t in Busy(s);
    }
    NoMoreThan(WritesWith, s.threads, ns, Busy(s));
  }

  lemma FewReaders(s: State)
    requires Owned(s)
    ensures |s.lock.inside| <= |Busy(s)|
  {
    forall n | n in s.lock.inside ensures exists t <- Busy(s) :: ReadsWith(s.threads[t], n) {
      assert HasReader(s, n);
      var t :| t in s.threads && ReadsWith(s.threads[t], n);
      assert t in Busy(s);
    }
    NoMoreThan(ReadsWith, s.threads, s.lock.inside, Busy(s));
  }

  lemma FewAreBounded(s: State)
    requires Sound(s) && |Busy(s)| < LIMIT
    ensures Bounded(s.lock)
  {
    assert LockInv(s.lock);
    hide Half, Packed, Inv, Owned, Busy;
    FewWriters(s);
    FewReaders(s);
  }

  lemma SameThreads(s: State, s': State)
    requires Next(s, s')
    ensures s'.threads.Keys == s.threads.Keys
  {
  }

  lemma {:induction false} FewStayBounded(run: seq<State>, i: nat)
    requires IsFreeRun(run) && i < |run| && |run[0].threads| < LIMIT
    ensures Sound(run[i]) && Bounded(run[i].lock) && run[i].threads.Keys == run[0].threads.Keys
  {
    hide Sound, Next, Init, Bounded;
    if i == 0 {
      InitIsSound(run[0]);
    } else {
      FewStayBounded(run, i - 1);
      assert Next(run[i - 1], run[i]);
      NextKeepsSound(run[i - 1], run[i]);
      SameThreads(run[i - 1], run[i]);
      assert |run[0].threads.Keys| == |run[0].threads|;
      SubsetSize(Busy(run[i]), run[0].threads.Keys);
      FewAreBounded(run[i]);
    }
  }

  /** With fewer than 2^15 threads every run keeps the bound, and with it all that `CkTflock` promises. */
  lemma FewThreadsAreSafe(run: seq<State>)
    requires IsFreeRun(run) && |run[0].threads| < LIMIT
    ensures IsRun(run)
  {
    hide Sound, Next;
    forall i | 0 <= i < |run| ensures Bounded(run[i].lock) { FewStayBounded(run, i); }
    forall i | 0 <= i < |run| - 1 ensures Next(run[i], run[i + 1]) { var j := i + 1; assert Next(run[i], run[j]); }
  }

  // ---------------------------------------------------------------- somebody can move on

  function Rank(l: Local): nat {
    match l.pc
    case Idle => 0
    case WLoad => 6
    case WCas => 5
    case WSpin => 4
    case WIn => 3
    case WOutLoad => 2
    case WOutCas => 1
    case RLoad => 6
    case RCas => 5
    case RSpin => 4
    case RIn => 3
    case ROutLoad => 2
    case ROutCas => 1
  }

  predicate Waits(l: Local) { l.pc.WLoad? || l.pc.WCas? || l.pc.WSpin? || l.pc.RLoad? || l.pc.RCas? || l.pc.RSpin? }

  predicate InSection(l: Local) { l.pc == RIn || l.pc == WIn }

  function After(s: State, t: nat): State
    requires t in s.threads
  {
    var (k, l) := Step(s.lock, s.threads[t]);
    State(k, s.threads[t := l])
  }

  /** A thread inside the lock takes its next step; nobody else asks for it. */
  ghost predicate GoesOn(s: State, s': State) { exists t <- s.threads :: s.threads[t].pc != Idle && s' == After(s, t) }

  lemma GoingOnIsNext(s: State, t: nat)
    requires t in s.threads && s.threads[t].pc != Idle
    ensures Next(s, After(s, t)) && GoesOn(s, After(s, t))
  {
    hide Step;
    assert Acts(s, After(s, t), t);
  }

  /** The next step takes the thread further, or the one after it: a lost compare-and-swap has loaded the word again. */
  ghost predicate CanMove(s: State, t: nat) {
    && t in s.threads && s.threads[t].pc != Idle
    && var l := s.threads[t];
       var (k1, l1) := Step(s.lock, l);
       Rank(l1) < Rank(l) || (l1.pc == l.pc && k1 == s.lock && Rank(Step(k1, l1).1) < Rank(l))
  }

  lemma BusyCanMove(s: State, t: nat)
    requires t in s.threads && s.threads[t].pc != Idle && !s.threads[t].pc.WSpin? && !s.threads[t].pc.RSpin?
    ensures CanMove(s, t)
  {
    hide ClearAdd;
  }

  lemma ReaderCanMove(s: State, t: nat)
    requires Inv(s) && t in s.threads && s.threads[t].pc == RSpin && s.threads[t].writers == s.lock.doneW
    ensures CanMove(s, t)
  {
    assert ThreadInv(s.lock, s.threads[t]) && LockInv(s.lock);
    hide Half;
    assert s.lock.completion % HALF == Half(s.lock.doneW);
  }

  lemma WriterCanMove(s: State, t: nat)
    requires Inv(s) && t in s.threads && s.threads[t].pc == WSpin
    requires s.threads[t].writers == s.lock.doneW && s.threads[t].number == s.lock.doneR
    ensures CanMove(s, t)
  {
    assert ThreadInv(s.lock, s.threads[t]) && LockInv(s.lock);
    hide Packed;
  }

  /** When all wait, the first writer has been preceded by all completed readers and by no other. */
  lemma FirstWriter(s: State, w: nat)
    requires Sound(s) && w in s.threads && WritesWith(s.threads[w], s.lock.doneW)
    requires forall t <- s.threads :: s.threads[t].pc in {Idle, WSpin, RSpin}
    requires forall t <- s.threads :: s.threads[t].pc == RSpin ==> s.threads[t].writers != s.lock.doneW
    ensures s.threads[w].number == s.lock.doneR
  {
    hide Half, Packed;
    var k, l := s.lock, s.threads[w];
    assert ThreadInv(k, l) && LockInv(k);
    forall n | n in k.inside ensures l.number <= n {
      assert HasReader(s, n);
      var r :| r in s.threads && ReadsWith(s.threads[r], n);
      assert ThreadInv(k, s.threads[r]) && Ordered(s.threads[r], l);
    }
    assert k.inside == Range(l.number, k.reqR);
    RangeSize(l.number, k.reqR);
  }

  /** Unless all threads are idle one of them can move on. */
  lemma SomeoneCanMove(s: State) returns (t: nat)
    requires Sound(s) && exists u <- s.threads :: s.threads[u].pc != Idle
    ensures CanMove(s, t)
  {
    hide CanMove, ThreadInv, LockInv;
    var k := s.lock;
    if u :| u in s.threads && s.threads[u].pc !in {Idle, WSpin, RSpin} {
      BusyCanMove(s, u);
      return u;
    }
    if u :| u in s.threads && s.threads[u].pc == RSpin && s.threads[u].writers == k.doneW {
      ReaderCanMove(s, u);
      return u;
    }
    t :| t in s.threads && s.threads[t].pc != Idle;
    SomeWriterLeft(s, t);
    assert HasWriter(s, k.doneW);
    t :| t in s.threads && WritesWith(s.threads[t], k.doneW);
    FirstWriter(s, t);
    WriterCanMove(s, t);
  }

  lemma SomeWriterLeft(s: State, t: nat)
    requires Inv(s) && t in s.threads && s.threads[t].pc in {WSpin, RSpin}
    requires s.threads[t].pc == RSpin ==> s.threads[t].writers != s.lock.doneW
    ensures s.lock.doneW < s.lock.reqW
  {
    hide Half, Packed;
    assert ThreadInv(s.lock, s.threads[t]);
  }

  /** Threads that do not use the lock are not needed. */
  ghost predicate IdleStay(s: State, s': State) {
    forall u <- s.threads :: s.threads[u].pc == Idle ==> u in s'.threads && s'.threads[u] == s.threads[u]
  }

  lemma StaysOrEnters(k: Lock, l: Local)
    requires Waits(l)
    ensures Waits(Step(k, l).1) || InSection(Step(k, l).1)
  {
    hide ClearAdd;
  }

  /** What one step of a busy thread keeps. */
  lemma OneStep(s: State, u: nat)
    requires Sound(s) && |Busy(s)| < LIMIT && u in s.threads && s.threads[u].pc != Idle
    ensures var s1 := After(s, u);
            && Sound(s1) && |Busy(s1)| < LIMIT && Leads(GoesOn, s, s1)
            && s1.threads.Keys == s.threads.Keys && IdleStay(s, s1)
  {
    hide Sound, Step, Next, Leads;
    var s1 := After(s, u);
    FewAreBounded(s);
    GoingOnIsNext(s, u);
    NextKeepsSound(s, s1);
    SubsetSize(Busy(s1), Busy(s));
    LeadsToItself(GoesOn, s);
    LeadsOn(GoesOn, s, s, s1);
  }

  /** The steps that take a thread further. */
  lemma MovesOn(s: State, u: nat, n: nat) returns (s1: State)
    requires Sound(s) && |Busy(s)| < LIMIT && CanMove(s, u) && forall v <- s.threads :: v < n
    ensures Sound(s1) && |Busy(s1)| < LIMIT && Leads(GoesOn, s, s1) && IdleStay(s, s1)
    ensures s1.threads.Keys == s.threads.Keys && Sum(Rank, s1.threads, n) < Sum(Rank, s.threads, n)
    ensures forall t <- s.threads :: Waits(s.threads[t]) ==> Waits(s1.threads[t]) || InSection(s1.threads[t])
  {
    hide Sound, Step, Leads, Busy, Sum;
    var a := After(s, u);
    OneStep(s, u);
    SumUpdate(Rank, s.threads, n, u, a.threads[u]);
    if Waits(s.threads[u]) { StaysOrEnters(s.lock, s.threads[u]); }
    if Rank(a.threads[u]) < Rank(s.threads[u]) {
      return a;
    }
    s1 := After(a, u);
    OneStep(a, u);
    SumUpdate(Rank, a.threads, n, u, s1.threads[u]);
    if Waits(a.threads[u]) { StaysOrEnters(a.lock, a.threads[u]); }
    LeadsThrough(GoesOn, s, a, s1);
  }

  lemma {:induction false} GetsIn(s: State, t: nat, n: nat) returns (s': State)
    requires Sound(s) && |Busy(s)| < LIMIT && t in s.threads && (Waits(s.threads[t]) || InSection(s.threads[t]))
    requires forall u <- s.threads :: u < n
    ensures Leads(GoesOn, s, s') && t in s'.threads && InSection(s'.threads[t]) && IdleStay(s, s')
    decreases Sum(Rank, s.threads, n)
  {
    hide Sound, Leads, GoesOn, Busy, CanMove, Sum;
    LeadsToItself(GoesOn, s);
    if InSection(s.threads[t]) {
      return s;
    }
    assert s.threads[t].pc != Idle;
    var u := SomeoneCanMove(s);
    var s1 := MovesOn(s, u, n);
    s' := GetsIn(s1, t, n);
    LeadsThrough(GoesOn, s, s1, s');
  }

  /**
   From every state of every run in which fewer than 2^15 threads use the lock, a thread that has asked for it
   gets in by steps of those that use it: if the others are idle, by its own.
   */
  lemma NobodyWaitsInVain(run: seq<State>, i: nat, t: nat) returns (s': State)
    requires IsRun(run) && i < |run| && |Busy(run[i])| < LIMIT && t in run[i].threads && Waits(run[i].threads[t])
    ensures Leads(GoesOn, run[i], s') && t in s'.threads && InSection(s'.threads[t]) && IdleStay(run[i], s')
  {
    RunsAreSound(run, i);
    var n := AllBelow(run[i].threads);
    s' := GetsIn(run[i], t, n);
  }
}
