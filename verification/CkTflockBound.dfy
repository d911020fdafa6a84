/**
 How many requests the task-fair lock of `ck_tflock.h` can tell apart: where the bound of `CkTflock` is
 reached, the words come round again, and a newcomer walks in on those inside.
 */
module CkTflockBound {
  import opened CkSteps
  import opened CkTflock

  /** The two counts look alike although they may differ. */
  predicate Alike(a: nat, b: nat) {
    a == b || (a > 0 && b > 0 && (b - a) % LIMIT == 0)
  }

  lemma HalvesAlike(a: nat, b: nat)
    ensures Half(a) == Half(b) <==> Alike(a, b)
  {
    hide Half;
    if a <= b {
      HalvesAgree(a, b);
    } else {
      HalvesAgree(b, a);
    }
  }

  lemma PackedAlike(r: nat, w: nat, r': nat, w': nat)
    ensures Packed(r, w) == Packed(r', w') <==> Alike(r, r') && Alike(w, w')
    ensures Packed(r, w) % HALF == Half(w') <==> Alike(w, w')
  {
    HalvesAlike(r, r');
    HalvesAlike(w, w');
    hide Alike, Half;
    if Packed(r, w) == Packed(r', w') { PackedInjective(r, w, r', w'); }
  }

  /** A writer that requests the lock now finds its ticket up at once exactly if both counts look alike. */
  lemma NewcomerEntersExactly(k: Lock)
    requires LockInv(k)
    ensures k.request == k.completion <==> Alike(k.doneR, k.reqR) && Alike(k.doneW, k.reqW)
    ensures k.request % HALF == k.completion % HALF <==> Alike(k.doneW, k.reqW)
  {
    PackedAlike(k.doneR, k.doneW, k.reqR, k.reqW);
    assert k.request % HALF == Half(k.reqW);
  }

  /** Within the bound counts look alike only if they are the same. */
  lemma AlikeMeansSame(k: Lock)
    requires LockInv(k) && Bounded(k)
    ensures (Alike(k.doneR, k.reqR) <==> k.doneR == k.reqR) && (Alike(k.doneW, k.reqW) <==> k.doneW == k.reqW)
  {
  }

  // ---------------------------------------------------------------- runs without a bound

  ghost predicate IsFreeRun(run: seq<State>) { |run| > 0 && Init(run[0]) && Steps(Next, run) }

  /** What is left of the invariant: words and tickets hold the counts. */
  predicate Labelled(l: Local) {
    && (IsWriter(l) ==> l.previous == Packed(l.number, l.writers))
    && (IsReader(l) ==> l.previous == Half(l.writers))
  }

  ghost predicate AllLabelled(s: State) {
    && s.lock.request == Packed(s.lock.reqR, s.lock.reqW) && s.lock.completion == Packed(s.lock.doneR, s.lock.doneW)
    && forall t <- s.threads :: Labelled(s.threads[t])
  }

  lemma NextKeepsLabels(s: State, s': State)
    requires AllLabelled(s) && Next(s, s')
    ensures AllLabelled(s')
  {
    hide Half, ClearAdd;
    HalvesStayApart(s.lock.reqR, s.lock.reqW);
    HalvesStayApart(s.lock.doneR, s.lock.doneW);
  }

  lemma {:induction false} RunsKeepLabels(run: seq<State>, i: nat)
    requires IsFreeRun(run) && i < |run|
    ensures AllLabelled(run[i])
  {
    if i > 0 {
      RunsKeepLabels(run, i - 1);
      assert Next(run[i - 1], run[i]);
      NextKeepsLabels(run[i - 1], run[i]);
    }
  }

  /**
   In every run, however many requests are outstanding, a waiting writer gets in exactly if the counts of
   completed requests look like those of its ticket, and a waiting reader if that of writers does.
   */
  lemma WaitEndsExactly(run: seq<State>, i: nat, t: nat)
    requires IsFreeRun(run) && i < |run| && t in run[i].threads
    ensures var k, l := run[i].lock, run[i].threads[t];
            && (l.pc == WSpin ==>
                  (Step(k, l).1.pc == WIn <==> Alike(k.doneR, l.number) && Alike(k.doneW, l.writers)))
            && (l.pc == RSpin ==> (Step(k, l).1.pc == RIn <==> Alike(k.doneW, l.writers)))
  {
    RunsKeepLabels(run, i);
    var k, l := run[i].lock, run[i].threads[t];
    hide IsFreeRun, Half, Alike;
    PackedAlike(k.doneR, k.doneW, l.number, l.writers);
    assert Labelled(l);
  }

  // ---------------------------------------------------------------- what follows from a state

  function With(s: State, t: nat, k: Lock, l: Local): State { State(k, s.threads[t := l]) }

  /** Thread `t` takes a step. */
  lemma Moves(s0: State, s: State, t: nat, k: Lock, l: Local)
    requires Leads(Next, s0, s) && t in s.threads && StepOf(s.lock, s.threads[t], k, l)
    ensures Leads(Next, s0, With(s, t, k, l))
  {
    hide Leads, StepOf;
    var s' := With(s, t, k, l);
    assert s'.threads == s.threads[t := s'.threads[t]];
    LeadsOn(Next, s0, s, s');
  }

  lemma MovesTwice(s: State, t: nat, k: Lock, l: Local, k': Lock, l': Local)
    ensures With(With(s, t, k, l), t, k', l') == With(s, t, k', l')
  {
  }

  // ---------------------------------------------------------------- newcomers

  /** A writer arrives while request and completion look alike: nothing stops it. */
  lemma WriterWalksIn(s0: State, s: State, w: nat) returns (l: Local)
    requires Leads(Next, s0, s) && LockInv(s.lock) && w in s.threads && s.threads[w].pc == Idle
             && s.lock.request == s.lock.completion
    ensures Writes(l) && Leads(Next, s0,
            With(s, w, s.lock.(request := ClearAdd(s.lock.request, WC_TOP, 1), reqW := s.lock.reqW + 1), l))
  {
    hide Leads;
    var k, l0 := s.lock, s.threads[w];
    var l1 := l0.(pc := WLoad);
    Moves(s0, s, w, k, l1);
    var s1 := With(s, w, k, l1);
    var l2 := l1.(pc := WCas, snapshot := k.request);
    Moves(s0, s1, w, k, l2);
    MovesTwice(s, w, k, l1, k, l2);
    var (k3, l3) := WriteRequest(k, l2);
    Moves(s0, With(s, w, k, l2), w, k3, l3);
    MovesTwice(s, w, k, l2, k3, l3);
    l := l3.(pc := WIn);
    Moves(s0, With(s, w, k3, l3), w, k3, l);
    MovesTwice(s, w, k3, l3, k3, l);
  }

  function ReaderIn(k: Lock): Lock {
    k.(request := ClearAdd(k.request, RC_TOP, HALF), reqR := k.reqR + 1, inside := k.inside + {k.reqR})
  }

  /** A reader arrives while the writers' halves look alike. */
  lemma ReaderWalksIn(s0: State, s: State, r: nat) returns (l: Local)
    requires Leads(Next, s0, s) && LockInv(s.lock) && r in s.threads && s.threads[r].pc == Idle
             && s.lock.request % HALF == s.lock.completion % HALF
    ensures l.pc == RIn && l.number == s.lock.reqR && Leads(Next, s0, With(s, r, ReaderIn(s.lock), l))
            && LockInv(ReaderIn(s.lock))
  {
    hide Leads;
    var k, l0 := s.lock, s.threads[r];
    var l1 := l0.(pc := RLoad);
    Moves(s0, s, r, k, l1);
    var l2 := l1.(pc := RCas, snapshot := k.request);
    Moves(s0, With(s, r, k, l1), r, k, l2);
    MovesTwice(s, r, k, l1, k, l2);
    var (k3, l3) := ReadRequest(k, l2);
    Moves(s0, With(s, r, k, l2), r, k3, l3);
    MovesTwice(s, r, k, l2, k3, l3);
    l := l3.(pc := RIn);
    Moves(s0, With(s, r, k3, l3), r, k3, l);
    MovesTwice(s, r, k3, l3, k3, l);
    ReaderInKeeps(k);
  }

  lemma ReaderInKeeps(k: Lock)
    requires LockInv(k)
    ensures LockInv(ReaderIn(k))
  {
    hide Half, ClearAdd;
    HalvesStayApart(k.reqR, k.reqW);
    assert k.reqR !in k.inside;
  }

  /**
   With a multiple of 2^15 readers outstanding, after the first has completed, and no writer, a writer
   enters although a reader is inside.
   */
  lemma TooManyReaders(s: State, w: nat, r: nat) returns (s': State)
    requires LockInv(s.lock) && w in s.threads && r in s.threads && s.threads[w].pc == Idle && Reads(s.threads[r])
    requires var k := s.lock; 0 < k.doneR < k.reqR && (k.reqR - k.doneR) % LIMIT == 0 && k.reqW == k.doneW
    ensures Leads(Next, s, s') && w in s'.threads && r in s'.threads && Writes(s'.threads[w]) && Reads(s'.threads[r])
  {
    LeadsToItself(Next, s);
    NewcomerEntersExactly(s.lock);
    var l := WriterWalksIn(s, s, w);
    s' := With(s, w, s.lock.(request := ClearAdd(s.lock.request, WC_TOP, 1), reqW := s.lock.reqW + 1), l);
  }

  /**
   With a multiple of 2^15 writers outstanding, after the first has completed, a reader enters although a writer is
   inside.
   */
  lemma TooManyWriters(s: State, v: nat, r: nat) returns (s': State)
    requires LockInv(s.lock) && v in s.threads && r in s.threads && s.threads[r].pc == Idle && Writes(s.threads[v])
    requires var k := s.lock; 0 < k.doneW < k.reqW && (k.reqW - k.doneW) % LIMIT == 0
    ensures Leads(Next, s, s') && v in s'.threads && r in s'.threads && Writes(s'.threads[v]) && Reads(s'.threads[r])
  {
    LeadsToItself(Next, s);
    NewcomerEntersExactly(s.lock);
    var l := ReaderWalksIn(s, s, r);
    s' := With(s, r, ReaderIn(s.lock), l);
  }

  /** And if no reader is outstanding, so does another writer. */
  lemma TooManyWritersForAWriter(s: State, v: nat, w: nat) returns (s': State)
    requires LockInv(s.lock) && v in s.threads && w in s.threads && s.threads[w].pc == Idle && Writes(s.threads[v])
    requires var k := s.lock; 0 < k.doneW < k.reqW && (k.reqW - k.doneW) % LIMIT == 0 && k.doneR == k.reqR
    ensures Leads(Next, s, s') && v != w && v in s'.threads && w in s'.threads && Writes(s'.threads[v])
            && Writes(s'.threads[w])
  {
    LeadsToItself(Next, s);
    NewcomerEntersExactly(s.lock);
    var l := WriterWalksIn(s, s, w);
    s' := With(s, w, s.lock.(request := ClearAdd(s.lock.request, WC_TOP, 1), reqW := s.lock.reqW + 1), l);
  }

  // ---------------------------------------------------------------- a run that fails

  function ReaderOut(k: Lock, n: nat): Lock {
    k.(completion := ClearAdd(k.completion, RC_TOP, HALF), doneR := k.doneR + 1, inside := k.inside - {n})
  }

  lemma ReaderLeaves(s0: State, s: State, r: nat) returns (l: Local)
    requires Leads(Next, s0, s) && LockInv(s.lock) && r in s.threads && s.threads[r].pc == RIn
             && s.threads[r].number in s.lock.inside
    ensures l.pc == Idle && Leads(Next, s0, With(s, r, ReaderOut(s.lock, s.threads[r].number), l))
            && LockInv(ReaderOut(s.lock, s.threads[r].number))
  {
    hide Leads;
    var k, l0 := s.lock, s.threads[r];
    var l1 := l0.(pc := ROutLoad);
    Moves(s0, s, r, k, l1);
    var l2 := l1.(pc := ROutCas, snapshot := k.completion);
    Moves(s0, With(s, r, k, l1), r, k, l2);
    MovesTwice(s, r, k, l1, k, l2);
    var (k3, l3) := ReadComplete(k, l2);
    l := l3;
    Moves(s0, With(s, r, k, l2), r, k3, l3);
    MovesTwice(s, r, k, l2, k3, l3);
    ReaderOutKeeps(k, l0.number);
  }

  lemma ReaderOutKeeps(k: Lock, n: nat)
    requires LockInv(k) && n in k.inside
    ensures LockInv(ReaderOut(k, n))
  {
    hide Half, ClearAdd;
    HalvesStayApart(k.doneR, k.doneW);
  }

  /** One reader has come and gone, and threads 1 to `n` are readers inside; the others are idle. */
  ghost predicate Crowded(s: State, n: nat) {
    && LockInv(s.lock) && s.lock.reqR == n + 1 && s.lock.doneR == 1 && s.lock.reqW == 0 && s.lock.doneW == 0
    && (forall t: nat :: t in s.threads <==> t <= LIMIT + 1)
    && (forall t <- s.threads :: if 1 <= t <= n then Reads(s.threads[t]) else s.threads[t].pc == Idle)
  }

  function Idlers(n: nat): (r: map<nat, Local>)
    ensures forall t: nat :: t in r <==> t < n
    ensures forall t <- r :: r[t].pc == Idle
  {
    if n == 0 then map[] else Idlers(n - 1)[n - 1 := Local(Idle, 0, 0, 0, 0)]
  }

  lemma NobodyYet() returns (s0: State)
    ensures Init(s0) && LockInv(s0.lock) && (forall t: nat :: t in s0.threads <==> t <= LIMIT + 1)
            && forall t <- s0.threads :: s0.threads[t].pc == Idle
  {
    s0 := State(Lock(0, 0, 0, 0, 0, 0, {}), Idlers(LIMIT + 2));
  }

  lemma {:induction false} CrowdComes(n: nat) returns (s0: State, s: State)
    requires n <= LIMIT
    ensures Init(s0) && Leads(Next, s0, s) && Crowded(s, n)
  {
    hide Leads, LockInv;
    if n == 0 {
      s0 := NobodyYet();
      LeadsToItself(Next, s0);
      var l := ReaderWalksIn(s0, s0, 0);
      var s1 := With(s0, 0, ReaderIn(s0.lock), l);
      var l' := ReaderLeaves(s0, s1, 0);
      s := With(s1, 0, ReaderOut(s1.lock, l.number), l');
    } else {
      var s1;
      s0, s1 := CrowdComes(n - 1);
      NewcomerReads(s1);
      var l := ReaderWalksIn(s0, s1, n);
      s := With(s1, n, ReaderIn(s1.lock), l);
    }
  }

  lemma NewcomerReads(s: State)
    requires LockInv(s.lock) && s.lock.reqW == 0 && s.lock.doneW == 0
    ensures s.lock.request % HALF == s.lock.completion % HALF
  {
  }

  /** After 2^15 readers have come, a writer joins them inside. */
  lemma ExclusionCanFail() returns (s0: State, s: State)
    ensures Init(s0) && Leads(Next, s0, s) && 1 in s.threads && LIMIT + 1 in s.threads && Reads(s.threads[1])
            && Writes(s.threads[LIMIT + 1])
  {
    hide Leads;
    var s1;
    s0, s1 := CrowdComes(LIMIT);
    NewcomerEntersExactly(s1.lock);
    var l := WriterWalksIn(s0, s1, LIMIT + 1);
    s := With(s1, LIMIT + 1, s1.lock.(request := ClearAdd(s1.lock.request, WC_TOP, 1), reqW := s1.lock.reqW + 1), l);
  }
}
