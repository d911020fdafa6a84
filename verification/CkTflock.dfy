/**
 The task-fair ticket lock of `ck_tflock.h`, for any number of threads and acquisitions.

 Each 32-bit word packs a reader half and a writer half; an increment first clears the top bit
 of its half. Every load and compare-and-swap is one atomic step. The unbounded counts of
 requests and completions, the set `inside` of reader requests not completed, and the thread
 fields `number` and `writers` are history.
 */
module CkTflock {
  import opened Ranges

  const HALF: nat := 0x10000
  const LIMIT: nat := 0x8000
  const WORD: nat := 0x1_0000_0000
  const WC_TOP: nat := 0x8000
  const RC_TOP: nat := 0x8000_0000

  /** `(snapshot & ~mask) + delta` on 32 bits, for a one-bit mask. */
  function ClearAdd(v: nat, mask: nat, delta: nat): nat
    requires mask > 0
  {
    (if v / mask % 2 == 1 then v - mask else v) + delta
  }

  /** What a half holds after `count` increments from zero. */
  function Half(count: nat): (h: nat)
    ensures h <= LIMIT
  {
    if count == 0 then 0 else (count - 1) % LIMIT + 1
  }

  function Packed(readers: nat, writers: nat): nat {
    Half(readers) * HALF + Half(writers)
  }

  /** An increment of one half neither carries into the other nor overflows the word. */
  lemma HalvesStayApart(readers: nat, writers: nat)
    ensures ClearAdd(Packed(readers, writers), WC_TOP, 1) == Packed(readers, writers + 1) < WORD
    ensures ClearAdd(Packed(readers, writers), RC_TOP, HALF) == Packed(readers + 1, writers) < WORD
  {
    HalfStep(readers);
    HalfStep(writers);
    var r, w := Half(readers), Half(writers);
    assert (r * HALF + w) / WC_TOP == 2 * r + w / WC_TOP;
    assert (r * HALF + w) / RC_TOP == r / LIMIT;
  }

  lemma HalfStep(count: nat)
    ensures Half(count + 1) == (if Half(count) == LIMIT then 0 else Half(count)) + 1
  {
  }

  /**
   The halves of two counts are the same exactly if the counts are, or differ by a multiple of 2^15 and neither is
   zero.
   */
  lemma HalvesAgree(a: nat, b: nat)
    requires a <= b
    ensures Half(a) == Half(b) <==> a == b || (a > 0 && (b - a) % LIMIT == 0)
  {
  }

  /** Fewer than 2^15 requests are outstanding, or none has completed yet. */
  predicate Clear(done: nat, requested: nat) { requested < done + LIMIT || done == 0 }

  /** Counts less than 2^15 apart are told apart by their halves, and zero from any other. */
  lemma HalfInjective(a: nat, b: nat)
    requires a <= b && Clear(a, b) && Half(a) == Half(b)
    ensures a == b
  {
    HalvesAgree(a, b);
  }

  lemma PackedInjective(r: nat, w: nat, r': nat, w': nat)
    requires Packed(r, w) == Packed(r', w')
    ensures Half(r) == Half(r') && Half(w) == Half(w')
  {
  }

  datatype Lock = Lock(request: nat, completion: nat, reqR: nat, reqW: nat, doneR: nat, doneW: nat, inside: set<nat>)

  /** `Load` and `Cas` are the two accesses of the fetch-and-clear-add loop. */
  datatype Pc =
    | Idle
    | WLoad | WCas | WSpin | WIn | WOutLoad | WOutCas
    | RLoad | RCas | RSpin | RIn | ROutLoad | ROutCas

  /** `previous` is the ticket; `number` and `writers` count the requests of both kinds before it. */
  datatype Local = Local(pc: Pc, snapshot: nat, previous: nat, number: nat, writers: nat)

  datatype State = State(lock: Lock, threads: map<nat, Local>)

  ghost predicate Init(s: State) {
    && s.lock == Lock(0, 0, 0, 0, 0, 0, {})
    && (forall t <- s.threads :: s.threads[t].pc == Idle)
  }

  function WriteRequest(k: Lock, l: Local): (Lock, Local) {
    if k.request == l.snapshot then
      (k.(request := ClearAdd(l.snapshot, WC_TOP, 1), reqW := k.reqW + 1),
       l.(pc := WSpin, previous := l.snapshot, number := k.reqR, writers := k.reqW))
    else (k, l.(snapshot := k.request))
  }

  function ReadRequest(k: Lock, l: Local): (Lock, Local) {
    if k.request == l.snapshot then
      (k.(request := ClearAdd(l.snapshot, RC_TOP, HALF), reqR := k.reqR + 1, inside := k.inside + {k.reqR}),
       l.(pc := RSpin, previous := l.snapshot % HALF, number := k.reqR, writers := k.reqW))
    else (k, l.(snapshot := k.request))
  }

  function WriteComplete(k: Lock, l: Local): (Lock, Local) {
    if k.completion == l.snapshot then
      (k.(completion := ClearAdd(l.snapshot, WC_TOP, 1), doneW := k.doneW + 1), l.(pc := Idle))
    else (k, l.(snapshot := k.completion))
  }

  function ReadComplete(k: Lock, l: Local): (Lock, Local) {
    if k.completion == l.snapshot then
      (k.(completion := ClearAdd(l.snapshot, RC_TOP, HALF), doneR := k.doneR + 1, inside := k.inside - {l.number}),
        l.(pc := Idle))
    else (k, l.(snapshot := k.completion))
  }

  function Step(k: Lock, l: Local): (Lock, Local) {
    match l.pc
    case Idle => (k, l)
    case WLoad => (k, l.(pc := WCas, snapshot := k.request))
    case WCas => WriteRequest(k, l)
    case WSpin => (k, if k.completion == l.previous then l.(pc := WIn) else l)
    case WIn => (k, l.(pc := WOutLoad))
    case WOutLoad => (k, l.(pc := WOutCas, snapshot := k.completion))
    case WOutCas => WriteComplete(k, l)
    case RLoad => (k, l.(pc := RCas, snapshot := k.request))
    case RCas => ReadRequest(k, l)
    case RSpin => (k, if k.completion % HALF == l.previous then l.(pc := RIn) else l)
    case RIn => (k, l.(pc := ROutLoad))
    case ROutLoad => (k, l.(pc := ROutCas, snapshot := k.completion))
    case ROutCas => ReadComplete(k, l)
  }

  ghost predicate StepOf(k: Lock, l: Local, k': Lock, l': Local) {
    || (k', l') == Step(k, l)
    || (l.pc == Idle && k' == k && (l' == l.(pc := WLoad) || l' == l.(pc := RLoad)))
  }

  ghost predicate Next(s: State, s': State) {
    exists t <- s.threads :: t in s'.threads && s'.threads == s.threads[t := s'.threads[t]]
                             && StepOf(s.lock, s.threads[t], s'.lock, s'.threads[t])
  }

  /** For each kind, fewer than 2^15 requests are outstanding, or none has completed yet. */
  predicate Bounded(k: Lock) {
    Clear(k.doneW, k.reqW) && Clear(k.doneR, k.reqR)
  }

  ghost predicate IsRun(run: seq<State>) {
    && |run| > 0 && Init(run[0])
    && (forall i :: 0 <= i < |run| ==> Bounded(run[i].lock))
    && forall i :: 0 <= i < |run| - 1 ==> Next(run[i], run[i + 1])
  }

  // ---------------------------------------------------------------- the invariant

  predicate Writes(l: Local) { l.pc.WIn? || l.pc.WOutLoad? || l.pc.WOutCas? }

  predicate Reads(l: Local) { l.pc.RIn? || l.pc.ROutLoad? || l.pc.ROutCas? }

  /** Requested and not completed. */
  predicate IsWriter(l: Local) { l.pc.WSpin? || Writes(l) }

  predicate IsReader(l: Local) { l.pc.RSpin? || Reads(l) }

  ghost predicate LockInv(k: Lock) {
    && k.request == Packed(k.reqR, k.reqW) && k.completion == Packed(k.doneR, k.doneW)
    && k.doneW <= k.reqW && k.doneR == k.reqR - |k.inside|
    && (forall n <- k.inside :: n < k.reqR)
  }

  ghost predicate ThreadInv(k: Lock, l: Local) {
    && (IsReader(l) ==> l.number in k.inside && k.doneW <= l.writers <= k.reqW && l.previous == Half(l.writers))
    && (Reads(l) ==> l.writers == k.doneW)
    && (IsWriter(l) ==>
          && k.doneW <= l.writers < k.reqW && l.number <= k.reqR && l.previous == Packed(l.number, l.writers)
          && (forall n :: l.number <= n < k.reqR ==> n in k.inside))
    && (Writes(l) ==> l.writers == k.doneW && forall n <- k.inside :: l.number <= n)
  }

  /** Different requests have different places in the order of arrival, which both halves agree on. */
  ghost predicate Ordered(l: Local, o: Local) {
    && (IsReader(l) && IsReader(o) ==> l.number != o.number)
    && (IsWriter(l) && IsWriter(o) ==> l.writers != o.writers && (l.writers < o.writers ==> l.number <= o.number))
    && (IsReader(l) && IsWriter(o) ==> (l.number < o.number <==> l.writers <= o.writers))
  }

  ghost predicate Inv(s: State) {
    && LockInv(s.lock)
    && (forall t <- s.threads :: ThreadInv(s.lock, s.threads[t]))
    && (forall t, u :: t in s.threads && u in s.threads && t != u ==> Ordered(s.threads[t], s.threads[u]))
  }

  // ---------------------------------------------------------------- one step

  /** A writer gets in only when exactly the earlier readers and writers have completed. */
  lemma WriterEnters(k: Lock, l: Local)
    requires LockInv(k) && ThreadInv(k, l) && Bounded(k) && l.pc.WSpin? && k.completion == l.previous
    ensures ThreadInv(k, l.(pc := WIn))
  {
    PackedInjective(k.doneR, k.doneW, l.number, l.writers);
    HalfInjective(k.doneW, l.writers);
    assert Range(l.number, k.reqR) <= k.inside;
    RangeSize(l.number, k.reqR);
    SubsetSize(Range(l.number, k.reqR), k.inside);
    HalfInjective(k.doneR, l.number);
    EarlierOnesLeft(k.inside, l.number, k.reqR);
  }

  lemma ReaderEnters(k: Lock, l: Local)
    requires LockInv(k) && ThreadInv(k, l) && Bounded(k) && l.pc.RSpin? && k.completion % HALF == l.previous
    ensures ThreadInv(k, l.(pc := RIn))
  {
    HalfInjective(k.doneW, l.writers);
  }

  lemma RequestIsGood(k: Lock, l: Local)
    requires LockInv(k) && ThreadInv(k, l) && (l.pc.WCas? || l.pc.RCas?)
    ensures LockInv(Step(k, l).0) && ThreadInv(Step(k, l).0, Step(k, l).1)
  {
    hide Half, ClearAdd;
    HalvesStayApart(k.reqR, k.reqW);
    assert k.reqR !in k.inside;
  }

  lemma CompleteIsGood(k: Lock, l: Local)
    requires LockInv(k) && ThreadInv(k, l) && (l.pc.WOutCas? || l.pc.ROutCas?)
    ensures LockInv(Step(k, l).0) && ThreadInv(Step(k, l).0, Step(k, l).1)
  {
    hide Half, ClearAdd;
    HalvesStayApart(k.doneR, k.doneW);
  }

  lemma StepIsGood(k: Lock, l: Local, k': Lock, l': Local)
    requires LockInv(k) && ThreadInv(k, l) && Bounded(k) && StepOf(k, l, k', l')
    ensures LockInv(k') && ThreadInv(k', l')
  {
    match l.pc
    case WCas | RCas => RequestIsGood(k, l);
    case WOutCas | ROutCas => CompleteIsGood(k, l);
    case WSpin => if k.completion == l.previous { WriterEnters(k, l); }
    case RSpin => if k.completion % HALF == l.previous { ReaderEnters(k, l); }
    case _ =>
  }

  lemma OthersUndisturbed(k: Lock, l: Local, k': Lock, l': Local, o: Local)
    requires LockInv(k) && ThreadInv(k, l) && ThreadInv(k, o) && Ordered(l, o) && Ordered(o, l) && StepOf(k, l, k', l')
    ensures ThreadInv(k', o) && Ordered(l', o) && Ordered(o, l')
  {
    hide Half, Packed, ClearAdd;
  }

  lemma NextKeepsInv(s: State, s': State)
    requires Inv(s) && Bounded(s.lock) && Next(s, s')
    ensures Inv(s')
  {
    hide LockInv, ThreadInv, Ordered, StepOf;
    var t :| t in s.threads && t in s'.threads && s'.threads == s.threads[t := s'.threads[t]]
             && StepOf(s.lock, s.threads[t], s'.lock, s'.threads[t]);
    var k, l, k', l' := s.lock, s.threads[t], s'.lock, s'.threads[t];
    StepIsGood(k, l, k', l');
    forall u | u in s.threads && u != t
      ensures ThreadInv(k', s.threads[u]) && Ordered(l', s.threads[u]) && Ordered(s.threads[u], l')
    {
      OthersUndisturbed(k, l, k', l', s.threads[u]);
    }
  }

  lemma {:induction false} RunsKeepInv(run: seq<State>, i: nat)
    requires IsRun(run) && i < |run|
    ensures Inv(run[i])
  {
    if i > 0 {
      RunsKeepInv(run, i - 1);
      assert Next(run[i - 1], run[i - 1 + 1]);
      NextKeepsInv(run[i - 1], run[i]);
    }
  }

  /** A writer that holds the lock holds it alone, and every other outstanding request came later. */
  lemma WriterIsAloneAndFirst(run: seq<State>, i: nat, w: nat, t: nat)
    requires IsRun(run) && i < |run| && w in run[i].threads && t in run[i].threads && w != t
    requires Writes(run[i].threads[w])
    ensures !Writes(run[i].threads[t]) && !Reads(run[i].threads[t])
    ensures IsWriter(run[i].threads[t]) ==> run[i].threads[w].writers < run[i].threads[t].writers
    ensures IsReader(run[i].threads[t]) ==> run[i].threads[w].number <= run[i].threads[t].number
  {
    RunsKeepInv(run, i);
    var k, l, o := run[i].lock, run[i].threads[w], run[i].threads[t];
    assert ThreadInv(k, l) && ThreadInv(k, o) && Ordered(l, o) && Ordered(o, l);
  }

  /** Every writer still outstanding when a reader holds the lock requested it after that reader. */
  lemma ReadersKeepTheirTurn(run: seq<State>, i: nat, r: nat, w: nat)
    requires IsRun(run) && i < |run| && r in run[i].threads && w in run[i].threads
    requires Reads(run[i].threads[r]) && IsWriter(run[i].threads[w])
    ensures run[i].threads[r].number < run[i].threads[w].number
  {
    RunsKeepInv(run, i);
    var k, l, o := run[i].lock, run[i].threads[r], run[i].threads[w];
    assert ThreadInv(k, l) && ThreadInv(k, o) && Ordered(l, o);
  }

  /** The words hold the counts modulo 2^15 in every state, however many requests there have been. */
  lemma WordsHoldTheCounts(run: seq<State>, i: nat)
    requires IsRun(run) && i < |run|
    ensures run[i].lock.request == Packed(run[i].lock.reqR, run[i].lock.reqW) < WORD
    ensures run[i].lock.completion == Packed(run[i].lock.doneR, run[i].lock.doneW) < WORD
    ensures run[i].lock.doneW <= run[i].lock.reqW && run[i].lock.doneR + |run[i].lock.inside| == run[i].lock.reqR
  {
    RunsKeepInv(run, i);
  }
}
