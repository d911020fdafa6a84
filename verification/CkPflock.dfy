/**
 The phase-fair reader-writer lock of `ck_pflock.h`, for any number of threads.

 The low bits of `rin` announce a writer and its phase, the rest counts reader arrivals in
 steps of `RINC`; every access is one atomic step and counters are unbounded. The lock field
 `inside` (arrival numbers of the readers that have not left), `phase` and `announced`, and the
 thread fields `number` and `phase`, are history.
 */
module CkPflock {
  import opened Ranges

  const RINC: nat := 0x100
  const PRES: nat := 2

  /**
   A writer between its announcement and its release: its ticket, the arrivals before it, and whether they have
   drained.
   */
  datatype Phase = NoWriter | Announced(ticket: nat, since: nat, drained: bool)

  datatype Lock = Lock(rin: nat, rout: nat, win: nat, wout: nat, inside: set<nat>, phase: Phase, announced: nat)

  datatype Pc = Idle | RWait | RIn | WTurn | WAnnounce | WDrain | WIn | WRelease

  /** `bits` is a waiting reader's snapshot, `ticket` and `snapshot` a writer's two tickets. */
  datatype Local = Local(pc: Pc, bits: nat, ticket: nat, snapshot: nat, number: nat, phase: nat)

  datatype State = State(lock: Lock, threads: map<nat, Local>)

  ghost predicate Init(s: State) {
    && s.lock == Lock(0, 0, 0, 0, {}, NoWriter, 0)
    && (forall t <- s.threads :: s.threads[t].pc == Idle)
  }

  /** `ck_pflock_read_lock`: announce the arrival, and enter at once if no writer is present. */
  function ReadArrive(k: Lock, l: Local): (Lock, Local) {
    var n := k.rin / RINC;
    (k.(rin := k.rin + RINC, inside := k.inside + {n}),
     l.(pc := if k.rin % 4 == 0 then RIn else RWait, bits := k.rin % 4, number := n,
        phase := if k.announced > 0 then k.announced - 1 else 0))
  }

  function ReadLeave(k: Lock, l: Local): (Lock, Local) {
    (k.(rout := k.rout + RINC, inside := k.inside - {l.number}), l.(pc := Idle))
  }

  function WriteArrive(k: Lock, l: Local): (Lock, Local) {
    (k.(win := k.win + 1), l.(pc := WTurn, ticket := k.win))
  }

  /** The writer whose turn it is raises its bits in `rin` and keeps the old value as its ticket. */
  function Announce(k: Lock, l: Local): (Lock, Local) {
    (k.(rin := k.rin + l.ticket % 2 + PRES, phase := Announced(l.ticket, k.rin / RINC, false),
      announced := k.announced + 1),
     l.(pc := WDrain, snapshot := k.rin))
  }

  function Drain(k: Lock, l: Local): (Lock, Local) {
    if k.rout == l.snapshot then
      (if k.phase.Announced? then k.(phase := k.phase.(drained := true)) else k, l.(pc := WIn))
    else (k, l)
  }

  /** `ck_pr_and_32(&rin, 0xFFFFFFF0)`: back to a read phase. */
  function Unannounce(k: Lock, l: Local): (Lock, Local) {
    (k.(rin := k.rin - k.rin % 16, phase := NoWriter), l.(pc := WRelease))
  }

  /** The next access of a thread inside a lock or unlock call, or leaving its critical section. */
  function Step(k: Lock, l: Local): (Lock, Local) {
    match l.pc
    case RWait => (k, if k.rin % 4 == l.bits then l else l.(pc := RIn))
    case RIn => ReadLeave(k, l)
    case WTurn => (k, if k.wout == l.ticket then l.(pc := WAnnounce) else l)
    case WAnnounce => Announce(k, l)
    case WDrain => Drain(k, l)
    case WIn => Unannounce(k, l)
    case WRelease => (k.(wout := k.wout + 1), l.(pc := Idle))
    case Idle => (k, l)
  }

  ghost predicate StepOf(k: Lock, l: Local, k': Lock, l': Local) {
    || (k', l') == Step(k, l)
    || (l.pc == Idle && (k', l') == ReadArrive(k, l))
    || (l.pc == Idle && (k', l') == WriteArrive(k, l))
  }

  ghost predicate Next(s: State, s': State) {
    exists t <- s.threads :: t in s'.threads && s'.threads == s.threads[t := s'.threads[t]]
                             && StepOf(s.lock, s.threads[t], s'.lock, s'.threads[t])
  }

  ghost predicate IsRun(run: seq<State>) {
    && |run| > 0 && Init(run[0])
    && forall i :: 0 <= i < |run| - 1 ==> Next(run[i], run[i + 1])
  }

  // ---------------------------------------------------------------- the invariant

  function Arrivals(k: Lock): nat { k.rin / RINC }

  function PhaseBits(p: Phase): nat {
    if p.NoWriter? then 0 else p.ticket % 2 + PRES
  }

  ghost predicate LockInv(k: Lock) {
    && (forall n <- k.inside :: n < Arrivals(k)) && |k.inside| <= Arrivals(k)
    && k.rin == RINC * Arrivals(k) + PhaseBits(k.phase)
    && k.rout == RINC * (Arrivals(k) - |k.inside|)
    && k.wout <= k.win
    && (k.phase.Announced? ==>
          && k.phase.ticket == k.wout && k.announced == k.wout + 1
          && k.phase.since <= Arrivals(k) && (forall n :: k.phase.since <= n < Arrivals(k) ==> n in k.inside)
          && (k.phase.drained ==> forall n <- k.inside :: k.phase.since <= n))
    && (k.phase.NoWriter? ==> k.wout <= k.announced <= k.wout + 1)
  }

  predicate IsReader(l: Local) { l.pc.RWait? || l.pc.RIn? }

  predicate IsWriter(l: Local) { l.pc.WTurn? || IsOwner(l) }

  /** The writer whose turn it is. */
  predicate IsOwner(l: Local) { l.pc.WAnnounce? || l.pc.WDrain? || l.pc.WIn? || l.pc.WRelease? }

  /** A waiting reader waits for the latest announced writer, or for the one before, if the latest has not drained. */
  ghost predicate WaitsFor(k: Lock, l: Local) {
    && l.bits == l.phase % 2 + PRES
    && if k.phase.Announced? && l.number < k.phase.since
       then l.phase + 2 == k.announced && !k.phase.drained
       else l.phase + 1 == k.announced
  }

  ghost predicate ThreadInv(k: Lock, l: Local) {
    && (IsReader(l) ==> l.number in k.inside)
    && (l.pc.RWait? ==> WaitsFor(k, l))
    && (l.pc.RIn? && k.phase.Announced? ==> l.number < k.phase.since)
    && (IsWriter(l) ==> k.wout <= l.ticket < k.win)
    && (IsOwner(l) ==> l.ticket == k.wout)
    && (l.pc.WAnnounce? ==> k.phase.NoWriter? && k.announced == k.wout)
    && (l.pc.WDrain? ==> k.phase.Announced? && l.snapshot == RINC * k.phase.since)
    && (l.pc.WIn? ==> k.phase.Announced? && k.phase.drained)
    && (l.pc.WRelease? ==> k.phase.NoWriter? && k.announced == k.wout + 1)
  }

  ghost predicate Apart(l: Local, o: Local) {
    && (IsReader(l) && IsReader(o) ==> l.number != o.number)
    && (IsWriter(l) && IsWriter(o) ==> l.ticket != o.ticket)
  }

  /** Some thread owns the turn, or the previous phase is over. */
  ghost predicate TurnInv(s: State) {
    var k := s.lock;
    (forall t <- s.threads :: !IsOwner(s.threads[t])) ==> k.phase.NoWriter? && k.announced == k.wout
  }

  ghost predicate Inv(s: State) {
    && LockInv(s.lock)
    && (forall t <- s.threads :: ThreadInv(s.lock, s.threads[t]))
    && (forall t, u :: t in s.threads && u in s.threads && t != u ==> Apart(s.threads[t], s.threads[u]))
    && TurnInv(s)
  }

  // ---------------------------------------------------------------- one step

  /** What a step of `l` must establish for itself and for any other thread `o`. */
  ghost predicate Harmless(k: Lock, l: Local, k': Lock, l': Local, o: Local) {
    ThreadInv(k', o) && Apart(l', o) && Apart(o, l')
  }

  lemma ReadArriveIsGood(k: Lock, l: Local)
    requires LockInv(k) && ThreadInv(k, l) && l.pc == Idle
    ensures LockInv(ReadArrive(k, l).0) && ThreadInv(ReadArrive(k, l).0, ReadArrive(k, l).1)
  {
    var (k', l') := ReadArrive(k, l);
    Digits(Arrivals(k), PhaseBits(k.phase));
    Digits(Arrivals(k) + 1, PhaseBits(k.phase));
    assert l'.number !in k.inside;
  }

  /** The fields of a counter word. */
  lemma Digits(a: nat, b: nat)
    requires b < 4
    ensures (RINC * a + b) / RINC == a && (RINC * a + b) % 4 == b && (RINC * a + b) % 16 == b
  {
  }

  lemma ReadLeaveIsGood(k: Lock, l: Local)
    requires LockInv(k) && ThreadInv(k, l) && l.pc.RIn?
    ensures LockInv(ReadLeave(k, l).0) && ThreadInv(ReadLeave(k, l).0, ReadLeave(k, l).1)
  {
  }

  lemma AnnounceIsGood(k: Lock, l: Local)
    requires LockInv(k) && ThreadInv(k, l) && l.pc.WAnnounce?
    ensures LockInv(Announce(k, l).0) && ThreadInv(Announce(k, l).0, Announce(k, l).1)
  {
    assert Arrivals(Announce(k, l).0) == Arrivals(k);
  }

  /** The writer's wait ends only when exactly the readers that arrived before it have left. */
  lemma DrainIsGood(k: Lock, l: Local)
    requires LockInv(k) && ThreadInv(k, l) && l.pc.WDrain?
    ensures LockInv(Drain(k, l).0) && ThreadInv(Drain(k, l).0, Drain(k, l).1)
  {
    if k.rout == l.snapshot {
      EarlierOnesLeft(k.inside, k.phase.since, Arrivals(k));
    }
  }

  lemma UnannounceIsGood(k: Lock, l: Local)
    requires LockInv(k) && ThreadInv(k, l) && l.pc.WIn?
    ensures LockInv(Unannounce(k, l).0) && ThreadInv(Unannounce(k, l).0, Unannounce(k, l).1)
  {
    assert k.rin % 16 == PhaseBits(k.phase);
    assert Arrivals(Unannounce(k, l).0) == Arrivals(k);
  }

  lemma WaitIsGood(k: Lock, l: Local)
    requires LockInv(k) && ThreadInv(k, l) && (l.pc.RWait? || l.pc.WTurn? || l.pc.WRelease?)
    requires l.pc.WTurn? && l.ticket == k.wout ==> k.phase.NoWriter? && k.announced == k.wout
    ensures LockInv(Step(k, l).0) && ThreadInv(Step(k, l).0, Step(k, l).1)
  {
    Digits(Arrivals(k), PhaseBits(k.phase));
  }

  lemma WriteArriveIsGood(k: Lock, l: Local)
    requires LockInv(k) && ThreadInv(k, l) && l.pc == Idle
    ensures LockInv(WriteArrive(k, l).0) && ThreadInv(WriteArrive(k, l).0, WriteArrive(k, l).1)
  {
  }

  lemma StepIsGood(k: Lock, l: Local, k': Lock, l': Local)
    requires LockInv(k) && ThreadInv(k, l) && StepOf(k, l, k', l')
    requires l.pc.WTurn? && l.ticket == k.wout ==> k.phase.NoWriter? && k.announced == k.wout
    ensures LockInv(k') && ThreadInv(k', l')
  {
    hide LockInv, ThreadInv;
    match l.pc
    case Idle =>
      ReadArriveIsGood(k, l);
      WriteArriveIsGood(k, l);
    case RIn => ReadLeaveIsGood(k, l);
    case WAnnounce => AnnounceIsGood(k, l);
    case WDrain => DrainIsGood(k, l);
    case WIn => UnannounceIsGood(k, l);
    case RWait | WTurn | WRelease => WaitIsGood(k, l);
  }

  lemma ArrivalDisturbsNobody(k: Lock, l: Local, k': Lock, l': Local, o: Local)
    requires LockInv(k) && ThreadInv(k, l) && ThreadInv(k, o) && Apart(l, o) && Apart(o, l) && StepOf(k, l, k', l')
             && LockInv(k')
    requires l.pc == Idle
    ensures Harmless(k, l, k', l', o)
  {
    assert Arrivals(ReadArrive(k, l).0) == Arrivals(k) + 1;
  }

  lemma WaitingDisturbsNobody(k: Lock, l: Local, k': Lock, l': Local, o: Local)
    requires LockInv(k) && ThreadInv(k, l) && ThreadInv(k, o) && Apart(l, o) && Apart(o, l) && StepOf(k, l, k', l')
             && LockInv(k')
    requires l.pc.RWait? || l.pc.RIn? || l.pc.WTurn? || l.pc.WRelease?
    ensures Harmless(k, l, k', l', o)
  {
  }

  lemma PhaseDisturbsNobody(k: Lock, l: Local, k': Lock, l': Local, o: Local)
    requires LockInv(k) && ThreadInv(k, l) && ThreadInv(k, o) && Apart(l, o) && Apart(o, l) && StepOf(k, l, k', l')
             && LockInv(k')
    requires l.pc.WAnnounce? || l.pc.WDrain? || l.pc.WIn?
    ensures Harmless(k, l, k', l', o)
  {
  }

  lemma OthersUndisturbed(k: Lock, l: Local, k': Lock, l': Local, o: Local)
    requires LockInv(k) && ThreadInv(k, l) && ThreadInv(k, o) && Apart(l, o) && Apart(o, l) && StepOf(k, l, k', l')
             && LockInv(k')
    ensures Harmless(k, l, k', l', o)
  {
    hide LockInv, ThreadInv, Apart, StepOf, Harmless;
    if l.pc == Idle {
      ArrivalDisturbsNobody(k, l, k', l', o);
    } else if l.pc.WAnnounce? || l.pc.WDrain? || l.pc.WIn? {
      PhaseDisturbsNobody(k, l, k', l', o);
    } else {
      WaitingDisturbsNobody(k, l, k', l', o);
    }
  }

  /** Two writers never have the turn at once. */
  lemma MyTurn(s: State, t: nat)
    requires Inv(s) && t in s.threads && s.threads[t].pc.WTurn? && s.threads[t].ticket == s.lock.wout
    ensures s.lock.phase.NoWriter? && s.lock.announced == s.lock.wout
  {
    forall u | u in s.threads ensures !IsOwner(s.threads[u]) {
      assert u != t ==> ThreadInv(s.lock, s.threads[u]) && Apart(s.threads[t], s.threads[u]);
    }
  }

  lemma NextKeepsInv(s: State, s': State)
    requires Inv(s) && Next(s, s')
    ensures Inv(s')
  {
    hide LockInv, ThreadInv, Apart, StepOf, TurnInv;
    var t :| t in s.threads && t in s'.threads && s'.threads == s.threads[t := s'.threads[t]]
             && StepOf(s.lock, s.threads[t], s'.lock, s'.threads[t]);
    var k, l, k', l' := s.lock, s.threads[t], s'.lock, s'.threads[t];
    if l.pc.WTurn? && l.ticket == k.wout {
      MyTurn(s, t);
    }
    StepIsGood(k, l, k', l');
    forall u | u in s.threads && u != t ensures Harmless(k, l, k', l', s.threads[u]) {
      assert ThreadInv(k, s.threads[u]);
      OthersUndisturbed(k, l, k', l', s.threads[u]);
    }
    TurnKept(s, s', t);
  }

  lemma TurnKept(s: State, s': State, t: nat)
    requires Inv(s) && t in s.threads && t in s'.threads && s'.threads == s.threads[t := s'.threads[t]]
    requires StepOf(s.lock, s.threads[t], s'.lock, s'.threads[t]) && ThreadInv(s'.lock, s'.threads[t])
    ensures TurnInv(s')
  {
    var l, l' := s.threads[t], s'.threads[t];
    assert ThreadInv(s.lock, l);
    if IsOwner(l) && !IsOwner(l') {
      assert l.pc.WRelease?;
    } else if IsOwner(l') {
      assert IsOwner(s'.threads[t]);
    } else if !IsOwner(l) {
      forall u | u in s.threads && IsOwner(s.threads[u]) ensures IsOwner(s'.threads[u]) {}
    }
  }

  lemma {:induction false} RunsKeepInv(run: seq<State>, i: nat)
    requires IsRun(run) && i < |run|
    ensures Inv(run[i])
  {
    if i > 0 {
      RunsKeepInv(run, i - 1);
      assert Next(run[i - 1], run[i - 1 + 1]);
      NextKeepsInv(run[i - 1], run[i]);
    }
  }

  /** A writer in its critical section is alone in it. */
  lemma Exclusion(run: seq<State>, i: nat, w: nat, t: nat)
    requires IsRun(run) && i < |run| && w in run[i].threads && t in run[i].threads && w != t
    requires run[i].threads[w].pc == WIn
    ensures run[i].threads[t].pc != WIn && run[i].threads[t].pc != RIn
  {
    RunsKeepInv(run, i);
    var k, l, o := run[i].lock, run[i].threads[w], run[i].threads[t];
    assert ThreadInv(k, l) && ThreadInv(k, o) && Apart(l, o);
  }

  /**
   Phase fairness: of all writers only the one whose phase a reader arrived in can be in its
   critical section before that reader has entered and left.
   */
  lemma OvertakenOnce(run: seq<State>, i: nat, w: nat, r: nat)
    requires IsRun(run) && i < |run| && w in run[i].threads && r in run[i].threads
    requires run[i].threads[w].pc == WIn && IsReader(run[i].threads[r])
    ensures run[i].threads[r].pc == RWait && run[i].threads[w].ticket == run[i].threads[r].phase
  {
    RunsKeepInv(run, i);
    assert ThreadInv(run[i].lock, run[i].threads[w]) && ThreadInv(run[i].lock, run[i].threads[r]);
  }

  lemma StepKeepsRead(s: State, s': State, r: nat, n: nat)
    requires Inv(s) && Inv(s') && Next(s, s') && r in s.threads && n < Arrivals(s.lock)
    ensures Arrivals(s.lock) <= Arrivals(s'.lock) && r in s'.threads
    ensures IsReader(s'.threads[r]) && s'.threads[r].number == n ==>
              IsReader(s.threads[r]) && s.threads[r].number == n && s'.threads[r].phase == s.threads[r].phase
  {
    var t :| t in s.threads && t in s'.threads && s'.threads == s.threads[t := s'.threads[t]]
             && StepOf(s.lock, s.threads[t], s'.lock, s'.threads[t]);
    ArrivalsGrow(s.lock, s.threads[t], s'.lock, s'.threads[t]);
  }

  lemma ArrivalsGrow(k: Lock, l: Local, k': Lock, l': Local)
    requires LockInv(k) && ThreadInv(k, l) && StepOf(k, l, k', l')
    ensures Arrivals(k) <= Arrivals(k')
    ensures IsReader(l') ==> (IsReader(l) && l'.number == l.number && l'.phase == l.phase) || l'.number == Arrivals(k)
  {
    Digits(Arrivals(k), PhaseBits(k.phase));
  }

  /** A thread that reads with the same arrival number has been reading all the time. */
  lemma SameRead(run: seq<State>, i: nat, j: nat, r: nat)
    requires IsRun(run) && i <= j < |run| && r in run[i].threads && r in run[j].threads
    requires IsReader(run[i].threads[r]) && IsReader(run[j].threads[r])
             && run[i].threads[r].number == run[j].threads[r].number
    ensures run[i].threads[r].phase == run[j].threads[r].phase
  {
    ReadTracked(run, i, j, r);
  }

  lemma {:induction false} ReadTracked(run: seq<State>, i: nat, j: nat, r: nat)
    requires IsRun(run) && i <= j < |run| && r in run[i].threads && IsReader(run[i].threads[r])
    ensures run[i].threads[r].number < Arrivals(run[i].lock) <= Arrivals(run[j].lock) && r in run[j].threads
    ensures IsReader(run[j].threads[r]) && run[j].threads[r].number == run[i].threads[r].number ==>
              run[j].threads[r].phase == run[i].threads[r].phase
    decreases j
  {
    hide Next, Inv;
    RunsKeepInv(run, j);
    if i == j {
      ArrivedBefore(run[i], r);
    } else {
      ReadTracked(run, i, j - 1, r);
      RunsKeepInv(run, j - 1);
      assert Next(run[j - 1], run[j - 1 + 1]);
      StepKeepsRead(run[j - 1], run[j], r, run[i].threads[r].number);
    }
  }

  lemma ArrivedBefore(s: State, r: nat)
    requires Inv(s) && r in s.threads && IsReader(s.threads[r])
    ensures s.threads[r].number < Arrivals(s.lock)
  {
    assert ThreadInv(s.lock, s.threads[r]);
  }

  /**
   Between the arrival and the departure of a reader all writers found in their critical section, at
   whatever times, are the same acquisition: tickets are handed out once.
   */
  lemma OvertakenByOneAcquisition(run: seq<State>, i: nat, j: nat, v: nat, w: nat, r: nat)
    requires IsRun(run) && i <= j < |run| && v in run[i].threads && w in run[j].threads && r in run[i].threads
             && r in run[j].threads
    requires IsReader(run[i].threads[r]) && IsReader(run[j].threads[r])
             && run[i].threads[r].number == run[j].threads[r].number
    requires run[i].threads[v].pc == WIn && run[j].threads[w].pc == WIn
    ensures run[i].threads[v].ticket == run[j].threads[w].ticket
  {
    OvertakenOnce(run, i, v, r);
    OvertakenOnce(run, j, w, r);
    SameRead(run, i, j, r);
  }
}
