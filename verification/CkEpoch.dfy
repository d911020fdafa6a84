/**
 Epoch-based reclamation by polling: `ck_epoch_begin`, `_end` and `_call` of `ck_epoch.h`, and
 `ck_epoch_register`, `_unregister`, `_recycle` and `_poll` (with its scan and dispatch) of `ck_epoch.c`.

 A record stands for the thread that uses it. Every access to the global epoch, the record
 list or a field of another thread's record is one atomic step, so `begin` loads the epoch,
 stores it and raises the active flag in three steps, and a scan can be overtaken anywhere.
 The record field `section`, the entry fields and the state fields `issued`, `place` and
 `executed` are history.
 */
module CkEpoch {

  /** One outermost read section: the record and how many it had opened before. */
  datatype Section = Section(rec: nat, serial: nat)

  /** A deferred callback: the epoch observed when it was deferred and the sections open then. */
  datatype Entry = Entry(id: nat, observed: nat, open: set<Section>)

  /** Where a deferred entry is. */
  datatype Place = Pending(rec: nat, list: nat) | Running(rec: nat) | Executed | Dropped

  datatype Pc =
    | Idle
    | BStore | BActive
    | UEpoch | UFree
    | PList | PState | PActive | PEpoch | PTick | PDispatch | PRun

  /** A call to `ck_epoch_call` between its load and its push. */
  datatype Call = NoCall | Deferring(entry: Entry)

  /** The local variables of begin and poll. `all` tells the all-inactive dispatch from the tick. */
  datatype Local = Local(pc: Pc, epoch: nat, todo: seq<nat>, active: bool, lists: seq<Index>, all: bool,
                         running: seq<Entry>, call: Call)

  datatype Record = Record(free: bool, epoch: nat, active: nat, pending: seq<seq<Entry>>, section: nat, l: Local)

  datatype State = State(
    epoch: nat, list: seq<nat>, recs: map<nat, Record>,
    issued: nat, place: map<nat, Place>, executed: seq<nat>)

  const LENGTH: nat := 4

  /** One of the lists of a record. */
  type Index = k: nat | k < LENGTH witness 0

  const QUIET := Local(Idle, 0, [], false, [], false, [], NoCall)

  ghost predicate Init(s: State) {
    s == State(1, [], map[], 0, map[], [])
  }

  function Set(s: State, q: nat, r: Record): State {
    s.(recs := s.recs[q := r])
  }

  // ---------------------------------------------------------------- the operations

  function Register(s: State, q: nat): State {
    Set(s, q, Record(false, 0, 0, [[], [], [], []], 0, QUIET)).(list := [q] + s.list)
  }

  function Recycle(s: State, q: nat, r: Record): State {
    Set(s, q, r.(free := false, l := QUIET))
  }

  /** `ck_epoch_begin`; a nested call only counts. */
  function Begin(s: State, q: nat, r: Record): State {
    Set(s, q, if r.active == 0 then r.(l := r.l.(pc := BStore, epoch := s.epoch)) else r.(active := r.active + 1))
  }

  function End(s: State, q: nat, r: Record): State
    requires r.active > 0
  {
    Set(s, q, r.(active := r.active - 1))
  }

  function OpenSections(s: State): set<Section> {
    set q | q in s.recs && s.recs[q].active > 0 :: Section(q, s.recs[q].section)
  }

  /** `ck_epoch_call`: load the epoch, then push on the list it selects. */
  function CallLoad(s: State, q: nat, r: Record): State {
    Set(s, q, r.(l := r.l.(call := Deferring(Entry(s.issued, s.epoch, OpenSections(s)))))).(issued := s.issued + 1)
  }

  function CallPush(s: State, q: nat, r: Record): State
    requires r.l.call.Deferring? && |r.pending| == LENGTH
  {
    var x := r.l.call.entry;
    var k := x.observed % LENGTH;
    Set(s, q, r.(pending := r.pending[k := [x] + r.pending[k]], l := r.l.(call := NoCall))).(place :=
      s.place[x.id := Pending(q, k)])
  }

  /** `ck_epoch_unregister` starts by ending any section; its pending entries are forgotten. */
  function Unregister(s: State, q: nat, r: Record): State {
    Set(s, q, r.(active := 0, l := QUIET.(pc := UEpoch)))
  }

  function Poll(s: State, q: nat, r: Record): State {
    Set(s, q, r.(l := r.l.(pc := PList, epoch := s.epoch, active := false)))
  }

  /** Move the scan to the next record, or past the last one. */
  function Advance(r: Record, active: bool): Record {
    if |r.l.todo| <= 1 then
      if active then r.(l := r.l.(pc := PTick, todo := [], active := active))
      else r.(epoch := r.l.epoch,
        l := r.l.(pc := PDispatch, todo := [], active := active, lists := [0, 1, 2, 3], all := true))
    else
      r.(l := r.l.(pc := PState, todo := r.l.todo[1..], active := active))
  }

  function Seen(s: State, r: Record): Record {
    if r.l.todo != [] && r.l.todo[0] in s.recs then s.recs[r.l.todo[0]] else r
  }

  /** The steps of the scan. A record with an older epoch makes the poll fail. */
  function Scan(s: State, r: Record): Record {
    var seen := Seen(s, r);
    match r.l.pc
    case PList => if s.list == [] then Advance(r.(l := r.l.(todo := [])), false)
      else r.(l := r.l.(pc := PState, todo := s.list))
    case PState => if seen.free then Advance(r, r.l.active) else r.(l := r.l.(pc := PActive))
    case PActive => if seen.active == 0 then Advance(r, r.l.active) else r.(l := r.l.(pc := PEpoch, active := true))
    case PEpoch => if seen.epoch == r.l.epoch then Advance(r, true) else r.(epoch := r.l.epoch, l := QUIET)
    case _ => r
  }

  /** With an active thread around: try to tick, and dispatch the oldest list either way. */
  function Tick(s: State, q: nat, r: Record): State {
    var e := if s.epoch == r.l.epoch then r.l.epoch + 1 else s.epoch;
    Set(s, q, r.(epoch := e, l := r.l.(pc := PDispatch, lists := [(r.l.epoch + 1) % LENGTH], all := false))).(epoch :=
      e)
  }

  /** `ck_epoch_dispatch` empties a list before it runs the entries on it. */
  function Detach(s: State, q: nat, r: Record): State
    requires |r.pending| == LENGTH
  {
    if r.l.lists == [] then Set(s, q, r.(l := QUIET)) else
    var k := r.l.lists[0];
    Set(s, q, r.(pending := r.pending[k := []],
      l := r.l.(pc := PRun, lists := r.l.lists[1..], running := r.pending[k])))
      .(place := Move(s.place, r.pending[k], Running(q)))
  }

  function Move(place: map<nat, Place>, xs: seq<Entry>, p: Place): map<nat, Place> {
    place + map x | x in xs :: x.id := p
  }

  /** Run one callback. */
  function Run(s: State, q: nat, r: Record): State {
    if r.l.running == [] then Set(s, q, r.(l := r.l.(pc := PDispatch))) else
    var x := r.l.running[0];
    Set(s, q, r.(l := r.l.(running := r.l.running[1..]))).(place := s.place[x.id := Executed],
      executed := s.executed + [x.id])
  }

  /** The next access of a thread inside one of the calls. */
  function Step(s: State, q: nat, r: Record): State
    requires |r.pending| == LENGTH
  {
    match r.l.pc
    case Idle => s
    case BStore => Set(s, q, r.(epoch := r.l.epoch, l := r.l.(pc := BActive)))
    case BActive => Set(s, q, r.(active := 1, section := r.section + 1, l := QUIET))
    case UEpoch => Set(s, q, r.(epoch := 0, pending := [[], [], [], []], l := QUIET.(pc := UFree)))
                     .(place := Move(s.place, r.pending[0] + r.pending[1] + r.pending[2] + r.pending[3], Dropped))
    case UFree => Set(s, q, r.(free := true, l := QUIET))
    case PTick => Tick(s, q, r)
    case PDispatch => Detach(s, q, r)
    case PRun => Run(s, q, r)
    case _ => Set(s, q, Scan(s, r))
  }

  /** The client's choices: a poll is never started inside the caller's own read section. */
  ghost predicate ClientStep(s: State, s': State, q: nat, r: Record) {
    && !r.free && r.l.pc == Idle && r.l.call == NoCall
    && (|| s' == Begin(s, q, r)
        || (r.active > 0 && s' == End(s, q, r))
        || s' == CallLoad(s, q, r)
        || s' == Unregister(s, q, r)
        || (r.active == 0 && s' == Poll(s, q, r)))
  }

  /** Whatever a thread can do; the callbacks of a poll may defer again. */
  ghost predicate StepFree(s: State, s': State, q: nat, r: Record) {
    && |r.pending| == LENGTH
    && (|| ClientStep(s, s', q, r)
        || (r.free && r.l.pc == Idle && s' == Recycle(s, q, r))
        || (!r.free && r.l.call == NoCall && s' == Step(s, q, r))
        || (r.l.call.Deferring? && s' == CallPush(s, q, r))
        || (r.l.pc == PRun && r.l.call == NoCall && s' == CallLoad(s, q, r)))
  }

  ghost predicate NextFree(s: State, s': State) {
    || (exists q :: q !in s.recs && s' == Register(s, q))
    || (exists q <- s.recs :: StepFree(s, s', q, s.recs[q]))
  }

  ghost predicate IsFreeRun(run: seq<State>) {
    && |run| > 0 && Init(run[0])
    && forall i :: 0 <= i < |run| - 1 ==> NextFree(run[i], run[i + 1])
  }

  /**
   A callback must not defer onto a list that its own poll has yet to dispatch while there are sections to wait for.
   */
  predicate MayDefer(l: Local, epoch: nat, open: set<Section>) {
    l.pc == Idle || (l.pc == PRun && (epoch % LENGTH !in l.lists || open == {}))
  }

  ghost predicate StepOf(s: State, s': State, q: nat, r: Record) {
    StepFree(s, s', q, r) && (r.l.pc == PRun && s' == CallLoad(s, q, r) ==> MayDefer(r.l, s.epoch, OpenSections(s)))
  }

  ghost predicate Next(s: State, s': State) {
    || (exists q :: q !in s.recs && s' == Register(s, q))
    || (exists q <- s.recs :: StepOf(s, s', q, s.recs[q]))
  }

  /** The runs in which callbacks keep to the restriction. */
  ghost predicate IsRun(run: seq<State>) {
    && |run| > 0 && Init(run[0])
    && forall i :: 0 <= i < |run| - 1 ==> Next(run[i], run[i + 1])
  }

  lemma RunsAreFree(run: seq<State>)
    requires IsRun(run)
    ensures IsFreeRun(run)
  {
    forall i | 0 <= i < |run| - 1 ensures NextFree(run[i], run[i + 1]) {
      assert Next(run[i], run[i + 1]);
      if q :| q in run[i].recs && StepOf(run[i], run[i + 1], q, run[i].recs[q]) {
        assert StepFree(run[i], run[i + 1], q, run[i].recs[q]);
      }
    }
  }

  // ---------------------------------------------------------------- the invariant

  predicate Open(s: State, c: Section) {
    c.rec in s.recs && s.recs[c.rec].active > 0 && s.recs[c.rec].section == c.serial
  }

  /** A section still open when the entry waits has an epoch no later than the entry's. */
  ghost predicate EntryInv(s: State, x: Entry) {
    && x.observed <= s.epoch
    && forall c <- x.open ::
         && c.rec in s.recs && c.rec in s.list && c.serial <= s.recs[c.rec].section
         && (Open(s, c) ==> s.recs[c.rec].epoch <= x.observed)
  }

  /** No section that was open when the entry was deferred is still open. */
  ghost predicate Safe(s: State, x: Entry) {
    forall c <- x.open :: !Open(s, c)
  }

  /** What a scan has established: an open section it has passed is at the poll's own epoch. */
  ghost predicate Passed(s: State, l: Local, x: Entry) {
    && x.observed <= l.epoch
    && forall c <- x.open :: Open(s, c) ==> c.rec in l.todo || (s.recs[c.rec].epoch == l.epoch && l.active)
  }

  predicate Scanning(pc: Pc) { pc.PState? || pc.PActive? || pc.PEpoch? || pc.PTick? }

  ghost predicate Waiting(pending: seq<seq<Entry>>, k: nat, x: Entry)
    requires |pending| == LENGTH && k < LENGTH
  {
    x in pending[k]
  }

  ghost predicate RecordInv(s: State, q: nat, r: Record) {
    && q in s.list && |r.pending| == LENGTH
    && (r.active > 0 ==> !r.free && r.epoch <= s.epoch)
    && (r.free ==> r.l.pc == Idle && r.l.call == NoCall)
    && (r.l.pc != Idle && !r.l.pc.UFree? ==> r.l.epoch <= s.epoch)
    && (r.l.pc != Idle ==> r.active == 0) && (r.l.pc.BActive? ==> r.epoch <= s.epoch)
    && (r.l.call.Deferring? ==>
       EntryInv(s, r.l.call.entry) && MayDefer(r.l, r.l.call.entry.observed, r.l.call.entry.open))
    && (forall k, x :: 0 <= k < LENGTH && Waiting(r.pending, k, x) ==> EntryInv(s, x) && x.observed % LENGTH == k)
    && ScanInv(s, r)
    && DispatchInv(s, r)
  }

  ghost predicate ScanInv(s: State, r: Record)
    requires |r.pending| == LENGTH
  {
    && (Scanning(r.l.pc) ==> forall k, x :: 0 <= k < LENGTH && Waiting(r.pending, k, x) ==> Passed(s, r.l, x))
    && (r.l.pc.PState? || r.l.pc.PActive? || r.l.pc.PEpoch? ==> r.l.todo != [] && forall p <- r.l.todo :: p in s.recs)
    && (r.l.pc.PEpoch? || r.l.pc.PTick? ==> r.l.active)
    && (r.l.pc.PTick? ==> r.l.todo == [])
    && (r.l.pc.PList? ==> !r.l.active && forall k, x :: 0 <= k < LENGTH && Waiting(r.pending, k, x) ==>
       x.observed <= r.l.epoch)
  }

  ghost predicate DispatchInv(s: State, r: Record)
    requires |r.pending| == LENGTH
  {
    && (!r.l.pc.PRun? ==> r.l.running == [])
    && (forall x <- r.l.running :: EntryInv(s, x) && Safe(s, x))
    && (r.l.pc.PDispatch? || r.l.pc.PRun? ==>
          && (!r.l.all ==> |r.l.lists| <= if r.l.pc.PRun? then 0 else 1)
          && forall k, x :: k in r.l.lists && Waiting(r.pending, k, x) ==> Safe(s, x))
  }

  ghost predicate Inv(s: State) {
    && (forall q <- s.recs :: RecordInv(s, q, s.recs[q]))
    && (forall q <- s.list :: q in s.recs)
  }

  /** Open sections neither change their epoch nor come back once closed. */
  ghost predicate Stable(s: State, s': State) {
    && s.epoch <= s'.epoch
    && (forall q <- s.list :: q in s'.list)
    && (forall q <- s.recs :: q in s'.recs && s.recs[q].section <= s'.recs[q].section)
    && (forall c: Section :: c.rec in s.recs && c.serial <= s.recs[c.rec].section && Open(s', c) ==>
          Open(s, c) && s'.recs[c.rec].epoch == s.recs[c.rec].epoch)
  }

  // ---------------------------------------------------------------- safety, step by step

  lemma Undisturbed(s: State, s': State, q: nat, r: Record)
    requires RecordInv(s, q, r) && Stable(s, s')
    ensures RecordInv(s', q, r)
  {
    EntriesUndisturbed(s, s', r);
    hide EntryInv;
    forall k, x | 0 <= k < LENGTH && Waiting(r.pending, k, x) && Scanning(r.l.pc) ensures Passed(s', r.l, x) {
      StillPassed(s, s', r.l, x);
    }
  }

  lemma EntriesUndisturbed(s: State, s': State, r: Record)
    requires |r.pending| == LENGTH && Stable(s, s')
    ensures forall x :: EntryInv(s, x) ==> EntryInv(s', x)
    ensures forall x :: EntryInv(s, x) && Safe(s, x) ==> Safe(s', x)
  {
  }

  lemma StillPassed(s: State, s': State, l: Local, x: Entry)
    requires EntryInv(s, x) && Passed(s, l, x) && Stable(s, s')
    ensures Passed(s', l, x)
  {
  }

  /** A step of record `q` that leaves its open section alone. */
  lemma QuietStep(s: State, s': State, q: nat, r': Record)
    requires Inv(s) && q in s.recs && s'.recs == s.recs[q := r'] && s'.epoch >= s.epoch && s'.list == s.list
    requires var r := s.recs[q];
             r'.section >= r.section && (r'.active > 0 && r'.section == r.section ==>
               r.active > 0 && r'.epoch == r.epoch)
    ensures Stable(s, s') && RecordInv(s', q, s.recs[q])
  {
    assert Stable(s, s');
    Undisturbed(s, s', q, s.recs[q]);
  }

  ghost predicate Good(s: State, s': State, q: nat) {
    q in s'.recs && Stable(s, s') && RecordInv(s', q, s'.recs[q]) && s'.list == s.list
    && s'.recs.Keys == s.recs.Keys && forall p <- s.recs :: p != q ==> s'.recs[p] == s.recs[p]
  }

  lemma Basics(s: State, q: nat)
    requires Inv(s) && q in s.recs
    ensures RecordInv(s, q, s.recs[q])
    ensures var r := s.recs[q]; |r.pending| == LENGTH && (r.l.pc != Idle ==> r.active == 0)
  {
  }

  lemma BeginEndLocal(s: State, q: nat, r: Record, r': Record)
    requires RecordInv(s, q, r) && !r.free && r.l.call == NoCall && r.l.pc == Idle
    requires (r.active == 0 && exists e: nat :: e <= s.epoch && r' == r.(l := r.l.(pc := BStore, epoch := e)))
             || (r.active > 0 && (r' == r.(active := r.active + 1) || r' == r.(active := r.active - 1)))
    ensures RecordInv(s, q, r')
  {
    hide EntryInv, Safe;
  }

  lemma BeginStepsLocal(s: State, q: nat, r: Record)
    requires RecordInv(s, q, r) && !r.free && r.l.call == NoCall
    ensures r.l.pc.BStore? ==> RecordInv(s, q, r.(epoch := r.l.epoch, l := r.l.(pc := BActive)))
    ensures r.l.pc.BActive? ==> RecordInv(s, q, r.(active := 1, section := r.section + 1, l := QUIET))
  {
    hide EntryInv, Safe;
  }

  lemma SectionStepsAreGood(s: State, s': State, q: nat)
    requires Inv(s) && q in s.recs
    requires var r := s.recs[q];
             && !r.free && r.l.call == NoCall
             && (|| (r.l.pc == Idle && s' == Begin(s, q, r))
                 || (r.l.pc == Idle && r.active > 0 && s' == End(s, q, r))
                 || ((r.l.pc.BStore? || r.l.pc.BActive?) && |r.pending| == LENGTH && s' == Step(s, q, r)))
    ensures Good(s, s', q)
  {
    hide Stable, RecordInv;
    var r := s.recs[q];
    Basics(s, q);
    QuietStep(s, s', q, s'.recs[q]);
    if r.l.pc == Idle {
      BeginEndLocal(s', q, r, s'.recs[q]);
    } else {
      BeginStepsLocal(s', q, r);
    }
  }

  lemma UnregisterLocal(s: State, q: nat, r: Record)
    requires RecordInv(s, q, r) && r.l.call == NoCall
    ensures r.l.pc == Idle && !r.free ==> RecordInv(s, q, r.(active := 0, l := QUIET.(pc := UEpoch)))
    ensures r.l.pc.UEpoch? ==> RecordInv(s, q, r.(epoch := 0, pending := [[], [], [], []], l := QUIET.(pc := UFree)))
    ensures r.l.pc.UFree? ==> RecordInv(s, q, r.(free := true, l := QUIET))
    ensures r.l.pc == Idle && r.free ==> RecordInv(s, q, r.(free := false, l := QUIET))
  {
    hide EntryInv, Safe;
  }

  lemma UnregisterStepsAreGood(s: State, s': State, q: nat)
    requires Inv(s) && q in s.recs
    requires var r := s.recs[q];
             && r.l.call == NoCall
             && (|| (r.l.pc == Idle && !r.free && s' == Unregister(s, q, r))
                 || ((r.l.pc.UEpoch? || r.l.pc.UFree?) && !r.free && |r.pending| == LENGTH && s' == Step(s, q, r))
                 || (r.l.pc == Idle && r.free && s' == Recycle(s, q, r)))
    ensures Good(s, s', q)
  {
    hide Stable, RecordInv, Move;
    Basics(s, q);
    QuietStep(s, s', q, s'.recs[q]);
    UnregisterLocal(s', q, s.recs[q]);
  }

  /** A section open now is at an epoch no later than the one a deferral observes now. */
  lemma NewEntryInv(s: State, x: Entry)
    requires Inv(s) && x == Entry(s.issued, s.epoch, OpenSections(s))
    ensures EntryInv(s, x)
  {
    forall c | c in x.open ensures c.rec in s.recs && c.rec in s.list && c.serial <= s.recs[c.rec].section
      && s.recs[c.rec].epoch <= s.epoch {
      assert RecordInv(s, c.rec, s.recs[c.rec]);
    }
  }

  lemma CallLocal(s: State, q: nat, r: Record, x: Entry)
    requires RecordInv(s, q, r) && EntryInv(s, x)
    ensures !r.free && r.l.call == NoCall && MayDefer(r.l, x.observed, x.open) ==>
            RecordInv(s, q, r.(l := r.l.(call := Deferring(x))))
    ensures r.l.call == Deferring(x) ==>
              var k := x.observed % LENGTH;
              RecordInv(s, q, r.(pending := r.pending[k := [x] + r.pending[k]], l := r.l.(call := NoCall)))
  {
    assert x.open == {} ==> Safe(s, x);
    hide EntryInv, Safe;
    var j := x.observed % LENGTH;
    var pending := r.pending[j := [x] + r.pending[j]];
    forall k, y | 0 <= k < LENGTH && Waiting(pending, k, y) ensures (y == x && k == j) || Waiting(r.pending, k, y) {}
  }

  lemma CallStepsAreGood(s: State, s': State, q: nat)
    requires Inv(s) && q in s.recs
    requires var r := s.recs[q];
             || (!r.free && r.l.call == NoCall && MayDefer(r.l, s.epoch, OpenSections(s)) && s' == CallLoad(s, q, r))
             || (r.l.call.Deferring? && |r.pending| == LENGTH && s' == CallPush(s, q, r))
    ensures Good(s, s', q)
  {
    hide Stable, RecordInv;
    var r := s.recs[q];
    Basics(s, q);
    QuietStep(s, s', q, s'.recs[q]);
    if r.l.call == NoCall {
      var x := Entry(s.issued, s.epoch, OpenSections(s));
      NewEntryInv(s, x);
      EntriesUndisturbed(s, s', r);
      CallLocal(s', q, r, x);
    } else {
      CallEntry(s', q, r);
      CallLocal(s', q, r, r.l.call.entry);
    }
  }

  lemma CallEntry(s: State, q: nat, r: Record)
    requires RecordInv(s, q, r) && r.l.call.Deferring?
    ensures EntryInv(s, r.l.call.entry)
  {
  }

  // ---------------------------------------------------------------- the scan

  lemma PollLocal(s: State, q: nat, r: Record, e: nat)
    requires RecordInv(s, q, r) && !r.free && r.l.call == NoCall && r.l.pc == Idle && r.active == 0
    requires e <= s.epoch && forall k, x :: 0 <= k < LENGTH && Waiting(r.pending, k, x) ==> x.observed <= e
    ensures RecordInv(s, q, r.(l := r.l.(pc := PList, epoch := e, active := false)))
  {
    hide EntryInv, Safe;
  }

  lemma PollIsGood(s: State, q: nat)
    requires Inv(s) && q in s.recs
    requires var r := s.recs[q]; !r.free && r.l.pc == Idle && r.l.call == NoCall && r.active == 0
    ensures Good(s, Poll(s, q, s.recs[q]), q)
  {
    hide Stable;
    var r := s.recs[q];
    var s' := Poll(s, q, r);
    Basics(s, q);
    QuietStep(s, s', q, s'.recs[q]);
    PollLocal(s', q, r, s.epoch);
  }

  /** Passing the record at the front of the scan adds it to what the poll has established. */
  lemma PassFront(s: State, l: Local, active: bool, x: Entry)
    requires Passed(s, l, x) && l.todo != [] && (l.active ==> active)
    requires forall c: Section :: c.rec == l.todo[0] && Open(s, c) ==> s.recs[c.rec].epoch == l.epoch && active
    ensures Passed(s, l.(todo := l.todo[1..], active := active), x)
  {
  }

  /** At the end of a scan that met no active record, every waiting entry is safe. */
  lemma NobodyActive(s: State, l: Local, x: Entry)
    requires Passed(s, l, x) && l.todo == [] && !l.active
    ensures Safe(s, x)
  {
  }

  /** At the end of any scan, only entries of the poll's own epoch can be unsafe. */
  lemma OldListIsSafe(s: State, l: Local, x: Entry)
    requires EntryInv(s, x) && Passed(s, l, x) && l.todo == []
    requires x.observed % LENGTH == (l.epoch + 1) % LENGTH
    ensures Safe(s, x)
  {
    forall c | c in x.open ensures !Open(s, c) { PassedEpoch(s, l, x, c); }
  }

  lemma PassedEpoch(s: State, l: Local, x: Entry, c: Section)
    requires Passed(s, l, x) && l.todo == [] && c in x.open
    ensures Open(s, c) ==> c.rec in s.recs && s.recs[c.rec].epoch == l.epoch
  {
  }

  lemma AdvanceLocal(s: State, q: nat, r: Record, active: bool)
    requires RecordInv(s, q, r) && r.l.call == NoCall && (r.l.pc.PState? || r.l.pc.PActive? || r.l.pc.PEpoch?)
             && (r.l.active ==> active)
    requires r.l.todo != [] && forall c: Section :: c.rec == r.l.todo[0] && Open(s, c) ==>
             s.recs[c.rec].epoch == r.l.epoch && active
    ensures RecordInv(s, q, Advance(r, active))
  {
    hide EntryInv, Safe, Passed;
    var l := r.l.(todo := r.l.todo[1..], active := active);
    forall k, x | 0 <= k < LENGTH && Waiting(r.pending, k, x)
      ensures Passed(s, l, x) && Passed(s, Advance(r, active).l, x) && (l.todo == [] && !active ==> Safe(s, x))
    {
      PassFront(s, r.l, active, x);
      SamePassed(s, l, Advance(r, active).l, x);
      if l.todo == [] && !active { NobodyActive(s, l, x); }
    }
  }

  lemma SamePassed(s: State, l: Local, l': Local, x: Entry)
    requires Passed(s, l, x) && l'.epoch == l.epoch && l'.active == l.active && l'.todo == l.todo
    ensures Passed(s, l', x)
  {
  }

  lemma ScanStartLocal(s: State, q: nat, r: Record)
    requires RecordInv(s, q, r) && Inv(s) && r.l.pc.PList? && !r.free && r.l.call == NoCall
    ensures RecordInv(s, q, r.(l := r.l.(pc := PState, todo := s.list)))
  {
    hide Safe;
  }

  lemma ScanMoveLocal(s: State, q: nat, r: Record)
    requires RecordInv(s, q, r) && !r.free && r.l.call == NoCall
    ensures r.l.pc.PState? ==> RecordInv(s, q, r.(l := r.l.(pc := PActive)))
    ensures r.l.pc.PActive? ==> RecordInv(s, q, r.(l := r.l.(pc := PEpoch, active := true)))
    ensures r.l.pc.PEpoch? ==> RecordInv(s, q, r.(epoch := r.l.epoch, l := QUIET))
  {
    hide EntryInv, Safe;
  }

  lemma ScanLocal(s: State, q: nat, r: Record)
    requires Inv(s) && q in s.recs && r == s.recs[q] && !r.free && r.l.call == NoCall
    requires r.l.pc.PList? || r.l.pc.PState? || r.l.pc.PActive? || r.l.pc.PEpoch?
    ensures RecordInv(s, q, Scan(s, r))
  {
    hide EntryInv, Safe, Passed;
    Basics(s, q);
    if r.l.pc.PList? {
      ScanStartLocal(s, q, r);
    } else {
      ScanMoveLocal(s, q, r);
      var p := r.l.todo[0];
      assert p in s.recs && RecordInv(s, p, s.recs[p]);
      if r.l.pc.PState? && s.recs[p].free {
        AdvanceLocal(s, q, r, r.l.active);
      } else if r.l.pc.PActive? && s.recs[p].active == 0 {
        AdvanceLocal(s, q, r, r.l.active);
      } else if r.l.pc.PEpoch? && s.recs[p].epoch == r.l.epoch {
        AdvanceLocal(s, q, r, true);
      }
    }
  }

  /** A scan changes no field that another thread's proof depends on. */
  lemma ScanIsGood(s: State, q: nat)
    requires Inv(s) && q in s.recs && |s.recs[q].pending| == LENGTH
    requires var r := s.recs[q];
             !r.free && r.l.call == NoCall && (r.l.pc.PList? || r.l.pc.PState? || r.l.pc.PActive? || r.l.pc.PEpoch?)
    ensures Good(s, Step(s, q, s.recs[q]), q)
  {
    var r := s.recs[q];
    var s' := Step(s, q, r);
    Basics(s, q);
    QuietStep(s, s', q, s'.recs[q]);
    ScanLocal(s, q, r);
    hide RecordInv;
    Undisturbed(s, s', q, s'.recs[q]);
  }

  lemma TickLocal(s: State, q: nat, r: Record, e: nat)
    requires RecordInv(s, q, r) && r.l.pc.PTick? && r.l.call == NoCall
    ensures RecordInv(s, q, r.(epoch := e,
            l := r.l.(pc := PDispatch, lists := [(r.l.epoch + 1) % LENGTH], all := false)))
  {
    hide EntryInv, Safe, Passed;
    forall x | Waiting(r.pending, (r.l.epoch + 1) % LENGTH, x) ensures Safe(s, x) {
      OldListIsSafe(s, r.l, x);
    }
  }

  lemma DispatchLocal(s: State, q: nat, r: Record)
    requires RecordInv(s, q, r) && r.l.call == NoCall
    ensures r.l.pc.PDispatch? ==> RecordInv(s, q, r.(l := QUIET))
    ensures r.l.pc.PDispatch? && r.l.lists != [] ==>
              var k := r.l.lists[0];
              RecordInv(s, q, r.(pending := r.pending[k := []],
                l := r.l.(pc := PRun, lists := r.l.lists[1..], running := r.pending[k])))
    ensures r.l.pc.PRun? && r.l.running == [] ==> RecordInv(s, q, r.(l := r.l.(pc := PDispatch)))
    ensures r.l.pc.PRun? && r.l.running != [] ==> RecordInv(s, q, r.(l := r.l.(running := r.l.running[1..])))
  {
    hide EntryInv, Safe;
    if r.l.pc.PDispatch? && r.l.lists != [] {
      var k := r.l.lists[0];
      var pending := r.pending[k := []];
      assert forall x :: x in r.pending[k] ==> Waiting(r.pending, k, x);
      forall j, x | 0 <= j < LENGTH && Waiting(pending, j, x) ensures Waiting(r.pending, j, x) {}
    }
  }

  lemma DispatchStepsAreGood(s: State, q: nat)
    requires Inv(s) && q in s.recs && |s.recs[q].pending| == LENGTH
    requires var r := s.recs[q]; !r.free && r.l.call == NoCall && (r.l.pc.PTick? || r.l.pc.PDispatch? || r.l.pc.PRun?)
    ensures Good(s, Step(s, q, s.recs[q]), q)
  {
    hide Stable, RecordInv, Move;
    var r := s.recs[q];
    var s' := Step(s, q, r);
    Basics(s, q);
    TickForward(s, q);
    QuietStep(s, s', q, s'.recs[q]);
    if r.l.pc.PTick? {
      TickLocal(s', q, r, s'.epoch);
    } else {
      DispatchLocal(s', q, r);
    }
  }

  lemma TickForward(s: State, q: nat)
    requires Inv(s) && q in s.recs
    ensures s.recs[q].l.pc.PTick? ==> s.epoch <= Tick(s, q, s.recs[q]).epoch
  {
    assert RecordInv(s, q, s.recs[q]);
  }

  lemma RegisterKeepsInv(s: State, q: nat)
    requires Inv(s) && q !in s.recs
    ensures Inv(Register(s, q))
  {
    hide RecordInv;
    var s' := Register(s, q);
    assert Stable(s, s');
    forall p | p in s.recs ensures RecordInv(s', p, s.recs[p]) { Undisturbed(s, s', p, s.recs[p]); }
    RegisteredInv(s', q);
  }

  lemma RegisteredInv(s: State, q: nat)
    requires q in s.list
    ensures RecordInv(s, q, Record(false, 0, 0, [[], [], [], []], 0, QUIET))
  {
  }

  lemma GoodKeepsInv(s: State, s': State, q: nat)
    requires Inv(s) && q in s.recs && Good(s, s', q)
    ensures Inv(s')
  {
    hide RecordInv, Stable;
    forall p | p in s'.recs ensures RecordInv(s', p, s'.recs[p]) {
      if p != q { Undisturbed(s, s', p, s.recs[p]); }
    }
  }

  lemma StepIsGood(s: State, s': State, q: nat)
    requires Inv(s) && q in s.recs && StepOf(s, s', q, s.recs[q])
    ensures Inv(s')
  {
    hide Good, Stable, RecordInv;
    var r := s.recs[q];
    Basics(s, q);
    CallMeansUsed(s, q);
    if r.l.call.Deferring? {
      CallStepsAreGood(s, s', q);
    } else if !r.free && MayDefer(r.l, s.epoch, OpenSections(s)) && s' == CallLoad(s, q, r) {
      CallStepsAreGood(s, s', q);
    } else if r.free {
      UnregisterStepsAreGood(s, s', q);
    } else if r.l.pc == Idle {
      if s' == Unregister(s, q, r) {
        UnregisterStepsAreGood(s, s', q);
      } else if r.active == 0 && s' == Poll(s, q, r) {
        PollIsGood(s, q);
      } else if s' == s {
        assert Inv(s');
        return;
      } else {
        SectionStepsAreGood(s, s', q);
      }
    } else if r.l.pc.BStore? || r.l.pc.BActive? {
      SectionStepsAreGood(s, s', q);
    } else if r.l.pc.UEpoch? || r.l.pc.UFree? {
      UnregisterStepsAreGood(s, s', q);
    } else if r.l.pc.PTick? || r.l.pc.PDispatch? || r.l.pc.PRun? {
      DispatchStepsAreGood(s, q);
    } else {
      ScanIsGood(s, q);
    }
    GoodKeepsInv(s, s', q);
  }

  lemma CallMeansUsed(s: State, q: nat)
    requires Inv(s) && q in s.recs
    ensures s.recs[q].l.pc != Idle || s.recs[q].l.call.Deferring? ==> !s.recs[q].free
  {
    assert RecordInv(s, q, s.recs[q]);
  }

  lemma NextKeepsInv(s: State, s': State)
    requires Inv(s) && Next(s, s')
    ensures Inv(s')
  {
    hide RecordInv, StepOf;
    if q :| q !in s.recs && s' == Register(s, q) {
      RegisterKeepsInv(s, q);
    } else {
      var q :| q in s.recs && StepOf(s, s', q, s.recs[q]);
      StepIsGood(s, s', q);
    }
  }

  lemma {:induction false} RunsKeepInv(run: seq<State>, i: nat)
    requires IsRun(run) && i < |run|
    ensures Inv(run[i])
  {
    hide Next;
    if i > 0 {
      RunsKeepInv(run, i - 1);
      assert Next(run[i - 1], run[i - 1 + 1]);
      NextKeepsInv(run[i - 1], run[i]);
    }
  }

  /**
   In every run, when a poll executes a callback, no read section that was open when the
   callback was deferred is still open.
   */
  lemma GracePeriod(run: seq<State>, i: nat, q: nat, c: Section)
    requires IsRun(run) && i < |run| && q in run[i].recs && run[i].recs[q].l.running != []
    requires c in run[i].recs[q].l.running[0].open
    ensures !Open(run[i], c)
  {
    RunsKeepInv(run, i);
    assert RecordInv(run[i], q, run[i].recs[q]);
    assert Safe(run[i], run[i].recs[q].l.running[0]);
  }

  /** After a tick a callback may always defer again. */
  lemma TickDispatchMayDefer(run: seq<State>, i: nat, q: nat)
    requires IsRun(run) && i < |run| && q in run[i].recs
    ensures var l := run[i].recs[q].l; l.pc == PRun && !l.all ==> MayDefer(l, run[i].epoch, OpenSections(run[i]))
  {
    RunsKeepInv(run, i);
    assert RecordInv(run[i], q, run[i].recs[q]);
  }

  // ---------------------------------------------------------------- each entry at most once

  ghost predicate At(place: map<nat, Place>, x: Entry, p: Place) {
    x.id in place && place[x.id] == p
  }

  ghost predicate Distinct(xs: seq<Entry>) {
    forall i, j :: 0 <= i < j < |xs| ==> xs[i].id != xs[j].id
  }

  ghost predicate AllAt(place: map<nat, Place>, xs: seq<Entry>, p: Place) {
    Distinct(xs) && forall x <- xs :: At(place, x, p)
  }

  ghost predicate PlacesOf(s: State, q: nat, r: Record) {
    && |r.pending| == LENGTH
    && (forall k :: 0 <= k < LENGTH ==> AllAt(s.place, r.pending[k], Pending(q, k)))
    && AllAt(s.place, r.l.running, Running(q))
    && (r.l.pc == PRun || r.l.running == [])
    && (r.l.call.Deferring? ==> r.l.call.entry.id < s.issued && r.l.call.entry.id !in s.place)
  }

  ghost predicate SeparateCalls(s: State) {
    forall p, q ::
        p in s.recs && q in s.recs && p != q && s.recs[p].l.call.Deferring? && s.recs[q].l.call.Deferring? ==>
      s.recs[p].l.call.entry.id != s.recs[q].l.call.entry.id
  }

  ghost predicate OnceInv(s: State) {
    && (forall q <- s.recs :: PlacesOf(s, q, s.recs[q]))
    && SeparateCalls(s)
    && (forall id <- s.place :: id < s.issued)
    && (forall i :: 0 <= i < |s.executed| ==> s.executed[i] in s.place && s.place[s.executed[i]] == Executed)
    && (forall i, j :: 0 <= i < j < |s.executed| ==> s.executed[i] != s.executed[j])
  }

  /** Only entries that record `q` holds, or is deferring, change their place. */
  ghost predicate OwnMoves(s: State, s': State, q: nat, r: Record) {
    && s.issued <= s'.issued
    && (forall id <- s.place :: id in s'.place && (s.place[id] == Executed ==> s'.place[id] == Executed))
    && (forall id <- s.place :: (s.place[id].Pending? || s.place[id].Running?) && s.place[id].rec != q ==>
       s'.place[id] == s.place[id])
    && (forall id <- s'.place :: id in s.place || (r.l.call.Deferring? && id == r.l.call.entry.id))
  }

  lemma OthersKeepTheirPlaces(s: State, s': State, q: nat, r: Record, p: nat, o: Record)
    requires PlacesOf(s, p, o) && p != q && OwnMoves(s, s', q, r)
    requires o.l.call.Deferring? && r.l.call.Deferring? ==> o.l.call.entry.id != r.l.call.entry.id
    ensures PlacesOf(s', p, o)
  {
    forall k | 0 <= k < LENGTH ensures AllAt(s'.place, o.pending[k], Pending(p, k)) {}
  }

  /** A step of `q` keeps entries in one place if it does so for its own record. */
  lemma OwnStepKeepsOnce(s: State, s': State, q: nat)
    requires OnceInv(s) && q in s.recs && q in s'.recs && s'.recs == s.recs[q := s'.recs[q]]
    requires OwnMoves(s, s', q, s.recs[q]) && PlacesOf(s', q, s'.recs[q])
    requires s'.recs[q].l.call.Deferring? ==>
             s'.recs[q].l.call == s.recs[q].l.call || s'.recs[q].l.call.entry.id == s.issued
    requires s'.executed == s.executed
             || (s.recs[q].l.running != [] && s'.executed == s.executed + [s.recs[q].l.running[0].id]
                && At(s'.place, s.recs[q].l.running[0], Executed))
    ensures OnceInv(s')
  {
    hide PlacesOf;
    forall p | p in s'.recs ensures PlacesOf(s', p, s'.recs[p]) {
      if p != q { OthersKeepTheirPlaces(s, s', q, s.recs[q], p, s.recs[p]); }
    }
    CallsBeforeIssue(s);
    forall id | id in s'.place ensures id < s'.issued {}
    if s'.executed != s.executed {
      NotYetExecuted(s, q);
    }
  }

  lemma CallsBeforeIssue(s: State)
    requires OnceInv(s)
    ensures forall q <- s.recs :: s.recs[q].l.call.Deferring? ==> s.recs[q].l.call.entry.id < s.issued
  {
    forall q | q in s.recs && s.recs[q].l.call.Deferring? ensures s.recs[q].l.call.entry.id < s.issued {
      assert PlacesOf(s, q, s.recs[q]);
    }
  }

  lemma NotYetExecuted(s: State, q: nat)
    requires OnceInv(s) && q in s.recs && s.recs[q].l.running != []
    ensures s.recs[q].l.running[0].id !in s.executed
  {
    assert PlacesOf(s, q, s.recs[q]);
    assert At(s.place, s.recs[q].l.running[0], Running(q));
  }

  /** The steps that move no entry. */
  lemma PlainStepKeepsOnce(s: State, s': State, q: nat)
    requires OnceInv(s) && q in s.recs && q in s'.recs && s'.recs == s.recs[q := s'.recs[q]]
    requires s'.place == s.place && s'.executed == s.executed && s.issued <= s'.issued
    requires var r, r' := s.recs[q], s'.recs[q];
             && r'.pending == r.pending && (r'.l.running == r.l.running || r'.l.running == [])
                && (r'.l.pc == PRun || r'.l.running == [])
             && (r'.l.call == NoCall || r'.l.call == r.l.call || (r'.l.call.entry.id == s.issued < s'.issued))
    ensures OnceInv(s')
  {
    assert PlacesOf(s, q, s.recs[q]);
    OwnStepKeepsOnce(s, s', q);
  }

  lemma CallPushKeepsOnce(s: State, q: nat)
    requires OnceInv(s) && q in s.recs && s.recs[q].l.call.Deferring? && |s.recs[q].pending| == LENGTH
    ensures OnceInv(CallPush(s, q, s.recs[q]))
  {
    var r := s.recs[q];
    var s' := CallPush(s, q, r);
    assert PlacesOf(s, q, r);
    var x := r.l.call.entry;
    var j := x.observed % LENGTH;
    forall k | 0 <= k < LENGTH ensures AllAt(s'.place, s'.recs[q].pending[k], Pending(q, k)) {
      assert AllAt(s.place, r.pending[k], Pending(q, k));
      assert forall y <- r.pending[k] :: y.id != x.id;
    }
    OwnStepKeepsOnce(s, s', q);
  }

  lemma MoveAll(place: map<nat, Place>, xs: seq<Entry>, p: Place)
    ensures forall x <- xs :: At(Move(place, xs, p), x, p)
    ensures forall id :: id in place && (forall x <- xs :: x.id != id) ==>
            id in Move(place, xs, p) && Move(place, xs, p)[id] == place[id]
    ensures forall id :: id in Move(place, xs, p) ==> id in place || exists x <- xs :: x.id == id
    ensures forall id :: id in place ==> id in Move(place, xs, p)
  {
  }

  lemma DetachKeepsOnce(s: State, q: nat)
    requires OnceInv(s) && q in s.recs && |s.recs[q].pending| == LENGTH && s.recs[q].l.pc == PDispatch
    ensures OnceInv(Detach(s, q, s.recs[q]))
  {
    hide Move;
    var r := s.recs[q];
    var s' := Detach(s, q, r);
    assert PlacesOf(s, q, r);
    if r.l.lists == [] {
      PlainStepKeepsOnce(s, s', q);
    } else {
      var j := r.l.lists[0];
      MoveAll(s.place, r.pending[j], Running(q));
      assert AllAt(s.place, r.pending[j], Pending(q, j));
      forall k | 0 <= k < LENGTH && k != j ensures AllAt(s'.place, r.pending[k], Pending(q, k)) {
        assert AllAt(s.place, r.pending[k], Pending(q, k));
      }
      OwnStepKeepsOnce(s, s', q);
    }
  }

  lemma RunKeepsPlaces(s: State, q: nat, r: Record)
    requires PlacesOf(s, q, r) && r.l.pc == PRun && r.l.call == NoCall && r.l.running != []
    ensures PlacesOf(Run(s, q, r), q, Run(s, q, r).recs[q])
    ensures At(s.place, r.l.running[0], Running(q))
  {
    var s' := Run(s, q, r);
    assert At(s.place, r.l.running[0], Running(q));
    forall k | 0 <= k < LENGTH ensures AllAt(s'.place, r.pending[k], Pending(q, k)) {
      assert AllAt(s.place, r.pending[k], Pending(q, k));
    }
    assert AllAt(s'.place, s'.recs[q].l.running, Running(q)) by {
      assert forall x <- r.l.running[1..] :: x in r.l.running && x.id != r.l.running[0].id;
    }
  }

  lemma RunKeepsOnce(s: State, q: nat)
    requires OnceInv(s) && q in s.recs && s.recs[q].l.pc == PRun && s.recs[q].l.call == NoCall
    ensures OnceInv(Run(s, q, s.recs[q]))
  {
    var r := s.recs[q];
    var s' := Run(s, q, r);
    assert PlacesOf(s, q, r);
    hide PlacesOf;
    if r.l.running == [] {
      PlainStepKeepsOnce(s, s', q);
    } else {
      RunKeepsPlaces(s, q, r);
      OwnStepKeepsOnce(s, s', q);
    }
  }

  lemma DropKeepsOnce(s: State, q: nat)
    requires OnceInv(s) && q in s.recs && |s.recs[q].pending| == LENGTH && s.recs[q].l.pc == UEpoch
    ensures OnceInv(Step(s, q, s.recs[q]))
  {
    hide Move;
    var r := s.recs[q];
    var s' := Step(s, q, r);
    assert PlacesOf(s, q, r);
    var xs := r.pending[0] + r.pending[1] + r.pending[2] + r.pending[3];
    MoveAll(s.place, xs, Dropped);
    forall x | x in xs ensures x.id in s.place && s.place[x.id].Pending? && s.place[x.id].rec == q {
      assert forall k :: 0 <= k < LENGTH && x in r.pending[k] ==> At(s.place, x, Pending(q, k));
      assert x in r.pending[0] || x in r.pending[1] || x in r.pending[2] || x in r.pending[3];
    }
    OwnStepKeepsOnce(s, s', q);
  }

  lemma RunningOnlyInRun(s: State, q: nat)
    requires OnceInv(s) && q in s.recs
    ensures s.recs[q].l.pc == PRun || s.recs[q].l.running == []
  {
    assert PlacesOf(s, q, s.recs[q]);
  }

  lemma OtherStepsKeepOnce(s: State, s': State, q: nat)
    requires OnceInv(s) && q in s.recs && StepFree(s, s', q, s.recs[q])
    requires var r := s.recs[q];
               r.l.call == NoCall && !r.l.pc.UEpoch? && !r.l.pc.PDispatch? && (r.l.pc.PRun? ==> s' == CallLoad(s, q, r))
    ensures OnceInv(s')
  {
    hide OnceInv;
    assert s.recs[q].l.pc == PRun || s.recs[q].l.running == [] by { RunningOnlyInRun(s, q); }
    if s' != s { PlainStepKeepsOnce(s, s', q); }
  }

  lemma RegisterKeepsOnce(s: State, q: nat)
    requires OnceInv(s) && q !in s.recs
    ensures OnceInv(Register(s, q))
  {
    var s' := Register(s, q);
    forall p | p in s'.recs ensures PlacesOf(s', p, s'.recs[p]) {
      if p != q { assert PlacesOf(s, p, s.recs[p]); }
    }
  }

  lemma NextKeepsOnce(s: State, s': State)
    requires OnceInv(s) && NextFree(s, s')
    ensures OnceInv(s')
  {
    hide OnceInv;
    if q :| q !in s.recs && s' == Register(s, q) {
      RegisterKeepsOnce(s, q);
    } else {
      var q :| q in s.recs && StepFree(s, s', q, s.recs[q]);
      var r := s.recs[q];
      if r.free && s' == Recycle(s, q, r) {
        PlainStepKeepsOnce(s, s', q);
      } else if r.l.call.Deferring? {
        CallPushKeepsOnce(s, q);
      } else if r.l.pc.PDispatch? {
        DetachKeepsOnce(s, q);
      } else if r.l.pc.PRun? && s' != CallLoad(s, q, r) {
        RunKeepsOnce(s, q);
      } else if r.l.pc.UEpoch? {
        DropKeepsOnce(s, q);
      } else {
        OtherStepsKeepOnce(s, s', q);
      }
    }
  }

  lemma {:induction false} RunsKeepOnce(run: seq<State>, i: nat)
    requires IsFreeRun(run) && i < |run|
    ensures OnceInv(run[i])
  {
    hide NextFree;
    if i > 0 {
      RunsKeepOnce(run, i - 1);
      assert NextFree(run[i - 1], run[i - 1 + 1]);
      NextKeepsOnce(run[i - 1], run[i]);
    }
  }

  /**
   In every run, whatever callbacks do, no deferred callback is executed twice, and only deferred ones are executed.
   */
  lemma EachEntryRunsOnce(run: seq<State>, i: nat)
    requires IsFreeRun(run) && i < |run|
    ensures forall j, k :: 0 <= j < k < |run[i].executed| ==> run[i].executed[j] != run[i].executed[k]
    ensures forall j :: 0 <= j < |run[i].executed| ==> run[i].executed[j] < run[i].issued
  {
    RunsKeepOnce(run, i);
  }
}
