/**
 Exactly when a callback of `ck_epoch_poll` may defer another one.

 A poll that finds nobody active dispatches its four lists in turn, and a callback may put an entry
 on one that is still to come. The same poll then runs it, whatever sections have been opened since
 the scan. This module shows that such a run exists, that every such deferral leads to one, and what
 a callback can look at to avoid it.
 */
module CkEpochDeferral {
  import opened CkEpoch
  import opened CkSteps

  // ---------------------------------------------------------------- what every run keeps

  /** The lists a dispatch has still to go through. */
  predicate ListsLeft(l: Local) {
    && (l.all && (l.pc.PDispatch? || l.pc.PRun?) ==>
          && |l.lists| <= (if l.pc.PRun? then LENGTH - 1 else LENGTH)
          && forall i :: 0 <= i < |l.lists| ==> l.lists[i] == LENGTH - |l.lists| + i)
    && (!l.all && l.pc.PRun? ==> l.lists == [])
    && (!l.all && l.pc.PDispatch? ==> |l.lists| <= 1)
  }

  predicate OnLists(r: Record)
    requires |r.pending| == LENGTH
  {
    && (forall k, i :: 0 <= k < LENGTH && 0 <= i < |r.pending[k]| ==> r.pending[k][i].observed % LENGTH == k)
    && (r.l.pc.PRun? && r.l.all ==> forall x <- r.l.running :: x.observed % LENGTH == LENGTH - 1 - |r.l.lists|)
  }

  predicate PlainRecord(r: Record) {
    && |r.pending| == LENGTH && ListsLeft(r.l) && OnLists(r)
    && (r.free ==> r.l.pc == Idle && r.l.call == NoCall && r.active == 0)
    && (r.l.pc != Idle ==> r.active == 0)
  }

  ghost predicate Plain(s: State) { forall q <- s.recs :: PlainRecord(s.recs[q]) }

  lemma ClientKeepsPlain(s: State, s': State, q: nat, r: Record)
    requires PlainRecord(r) && (ClientStep(s, s', q, r) || s' == Recycle(s, q, r)
             || (!r.free && s' == CallLoad(s, q, r)))
    ensures s'.recs == s.recs[q := s'.recs[q]] && PlainRecord(s'.recs[q])
  {
  }

  lemma PushKeepsPlain(s: State, q: nat, r: Record)
    requires PlainRecord(r) && r.l.call.Deferring?
    ensures PlainRecord(CallPush(s, q, r).recs[q])
  {
  }

  lemma DispatchKeepsPlain(s: State, q: nat, r: Record)
    requires PlainRecord(r)
    ensures r.l.pc.PTick? ==> PlainRecord(Tick(s, q, r).recs[q])
    ensures r.l.pc.PDispatch? ==> PlainRecord(Detach(s, q, r).recs[q])
    ensures r.l.pc.PRun? ==> PlainRecord(Run(s, q, r).recs[q])
  {
  }

  predicate InScan(pc: Pc) { pc.PList? || pc.PState? || pc.PActive? || pc.PEpoch? }

  lemma AdvanceKeepsPlain(r: Record, active: bool)
    requires PlainRecord(r) && InScan(r.l.pc)
    ensures PlainRecord(Advance(r, active))
  {
  }

  lemma MovesInScan(r: Record, l: Local)
    requires PlainRecord(r) && InScan(r.l.pc) && InScan(l.pc) && l.lists == r.l.lists && l.call == r.l.call
             && l.all == r.l.all
    ensures PlainRecord(r.(l := l))
  {
  }

  lemma GivesUp(r: Record, epoch: nat)
    requires PlainRecord(r) && InScan(r.l.pc)
    ensures PlainRecord(r.(epoch := epoch, l := QUIET))
  {
  }

  lemma ScanKeepsPlain(s: State, q: nat, r: Record)
    requires PlainRecord(r) && InScan(r.l.pc)
    ensures PlainRecord(Scan(s, r))
  {
    var none := r.l.(todo := []);
    MovesInScan(r, none);
    MovesInScan(r, r.l.(pc := PState, todo := s.list));
    MovesInScan(r, r.l.(pc := PActive));
    MovesInScan(r, r.l.(pc := PEpoch, active := true));
    AdvanceKeepsPlain(r.(l := none), false);
    AdvanceKeepsPlain(r, r.l.active);
    AdvanceKeepsPlain(r, true);
    GivesUp(r, r.l.epoch);
    hide PlainRecord, Advance, Seen;
  }

  lemma StepKeepsPlain(s: State, s': State, q: nat)
    requires Plain(s) && q in s.recs && StepFree(s, s', q, s.recs[q])
    ensures Plain(s')
  {
    var r := s.recs[q];
    assert PlainRecord(r);
    if s' == s { return; }
    assert s'.recs == s.recs[q := s'.recs[q]] && PlainRecord(s'.recs[q]) by {
      if ClientStep(s, s', q, r) || s' == Recycle(s, q, r) || (!r.free && s' == CallLoad(s, q, r)) {
        ClientKeepsPlain(s, s', q, r);
      } else if r.l.call.Deferring? {
        PushKeepsPlain(s, q, r);
      } else {
        hide PlainRecord, ClientStep;
        StepIsPlain(s, q, r);
      }
    }
    hide PlainRecord, StepFree;
    forall p | p in s'.recs ensures PlainRecord(s'.recs[p]) {
      if p != q { assert PlainRecord(s.recs[p]); }
    }
  }

  lemma StepIsPlain(s: State, q: nat, r: Record)
    requires PlainRecord(r) && Step(s, q, r) != s
    ensures Step(s, q, r).recs == s.recs[q := Step(s, q, r).recs[q]] && PlainRecord(Step(s, q, r).recs[q])
  {
    hide Scan, Tick, Detach, Run;
    match r.l.pc
    case Idle =>
    case BStore =>
    case BActive =>
    case UEpoch =>
    case UFree =>
    case PTick => DispatchKeepsPlain(s, q, r); DispatchSets(s, q, r);
    case PDispatch => DispatchKeepsPlain(s, q, r); DispatchSets(s, q, r);
    case PRun => DispatchKeepsPlain(s, q, r); DispatchSets(s, q, r);
    case _ => ScanKeepsPlain(s, q, r);
  }

  lemma DispatchSets(s: State, q: nat, r: Record)
    requires |r.pending| == LENGTH
    ensures Tick(s, q, r).recs == s.recs[q := Tick(s, q, r).recs[q]]
    ensures Detach(s, q, r).recs == s.recs[q := Detach(s, q, r).recs[q]]
    ensures Run(s, q, r).recs == s.recs[q := Run(s, q, r).recs[q]]
  {
  }

  lemma {:induction false} RunsArePlain(run: seq<State>, i: nat)
    requires IsFreeRun(run) && i < |run|
    ensures Plain(run[i])
  {
    hide Plain, StepFree;
    if i == 0 {
      assert Plain(run[0]) by { NothingPlain(run[0]); }
    } else {
      RunsArePlain(run, i - 1);
      assert NextFree(run[i - 1], run[i - 1 + 1]);
      NextKeepsPlain(run[i - 1], run[i]);
    }
  }

  lemma NothingPlain(s: State)
    requires Init(s)
    ensures Plain(s)
  {
  }

  lemma NextKeepsPlain(s: State, s': State)
    requires Plain(s) && NextFree(s, s')
    ensures Plain(s')
  {
    hide StepFree;
    if q :| q !in s.recs && s' == Register(s, q) {
      forall p | p in s'.recs ensures PlainRecord(s'.recs[p]) {
        if p != q { assert PlainRecord(s.recs[p]); }
      }
    } else {
      var q :| q in s.recs && StepFree(s, s', q, s.recs[q]);
      StepKeepsPlain(s, s', q);
    }
  }

  // ---------------------------------------------------------------- what a callback can tell

  /** The list that an all-inactive dispatch has got to. */
  function Dispatching(l: Local): int { LENGTH - 1 - |l.lists| }

  /**
   In every run, a callback of an all-inactive dispatch that is on list `k` itself may defer another
   one exactly if the epoch selects a list up to `k`, or there is no section to wait for.
   */
  lemma CallbackCanTell(run: seq<State>, i: nat, q: nat)
    requires IsFreeRun(run) && i < |run| && q in run[i].recs && run[i].recs[q].l.pc == PRun && run[i].recs[q].l.all
    ensures var l := run[i].recs[q].l;
            && (forall x <- l.running :: x.observed % LENGTH == Dispatching(l))
            && (MayDefer(l, run[i].epoch, OpenSections(run[i])) <==>
                run[i].epoch % LENGTH <= Dispatching(l) || OpenSections(run[i]) == {})
  {
    RunsArePlain(run, i);
    var l := run[i].recs[q].l;
    assert PlainRecord(run[i].recs[q]);
    var k := run[i].epoch % LENGTH;
    if k > Dispatching(l) { assert l.lists[k - (LENGTH - |l.lists|)] == k; }
  }

  // ---------------------------------------------------------------- what follows from a state

  /** One step of record `q` inside a call. */
  lemma Took(s0: State, s: State, q: nat)
    requires Leads(Next, s0, s) && q in s.recs && !s.recs[q].free && s.recs[q].l.call == NoCall
             && |s.recs[q].pending| == LENGTH
    ensures Leads(Next, s0, Step(s, q, s.recs[q]))
  {
    var s' := Step(s, q, s.recs[q]);
    assert s'.issued == s.issued by { SameIssued(s, q, s.recs[q]); }
    hide Step;
    assert StepOf(s, s', q, s.recs[q]);
    LeadsOn(Next, s0, s, s');
  }

  lemma SameIssued(s: State, q: nat, r: Record)
    requires |r.pending| == LENGTH
    ensures Step(s, q, r).issued == s.issued
  {
  }

  // ---------------------------------------------------------------- deferring ahead

  /** The record is in a dispatch that will get to the list of `x`, where `x` is the first. */
  predicate Ahead(r: Record, x: Entry) {
    && |r.pending| == LENGTH && !r.free && r.l.call == NoCall && (r.l.pc.PDispatch? || r.l.pc.PRun?)
    && x.observed % LENGTH in r.l.lists && r.pending[x.observed % LENGTH] != []
       && r.pending[x.observed % LENGTH][0] == x
  }

  ghost predicate OthersSame(s: State, s': State, q: nat) {
    s'.recs.Keys == s.recs.Keys && forall p <- s.recs :: p != q ==> s'.recs[p] == s.recs[p]
  }

  lemma AheadStays(s: State, q: nat, x: Entry)
    requires q in s.recs && Ahead(s.recs[q], x)
    ensures var r := s.recs[q]; var s' := Step(s, q, r); var k := x.observed % LENGTH;
            && OthersSame(s, s', q)
            && if r.l.pc.PDispatch? && r.l.lists[0] == k then s'.recs[q].l.running != [] && s'.recs[q].l.running[0] == x
               else Ahead(s'.recs[q], x) && (|| |s'.recs[q].l.lists| < |r.l.lists|
                                             || (s'.recs[q].l.lists == r.l.lists && r.l.pc.PRun?
                                                && s'.recs[q].l.pc.PDispatch?)
                                             || (s'.recs[q].l.lists == r.l.lists && r.l.pc.PRun?
                                                && |s'.recs[q].l.running| < |r.l.running|))
  {
    hide Move;
    var r, k := s.recs[q], x.observed % LENGTH;
    if r.l.pc.PDispatch? {
      var first, rest := r.l.lists[0], r.l.lists[1..];
      assert r.l.lists == [first] + rest && first in r.l.lists && forall j <- rest :: j in r.l.lists;
      assert Step(s, q, r).recs[q] ==
        r.(pending := r.pending[first := []], l := r.l.(pc := PRun, lists := rest, running := r.pending[first]));
      assert first != k ==> k in rest && r.pending[first := []][k] == r.pending[k];
    }
  }

  /** The dispatch gets there if the others stand still. */
  lemma {:induction false} DispatchGetsThere(s0: State, s: State, q: nat, x: Entry) returns (s': State)
    requires Leads(Next, s0, s) && q in s.recs && Ahead(s.recs[q], x)
    ensures Leads(Next, s0, s') && OthersSame(s, s', q) && s'.recs[q].l.running != [] && s'.recs[q].l.running[0] == x
    decreases |s.recs[q].l.lists|, if s.recs[q].l.pc.PDispatch? then 0 else 1 + |s.recs[q].l.running|
  {
    hide Leads, Step;
    var r := s.recs[q];
    var s1 := Step(s, q, r);
    Took(s0, s, q);
    AheadStays(s, q, x);
    if r.l.pc.PDispatch? && r.l.lists[0] == x.observed % LENGTH {
      s' := s1;
    } else {
      s' := DispatchGetsThere(s0, s1, q, x);
    }
  }

  /**
   From every state that a run can come to: if a callback defers onto a list that its poll has yet to
   dispatch, while section `c` is open, then the same poll may run the new entry with `c` still open.
   */
  lemma DeferringAheadBreaksGrace(s: State, q: nat, c: Section) returns (s': State)
    requires Plain(s) && q in s.recs && Open(s, c)
    requires var l := s.recs[q].l; l.pc == PRun && l.call == NoCall && s.epoch % LENGTH in l.lists
    ensures Leads(Next, CallLoad(s, q, s.recs[q]), s') && q in s'.recs && s'.recs[q].l.running != []
    ensures s'.recs[q].l.running[0].id == s.issued && c in s'.recs[q].l.running[0].open && Open(s', c)
  {
    hide Leads, Next;
    var r := s.recs[q];
    assert PlainRecord(r) && c.rec != q;
    var x := Entry(s.issued, s.epoch, OpenSections(s));
    assert Section(c.rec, s.recs[c.rec].section) == c && c in x.open;
    var s1 := CallLoad(s, q, r);
    var s2 := CallPush(s1, q, s1.recs[q]);
    LeadsToItself(Next, s1);
    Pushes(s1, q);
    LeadsOn(Next, s1, s1, s2);
    assert OthersSame(s, s2, q) && Ahead(s2.recs[q], x);
    s' := DispatchGetsThere(s1, s2, q, x);
  }

  lemma Pushes(s: State, q: nat)
    requires q in s.recs && s.recs[q].l.call.Deferring? && |s.recs[q].pending| == LENGTH
    ensures Next(s, CallPush(s, q, s.recs[q]))
  {
    var s' := CallPush(s, q, s.recs[q]);
    assert s'.issued == s.issued;
    assert StepOf(s, s', q, s.recs[q]);
  }

  /** No section that was open at the deferral of a callback about to run is still open. */
  ghost predicate Graceful(s: State) {
    forall q, c: Section :: q in s.recs && s.recs[q].l.running != [] && c in s.recs[q].l.running[0].open ==> !Open(s, c)
  }

  /**
   The restriction is exact. After a run that has kept to it, a callback that defers leaves the grace
   period intact in everything that can follow if and only if the restriction allows the deferral. This
   covers any deferral while a list is dispatched, also before its first callback has run.
   */
  lemma DeferralIsSafeExactly(run: seq<State>, q: nat)
    requires IsRun(run) && q in run[|run| - 1].recs
    requires var l := run[|run| - 1].recs[q].l; l.pc == PRun && l.call == NoCall
    ensures var s := run[|run| - 1];
            MayDefer(s.recs[q].l, s.epoch, OpenSections(s)) <==>
            forall s' :: Leads(Next, CallLoad(s, q, s.recs[q]), s') ==> Graceful(s')
  {
    var s := run[|run| - 1];
    var r := s.recs[q];
    RunsAreFree(run);
    RunsArePlain(run, |run| - 1);
    if MayDefer(r.l, s.epoch, OpenSections(s)) {
      forall s' | Leads(Next, CallLoad(s, q, r), s') ensures Graceful(s') { AllowedStaysGraceful(run, q, s'); }
    } else {
      var c :| c in OpenSections(s);
      var s' := DeferringAheadBreaksGrace(s, q, c);
      assert !Graceful(s');
    }
  }

  lemma AllowedStaysGraceful(run: seq<State>, q: nat, s': State)
    requires IsRun(run) && q in run[|run| - 1].recs
    requires var s := run[|run| - 1];
             && s.recs[q].l.pc == PRun && s.recs[q].l.call == NoCall && MayDefer(s.recs[q].l, s.epoch, OpenSections(s))
             && Leads(Next, CallLoad(s, q, s.recs[q]), s')
    ensures Graceful(s')
  {
    var s := run[|run| - 1];
    var s1 := CallLoad(s, q, s.recs[q]);
    RunsAreFree(run);
    RunsArePlain(run, |run| - 1);
    assert PlainRecord(s.recs[q]);
    assert StepOf(s, s1, q, s.recs[q]) && Next(s, s1);
    var more :| Steps(Next, more) && more[0] == s1 && more[|more| - 1] == s';
    var all := run + more;
    forall i | 0 <= i < |all| - 1 ensures Next(all[i], all[i + 1]) {
      if i >= |run| { assert Next(more[i - |run|], more[i - |run| + 1]); }
    }
    assert IsRun(all) && all[|all| - 1] == s';
    forall p, c: Section | p in s'.recs && s'.recs[p].l.running != [] && c in s'.recs[p].l.running[0].open
      ensures !Open(s', c) {
      GracePeriod(all, |all| - 1, p, c);
    }
  }

  /** Every run that comes to a callback which could defer ahead, with a section open, goes on to a failure. */
  lemma DeferringAheadFails(run: seq<State>, q: nat, c: Section) returns (run': seq<State>)
    requires IsFreeRun(run) && q in run[|run| - 1].recs && Open(run[|run| - 1], c)
    requires var s := run[|run| - 1]; var l := s.recs[q].l;
             l.pc == PRun && l.call == NoCall && l.running != [] && s.epoch % LENGTH in l.lists
    ensures IsFreeRun(run') && |run'| > |run| + 1 && run <= run' && !Graceful(run'[|run'| - 1])
    ensures var s := run[|run| - 1];
            run'[|run|] == Run(s, q, s.recs[q]) && q in run'[|run|].recs
              && run'[|run| + 1] == CallLoad(run'[|run|], q, run'[|run|].recs[q])
  {
    hide Next, Graceful, Plain, StepFree;
    var s := run[|run| - 1];
    RunsArePlain(run, |run| - 1);
    RunsAndDefers(s, q, c);
    var s1 := Run(s, q, s.recs[q]);
    var s2 := CallLoad(s1, q, s1.recs[q]);
    var s' := DeferringAheadBreaksGrace(s1, q, c);
    NotGraceful(s', q, c);
    var more :| Steps(Next, more) && more[0] == s2 && more[|more| - 1] == s';
    StepsAreFree(more);
    hide NextFree, Run, CallLoad, Open, Leads, Steps;
    Spliced(run, s1, more);
    run' := run + [s1] + more;
  }

  lemma Spliced(run: seq<State>, s: State, more: seq<State>)
    requires IsFreeRun(run) && NextFree(run[|run| - 1], s) && |more| > 0 && NextFree(s, more[0])
    requires forall i, j :: 0 <= i < j == i + 1 < |more| ==> NextFree(more[i], more[j])
    ensures var all := run + [s] + more;
            IsFreeRun(all) && run <= all && all[|run|] == s && all[|run| + 1] == more[0]
              && all[|all| - 1] == more[|more| - 1]
  {
    hide NextFree;
    var all := run + [s] + more;
    forall i | 0 <= i < |all| - 1 ensures NextFree(all[i], all[i + 1]) {
      if i > |run| { assert NextFree(more[i - |run| - 1], more[i - |run|]); }
    }
  }

  lemma RunsAndDefers(s: State, q: nat, c: Section)
    requires Plain(s) && q in s.recs && Open(s, c) && s.recs[q].l.pc == PRun && s.recs[q].l.call == NoCall
             && s.recs[q].l.running != []
    ensures var s1 := Run(s, q, s.recs[q]);
            && q in s1.recs && Plain(s1) && NextFree(s, s1) && NextFree(s1, CallLoad(s1, q, s1.recs[q]))
            && Open(s1, c) && s1.epoch == s.epoch && s1.recs[q].l == s.recs[q].l.(running := s.recs[q].l.running[1..])
  {
    var r := s.recs[q];
    assert PlainRecord(r);
    var s1 := Run(s, q, r);
    assert StepFree(s, s1, q, r) && StepFree(s1, CallLoad(s1, q, s1.recs[q]), q, s1.recs[q]);
    NextKeepsPlain(s, s1);
  }

  lemma NotGraceful(s: State, q: nat, c: Section)
    requires q in s.recs && s.recs[q].l.running != [] && c in s.recs[q].l.running[0].open && Open(s, c)
    ensures !Graceful(s)
  {
  }

  lemma StepsAreFree(run: seq<State>)
    requires Steps(Next, run)
    ensures forall i, j :: 0 <= i < j == i + 1 < |run| ==> NextFree(run[i], run[j])
  {
    forall i, j | 0 <= i < j == i + 1 < |run| ensures NextFree(run[i], run[j]) {
      assert Next(run[i], run[j]);
      if q :| q in run[i].recs && StepOf(run[i], run[j], q, run[i].recs[q]) {
        assert StepFree(run[i], run[j], q, run[i].recs[q]);
      }
    }
  }

  // ---------------------------------------------------------------- a run that fails

  const EMPTY: seq<seq<Entry>> := [[], [], [], []]

  /** Two registered records. */
  function Two(epoch: nat, a: Record, b: Record, issued: nat, place: map<nat, Place>): State {
    State(epoch, [1, 0], map[0 := a, 1 := b], issued, place, [])
  }

  lemma TwoSet(epoch: nat, a: Record, b: Record, issued: nat, place: map<nat, Place>, r: Record)
    ensures Set(Two(epoch, a, b, issued, place), 0, r) == Two(epoch, r, b, issued, place)
    ensures Set(Two(epoch, a, b, issued, place), 1, r) == Two(epoch, a, r, issued, place)
  {
  }

  function Resting(epoch: nat, active: nat, pending: seq<seq<Entry>>, section: nat): Record {
    Record(false, epoch, active, pending, section, QUIET)
  }

  const FIRST := Entry(0, 1, {Section(0, 1)})

  lemma BothRegister() returns (s0: State)
    ensures Init(s0) && Leads(Next, s0, Two(1, Resting(0, 0, EMPTY, 0), Resting(0, 0, EMPTY, 0), 0, map[]))
  {
    s0 := State(1, [], map[], 0, map[], []);
    LeadsToItself(Next, s0);
    var s1 := Register(s0, 0);
    var s2 := Register(s1, 1);
    assert 0 !in s0.recs && 1 !in s1.recs;
    LeadsOn(Next, s0, s0, s1);
    LeadsOn(Next, s0, s1, s2);
    assert s2 == Two(1, Resting(0, 0, EMPTY, 0), Resting(0, 0, EMPTY, 0), 0, map[]);
  }

  lemma Chose(s0: State, s: State, q: nat, s': State)
    requires Leads(Next, s0, s) && q in s.recs && |s.recs[q].pending| == LENGTH && ClientStep(s, s', q, s.recs[q])
    ensures Leads(Next, s0, s')
  {
    assert StepOf(s, s', q, s.recs[q]);
    LeadsOn(Next, s0, s, s');
  }

  /** `ck_epoch_begin` without interruption. */
  lemma Opens(s0: State, s: State, q: nat)
    requires Leads(Next, s0, s) && q in s.recs && |s.recs[q].pending| == LENGTH && !s.recs[q].free
             && s.recs[q].l == QUIET
             && s.recs[q].active == 0
    ensures var r := s.recs[q]; Leads(Next, s0, Set(s, q, r.(epoch := s.epoch, active := 1, section := r.section + 1)))
  {
    hide Leads;
    var r := s.recs[q];
    var s1 := Begin(s, q, r);
    Chose(s0, s, q, s1);
    Took(s0, s1, q);
    var s2 := Step(s1, q, s1.recs[q]);
    Took(s0, s2, q);
    var s3 := Step(s2, q, s2.recs[q]);
    assert s3.recs == s.recs[q := r.(epoch := s.epoch, active := 1, section := r.section + 1)];
  }

  /** A step of the scan of record 1 or 0. */
  lemma Scans(s0: State, e: nat, a: Record, b: Record, n: nat, place: map<nat, Place>, q: nat)
    requires q <= 1 && Leads(Next, s0, Two(e, a, b, n, place))
    requires var r := if q == 0 then a else b;
             |r.pending| == LENGTH && !r.free && r.l.call == NoCall
               && (r.l.pc.PList? || r.l.pc.PState? || r.l.pc.PActive? || r.l.pc.PEpoch?)
    ensures var s := Two(e, a, b, n, place);
            Leads(Next, s0, if q == 0 then Two(e, Scan(s, a), b, n, place) else Two(e, a, Scan(s, b), n, place))
  {
    var s := Two(e, a, b, n, place);
    Took(s0, s, q);
    TwoSet(e, a, b, n, place, Scan(s, s.recs[q]));
  }

  const WAITING: seq<seq<Entry>> := [[], [FIRST], [], []]

  const PLACE: map<nat, Place> := map[0 := Pending(0, 1)]

  /** Record 0 opens a section in epoch 1 and defers a callback. */
  lemma FirstDefers(s0: State)
    requires Leads(Next, s0, Two(1, Resting(0, 0, EMPTY, 0), Resting(0, 0, EMPTY, 0), 0, map[]))
    ensures Leads(Next, s0, Two(1, Resting(1, 1, WAITING, 1), Resting(0, 0, EMPTY, 0), 1, PLACE))
  {
    hide Leads, Next;
    var b := Resting(0, 0, EMPTY, 0);
    var s := Two(1, Resting(0, 0, EMPTY, 0), b, 0, map[]);
    Opens(s0, s, 0);
    TwoSet(1, Resting(0, 0, EMPTY, 0), b, 0, map[], Resting(1, 1, EMPTY, 1));
    var s1 := Two(1, Resting(1, 1, EMPTY, 1), b, 0, map[]);
    assert OpenSections(s1) == {Section(0, 1)} by {
      assert s1.recs.Keys == {0, 1} && Section(0, s1.recs[0].section) in OpenSections(s1);
    }
    var s2 := CallLoad(s1, 0, s1.recs[0]);
    Chose(s0, s1, 0, s2);
    var a2 := Resting(1, 1, EMPTY, 1).(l := QUIET.(call := Deferring(FIRST)));
    assert s2 == Two(1, a2, b, 1, map[]) by { TwoSet(1, s1.recs[0], b, 0, map[], a2); }
    Pushes(s2, 0);
    LeadsOn(Next, s0, s2, CallPush(s2, 0, a2));
    assert CallPush(s2, 0, a2) == Two(1, Resting(1, 1, WAITING, 1), b, 1, PLACE) by {
      assert [FIRST] + EMPTY[1] == [FIRST] && EMPTY[1 := [FIRST]] == WAITING;
      TwoSet(1, a2, b, 1, map[], Resting(1, 1, WAITING, 1));
    }
  }

  function Scanner(pc: Pc, epoch: nat, todo: seq<nat>,
                   active: bool): Local { Local(pc, epoch, todo, active, [], false, [], NoCall) }

  /** Record 1 polls, finds the section at its own epoch, and moves the epoch on. */
  lemma OtherTicks(s0: State)
    requires Leads(Next, s0, Two(1, Resting(1, 1, WAITING, 1), Resting(0, 0, EMPTY, 0), 1, PLACE))
    ensures Leads(Next, s0, Two(2, Resting(1, 1, WAITING, 1), Resting(2, 0, EMPTY, 0), 1, PLACE))
  {
    hide Leads, Next;
    var a, b := Resting(1, 1, WAITING, 1), Resting(0, 0, EMPTY, 0);
    var s := Two(1, a, b, 1, PLACE);
    var b1 := b.(l := Scanner(PList, 1, [], false));
    assert Poll(s, 1, b) == Two(1, a, b1, 1, PLACE) by { TwoSet(1, a, b, 1, PLACE, b1); }
    Chose(s0, s, 1, Poll(s, 1, b));
    Scans(s0, 1, a, b1, 1, PLACE, 1);
    Scans(s0, 1, a, b.(l := Scanner(PState, 1, [1, 0], false)), 1, PLACE, 1);
    Scans(s0, 1, a, b.(l := Scanner(PActive, 1, [1, 0], false)), 1, PLACE, 1);
    OtherSeesSection(s0, a, b);
    OtherDispatches(s0, a, b.(l := Scanner(PTick, 1, [], true)));
  }

  lemma OtherSeesSection(s0: State, a: Record, b: Record)
    requires a == Resting(1, 1, WAITING, 1) && b == Resting(0, 0, EMPTY, 0)
    requires Leads(Next, s0, Two(1, a, b.(l := Scanner(PState, 1, [0], false)), 1, PLACE))
    ensures Leads(Next, s0, Two(1, a, b.(l := Scanner(PTick, 1, [], true)), 1, PLACE))
  {
    hide Leads, Next;
    Scans(s0, 1, a, b.(l := Scanner(PState, 1, [0], false)), 1, PLACE, 1);
    Scans(s0, 1, a, b.(l := Scanner(PActive, 1, [0], false)), 1, PLACE, 1);
    Scans(s0, 1, a, b.(l := Scanner(PEpoch, 1, [0], true)), 1, PLACE, 1);
  }

  lemma OtherDispatches(s0: State, a: Record, b: Record)
    requires b == Resting(0, 0, EMPTY, 0).(l := Scanner(PTick, 1, [], true)) && Leads(Next, s0, Two(1, a, b, 1, PLACE))
    ensures Leads(Next, s0, Two(2, a, Resting(2, 0, EMPTY, 0), 1, PLACE))
  {
    hide Leads, Next;
    var s := Two(1, a, b, 1, PLACE);
    Took(s0, s, 1);
    var b1 := b.(epoch := 2, l := b.l.(pc := PDispatch, lists := [2]));
    var s1 := Two(2, a, b1, 1, PLACE);
    assert Step(s, 1, b) == s1 by { TwoSet(1, a, b, 1, PLACE, b1); }
    Took(s0, s1, 1);
    var b2 := b1.(l := b1.l.(pc := PRun, lists := []));
    var s2 := Two(2, a, b2, 1, PLACE);
    assert Step(s1, 1, b1) ==
      s2 by { TwoSet(2, a, b1, 1, PLACE, b2); assert b1.pending[2 := []] == EMPTY && [2][1..] == []; }
    Took(s0, s2, 1);
    var s3 := Two(2, a, b2.(l := b2.l.(pc := PDispatch)), 1, PLACE);
    assert Step(s2, 1, b2) == s3 by { TwoSet(2, a, b2, 1, PLACE, s3.recs[1]); }
    Took(s0, s3, 1);
    TwoSet(2, a, s3.recs[1], 1, PLACE, Resting(2, 0, EMPTY, 0));
  }

  function Dispatcher(pc: Pc, lists: seq<Index>,
                      running: seq<Entry>): Local { Local(pc, 2, [], false, lists, true, running, NoCall) }

  /** Record 0 closes its section and polls; nobody is active then. */
  lemma FirstPolls(s0: State)
    requires Leads(Next, s0, Two(2, Resting(1, 1, WAITING, 1), Resting(2, 0, EMPTY, 0), 1, PLACE))
    ensures Leads(Next, s0, Two(2, Resting(2, 0, WAITING, 1).(l := Dispatcher(PDispatch, [0, 1, 2, 3], [])),
            Resting(2, 0, EMPTY, 0), 1, PLACE))
  {
    hide Leads, Next;
    var a, b := Resting(1, 0, WAITING, 1), Resting(2, 0, EMPTY, 0);
    var s := Two(2, Resting(1, 1, WAITING, 1), b, 1, PLACE);
    Chose(s0, s, 0, End(s, 0, s.recs[0]));
    TwoSet(2, s.recs[0], b, 1, PLACE, a);
    var s1 := Two(2, a, b, 1, PLACE);
    var a1 := a.(l := Scanner(PList, 2, [], false));
    assert Poll(s1, 0, a) == Two(2, a1, b, 1, PLACE) by { TwoSet(2, a, b, 1, PLACE, a1); }
    Chose(s0, s1, 0, Poll(s1, 0, a));
    Scans(s0, 2, a1, b, 1, PLACE, 0);
    Scans(s0, 2, a.(l := Scanner(PState, 2, [1, 0], false)), b, 1, PLACE, 0);
    Scans(s0, 2, a.(l := Scanner(PActive, 2, [1, 0], false)), b, 1, PLACE, 0);
    Scans(s0, 2, a.(l := Scanner(PState, 2, [0], false)), b, 1, PLACE, 0);
    Scans(s0, 2, a.(l := Scanner(PActive, 2, [0], false)), b, 1, PLACE, 0);
  }

  /** Record 1 opens a section, and record 0 comes to the list with its callback. */
  lemma CallbackIsNext(s0: State) returns (s: State)
    requires Leads(Next, s0, Two(2, Resting(2, 0, WAITING, 1).(l := Dispatcher(PDispatch, [0, 1, 2, 3], [])),
             Resting(2, 0, EMPTY, 0), 1, PLACE))
    ensures Leads(Next, s0, s) && 0 in s.recs && Open(s, Section(1, 1)) && s.epoch == 2
            && s.recs[0].l == Dispatcher(PRun, [2, 3], [FIRST])
  {
    hide Leads, Next;
    var a, b := Resting(2, 0, WAITING, 1).(l := Dispatcher(PDispatch, [0, 1, 2, 3], [])), Resting(2, 1, EMPTY, 1);
    Opens(s0, Two(2, a, Resting(2, 0, EMPTY, 0), 1, PLACE), 1);
    TwoSet(2, a, Resting(2, 0, EMPTY, 0), 1, PLACE, b);
    FirstListIsEmpty(s0, a, b);
    var a3 := a.(l := Dispatcher(PDispatch, [1, 2, 3], []));
    var s3 := Two(2, a3, b, 1, PLACE);
    Took(s0, s3, 0);
    s := Step(s3, 0, a3);
    assert [1, 2, 3][1..] == [2, 3] && s.recs[0].l == Dispatcher(PRun, [2, 3], [FIRST]);
  }

  lemma FirstListIsEmpty(s0: State, a: Record, b: Record)
    requires a == Resting(2, 0, WAITING, 1).(l := Dispatcher(PDispatch, [0, 1, 2, 3], []))
             && Leads(Next, s0, Two(2, a, b, 1, PLACE))
    ensures Leads(Next, s0, Two(2, a.(l := Dispatcher(PDispatch, [1, 2, 3], [])), b, 1, PLACE))
  {
    hide Leads, Next;
    var s1 := Two(2, a, b, 1, PLACE);
    Took(s0, s1, 0);
    var a2 := a.(l := Dispatcher(PRun, [1, 2, 3], []));
    var s2 := Two(2, a2, b, 1, PLACE);
    assert Step(s1, 0, a) ==
      s2 by { TwoSet(2, a, b, 1, PLACE, a2); assert WAITING[0 := []] == WAITING && [0, 1, 2, 3][1..] == [1, 2, 3]; }
    Took(s0, s2, 0);
    TwoSet(2, a2, b, 1, PLACE, a.(l := Dispatcher(PDispatch, [1, 2, 3], [])));
  }

  /**
   Without the restriction the grace period fails. Two threads: the first defers in epoch 1, the second
   moves the epoch to 2 by a poll, the first polls with nobody active, the second opens a section, and
   the callback of the first, on list 1, defers onto list 2, which the same poll dispatches next.
   */
  lemma GraceCanFail() returns (run: seq<State>)
    ensures IsFreeRun(run) && !Graceful(run[|run| - 1])
  {
    hide Leads, Next, Graceful;
    var s0 := BothRegister();
    FirstDefers(s0);
    OtherTicks(s0);
    FirstPolls(s0);
    var s := CallbackIsNext(s0);
    var past := RunTo(s0, s);
    run := DeferringAheadFails(past, 0, Section(1, 1));
  }

  lemma RunTo(s0: State, s: State) returns (run: seq<State>)
    requires Init(s0) && Leads(Next, s0, s)
    ensures IsFreeRun(run) && run[|run| - 1] == s
  {
    run :| Steps(Next, run) && run[0] == s0 && run[|run| - 1] == s;
    StepsAreFree(run);
    forall i | 0 <= i < |run| - 1 ensures NextFree(run[i], run[i + 1]) {}
  }
}
