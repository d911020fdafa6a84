/**
 What `ck_epoch_poll` comes to when the other threads stand still. It fails if a thread is in a section it
 entered in another epoch, ticks and runs the oldest list if threads are in sections of this epoch, and
 runs every deferred callback if no thread is in a section.
 */
module CkEpochProgress {
  import opened CkEpoch
  import opened CkSteps

  /** Record `q` takes its next step. */
  function Go(s: State, q: nat): State {
    if q in s.recs && |s.recs[q].pending| == LENGTH then Step(s, q, s.recs[q]) else s
  }

  ghost function By(q: nat): (State, State) -> bool {
    (s: State, s': State) => s' == Go(s, q)
  }

  lemma Once(s: State, q: nat)
    ensures Leads(By(q), s, Go(s, q))
  {
    LeadsToItself(By(q), s);
    assert By(q)(s, Go(s, q));
    LeadsOn(By(q), s, s, Go(s, q));
  }

  // ---------------------------------------------------------------- the scan

  predicate InSection(s: State, p: nat) {
    p in s.recs && !s.recs[p].free && s.recs[p].active > 0
  }

  /** Some record of `ps` is in a section. */
  ghost predicate Busy(s: State, ps: seq<nat>) {
    exists p <- ps :: InSection(s, p)
  }

  /** Some record of `ps` is in a section and has not the given epoch. */
  ghost predicate Behind(s: State, ps: seq<nat>, epoch: nat) {
    exists p <- ps :: InSection(s, p) && s.recs[p].epoch != epoch
  }

  /** What the scan of the records still to see makes of the caller's record. */
  ghost function Scanned(s: State, r: Record, ps: seq<nat>): Record {
    if Behind(s, ps, r.l.epoch) then r.(epoch := r.l.epoch, l := QUIET)
    else if r.l.active || Busy(s, ps) then r.(l := r.l.(pc := PTick, todo := [], active := true))
    else r.(epoch := r.l.epoch,
      l := r.l.(pc := PDispatch, todo := [], active := false, lists := [0, 1, 2, 3], all := true))
  }

  lemma SetAgain(s: State, q: nat, r: Record, r': Record)
    ensures Set(Set(s, q, r), q, r') == Set(s, q, r')
  {
  }

  /** The records before the first still to be seen do not matter any more. */
  lemma Split(s: State, ps: seq<nat>, epoch: nat)
    requires ps != []
    ensures Busy(s, ps) <==> InSection(s, ps[0]) || Busy(s, ps[1..])
    ensures Behind(s, ps, epoch) <==>
            (InSection(s, ps[0]) && s.recs[ps[0]].epoch != epoch) || Behind(s, ps[1..], epoch)
  {
    assert ps == [ps[0]] + ps[1..];
  }

  /** The caller's own record is in no section, whatever its other fields. */
  lemma SameOthers(s: State, q: nat, r': Record, ps: seq<nat>, epoch: nat)
    requires q in s.recs && r'.free == s.recs[q].free && r'.active == s.recs[q].active == 0
    ensures Busy(Set(s, q, r'), ps) == Busy(s, ps) && Behind(Set(s, q, r'), ps, epoch) == Behind(s, ps, epoch)
  {
    forall p ensures InSection(Set(s, q, r'), p) == InSection(s, p) {}
  }

  /** One record of the scan: past it, or the end of the scan. */
  lemma ScanOne(s: State, q: nat) returns (s': State)
    requires q in s.recs && |s.recs[q].pending| == LENGTH && s.recs[q].active == 0
    requires s.recs[q].l.pc == PState && s.recs[q].l.todo != [] && s.recs[q].l.todo[0] in s.recs
    ensures Leads(By(q), s, s')
    ensures var r := s.recs[q];
            var p := r.l.todo[0];
            s' == Set(s, q, if !InSection(s, p) then Advance(r, r.l.active)
                            else if s.recs[p].epoch == r.l.epoch then Advance(r, true)
                            else r.(epoch := r.l.epoch, l := QUIET))
  {
    hide Leads;
    var r := s.recs[q];
    var p := r.l.todo[0];
    s' := Go(s, q);
    Once(s, q);
    if !s.recs[p].free {
      var r1 := r.(l := r.l.(pc := PActive));
      assert s' == Set(s, q, r1);
      var s1 := s';
      s' := Go(s1, q);
      Once(s1, q);
      LeadsThrough(By(q), s, s1, s');
      if s.recs[p].active == 0 {
        assert Advance(r1, r.l.active) == Advance(r, r.l.active) by { AdvanceIgnores(r, r1, r.l.active); }
        SetAgain(s, q, r1, Advance(r, r.l.active));
      } else {
        ScanEpoch(s, q, r1);
        var s2 := s';
        s' := Go(s2, q);
        Once(s2, q);
        LeadsThrough(By(q), s, s2, s');
        var r2 := r1.(l := r1.l.(pc := PEpoch, active := true));
        AdvanceIgnores(r, r2, true);
        SetAgain(s, q, r2,
          if s.recs[p].epoch == r.l.epoch then Advance(r, true) else r.(epoch := r.l.epoch, l := QUIET));
      }
    }
  }

  lemma AdvanceIgnores(r: Record, r': Record, active: bool)
    requires r' == r.(l := r.l.(pc := r'.l.pc, active := r'.l.active))
    ensures Advance(r', active) == Advance(r, active)
  {
  }

  lemma ScanEpoch(s: State, q: nat, r1: Record)
    requires q in s.recs && |r1.pending| == LENGTH && r1.l.pc == PActive && r1.l.todo != [] && r1.l.todo[0] in s.recs
    requires r1.active == s.recs[q].active == 0 && s.recs[r1.l.todo[0]].active > 0
    ensures Go(Set(s, q, r1), q) == Set(s, q, r1.(l := r1.l.(pc := PEpoch, active := true)))
  {
    SetAgain(s, q, r1, r1.(l := r1.l.(pc := PEpoch, active := true)));
  }

  lemma {:induction false} ScanAlone(s: State, q: nat) returns (s': State)
    requires q in s.recs && |s.recs[q].pending| == LENGTH && s.recs[q].active == 0 && s.recs[q].l.pc == PState
    requires s.recs[q].l.todo != [] && forall p <- s.recs[q].l.todo :: p in s.recs
    ensures Leads(By(q), s, s') && s' == Set(s, q, Scanned(s, s.recs[q], s.recs[q].l.todo))
    decreases |s.recs[q].l.todo|
  {
    hide Leads, Busy, Behind;
    var r := s.recs[q];
    var ps := r.l.todo;
    Split(s, ps, r.l.epoch);
    s' := ScanOne(s, q);
    NothingIn(s, r.l.epoch);
    if |ps| == 1 {
      assert ps[1..] == [];
    } else if s'.recs[q].l.pc == PState {
      var s1 := s';
      SameOthers(s, q, s1.recs[q], ps[1..], r.l.epoch);
      s' := ScanAlone(s1, q);
      LeadsThrough(By(q), s, s1, s');
      SetAgain(s, q, s1.recs[q], s'.recs[q]);
    }
  }

  lemma NothingIn(s: State, epoch: nat)
    ensures !Busy(s, []) && !Behind(s, [], epoch)
  {
  }

  // ---------------------------------------------------------------- the dispatch

  function Ids(xs: seq<Entry>): seq<nat> { seq(|xs|, i requires 0 <= i < |xs| => xs[i].id) }

  lemma IdsOfBoth(xs: seq<Entry>, ys: seq<Entry>)
    ensures Ids(xs + ys) == Ids(xs) + Ids(ys)
  {
  }

  /** The state apart from the history of places, with record `q` and the callbacks run so far. */
  ghost predicate Became(s: State, s': State, q: nat, r: Record, executed: seq<nat>) {
    s' == Set(s, q, r).(place := s'.place, executed := executed)
  }

  lemma BecameAgain(s: State, s1: State, s2: State, q: nat, r1: Record, r2: Record, e1: seq<nat>, e2: seq<nat>)
    requires Became(s, s1, q, r1, e1) && Became(s1, s2, q, r2, e2)
    ensures Became(s, s2, q, r2, e2)
  {
    SetAgain(s, q, r1, r2);
  }

  /** The callbacks of one list, first to last. */
  lemma {:induction false} RunAlone(s: State, q: nat) returns (s': State)
    requires q in s.recs && |s.recs[q].pending| == LENGTH && s.recs[q].l.pc == PRun
    ensures Leads(By(q), s, s')
    ensures var r := s.recs[q];
            Became(s, s', q, r.(l := r.l.(pc := PDispatch, running := [])), s.executed + Ids(r.l.running))
    decreases |s.recs[q].l.running|
  {
    hide Leads;
    var r := s.recs[q];
    s' := Go(s, q);
    Once(s, q);
    if r.l.running != [] {
      var s1 := s';
      var r1 := r.(l := r.l.(running := r.l.running[1..]));
      assert Became(s, s1, q, r1, s.executed + [r.l.running[0].id]);
      s' := RunAlone(s1, q);
      LeadsThrough(By(q), s, s1, s');
      assert r.l.running == [r.l.running[0]] + r.l.running[1..];
      IdsOfBoth([r.l.running[0]], r.l.running[1..]);
      assert s.executed + Ids(r.l.running) == s1.executed + Ids(r1.l.running);
      BecameAgain(s, s1, s', q, r1, s'.recs[q], s1.executed, s'.executed);
    }
  }

  /** The entries on the given lists, in the order in which the lists are dispatched. */
  function Chosen(pending: seq<seq<Entry>>, lists: seq<Index>): seq<Entry>
    requires |pending| == LENGTH
    decreases |lists|
  {
    if lists == [] then [] else pending[lists[0]] + Chosen(pending[lists[0] := []], lists[1..])
  }

  function Emptied(pending: seq<seq<Entry>>, lists: seq<Index>): seq<seq<Entry>>
    requires |pending| == LENGTH
    decreases |lists|
  {
    if lists == [] then pending else Emptied(pending[lists[0] := []], lists[1..])
  }

  lemma {:induction false} DispatchAlone(s: State, q: nat) returns (s': State)
    requires q in s.recs && |s.recs[q].pending| == LENGTH && s.recs[q].l.pc == PDispatch && s.recs[q].l.running == []
    ensures Leads(By(q), s, s')
    ensures var r := s.recs[q];
            Became(s, s', q, r.(pending := Emptied(r.pending, r.l.lists), l := QUIET),
              s.executed + Ids(Chosen(r.pending, r.l.lists)))
    decreases |s.recs[q].l.lists|
  {
    hide Leads;
    var r := s.recs[q];
    s' := Go(s, q);
    Once(s, q);
    if r.l.lists != [] {
      var k := r.l.lists[0];
      var s1 := s';
      var r1 := r.(pending := r.pending[k := []],
        l := r.l.(pc := PRun, lists := r.l.lists[1..], running := r.pending[k]));
      assert Became(s, s1, q, r1, s.executed);
      var s2 := RunAlone(s1, q);
      LeadsThrough(By(q), s, s1, s2);
      var r2 := r1.(l := r1.l.(pc := PDispatch, running := []));
      BecameAgain(s, s1, s2, q, r1, r2, s1.executed, s2.executed);
      s' := DispatchAlone(s2, q);
      LeadsThrough(By(q), s, s2, s');
      IdsOfBoth(r.pending[k], Chosen(r1.pending, r1.l.lists));
      assert s.executed + Ids(Chosen(r.pending, r.l.lists)) == s2.executed + Ids(Chosen(r1.pending, r1.l.lists));
      BecameAgain(s, s2, s', q, r2, s'.recs[q], s2.executed, s'.executed);
    }
  }

  lemma OneMore(pending: seq<seq<Entry>>, k: Index, rest: seq<Index>)
    requires |pending| == LENGTH
    ensures Chosen(pending, [k] + rest) == pending[k] + Chosen(pending[k := []], rest)
    ensures Emptied(pending, [k] + rest) == Emptied(pending[k := []], rest)
  {
    assert ([k] + rest)[1..] == rest;
  }

  lemma OneList(pending: seq<seq<Entry>>, k: Index)
    requires |pending| == LENGTH
    ensures Chosen(pending, [k]) == pending[k] && Emptied(pending, [k]) == pending[k := []]
  {
    OneMore(pending, k, []);
    assert [k] + [] == [k];
  }

  lemma AllFour(pending: seq<seq<Entry>>)
    requires |pending| == LENGTH
    ensures Chosen(pending, [0, 1, 2, 3]) == pending[0] + pending[1] + pending[2] + pending[3]
    ensures Emptied(pending, [0, 1, 2, 3]) == [[], [], [], []]
  {
    hide Chosen, Emptied;
    var p1 := pending[0 := []];
    var p2 := p1[1 := []];
    OneMore(pending, 0, [1, 2, 3]);
    OneMore(p1, 1, [2, 3]);
    OneMore(p2, 2, [3]);
    OneList(p2[2 := []], 3);
    assert [0] + [1, 2, 3] == [0, 1, 2, 3] && [1] + [2, 3] == [1, 2, 3] && [2] + [3] == [2, 3];
  }

  // ---------------------------------------------------------------- the whole poll

  /** A record between its calls and in no section. */
  ghost predicate MayPoll(s: State, q: nat) {
    && q in s.recs && |s.recs[q].pending| == LENGTH
    && s.recs[q].active == 0 && s.recs[q].l.pc == Idle && s.recs[q].l.running == []
    && s.list != [] && forall p <- s.list :: p in s.recs
  }

  /** The poll has ended; the other records, the list and so the sections are as before. */
  ghost predicate Polled(s: State, s': State, q: nat, epoch: nat, pending: seq<seq<Entry>>, ran: seq<Entry>) {
    && s'.epoch == epoch && s'.executed == s.executed + Ids(ran)
    && s'.list == s.list && s'.issued == s.issued && q in s.recs
    && s'.recs == s.recs[q := s.recs[q].(epoch := epoch, pending := pending, l := QUIET)]
  }

  /** The record when the scan is at the first record of the list. */
  function Started(s: State, r: Record): Record {
    r.(l := r.l.(pc := PState, epoch := s.epoch, active := false, todo := s.list))
  }

  lemma ScanWhole(s: State, q: nat) returns (s': State)
    requires MayPoll(s, q)
    ensures Leads(By(q), Poll(s, q, s.recs[q]), s')
    ensures var r := Started(s, s.recs[q]);
            s' == Set(s, q, Scanned(s, r, s.list))
  {
    hide Leads, Busy, Behind;
    var s1 := Poll(s, q, s.recs[q]);
    var s2 := Go(s1, q);
    Once(s1, q);
    var r := Started(s, s.recs[q]);
    assert s2 == Set(s, q, r) by { SetAgain(s, q, s1.recs[q], r); }
    s' := ScanAlone(s2, q);
    LeadsThrough(By(q), s1, s2, s');
    SameOthers(s, q, r, s.list, s.epoch);
    SetAgain(s, q, r, s'.recs[q]);
  }

  lemma PollFails(s: State, q: nat) returns (s': State)
    requires MayPoll(s, q) && Behind(s, s.list, s.epoch)
    ensures Leads(By(q), Poll(s, q, s.recs[q]), s') && Polled(s, s', q, s.epoch, s.recs[q].pending, [])
  {
    hide Leads, Busy, Behind;
    s' := ScanWhole(s, q);
  }

  lemma PollRunsAll(s: State, q: nat) returns (s': State)
    requires MayPoll(s, q) && !Busy(s, s.list)
    ensures Leads(By(q), Poll(s, q, s.recs[q]), s')
    ensures var p := s.recs[q].pending; Polled(s, s', q, s.epoch, [[], [], [], []], p[0] + p[1] + p[2] + p[3])
  {
    assert !Behind(s, s.list, s.epoch);
    hide Leads, Busy, Behind;
    var s1 := ScanWhole(s, q);
    s' := DispatchAlone(s1, q);
    LeadsThrough(By(q), Poll(s, q, s.recs[q]), s1, s');
    AllFour(s.recs[q].pending);
    SetAgain(s, q, s1.recs[q], s'.recs[q]);
  }

  lemma PollTicks(s: State, q: nat) returns (s': State)
    requires MayPoll(s, q) && Busy(s, s.list) && !Behind(s, s.list, s.epoch)
    ensures Leads(By(q), Poll(s, q, s.recs[q]), s')
    ensures var p, k := s.recs[q].pending, (s.epoch + 1) % LENGTH;
            Polled(s, s', q, s.epoch + 1, p[k := []], p[k])
  {
    hide Leads, Busy, Behind;
    var s1 := ScanWhole(s, q);
    var s2 := Go(s1, q);
    Once(s1, q);
    LeadsThrough(By(q), Poll(s, q, s.recs[q]), s1, s2);
    SetAgain(s, q, s1.recs[q], s2.recs[q]);
    s' := DispatchAlone(s2, q);
    LeadsThrough(By(q), Poll(s, q, s.recs[q]), s2, s');
    OneList(s.recs[q].pending, (s.epoch + 1) % LENGTH);
    SetAgain(s, q, s2.recs[q], s'.recs[q]);
  }

  /**
   In every run, a record that is in no section and polls alone: the poll fails, ticks or runs everything,
   exactly by which of the sections of the other records are open and in which epoch they were entered.
   */
  lemma PollAlone(run: seq<State>, i: nat, q: nat) returns (s': State)
    requires IsRun(run) && i < |run| && q in run[i].recs && run[i].recs[q].active == 0 && run[i].recs[q].l.pc == Idle
    ensures Leads(By(q), Poll(run[i], q, run[i].recs[q]), s')
    ensures |run[i].recs[q].pending| == LENGTH
    ensures var s, p := run[i], run[i].recs[q].pending;
            if Behind(s, s.list, s.epoch) then Polled(s, s', q, s.epoch, p, [])
            else if Busy(s, s.list) then
              Polled(s, s', q, s.epoch + 1, p[(s.epoch + 1) % LENGTH := []], p[(s.epoch + 1) % LENGTH])
            else Polled(s, s', q, s.epoch, [[], [], [], []], p[0] + p[1] + p[2] + p[3])
  {
    RunsKeepInv(run, i);
    var s := run[i];
    assert RecordInv(s, q, s.recs[q]);
    hide Leads, Busy, Behind, Polled, Inv, RecordInv;
    if Behind(s, s.list, s.epoch) {
      s' := PollFails(s, q);
    } else if Busy(s, s.list) {
      s' := PollTicks(s, q);
    } else {
      s' := PollRunsAll(s, q);
    }
  }
}
