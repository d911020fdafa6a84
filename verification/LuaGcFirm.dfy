/**
 What a collection of Lua's collector keeps in weak tables.

 An object is firm if the program holds it by references of objects that are firm, where an entry of a
 weak table counts only if its other side is firm, or no object that could go. References of userdata
 that wait for their finalizer do not count: the collector follows them only after it has decided which
 other userdata to finalize.
 */
module LuaGcFirm {
  import opened LuaHeap
  import opened LuaGcState

  predicate IsHolder(g: State, o: nat) { o == g.main || o == g.running || Ref(o) == g.registry || Ref(o) in g.mt }

  predicate IsString(h: Heap, v: Val) { v.Ref? && v.o in h && h[v.o].body.Str? }

  predicate IsFinalized(h: Heap, v: Val) { v.Ref? && v.o in h && h[v.o].body.Udata? && h[v.o].body.finalized }

  /** Nothing takes the value away: it is no object, a string, or one of `ps`. */
  predicate Sure(h: Heap, ps: seq<nat>, v: Val) { v.Ref? ==> v.o in ps || IsString(h, v) }

  /** The entry of a weak table holds `p` on its strong side, as long as the other side stays. */
  predicate Bears(h: Heap, b: Body, ps: seq<nat>, e: Entry, p: nat)
    requires b.Tab?
  {
    && e.val != Nil && !IsFinalized(h, e.val)
    && ((!b.weakValues && e.val == Ref(p) && Sure(h, ps, e.key))
        || (!b.weakKeys && e.key == Ref(p) && Sure(h, ps, e.val)))
  }

  predicate WeaklyBacks(h: Heap, b: Body, ps: seq<nat>, p: nat)
    requires b.Tab?
  {
    || Ref(p) == b.meta
    || (!b.weakValues && Ref(p) in b.arr)
    || exists i :: 0 <= i < |b.entries| && Bears(h, b, ps, b.entries[i], p)
  }

  /** `q` holds `p`, given that the objects in `ps` are held. */
  predicate Backs(g: State, ps: seq<nat>, q: nat, p: nat) {
    && q in g.heap && q !in g.tmu
    && var b := g.heap[q].body; if IsWeak(b) then WeaklyBacks(g.heap, b, ps, p) else Mentions(g.heap, b, Ref(p))
  }

  ghost predicate Grounded(g: State, ps: seq<nat>, p: nat) {
    IsHolder(g, p) || exists q <- ps :: Backs(g, ps, q, p)
  }

  /** Each object is held by those before it. */
  ghost predicate Derives(g: State, ps: seq<nat>) {
    forall i :: 0 <= i < |ps| ==> Grounded(g, ps[..i], ps[i])
  }

  ghost predicate Firm(g: State, o: nat) { exists ps :: Derives(g, ps) && o in ps }

  lemma FirmMember(g: State, ps: seq<nat>, i: nat)
    requires Derives(g, ps) && i < |ps|
    ensures Firm(g, ps[i])
  {
    assert ps[i] in ps;
  }

  // ---------------------------------------------------------------- firm objects are alive

  lemma BacksRefers(g: State, ps: seq<nat>, q: nat, p: nat)
    requires Backs(g, ps, q, p)
    ensures Ref(p) in AllVals(g.heap, g.heap[q].body)
  {
    var b := g.heap[q].body;
    ValsAreFields(g.heap, b, Ref(p));
    hide Mentions, MentionsStrongly;
    if IsWeak(b) && Ref(p) != b.meta && Ref(p) !in b.arr {
      var i :| 0 <= i < |b.entries| && Bears(g.heap, b, ps, b.entries[i], p);
      EntryValsFrom(b.entries, true, true, Ref(p));
    }
  }

  lemma {:induction false} DerivedAlive(g: State, ps: seq<nat>, i: nat)
    requires Inv(g) && Derives(g, ps) && i < |ps|
    ensures AliveIn(g.heap, g.white, ps[i])
    decreases i
  {
    hide InPhase, Structured, Backs;
    assert Grounded(g, ps[..i], ps[i]);
    if IsHolder(g, ps[i]) {
      if Ref(ps[i]) == g.registry { assert g.registry in [g.registry]; }
    } else {
      var q :| q in ps[..i] && Backs(g, ps[..i], q, ps[i]);
      var j :| 0 <= j < i && ps[j] == q;
      DerivedAlive(g, ps, j);
      BacksRefers(g, ps[..i], q, ps[i]);
      assert AliveVals(g.heap, g.white, AllVals(g.heap, g.heap[q].body));
    }
  }

  lemma FirmAlive(g: State, o: nat)
    requires Inv(g) && Firm(g, o)
    ensures AliveIn(g.heap, g.white, o)
  {
    var ps :| Derives(g, ps) && o in ps;
    var i :| 0 <= i < |ps| && ps[i] == o;
    DerivedAlive(g, ps, i);
  }

  // ---------------------------------------------------------------- what a step keeps

  ghost predicate SameRoots(g: State, g': State) {
    g'.main == g.main && g'.running == g.running && g'.registry == g.registry && g'.mt == g.mt
  }

  /** The roots are the same, and what is alive still holds what it held. */
  ghost predicate Carries(g: State, g': State) {
    && SameRoots(g, g')
    && forall o :: AliveIn(g.heap, g.white, o) && !IsWeak(g.heap[o].body) ==> StillHolds(g.heap, g'.heap, o)
  }

  predicate StillHolds(h: Heap, h': Heap, o: nat)
    requires o in h
  {
    o in h' && !IsWeak(h'[o].body) && forall v <- AllVals(h, h[o].body) :: v in AllVals(h', h'[o].body)
  }

  /** A weak table may lose the value: it is not firm, or finalized and not a key. */
  ghost predicate Shaky(g: State, v: Val, isKey: bool) {
    v.Ref? && !IsString(g.heap, v) && (!Firm(g, v.o) || (!isKey && IsFinalized(g.heap, v)))
  }

  /** A weak table keeps all but shaky values, and entries with one. */
  ghost predicate EntriesStay(g: State, b: Body, b': Body) {
    && b.Tab? && b'.Tab? && b'.meta == b.meta && b'.weakKeys == b.weakKeys && b'.weakValues == b.weakValues
    && |b'.arr| == |b.arr| && |b'.entries| == |b.entries|
    && (forall i :: 0 <= i < |b.arr| ==> b'.arr[i] == b.arr[i] || (b.weakValues && Shaky(g, b.arr[i], false)))
    && (forall i :: 0 <= i < |b.entries| ==>
          b'.entries[i] == b.entries[i] || EntryShaky(g, b.entries[i]))
  }

  ghost predicate EntryShaky(g: State, e: Entry) {
    e.val != Nil && (Shaky(g, e.key, true) || Shaky(g, e.val, false))
  }

  /** What is alive stays what it is, weak tables lose only shaky entries, and no firm userdatum is finalized. */
  ghost predicate Spares(g: State, g': State) {
    && g'.heap.Keys <= g.heap.Keys && StringsStay(g.heap, g'.heap)
    && (forall o :: Firm(g, o) && o in g'.tmu ==> o in g.tmu)
    && (forall o :: AliveIn(g.heap, g.white, o) ==> o in g'.heap && Spared(g, g', o))
  }

  predicate StringsStay(h: Heap, h': Heap) { forall o <- h' :: o in h && h[o].body.Str? ==> h'[o].body.Str? }

  ghost predicate Spared(g: State, g': State, o: nat)
    requires o in g.heap && o in g'.heap
  {
    var b, b' := g.heap[o].body, g'.heap[o].body;
    && (b'.Udata? ==> b.Udata?) && (b.Udata? && Firm(g, o) ==> b' == b)
    && (IsWeak(b) ==> EntriesStay(g, b, b'))
  }

  /** A step that leaves tables, userdata and strings as they are. */
  lemma SteadySpares(g: State, g': State)
    requires g'.heap.Keys <= g.heap.Keys && StringsStay(g.heap, g'.heap) && forall o <- g'.tmu :: o in g.tmu
    requires forall o :: AliveIn(g.heap, g.white, o) ==> o in g'.heap && Steady(g.heap[o].body, g'.heap[o].body)
    ensures Spares(g, g')
  {
  }

  predicate Steady(b: Body, b': Body) {
    (b.Tab? || b.Udata? ==> b' == b) && (b'.Udata? ==> b.Udata?)
  }

  // ---------------------------------------------------------------- firm objects stay firm

  lemma StillSure(g: State, g': State, ps: seq<nat>, v: Val)
    requires Spares(g, g') && Sure(g.heap, ps, v) && (v.Ref? ==> AliveIn(g.heap, g.white, v.o))
    ensures Sure(g'.heap, ps, v)
  {
    hide Firm, EntriesStay;
  }

  lemma StillUnfinalized(g: State, g': State, v: Val)
    requires Spares(g, g') && !IsFinalized(g.heap, v)
    requires v.Ref? ==> AliveIn(g.heap, g.white, v.o) && (Firm(g, v.o) || IsString(g.heap, v))
    ensures !IsFinalized(g'.heap, v)
  {
    hide Firm, EntriesStay;
  }

  lemma SureIsFirm(g: State, ps: seq<nat>, v: Val)
    requires Sure(g.heap, ps, v) && forall o <- ps :: Firm(g, o)
    ensures v.Ref? ==> Firm(g, v.o) || IsString(g.heap, v)
    ensures !Shaky(g, v, true) && (!IsFinalized(g.heap, v) ==> !Shaky(g, v, false))
  {
    hide Firm;
  }

  /** An entry that holds a firm object stays, and still holds it. */
  lemma StillBears(g: State, g': State, b: Body, b': Body, ps: seq<nat>, i: nat, p: nat)
    requires Spares(g, g') && EntriesStay(g, b, b') && i < |b.entries| && Bears(g.heap, b, ps, b.entries[i], p)
    requires (forall o <- ps :: Firm(g, o)) && Firm(g, p) && AliveVals(g.heap, g.white, AllVals(g.heap, b))
    ensures Bears(g'.heap, b', ps, b'.entries[i], p)
  {
    hide Firm, Spares;
    var e := b.entries[i];
    EntryValsFrom(b.entries, true, true, e.key);
    EntryValsFrom(b.entries, true, true, e.val);
    var other := if !b.weakValues && e.val == Ref(p) && Sure(g.heap, ps, e.key) then e.key else e.val;
    SureIsFirm(g, ps, other);
    assert b'.entries[i] == e;
    StillSure(g, g', ps, other);
    StillUnfinalized(g, g', e.val);
  }

  lemma StillBacks(g: State, g': State, ps: seq<nat>, q: nat, p: nat)
    requires Inv(g) && Carries(g, g') && Spares(g, g') && Backs(g, ps, q, p)
    requires (forall o <- ps :: Firm(g, o)) && Firm(g, q) && Firm(g, p)
    ensures Backs(g', ps, q, p)
  {
    FirmAlive(g, q);
    assert AliveVals(g.heap, g.white, AllVals(g.heap, g.heap[q].body));
    hide Inv, Firm, Bears, Mentions, MentionsStrongly;
    var b := g.heap[q].body;
    assert Spared(g, g', q);
    var b' := g'.heap[q].body;
    ValsAreFields(g.heap, b, Ref(p));
    ValsAreFields(g'.heap, b', Ref(p));
    if IsWeak(b) {
      if i :| 0 <= i < |b.entries| && Bears(g.heap, b, ps, b.entries[i], p) {
        StillBears(g, g', b, b', ps, i, p);
      }
    } else {
      assert StillHolds(g.heap, g'.heap, q);
    }
  }

  lemma StillDerives(g: State, g': State, ps: seq<nat>)
    requires Inv(g) && Carries(g, g') && Spares(g, g') && Derives(g, ps)
    ensures Derives(g', ps)
  {
    hide Inv, Spares, Backs;
    forall i | 0 <= i < |ps| ensures Firm(g, ps[i]) { FirmMember(g, ps, i); }
    forall i | 0 <= i < |ps| ensures Grounded(g', ps[..i], ps[i]) {
      assert Grounded(g, ps[..i], ps[i]);
      if !IsHolder(g, ps[i]) {
        var q :| q in ps[..i] && Backs(g, ps[..i], q, ps[i]);
        StillBacks(g, g', ps[..i], q, ps[i]);
      }
    }
  }

  lemma FirmStays(g: State, g': State, o: nat)
    requires Inv(g) && Carries(g, g') && Spares(g, g') && Firm(g, o)
    ensures Firm(g', o)
  {
    hide Inv, Carries, Spares, Derives;
    var ps :| Derives(g, ps) && o in ps;
    StillDerives(g, g', ps);
  }

  // ---------------------------------------------------------------- whole collections

  /** What was firm is firm, and weak tables have lost shaky entries only. */
  ghost predicate FirmOn(g: State, g': State) {
    && g'.heap.Keys <= g.heap.Keys && StringsStay(g.heap, g'.heap)
    && forall o :: Firm(g, o) ==> Firm(g', o) && o in g'.heap && Spared(g, g', o)
  }

  lemma FirmAtFirst(g: State)
    requires Inv(g)
    ensures FirmOn(g, g)
  {
    hide Inv, Firm;
    forall o | Firm(g, o) ensures o in g.heap { FirmAlive(g, o); }
  }

  lemma StillShaky(g: State, g1: State, v: Val, isKey: bool)
    requires FirmOn(g, g1) && Shaky(g1, v, isKey) && v.o in g1.heap
    ensures Shaky(g, v, isKey)
  {
    hide Firm, EntriesStay;
  }

  lemma StayOn(g: State, g1: State, b: Body, b1: Body, b2: Body)
    requires FirmOn(g, g1) && EntriesStay(g, b, b1) && EntriesStay(g1, b1, b2)
    requires AliveVals(g1.heap, g1.white, AllVals(g1.heap, b1))
    ensures EntriesStay(g, b, b2)
  {
    hide FirmOn, Shaky, EntryShaky;
    forall i | 0 <= i < |b.arr| && b2.arr[i] != b.arr[i] ensures b.weakValues && Shaky(g, b.arr[i], false) {
      if b1.arr[i] == b.arr[i] {
        ShakyAlive(g1, b1, b1.arr[i], false);
        StillShaky(g, g1, b.arr[i], false);
      }
    }
    forall i | 0 <= i < |b.entries| && b2.entries[i] != b.entries[i] ensures EntryShaky(g, b.entries[i]) {
      if b1.entries[i] == b.entries[i] { EntryStillShaky(g, g1, b1, i); }
    }
  }

  lemma EntryStillShaky(g: State, g1: State, b: Body, i: nat)
    requires FirmOn(g, g1) && b.Tab? && i < |b.entries| && EntryShaky(g1, b.entries[i])
    requires AliveVals(g1.heap, g1.white, AllVals(g1.heap, b))
    ensures EntryShaky(g, b.entries[i])
  {
    hide FirmOn, Shaky;
    var e := b.entries[i];
    EntryValsFrom(b.entries, true, true, e.key);
    EntryValsFrom(b.entries, true, true, e.val);
    if Shaky(g1, e.key, true) {
      ShakyAlive(g1, b, e.key, true);
      StillShaky(g, g1, e.key, true);
    } else {
      ShakyAlive(g1, b, e.val, false);
      StillShaky(g, g1, e.val, false);
    }
  }

  lemma StaysWeak(g: State, b: Body, b': Body)
    requires EntriesStay(g, b, b')
    ensures IsWeak(b') == IsWeak(b)
  {
  }

  lemma ShakyAlive(g: State, b: Body, v: Val, isKey: bool)
    requires Shaky(g, v, isKey) && v in AllVals(g.heap, b) && AliveVals(g.heap, g.white, AllVals(g.heap, b))
    ensures v.Ref? && v.o in g.heap
  {
  }

  lemma FirmMore(g: State, g1: State, g2: State)
    requires Inv(g1) && Carries(g1, g2) && Spares(g1, g2) && FirmOn(g, g1)
    ensures FirmOn(g, g2)
  {
    hide Inv, Carries, Firm, EntriesStay;
    forall o | Firm(g, o) ensures Firm(g2, o) && o in g2.heap && Spared(g, g2, o) {
      FirmStays(g1, g2, o);
      FirmAlive(g1, o);
      if IsWeak(g.heap[o].body) {
        FirmValsAlive(g1, o);
        StaysWeak(g, g.heap[o].body, g1.heap[o].body);
        StayOn(g, g1, g.heap[o].body, g1.heap[o].body, g2.heap[o].body);
      }
    }
  }

  lemma FirmValsAlive(g: State, o: nat)
    requires Inv(g) && Firm(g, o)
    ensures o in g.heap && AliveVals(g.heap, g.white, AllVals(g.heap, g.heap[o].body))
  {
    FirmAlive(g, o);
  }

  // ---------------------------------------------------------------- the end of the marking

  /** Everything marked has the objects marked that the collector follows from it. */
  ghost predicate Followed(h: Heap, tmu: seq<nat>) {
    forall o <- h :: !h[o].color.White? && o !in tmu ==> Marked(h, StrongVals(h, h[o].body))
  }

  lemma BacksFollowed(g: State, h: Heap, ps: seq<nat>, q: nat, p: nat)
    requires SameBodies(g.heap, h) && Followed(h, g.tmu) && Backs(g, ps, q, p) && Nonwhite(h, q)
    ensures Nonwhite(h, p)
  {
    var b := g.heap[q].body;
    assert forall t, l :: Slot(h, t, l) == Slot(g.heap, t, l);
    assert Marked(h, StrongVals(h, b));
    assert AllVals(h, b) == AllVals(g.heap, b);
    ValsAreFields(g.heap, b, Ref(p));
    hide Mentions, MentionsStrongly;
    if IsWeak(b) && Ref(p) != b.meta && (b.weakValues || Ref(p) !in b.arr) {
      EntryValsFrom(b.entries, !b.weakKeys, !b.weakValues, Ref(p));
    }
    assert Ref(p) in StrongVals(h, b);
  }

  lemma {:induction false} DerivedMarked(g: State, h: Heap, ps: seq<nat>, i: nat)
    requires SameBodies(g.heap, h) && Followed(h, g.tmu) && Derives(g, ps) && i < |ps|
    requires forall o :: IsHolder(g, o) ==> Nonwhite(h, o)
    ensures Nonwhite(h, ps[i])
    decreases i
  {
    hide SameBodies, Followed, Backs;
    assert Grounded(g, ps[..i], ps[i]);
    if !IsHolder(g, ps[i]) {
      var q :| q in ps[..i] && Backs(g, ps[..i], q, ps[i]);
      var j :| 0 <= j < i && ps[j] == q;
      DerivedMarked(g, h, ps, j);
      BacksFollowed(g, h, ps[..i], q, ps[i]);
    }
  }

  /** When the marking is over, what is firm is marked. */
  lemma FirmMarked(g: State, h: Heap, o: nat)
    requires SameBodies(g.heap, h) && Followed(h, g.tmu) && Firm(g, o)
    requires forall p :: IsHolder(g, p) ==> Nonwhite(h, p)
    ensures Nonwhite(h, o)
  {
    hide SameBodies, Followed, Derives;
    var ps :| Derives(g, ps) && o in ps;
    var i :| 0 <= i < |ps| && ps[i] == o;
    DerivedMarked(g, h, ps, i);
  }

  lemma AllFollowed(h: Heap, again: seq<nat>, weak: seq<nat>, tmu: seq<nat>)
    requires Tri(h, [], again, weak, tmu) && UpvaluesDone(h)
    requires (forall o <- again :: Traversed(h, o, false)) && (forall o <- weak :: Traversed(h, o, true))
    ensures Followed(h, tmu)
  {
    forall o | o in h && !h[o].color.White? && o !in tmu ensures Marked(h, StrongVals(h, h[o].body)) {
      StrongAreVals(h, h[o].body);
      if h[o].color == Gray && Listable(h[o].body) {
        assert o in again || o in weak;
        assert o in again ==> Traversed(h, o, false);
        assert o in weak ==> Traversed(h, o, true);
      }
    }
  }

  lemma StrongAreVals(h: Heap, b: Body)
    ensures forall v <- StrongVals(h, b) :: v in AllVals(h, b) || v == Nil
  {
    if b.Tab? {
      forall v | v in EntryVals(b.entries, !b.weakKeys, !b.weakValues) ensures v in EntryVals(b.entries, true, true) {
        EntryValsFrom(b.entries, !b.weakKeys, !b.weakValues, v);
        EntryValsFrom(b.entries, true, true, v);
      }
    }
  }

  lemma HoldersMarked(g: State, h: Heap)
    requires Inv(g) && g.phase == Propagate && Evolves(g.heap, h) && Marked(h, [Ref(g.running)] + g.mt)
    ensures forall o :: IsHolder(g, o) ==> Nonwhite(h, o)
  {
    RunningMarked(h, g.running, g.mt);
    assert g.registry in [g.registry];
  }

  /** What is firm in `g` is marked in `h`, not flagged as finalized, and not on the list `tmu` for the first time. */
  ghost predicate MarksFirm(g: State, h: Heap, tmu: seq<nat>) {
    forall o :: Firm(g, o) ==>
      && Nonwhite(h, o) && (o in tmu ==> o in g.tmu)
      && (o in g.heap && g.heap[o].body.Udata? ==> h[o].body == g.heap[o].body)
  }

  /** The marking has come to all that is firm. */
  lemma FirmFound(g: State, h: Heap, again: seq<nat>, weak: seq<nat>)
    requires Inv(g) && g.phase == Propagate && Evolves(g.heap, h) && SameBodies(g.heap, h)
    requires Marked(h, [Ref(g.running)] + g.mt) && Tri(h, [], again, weak, g.tmu) && UpvaluesDone(h)
    requires (forall o <- again :: Traversed(h, o, false)) && (forall o <- weak :: Traversed(h, o, true))
    ensures MarksFirm(g, h, g.tmu)
  {
    AllFollowed(h, again, weak, g.tmu);
    HoldersMarked(g, h);
    hide Inv, Evolves, Tri, UpvaluesDone, Traversed, Followed, Firm, IsHolder;
    forall o | Firm(g, o) ensures Nonwhite(h, o) { FirmMarked(g, h, o); }
  }

  /** Separating the userdata and clearing the tables does not change that. */
  lemma FirmPassed(g: State, h: Heap, h1: Heap, h2: Heap, tmu: seq<nat>)
    requires MarksFirm(g, h, g.tmu) && Evolves(h, h1) && Trims(h1, h2)
    requires forall o :: Nonwhite(h, o) ==> h1[o].body == h[o].body
    requires forall o :: o in tmu <==> o in g.tmu || (o in g.udata && ToFinalize(h, o))
    ensures MarksFirm(g, h2, tmu)
  {
    hide Firm;
  }

  predicate NoNewUdata(h: Heap, h': Heap) { forall o <- h' :: o in h && h'[o].body.Udata? ==> h[o].body.Udata? }

  lemma ClearedShaky(g: State, g': State, v: Val, isKey: bool)
    requires g'.heap.Keys == g.heap.Keys && MarksFirm(g, g'.heap, g'.tmu) && IsCleared(g'.heap, v, isKey)
    requires StringsStay(g.heap, g'.heap) && NoNewUdata(g.heap, g'.heap)
    ensures Shaky(g, v, isKey)
  {
    hide Firm;
  }

  /** Clearing removes only what is shaky. */
  lemma KeptSpares(g: State, g': State)
    requires g'.heap.Keys == g.heap.Keys && MarksFirm(g, g'.heap, g'.tmu)
    requires forall o <- g.heap :: Kept(g'.heap, g.heap[o].body, g'.heap[o].body)
    ensures Spares(g, g')
  {
    hide Firm, Shaky;
    assert StringsStay(g.heap, g'.heap) && NoNewUdata(g.heap, g'.heap);
    forall o | o in g.heap ensures Spared(g, g', o) {
      var b, b' := g.heap[o].body, g'.heap[o].body;
      assert Kept(g'.heap, b, b');
      if IsWeak(b) && b' != b { ClearingSpares(g, g', b, b'); }
    }
  }

  lemma ClearingSpares(g: State, g': State, b: Body, b': Body)
    requires g'.heap.Keys == g.heap.Keys && MarksFirm(g, g'.heap, g'.tmu) && Clearing(g'.heap, b, b')
    requires StringsStay(g.heap, g'.heap) && NoNewUdata(g.heap, g'.heap)
    ensures EntriesStay(g, b, b')
  {
    hide MarksFirm, Shaky, IsCleared, StringsStay, NoNewUdata;
    forall i | 0 <= i < |b.arr| && b'.arr[i] != b.arr[i] ensures Shaky(g, b.arr[i], false) {
      ClearedShaky(g, g', b.arr[i], false);
    }
    forall i | 0 <= i < |b.entries| && b'.entries[i] != b.entries[i] ensures EntryShaky(g, b.entries[i]) {
      if IsCleared(g'.heap, b.entries[i].key, true) {
        ClearedShaky(g, g', b.entries[i].key, true);
      } else {
        ClearedShaky(g, g', b.entries[i].val, false);
      }
    }
  }
}
