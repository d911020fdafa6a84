/**
 The single-writer hash set of `ck_hs.c`: probing by cache-line buckets, tombstones, per-bucket
 probe bounds that saturate at 255, garbage collection, growth and rebuilding.

 An object is what `compare` looks at (its key) and the rest; the hash depends on the key only.
 `grants` stands for the allocator: the outcomes of the allocations still to come, all later ones fail.
 */
module CkHs {
  import opened Arith

  datatype Object = Object(key: nat, data: nat)
  datatype Option<T> = None | Some(value: T)
  datatype Slot = Empty | Tombstone | Full(obj: Object)

  datatype Behavior = Probe | StopAtTombstone | Insert

  const L1: nat := 8
  const WORD_MAX: nat := 255
  const CACHELINE: nat := 64

  /** The fields of a map. `bounds` is empty unless the set is in delete mode. */
  datatype Table = Table(step: nat, entries: seq<Slot>, bounds: seq<nat>, maximum: nat, limit: nat, count: nat)

  // ---------------------------------------------------------------- the probe sequence

  function ProbeNext(step: nat, offset: nat, h: nat, level: nat, probes: nat): nat {
    var r := h / Pow2(step) / Pow2(level);
    (offset + probes / L1 + (r / L1 * 16 + r % L1 + L1)) % Pow2(step)
  }

  /** Where the bucket number `level` on the probe sequence of `h` is entered. */
  function Offset(step: nat, h: nat, level: nat): (o: nat)
    ensures o < Pow2(step)
  {
    if level == 0 then h % Pow2(step) else ProbeNext(step, Offset(step, h, level - 1), h, level - 1, L1 * level)
  }

  function InBucket(offset: nat, j: nat): nat {
    offset / L1 * L1 + (j + offset) % L1
  }

  function Position(step: nat, h: nat, n: nat): nat {
    InBucket(Offset(step, h, n / L1), n % L1)
  }

  lemma BucketInside(step: nat, offset: nat, j: nat)
    requires step >= 3 && offset < Pow2(step)
    ensures InBucket(offset, j) < Pow2(step)
  {
    assert Pow2(step) == 2 * Pow2(step - 1) && Pow2(step - 1) == 2 * Pow2(step - 2)
      && Pow2(step - 2) == 2 * Pow2(step - 3);
  }

  lemma BucketOnce(offset: nat, s: nat, j: nat)
    requires s / L1 == offset / L1 && j < L1
    ensures InBucket(offset, j) == s <==> j == (s - offset) % L1
  {
  }

  /** The eight probes of one level look at each slot of one cache line, and at each of them once. */
  lemma ProbesCoverTheBucket(step: nat, h: nat, level: nat, s: nat) returns (n: nat)
    requires s / L1 == Offset(step, h, level) / L1
    ensures n / L1 == level
    ensures forall k: nat :: k / L1 == level ==> (Position(step, h, k) == s <==> k == n)
  {
    hide Offset, InBucket;
    var offset := Offset(step, h, level);
    n := L1 * level + (s - offset) % L1;
    forall k: nat | k / L1 == level ensures Position(step, h, k) == s <==> k == n {
      BucketOnce(offset, s, k % L1);
    }
  }

  // ---------------------------------------------------------------- contents and invariant

  predicate Unique(es: seq<Slot>) {
    forall i, j :: 0 <= i < j < |es| && es[i].Full? && es[j].Full? ==> es[i].obj.key != es[j].obj.key
  }

  /** The set a table stands for, keyed by what `compare` looks at. */
  function Contents(es: seq<Slot>): map<nat, Object> {
    if es == [] then map[] else
    var m, x := Contents(es[..|es| - 1]), es[|es| - 1];
    if x.Full? then m[x.obj.key := x.obj] else m
  }

  predicate Shape(t: Table) {
    && t.step >= 3 && |t.entries| == Pow2(t.step)
    && (t.bounds == [] || |t.bounds| == |t.entries|)
    && t.maximum <= t.limit && (forall i :: 0 <= i < |t.bounds| ==> t.bounds[i] <= t.maximum && t.bounds[i] <= WORD_MAX)
  }

  function Bound(t: Table, h: nat): nat
    requires Shape(t)
  {
    if t.bounds == [] || t.bounds[h % Pow2(t.step)] == WORD_MAX then t.maximum else t.bounds[h % Pow2(t.step)]
  }

  function At(t: Table, h: nat, n: nat): Slot
    requires Shape(t)
  {
    BucketInside(t.step, Offset(t.step, h, n / L1), n % L1);
    t.entries[Position(t.step, h, n)]
  }

  ghost predicate Reaches(t: Table, h: nat, n: nat)
    requires Shape(t)
  {
    forall i :: 0 <= i < n ==> At(t, h, i) != Empty
  }

  predicate Matches(x: Slot, key: nat) {
    x.Full? && x.obj.key == key
  }

  /** Slot `s` is found by probe number `n` for `h`, within the bound. */
  ghost predicate PlacedAt(t: Table, h: nat, s: nat, n: nat)
    requires Shape(t)
  {
    n < Bound(t, h) && Position(t.step, h, n) == s && Reaches(t, h, n)
  }

  ghost predicate Placed(t: Table, h: nat, s: nat)
    requires Shape(t)
  {
    exists n :: PlacedAt(t, h, s, n)
  }

  ghost predicate Inv(t: Table, hash: nat -> nat) {
    && Shape(t) && Unique(t.entries) && t.count == |Contents(t.entries)|
    && forall s :: 0 <= s < |t.entries| && t.entries[s].Full? ==> Placed(t, hash(t.entries[s].obj.key), s)
  }

  lemma {:induction false} ContentsSize(es: seq<Slot>)
    ensures |Contents(es)| <= |es|
  {
    if es != [] { ContentsSize(es[..|es| - 1]); }
  }

  lemma {:induction false} ContentsAt(es: seq<Slot>, i: nat)
    requires Unique(es) && i < |es| && es[i].Full?
    ensures es[i].obj.key in Contents(es) && Contents(es)[es[i].obj.key] == es[i].obj
  {
    if i < |es| - 1 {
      ContentsAt(es[..|es| - 1], i);
    }
  }

  lemma {:induction false} ContentsFrom(es: seq<Slot>, k: nat) returns (i: nat)
    requires Unique(es) && k in Contents(es)
    ensures i < |es| && Matches(es[i], k) && es[i].obj == Contents(es)[k]
  {
    var x := es[|es| - 1];
    if Matches(x, k) {
      i := |es| - 1;
    } else {
      i := ContentsFrom(es[..|es| - 1], k);
    }
  }

  lemma InsertContents(es: seq<Slot>, i: nat, o: Object)
    requires Unique(es) && i < |es| && !es[i].Full? && o.key !in Contents(es)
    ensures Unique(es[i := Full(o)]) && Contents(es[i := Full(o)]) == Contents(es)[o.key := o]
  {
    hide Contents;
    var es' := es[i := Full(o)];
    forall j | 0 <= j < |es| && es[j].Full? ensures es[j].obj.key != o.key { ContentsAt(es, j); }
    var m, m' := Contents(es)[o.key := o], Contents(es');
    forall k | k in m ensures k in m' && m'[k] == m[k] {
      if k == o.key {
        ContentsAt(es', i);
      } else {
        var j := ContentsFrom(es, k);
        ContentsAt(es', j);
      }
    }
    forall k | k in m' ensures k in m {
      var j := ContentsFrom(es', k);
      if j != i { ContentsAt(es, j); }
    }
  }

  lemma EraseContents(es: seq<Slot>, i: nat)
    requires Unique(es) && i < |es| && es[i].Full?
    ensures Unique(es[i := Tombstone]) && Contents(es[i := Tombstone]) == Contents(es) - {es[i].obj.key}
  {
    hide Contents;
    var es' := es[i := Tombstone];
    var m, m' := Contents(es) - {es[i].obj.key}, Contents(es');
    forall k | k in m ensures k in m' && m'[k] == m[k] {
      var j := ContentsFrom(es, k);
      ContentsAt(es', j);
    }
    forall k | k in m' ensures k in m {
      var j := ContentsFrom(es', k);
      ContentsAt(es, j);
    }
  }

  /** A key is in the set exactly when a probe within the bound meets it before an empty slot. */
  lemma FoundIffPresent(t: Table, hash: nat -> nat, key: nat)
    requires Inv(t, hash)
    ensures key in Contents(t.entries) <==>
            exists n :: 0 <= n < Bound(t, hash(key)) && Reaches(t, hash(key), n) && Matches(At(t, hash(key), n), key)
  {
    hide Contents;
    if key in Contents(t.entries) {
      var s := ContentsFrom(t.entries, key);
      var n :| PlacedAt(t, hash(key), s, n);
      assert Matches(At(t, hash(key), n), key);
    }
    if n :| 0 <= n < Bound(t, hash(key)) && Reaches(t, hash(key), n) && Matches(At(t, hash(key), n), key) {
      BucketInside(t.step, Offset(t.step, hash(key), n / L1), n % L1);
      ContentsAt(t.entries, Position(t.step, hash(key), n));
    }
  }

  // ---------------------------------------------------------------- changes to a table

  function Max(a: nat, b: nat): nat { if a < b then b else a }

  function RaisedWord(w: nat, n: nat): nat {
    if w >= n then w else if n > WORD_MAX then WORD_MAX else n
  }

  /** `ck_hs_map_bound_set`. */
  function Raise(t: Table, h: nat, n: nat): Table
    requires Shape(t)
  {
    var i := h % Pow2(t.step);
    t.(maximum := Max(t.maximum, n), bounds := RaisedBounds(t.bounds, i, n))
  }

  /** The map with `o` stored by probe number `n`, in slot `s`. */
  function Stored(t: Table, h: nat, s: nat, n: nat, o: Object): Table
    requires Shape(t) && s < |t.entries|
  {
    Raise(t.(entries := t.entries[s := Full(o)], count := t.count + 1), h, n)
  }

  function RaisedBounds(bounds: seq<nat>, i: nat, n: nat): seq<nat>
    requires bounds == [] || i < |bounds|
  {
    if bounds == [] then [] else bounds[i := RaisedWord(bounds[i], n)]
  }

  /** How `ck_hs_gc` collects the new bounds. */
  method Collect(bounds: array<nat>, maximum: nat, offset: nat, probes: nat) returns (m: nat)
    requires (bounds.Length == 0 || offset < bounds.Length) && forall i :: 0 <= i < bounds.Length ==>
             bounds[i] <= WORD_MAX
    modifies bounds
    ensures m == Max(maximum, probes) && bounds[..] == RaisedBounds(old(bounds[..]), offset, probes)
  {
    m := maximum;
    var n := probes;
    if n > m { m := n; }
    if n > WORD_MAX { n := WORD_MAX; }
    if bounds.Length != 0 && n > bounds[offset] { bounds[offset] := n; }
  }

  lemma RaiseCovers(t: Table, h: nat, n: nat)
    requires Shape(t) && n <= t.limit
    ensures Shape(Raise(t, h, n)) && Bound(Raise(t, h, n), h) >= n
    ensures forall g :: Bound(Raise(t, h, n), g) >= Bound(t, g)
  {
  }

  /** No slot becomes empty and no bound shrinks. */
  ghost predicate Grows(t: Table, t': Table) {
    && Shape(t) && Shape(t') && t'.step == t.step
    && (forall s :: 0 <= s < |t.entries| && t'.entries[s] == Empty ==> t.entries[s] == Empty)
    && (forall h :: Bound(t', h) >= Bound(t, h))
  }

  lemma StillPlaced(t: Table, t': Table, h: nat, s: nat)
    requires Grows(t, t') && Placed(t, h, s)
    ensures Placed(t', h, s)
  {
    var n :| PlacedAt(t, h, s, n);
    StillReaches(t, t', h, n);
    assert PlacedAt(t', h, s, n);
  }

  lemma StillReaches(t: Table, t': Table, h: nat, n: nat)
    requires Grows(t, t') && Reaches(t, h, n)
    ensures Reaches(t', h, n)
  {
    forall i | 0 <= i < n ensures At(t', h, i) != Empty {
      assert At(t, h, i) != Empty;
      BucketInside(t.step, Offset(t.step, h, i / L1), i % L1);
    }
  }

  lemma RaiseKeeps(t: Table, hash: nat -> nat, h: nat, n: nat)
    requires Inv(t, hash) && n <= t.limit
    ensures Inv(Raise(t, h, n), hash) && Grows(t, Raise(t, h, n)) && Bound(Raise(t, h, n), h) >= n
  {
    RaiseCovers(t, h, n);
    var t' := Raise(t, h, n);
    forall s | 0 <= s < |t'.entries| && t'.entries[s].Full? ensures Placed(t', hash(t'.entries[s].obj.key), s) {
      StillPlaced(t, t', hash(t.entries[s].obj.key), s);
    }
  }

  /** The slot that probe number `n`, counted from one, looks at. */
  ghost predicate Eligible(t: Table, h: nat, s: nat, n: nat)
    requires Shape(t)
  {
    1 <= n <= Bound(t, h) && Position(t.step, h, n - 1) == s && s < |t.entries| && Reaches(t, h, n - 1)
  }

  /** Storing an object on its own probe sequence keeps every other one findable. */
  lemma StoreKeepsPlaces(t: Table, t': Table, hash: nat -> nat, s: nat, n: nat, o: Object)
    requires Inv(t, hash) && Eligible(t, hash(o.key), s, n) && t' == t.(entries := t.entries[s := Full(o)])
    ensures Grows(t, t')
    ensures forall i :: 0 <= i < |t'.entries| && t'.entries[i].Full? ==> Placed(t', hash(t'.entries[i].obj.key), i)
  {
    assert Grows(t, t');
    forall i | 0 <= i < |t'.entries| && t'.entries[i].Full? ensures Placed(t', hash(t'.entries[i].obj.key), i) {
      if i == s {
        StillReaches(t, t', hash(o.key), n - 1);
        assert PlacedAt(t', hash(o.key), s, n - 1);
      } else {
        StillPlaced(t, t', hash(t.entries[i].obj.key), i);
      }
    }
  }

  lemma InsertKeeps(t: Table, hash: nat -> nat, s: nat, n: nat, o: Object)
    requires Inv(t, hash) && Eligible(t, hash(o.key), s, n) && !t.entries[s].Full? && o.key !in Contents(t.entries)
    ensures var t' := t.(entries := t.entries[s := Full(o)], count := t.count + 1);
            Inv(t', hash) && Contents(t'.entries) == Contents(t.entries)[o.key := o]
  {
    var t1 := t.(entries := t.entries[s := Full(o)]);
    StoreKeepsPlaces(t, t1, hash, s, n, o);
    InsertContents(t.entries, s, o);
    SamePlaces(t1, t1.(count := t.count + 1));
  }

  lemma SamePlaces(t: Table, t': Table)
    requires Shape(t) && t' == t.(count := t'.count)
    ensures forall h, s :: Placed(t, h, s) ==> Placed(t', h, s)
  {
    forall h, s | Placed(t, h, s) ensures Placed(t', h, s) {
      assert Grows(t, t');
      StillPlaced(t, t', h, s);
    }
  }

  lemma EraseKeepsPlaces(t: Table, t': Table, hash: nat -> nat, s: nat)
    requires Shape(t) && s < |t.entries| && t.entries[s] != Empty
    requires t' == t.(entries := t.entries[s := Tombstone], count := t'.count)
    requires forall i :: 0 <= i < |t.entries| && i != s && t.entries[i].Full? ==>
             Placed(t, hash(t.entries[i].obj.key), i)
    ensures forall i :: 0 <= i < |t'.entries| && t'.entries[i].Full? ==> Placed(t', hash(t'.entries[i].obj.key), i)
  {
    forall i | 0 <= i < |t'.entries| && t'.entries[i].Full? ensures Placed(t', hash(t'.entries[i].obj.key), i) {
      assert Grows(t, t');
      StillPlaced(t, t', hash(t.entries[i].obj.key), i);
    }
  }

  lemma EraseKeeps(t: Table, hash: nat -> nat, s: nat)
    requires Inv(t, hash) && s < |t.entries| && t.entries[s].Full?
    ensures t.count > 0
    ensures var t' := t.(entries := t.entries[s := Tombstone], count := t.count - 1);
            Inv(t', hash) && Contents(t'.entries) == Contents(t.entries) - {t.entries[s].obj.key}
  {
    ContentsAt(t.entries, s);
    EraseContents(t.entries, s);
    EraseKeepsPlaces(t, t.(entries := t.entries[s := Tombstone], count := t.count - 1), hash, s);
  }

  /** Replacing an object, in place or by moving its key to an earlier tombstone. */
  function Replaced(es: seq<Slot>, from: nat, to: nat, o: Object): seq<Slot>
    requires from < |es| && to < |es|
  {
    es[from := Tombstone][to := Full(o)]
  }

  lemma SameSize(m: map<nat, Object>, k: nat, o: Object)
    requires k in m
    ensures |m[k := o]| == |m|
  {
    assert m[k := o].Keys == m.Keys;
    assert |m[k := o]| == |m[k := o].Keys| && |m| == |m.Keys|;
  }

  lemma ReplaceContents(es: seq<Slot>, from: nat, to: nat, o: Object)
    requires Unique(es) && from < |es| && to < |es| && Matches(es[from], o.key) && (to == from || es[to] == Tombstone)
    ensures Unique(Replaced(es, from, to, o)) && Contents(Replaced(es, from, to, o)) == Contents(es)[o.key := o]
    ensures |Contents(Replaced(es, from, to, o))| == |Contents(es)|
  {
    hide Contents;
    ContentsAt(es, from);
    EraseContents(es, from);
    InsertContents(es[from := Tombstone], to, o);
    SameSize(Contents(es), o.key, o);
  }

  lemma ReplaceKeeps(t: Table, hash: nat -> nat, from: nat, to: nat, n: nat, o: Object)
    requires Inv(t, hash) && from < |t.entries| && Matches(t.entries[from], o.key)
    requires Eligible(t, hash(o.key), to, n) && (to == from || t.entries[to] == Tombstone)
    ensures var t' := t.(entries := Replaced(t.entries, from, to, o));
            Inv(t', hash) && Grows(t, t') && Contents(t'.entries) == Contents(t.entries)[o.key := o]
  {
    hide Contents, Placed;
    var t' := t.(entries := Replaced(t.entries, from, to, o));
    var t1 := t.(entries := t.entries[to := Full(o)]);
    StoreKeepsPlaces(t, t1, hash, to, n, o);
    ReplaceContents(t.entries, from, to, o);
    if to == from {
      assert t' == t1;
    } else {
      assert t'.entries == t1.entries[from := Tombstone];
      EraseKeepsPlaces(t1, t', hash, from);
    }
  }

  // ---------------------------------------------------------------- the map

  lemma CursorIsNext(t: Table, h: nat, level: nat, j: nat)
    requires Shape(t) && j < L1
    ensures var cursor := InBucket(Offset(t.step, h, level), j); var n := L1 * level + j;
            && cursor == Position(t.step, h, n) && cursor < |t.entries| && At(t, h, n) == t.entries[cursor]
  {
    hide Offset, InBucket;
    BucketInside(t.step, Offset(t.step, h, level), j);
    DivModUnique(L1 * level + j, level, j, L1);
  }

  lemma NextBucket(step: nat, h: nat, level: nat)
    ensures Offset(step, h, level + 1) == ProbeNext(step, Offset(step, h, level), h, level, L1 * (level + 1))
  {
  }

  class Map {
    const step: nat
    const entries: array<Slot>
    const bounds: array<nat>
    const limit: nat
    var maximum: nat
    var count: nat

    ghost function View(): Table
      reads this, entries, bounds
    {
      Table(step, entries[..], bounds[..], maximum, limit, count)
    }

    /** `ck_hs_map_create`, once memory has been found. */
    constructor (step: nat, deletes: bool)
      requires step >= 3
      ensures fresh(entries) && fresh(bounds) && this.step == step
      ensures Shape(View()) && count == 0 && forall i :: 0 <= i < entries.Length ==> entries[i] == Empty
      ensures (bounds.Length == 0) == !deletes
    {
      this.step := step;
      entries := new Slot[Pow2(step)](_ => Empty);
      bounds := new nat[if deletes then Pow2(step) else 0](_ => 0);
      limit := Max(Pow2(step) / 32, CACHELINE);
      maximum, count := 0, 0;
    }

    method BoundGet(h: nat) returns (r: nat)
      requires Shape(View())
      ensures r == Bound(View(), h)
    {
      r := WORD_MAX;
      if bounds.Length != 0 {
        r := bounds[h % Pow2(step)];
        if r == WORD_MAX { r := maximum; }
      } else {
        r := maximum;
      }
    }

    method BoundSet(h: nat, probes: nat)
      requires Shape(View())
      modifies this`maximum, bounds
      ensures View() == old(Raise(View(), h, probes))
    {
      var n := probes;
      var offset := h % Pow2(step);
      if n > maximum { maximum := n; }
      if bounds.Length != 0 && bounds[offset] < n {
        if n > WORD_MAX { n := WORD_MAX; }
        bounds[offset] := n;
      }
    }

    /** Store the new object first; only then may its old slot become a tombstone. */
    method Replace(slot: nat, to: nat, o: Object)
      requires slot < entries.Length && to < entries.Length
      modifies entries
      ensures entries[..] == Replaced(old(entries[..]), slot, to, o)
    {
      entries[to] := Full(o);
      if to != slot {
        entries[slot] := Tombstone;
      }
    }

    method CopyBounds(from: array<nat>)
      requires from != bounds && from.Length == bounds.Length
      modifies bounds
      ensures bounds[..] == from[..]
    {
      var i := 0;
      while i < bounds.Length
        invariant 0 <= i <= bounds.Length && bounds[..i] == from[..i]
      {
        bounds[i] := from[i];
        i := i + 1;
      }
    }

    /**
     Walk the probe sequence of `h` up to an empty slot, a match or the limit. `slot` is where it
     stopped and `first` the first tombstone on the way, -1 for none; `n` counts the probes up to
     `first` if there is one and else up to `slot`.
     */
    method Search(h: nat, key: nat, original: nat, behavior: Behavior)
      returns (slot: int, first: int, found: Option<Object>, n: nat)
      requires Shape(View()) && (behavior == Insert ==> Bound(View(), h) <= original)
      ensures slot < entries.Length && first < entries.Length
      ensures first >= 0 ==> Seen(View(), h, first, n, original) && entries[first] == Tombstone
      ensures slot >= 0 && first >= 0 && slot != first ==> SeenAfter(View(), h, slot, n, original)
      ensures slot < 0 && first < 0 ==> n == original + 1 && Reaches(View(), h, original)
      ensures NoTombstoneBefore(View(), h, n - 1)
      ensures found.Some? ==> slot >= 0 && entries[slot] == Full(found.value) && found.value.key == key
      ensures slot >= 0 && first < 0 ==> Seen(View(), h, slot, n, original) && (found.None? ==> entries[slot] == Empty)
      ensures found.None? && behavior != StopAtTombstone ==>
              Absent(View(), h, key, if behavior == Insert then Bound(View(), h) else original)
    {
      ghost var t := View();
      var offset, level, j, probes := h % Pow2(step), 0, 0, 0;
      assert offset == Offset(step, h, level);
      hide At, Position, InBucket, Offset, ProbeNext, Pow2, Bound, Shape, Reaches, Passed, Seen, NoTombstoneBefore,
        Absent;
      var limit := original;
      if behavior == Insert { limit := BoundGet(h); }
      ghost var start := limit;
      slot, first, found, n := -1, -1, None, 0;
      NothingPassed(t, h, key);
      while true
        invariant j < L1 && probes == L1 * level + j && offset == Offset(step, h, level)
        invariant probes <= limit <= original && (limit == start || limit == original)
        invariant found == None && start <= original && (limit != original ==> behavior == Insert)
        invariant Passed(t, h, key, probes)
        invariant limit != start ==> start < probes
        invariant -1 <= first < entries.Length
        invariant first >= 0 ==> Seen(t, h, first, n, original) && n <= probes && entries[first] == Tombstone
        invariant NoTombstoneBefore(t, h, if first >= 0 then n - 1 else probes)
        decreases original - probes
      {
        var cursor := InBucket(offset, j);
        CursorIsNext(t, h, level, j);
        PassedAbsent(t, h, key, probes, start);
        if probes == limit {
          if limit == original || first >= 0 {
            if first < 0 { n := probes + 1; }
            return;
          }
          limit := original;
        }
        PassedOn(t, h, key, probes, cursor, original, start);
        probes := probes + 1;
        var k := entries[cursor];
        if k == Empty || Matches(k, key) || (k == Tombstone && first < 0 && behavior == StopAtTombstone) {
          slot := cursor;
          if k.Full? { found := Some(k.obj); }
          if k == Tombstone { first := cursor; }
          if first < 0 || k == Tombstone { n := probes; }
          return;
        }
        if k == Tombstone && first < 0 {
          first, n := cursor, probes;
        }
        j := j + 1;
        if j == L1 {
          NextBucket(step, h, level);
          offset := ProbeNext(step, offset, h, level, probes);
          level, j := level + 1, 0;
        }
      }
    }

    /** How `ck_hs_grow` stores one object: in the first empty slot within the probe limit. */
    method Place(h: nat, o: Object, ghost hash: nat -> nat) returns (placed: bool, ghost slot: nat, ghost n: nat)
      requires Inv(View(), hash) && h == hash(o.key) && o.key !in Contents(entries[..])
      modifies this, entries, bounds
      ensures Inv(View(), hash)
      ensures placed ==>
                old(Seen(View(), h, slot, n, limit) && entries[slot] == Empty)
                && View() == old(Stored(View(), h, slot, n, o))
      ensures !placed ==> View() == old(View()) && old(Reaches(View(), h, limit))
      ensures Contents(entries[..]) == if placed then old(Contents(entries[..]))[o.key := o]
              else old(Contents(entries[..]))
    {
      hide Inv, Contents, At, Position, InBucket;
      ghost var t := View();
      assert Shape(t) by { InvShape(t, hash); }
      var offset, level, j, probes := h % Pow2(step), 0, 0, 0;
      while true
        invariant j < L1 && probes == L1 * level + j && offset == Offset(step, h, level)
        invariant probes <= limit && View() == t
        invariant forall i :: 0 <= i < probes ==> At(t, h, i) != Empty
        decreases limit - probes
      {
        var cursor := InBucket(offset, j);
        CursorIsNext(t, h, level, j);
        if probes == limit {
          return false, 0, 0;
        }
        probes := probes + 1;
        if entries[cursor] == Empty {
          PlaceKeeps(t, hash, cursor, probes, o);
          entries[cursor] := Full(o);
          count := count + 1;
          BoundSet(h, probes);
          return true, cursor, probes;
        }
        j := j + 1;
        if j == L1 {
          NextBucket(step, h, level);
          offset := ProbeNext(step, offset, h, level, probes);
          level, j := level + 1, 0;
        }
      }
    }
  }

  lemma InvShape(t: Table, hash: nat -> nat)
    requires Inv(t, hash)
    ensures Shape(t) && Unique(t.entries)
  {
  }

  /** Insert first and raise the bound afterwards. */
  lemma PlaceKeeps(t: Table, hash: nat -> nat, s: nat, n: nat, o: Object)
    requires Inv(t, hash) && n <= t.limit && Seen(t, hash(o.key), s, n, t.limit) && !t.entries[s].Full?
             && o.key !in Contents(t.entries)
    ensures Shape(t.(entries := t.entries[s := Full(o)], count := t.count + 1))
    ensures Inv(Stored(t, hash(o.key), s, n, o), hash)
            && Contents(t.entries[s := Full(o)]) == Contents(t.entries)[o.key := o]
  {
    hide Contents;
    var t1 := Raise(t, hash(o.key), n);
    RaisePlaceKeeps(t, hash, s, n, o);
    assert Stored(t, hash(o.key), s, n, o) == t1.(entries := t1.entries[s := Full(o)], count := t1.count + 1);
  }

  /** Slot `s` is what probe number `n` looks at, with no empty slot before and `n` at most `most`. */
  ghost predicate Seen(t: Table, h: nat, s: int, n: nat, most: nat)
    requires Shape(t)
  {
    1 <= n <= most && 0 <= s < |t.entries| && Position(t.step, h, n - 1) == s && Reaches(t, h, n - 1)
  }

  /** The first `n` probes look at slots that are neither empty nor a match. */
  ghost predicate Passed(t: Table, h: nat, key: nat, n: nat)
    requires Shape(t)
  {
    forall i :: 0 <= i < n ==> At(t, h, i) != Empty && !Matches(At(t, h, i), key)
  }

  lemma NothingPassed(t: Table, h: nat, key: nat)
    requires Shape(t)
    ensures Passed(t, h, key, 0) && NoTombstoneBefore(t, h, 0)
  {
  }

  lemma PassedAbsent(t: Table, h: nat, key: nat, p: nat, most: nat)
    requires Shape(t) && Passed(t, h, key, p)
    ensures Reaches(t, h, p) && (most <= p ==> Absent(t, h, key, most))
  {
  }

  lemma PassedOn(t: Table, h: nat, key: nat, p: nat, s: nat, original: nat, most: nat)
    requires Shape(t) && Passed(t, h, key, p) && p < original && Position(t.step, h, p) == s < |t.entries|
    ensures Seen(t, h, s, p + 1, original)
    ensures At(t, h, p) != Empty && !Matches(At(t, h, p), key) ==> Passed(t, h, key, p + 1)
    ensures At(t, h, p) == Empty ==> Absent(t, h, key, most)
    ensures NoTombstoneBefore(t, h, p) && At(t, h, p) != Tombstone ==> NoTombstoneBefore(t, h, p + 1)
  {
  }

  ghost predicate SeenAfter(t: Table, h: nat, s: int, n: nat, most: nat)
    requires Shape(t)
  {
    exists m: nat :: n < m && Seen(t, h, s, m, most)
  }

  /** None of the first `n` probes looks at a tombstone. */
  ghost predicate NoTombstoneBefore(t: Table, h: nat, n: int)
    requires Shape(t)
  {
    forall i :: 0 <= i < n ==> At(t, h, i) != Tombstone
  }

  predicate NoTombstones(es: seq<Slot>) {
    forall i :: 0 <= i < |es| ==> es[i] != Tombstone
  }

  ghost predicate Absent(t: Table, h: nat, key: nat, most: nat)
    requires Shape(t)
  {
    forall i :: 0 <= i < most && Reaches(t, h, i) ==> !Matches(At(t, h, i), key)
  }

  lemma StillNoTombstones(es: seq<Slot>, s: nat, o: Object)
    requires NoTombstones(es) && s < |es|
    ensures NoTombstones(es[s := Full(o)])
  {
  }

  lemma EmptyContents(es: seq<Slot>)
    requires forall i :: 0 <= i < |es| ==> es[i] == Empty
    ensures Contents(es) == map[]
  {
  }

  lemma NewKeyAhead(es: seq<Slot>, k: nat)
    requires Unique(es) && k < |es| && es[k].Full?
    ensures Unique(es[..k]) && es[k].obj.key !in Contents(es[..k])
  {
    hide Contents;
    if es[k].obj.key in Contents(es[..k]) {
      var j := ContentsFrom(es[..k], es[k].obj.key);
    }
  }

  function Lookup(m: map<nat, Object>, key: nat): Option<Object> {
    if key in m then Some(m[key]) else None
  }

  lemma AbsentMeansMissing(t: Table, hash: nat -> nat, key: nat)
    requires Inv(t, hash) && Absent(t, hash(key), key, Bound(t, hash(key)))
    ensures key !in Contents(t.entries)
  {
    FoundIffPresent(t, hash, key);
  }

  /** Allocations were made in order, and the last one asked for was refused. */
  predicate Later(was: seq<bool>, now: seq<bool>) {
    |now| <= |was| && now == was[|was| - |now|..]
  }

  predicate Refused(was: seq<bool>, now: seq<bool>) {
    Later(was, now) && (now == [] || (|now| < |was| && !was[|was| - |now| - 1]))
  }

  lemma LaterRefused(a: seq<bool>, b: seq<bool>, c: seq<bool>)
    requires Later(a, b)
    ensures Later(b, c) ==> Later(a, c)
    ensures Refused(b, c) ==> Refused(a, c)
  {
  }

  // ---------------------------------------------------------------- the set

  class HashSet {
    const hash: nat -> nat
    const deletes: bool
    var current: Map
    var grants: seq<bool>

    ghost predicate Valid()
      reads this, current, current.entries, current.bounds
    {
      Inv(current.View(), hash)
    }

    ghost function Value(): map<nat, Object>
      reads this, current, current.entries, current.bounds
    {
      Contents(current.entries[..])
    }

    /** `ck_hs_init`, once its map has been created. */
    constructor (hash: nat -> nat, deletes: bool, step: nat, grants: seq<bool>)
      requires step >= 3
      ensures Valid() && Value() == map[] && fresh(current) && fresh(current.entries) && fresh(current.bounds)
    {
      var m := new Map(step, deletes);
      EmptyContents(m.entries[..]);
      this.hash, this.deletes, this.grants, current := hash, deletes, grants, m;
    }

    /** `ck_hs_map_create`: fails for fewer than eight slots or without memory. */
    method Create(capacity: nat) returns (m: Map?)
      modifies this`grants
      ensures Later(old(grants), grants) && (m == null && capacity >= L1 ==> Refused(old(grants), grants))
      ensures m != null ==>
                && |grants| < |old(grants)| && fresh(m) && fresh(m.entries) && fresh(m.bounds)
                && Inv(m.View(), hash) && Contents(m.entries[..]) == map[] && Pow2(m.step) >= capacity
                && NoTombstones(m.entries[..])
    {
      var step := CeilLog2(capacity);
      if step < 3 || grants == [] {
        return null;
      }
      var granted := grants[0];
      grants := grants[1..];
      if !granted {
        return null;
      }
      m := new Map(step, deletes);
      EmptyContents(m.entries[..]);
    }

    /** Re-insert every object into a larger map; false if one of them runs into the probe limit. */
    method Refill(update: Map) returns (fits: bool)
      requires Valid() && Inv(update.View(), hash) && Contents(update.entries[..]) == map[]
               && NoTombstones(update.entries[..])
      requires update != current && update.entries != current.entries && update.bounds != current.bounds
      modifies update, update.entries, update.bounds
      ensures fits ==>
                Inv(update.View(), hash) && Contents(update.entries[..]) == Value() && NoTombstones(update.entries[..])
    {
      hide Inv, Placed, Position, Reaches, NoTombstones, Unique, RaisedBounds;
      InvShape(current.View(), hash);
      var k := 0;
      while k < current.entries.Length
        invariant 0 <= k <= current.entries.Length
        invariant current.View() == old(current.View())
        invariant Inv(update.View(), hash) && Contents(update.entries[..]) == Contents(current.entries[..k])
        invariant NoTombstones(update.entries[..])
      {
        var previous := current.entries[k];
        ghost var es := current.entries[..];
        assert es[..k] == current.entries[..k] && es[..k + 1][..k] == es[..k]
          && es[..k + 1] == current.entries[..k + 1];
        if previous.Full? {
          NewKeyAhead(es, k);
          ghost var u := update.View();
          var placed, slot, n := update.Place(hash(previous.obj.key), previous.obj, hash);
          if !placed {
            return false;
          }
          assert update.View().entries == u.entries[slot := Full(previous.obj)];
          StillNoTombstones(u.entries, slot, previous.obj);
        }
        k := k + 1;
      }
      assert current.entries[..k] == current.entries[..];
      return true;
    }

    /** `ck_hs_grow`. */
    method Grow(capacity: nat) returns (ok: bool)
      requires Valid()
      modifies this`current, this`grants
      ensures Valid() && Value() == old(Value()) && Later(old(grants), grants)
      ensures !ok && old(Pow2(current.step)) <= capacity && capacity >= L1 ==> Refused(old(grants), grants)
      ensures ok ==> |grants| < |old(grants)| && fresh(current) && fresh(current.entries) && fresh(current.bounds)
      ensures ok ==> Pow2(current.step) >= capacity && NoTombstones(current.entries[..])
      ensures !ok ==> current == old(current)
    {
      var want := capacity;
      while true
        invariant want >= capacity && current == old(current) && Valid() && Value() == old(Value())
                  && Later(old(grants), grants)
        decreases |grants|
      {
        ghost var before := grants;
        if Pow2(current.step) > want {
          return false;
        }
        var update := Create(want);
        LaterRefused(old(grants), before, grants);
        if update == null {
          return false;
        }
        var fits := Refill(update);
        if fits {
          current := update;
          return true;
        }
        want := want * 2;
      }
    }

    method Rebuild() returns (ok: bool)
      requires Valid()
      modifies this`current, this`grants
      ensures Valid() && Value() == old(Value()) && current.count == |Value()|
      ensures ok ==> NoTombstones(current.entries[..])
      ensures !ok ==> current == old(current) && Refused(old(grants), grants)
    {
      StepIsCapacity(current.View());
      ok := Grow(Pow2(current.step));
    }

    /** `ck_hs_count`. */
    method Count() returns (n: nat)
      requires Valid()
      ensures n == |Value()|
    {
      n := current.count;
    }

    /** `ck_hs_get`, without a concurrent writer. */
    method Get(key: nat) returns (found: Option<Object>)
      requires Valid()
      ensures found == Lookup(Value(), key)
    {
      hide Contents;
      ghost var t := current.View();
      var bound := current.BoundGet(hash(key));
      var slot, first, n;
      slot, first, found, n := current.Search(hash(key), key, bound, Probe);
      if found.Some? {
        ContentsAt(t.entries, slot);
      } else {
        AbsentMeansMissing(t, hash, key);
      }
    }

    method Remove(key: nat) returns (found: Option<Object>)
      requires Valid()
      modifies current, current.entries
      ensures Valid() && found == old(Lookup(Value(), key)) && Value() == old(Value()) - {key}
    {
      hide Contents;
      ghost var t := current.View();
      var bound := current.BoundGet(hash(key));
      var slot, first, n;
      slot, first, found, n := current.Search(hash(key), key, bound, Probe);
      if found.None? {
        AbsentMeansMissing(t, hash, key);
        assert Contents(t.entries) - {key} == Contents(t.entries);
        return;
      }
      ContentsAt(t.entries, slot);
      EraseKeeps(t, hash, slot);
      current.entries[slot] := Tombstone;
      current.count := current.count - 1;
      assert current.View() == t.(entries := t.entries[slot := Tombstone], count := t.count - 1);
    }

    /** `ck_hs_fas`: replace an object that must be there. */
    method Fas(o: Object) returns (ok: bool, previous: Option<Object>)
      requires Valid()
      modifies current, current.entries
      ensures Valid() && previous == old(Lookup(Value(), o.key)) && ok == previous.Some?
      ensures Value() == if ok then old(Value())[o.key := o] else old(Value())
    {
      hide Contents;
      ghost var t := current.View();
      var bound := current.BoundGet(hash(o.key));
      var slot, first, n;
      slot, first, previous, n := current.Search(hash(o.key), o.key, bound, Probe);
      if previous.None? {
        AbsentMeansMissing(t, hash, o.key);
        return false, None;
      }
      ContentsAt(t.entries, slot);
      ok := true;
      var to := if first >= 0 then first else slot;
      ReplaceKeeps(t, hash, slot, to, n, o);
      current.Replace(slot, to, o);
      assert current.View() == t.(entries := Replaced(t.entries, slot, to, o));
    }

    /** `ck_hs_map_postinsert`, after the counter has gone up: keep the load at one half if memory allows. */
    method PostInsert()
      requires Valid()
      modifies this`current, this`grants
      ensures Valid() && Value() == old(Value()) && Later(old(grants), grants)
      ensures |Value()| * 2 <= Pow2(current.step) || Refused(old(grants), grants)
    {
      ContentsSize(current.entries[..]);
      if current.count * 2 > Pow2(current.step) {
        var _ := Grow(Pow2(current.step) * 2);
      }
    }

    /** Search on behalf of an insertion, growing until there is a slot to use. */
    method Room(o: Object, behavior: Behavior) returns (slot: int, first: int, found: Option<Object>, n: nat)
      requires Valid() && behavior != Probe && (behavior == StopAtTombstone ==> o.key !in Value())
      modifies this`current, this`grants
      ensures Valid() && Value() == old(Value()) && Later(old(grants), grants)
      ensures current == old(current) || (fresh(current) && fresh(current.entries) && fresh(current.bounds))
      ensures slot < current.entries.Length && first < current.entries.Length
      ensures slot < 0 && first < 0 ==> Refused(old(grants), grants) && found.None?
      ensures slot >= 0 || first >= 0 ==> found == Lookup(Value(), o.key)
      ensures found.Some? ==> slot >= 0 && current.entries[slot] == Full(found.value) && found.value.key == o.key
      ensures first >= 0 ==>
                Seen(current.View(), hash(o.key), first, n, current.limit) && current.entries[first] == Tombstone
      ensures slot >= 0 && first < 0 ==>
                Seen(current.View(), hash(o.key), slot, n, current.limit)
                  && (found.None? ==> current.entries[slot] == Empty)
    {
      hide Contents;
      while true
        invariant Valid() && Value() == old(Value()) && Later(old(grants), grants)
        invariant current == old(current) || (fresh(current) && fresh(current.entries) && fresh(current.bounds))
        decreases |grants|
      {
        ghost var t := current.View();
        BoundBelowLimit(t, hash(o.key));
        slot, first, found, n := current.Search(hash(o.key), o.key, current.limit, behavior);
        if slot >= 0 || first >= 0 {
          if found.Some? {
            ContentsAt(t.entries, slot);
          } else if behavior == Insert {
            AbsentMeansMissing(t, hash, o.key);
          }
          return;
        }
        StepIsCapacity(t);
        ghost var before := grants;
        var ok := Grow(Pow2(current.step) * 2);
        LaterRefused(old(grants), before, grants);
        if !ok {
          return;
        }
      }
    }

    /** `ck_hs_put_internal`; `ck_hs_put_unique` stops at a tombstone and relies on the key being new. */
    method Put(o: Object, behavior: Behavior) returns (ok: bool)
      requires Valid() && behavior != Probe && (behavior == StopAtTombstone ==> o.key !in Value())
      modifies this, current, current.entries, current.bounds
      ensures Valid()
      ensures Value() == if ok then old(Value())[o.key := o] else old(Value())
      ensures ok ==> o.key !in old(Value())
      ensures !ok ==> o.key in old(Value()) || Refused(old(grants), grants)
    {
      hide Contents, Placed, Unique, Reaches, Bound;
      var slot, first, found, n := Room(o, behavior);
      if (slot < 0 && first < 0) || found.Some? {
        return false;
      }
      var to := if first >= 0 then first else slot;
      ghost var t := current.View();
      RaisePlaceKeeps(t, hash, to, n, o);
      current.BoundSet(hash(o.key), n);
      current.entries[to] := Full(o);
      current.count := current.count + 1;
      PostInsert();
      ok := true;
    }

    /** `ck_hs_set`: insert or replace. */
    method Set(o: Object) returns (ok: bool, previous: Option<Object>)
      requires Valid()
      modifies this, current, current.entries, current.bounds
      ensures Valid()
      ensures Value() == if ok then old(Value())[o.key := o] else old(Value())
      ensures ok ==> previous == old(Lookup(Value(), o.key))
      ensures !ok ==> Refused(old(grants), grants)
    {
      hide Contents, Placed, Unique, Reaches, Bound, Replaced, RaisedBounds;
      var slot, first, found, n := Room(o, Insert);
      if slot < 0 && first < 0 {
        return false, None;
      }
      ok, previous := true, found;
      var to := if first >= 0 then first else slot;
      ghost var t := current.View();
      current.BoundSet(hash(o.key), n);
      if found.Some? {
        RaiseReplaceKeeps(t, hash, slot, to, n, o);
        current.Replace(slot, to, o);
        assert current.View() == Raise(t, hash(o.key), n).(entries := Replaced(t.entries, slot, to, o));
      } else {
        RaisePlaceKeeps(t, hash, to, n, o);
        current.entries[to] := Full(o);
        current.count := current.count + 1;
        PostInsert();
      }
    }

    /** Move the object in slot `e` to the first tombstone before it, if there is one. */
    method Compact(e: nat) returns (h: nat, n: nat, ghost to: nat)
      requires Valid() && e < current.entries.Length && current.entries[e].Full?
      modifies current.entries
      ensures Valid() && Value() == old(Value())
      ensures h == hash(old(current.entries[e]).obj.key) && to < current.entries.Length
      ensures old(Seen(current.View(), h, to, n, Bound(current.View(), h))
              && NoTombstoneBefore(current.View(), h, n - 1))
      ensures to != e ==>
                old(current.entries[to] == Tombstone && SeenAfter(current.View(), h, e, n, Bound(current.View(), h)))
      ensures current.entries[..] == old(Replaced(current.entries[..], e, to, current.entries[e].obj))
    {
      hide Contents, Placed, Reaches, Bound;
      ghost var t := current.View();
      var o := current.entries[e].obj;
      h := hash(o.key);
      var bound := current.BoundGet(h);
      var slot, first, found;
      slot, first, found, n := current.Search(h, o.key, bound, Probe);
      ContentsAt(t.entries, e);
      if found.None? {
        AbsentMeansMissing(t, hash, o.key);
      }
      assert slot == e;
      to := if first >= 0 then first else slot;
      ReplaceKeeps(t, hash, e, to, n, o);
      assert Contents(t.entries)[o.key := o] == Contents(t.entries);
      if first >= 0 {
        current.Replace(slot, first, o);
      }
      assert current.View() == t.(entries := Replaced(t.entries, e, to, o));
    }

    /**
     The scan of `ck_hs_gc`, over all slots with the new bounds collected in `bounds`, or over `cycles` objects.
     */
    method Scan(cycles: nat, seed: nat, bounds: array<nat>) returns (maximum: nat)
      requires Valid() && bounds != current.bounds
               && bounds.Length == (if cycles == 0 then current.bounds.Length else 0)
      requires forall j :: 0 <= j < bounds.Length ==> bounds[j] == 0
      modifies current.entries, bounds
      ensures Valid() && Value() == old(Value())
              && current.View() == old(current.View()).(entries := current.entries[..])
      ensures if cycles == 0 then Renewed(current.View(), bounds[..], maximum, hash, seed, current.entries.Length)
              else maximum == current.maximum
    {
      hide Contents, Placed, Reaches, Bound, Unique, Renewed, RaisedBounds, Replaced, Seen;
      var capacity := Pow2(current.step);
      var left := cycles;
      maximum := if cycles == 0 then 0 else current.maximum;
      ghost var t0 := current.View();
      StartRenewed(t0, bounds[..], hash, seed);
      var i := 0;
      while i < capacity
        invariant 0 <= i <= capacity && Valid() && Value() == old(Value())
        invariant current.View() == t0.(entries := current.entries[..])
        invariant cycles > 0 ==> maximum == current.maximum && left > 0
        invariant cycles == 0 ==> Renewed(current.View(), bounds[..], maximum, hash, seed, i)
      {
        var e := (i + seed) % capacity;
        ghost var t, b, m := current.View(), bounds[..], maximum;
        if current.entries[e].Full? {
          var h, n, to := Compact(e);
          if cycles == 0 {
            GcStepRenews(t, b, m, hash, seed, i, e, to, n);
            RenewedShape(t, b, m, hash, seed, i);
            maximum := Collect(bounds, maximum, h % capacity, n);
          } else {
            left := left - 1;
            if left == 0 { break; }
          }
        } else if cycles == 0 {
          SkipRenews(t, b, m, hash, seed, i);
        }
        i := i + 1;
      }
    }

    /** `ck_hs_gc`: `cycles` limits how many objects are looked at, 0 means all and recomputes the bounds. */
    method Gc(cycles: nat, seed: nat) returns (ok: bool)
      requires Valid()
      modifies this`grants, current, current.entries, current.bounds
      ensures Valid() && Value() == old(Value())
      ensures !ok ==> Refused(old(grants), grants)
    {
      hide Contents, Placed, Reaches, Bound, Unique, Renewed;
      var bounds := new nat[if cycles == 0 || current.count == 0 then current.bounds.Length else 0](_ => 0);
      if current.count == 0 {
        FullMeansCounted(current.View(), hash);
        current.maximum := 0;
        current.CopyBounds(bounds);
        return true;
      }
      if cycles == 0 && current.bounds.Length != 0 {
        var granted := grants != [] && grants[0];
        grants := if grants == [] then [] else grants[1..];
        if !granted {
          return false;
        }
      }
      var maximum := Scan(cycles, seed, bounds);
      ghost var t := current.View();
      if maximum != current.maximum { current.maximum := maximum; }
      if cycles == 0 {
        current.CopyBounds(bounds);
        RenewedKeeps(t, bounds[..], maximum, hash, seed);
        assert current.View() == t.(bounds := bounds[..], maximum := maximum);
      }
      ok := true;
    }
  }

  /** How far slot `s` is from where a scan with this seed starts. */
  function Distance(s: nat, seed: nat, capacity: nat): int
    requires capacity > 0
  {
    (s + capacity - seed % capacity) % capacity
  }

  lemma DistanceInverse(s: nat, seed: nat, capacity: nat)
    requires s < capacity
    ensures 0 <= Distance(s, seed, capacity) < capacity && (Distance(s, seed, capacity) + seed) % capacity == s
  {
    var q, a := seed / capacity, seed % capacity;
    if s >= a {
      DivModUnique(s + capacity - a, 1, s - a, capacity);
      DivModUnique(s - a + seed, q, s, capacity);
    } else {
      DivModUnique(s + capacity - a, 0, s + capacity - a, capacity);
      assert (q + 1) * capacity == q * capacity + capacity;
      DivModUnique(s + capacity - a + seed, q + 1, s, capacity);
    }
  }

  /** After `i` slots of a full collection: the objects seen so far are within the new bounds. */
  ghost predicate Renewed(t: Table, bounds: seq<nat>, maximum: nat, hash: nat -> nat, seed: nat, i: nat) {
    var t2 := t.(bounds := bounds, maximum := maximum);
    && Shape(t) && Shape(t2) && |bounds| == |t.bounds|
    && forall s :: 0 <= s < |t.entries| && t.entries[s].Full? && Distance(s, seed, |t.entries|) < i ==>
         Placed(t2, hash(t.entries[s].obj.key), s)
  }

  lemma RenewedShape(t: Table, bounds: seq<nat>, maximum: nat, hash: nat -> nat, seed: nat, i: nat)
    requires Renewed(t, bounds, maximum, hash, seed, i)
    ensures Shape(t.(bounds := bounds, maximum := maximum))
  {
  }

  lemma StartRenewed(t: Table, bounds: seq<nat>, hash: nat -> nat, seed: nat)
    requires Shape(t) && (forall i :: 0 <= i < |bounds| ==> bounds[i] == 0)
    ensures |bounds| == |t.bounds| ==> Renewed(t, bounds, 0, hash, seed, 0)
  {
    forall s | 0 <= s < |t.entries|
      ensures Distance(s, seed, |t.entries|) >= 0 { DistanceInverse(s, seed, |t.entries|); }
  }

  lemma SkipRenews(t: Table, bounds: seq<nat>, maximum: nat, hash: nat -> nat, seed: nat, i: nat)
    requires Renewed(t, bounds, maximum, hash, seed, i) && !t.entries[(i + seed) % |t.entries|].Full?
    ensures Renewed(t, bounds, maximum, hash, seed, i + 1)
  {
    forall s | 0 <= s < |t.entries| && Distance(s, seed, |t.entries|) == i ensures !t.entries[s].Full? {
      DistanceInverse(s, seed, |t.entries|);
    }
  }

  lemma GcStepRenews(t: Table, bounds: seq<nat>, maximum: nat, hash: nat -> nat, seed: nat, i: nat, e: nat, to: nat,
                     n: nat)
    requires Inv(t, hash) && Renewed(t, bounds, maximum, hash, seed, i)
    requires e == (i + seed) % |t.entries| && t.entries[e].Full?
    requires var h := hash(t.entries[e].obj.key);
             Seen(t, h, to, n, Bound(t, h)) && (to == e || t.entries[to] == Tombstone)
    ensures var t2 := Raise(t.(bounds := bounds, maximum := maximum), hash(t.entries[e].obj.key), n);
            Renewed(t.(entries := Replaced(t.entries, e, to, t.entries[e].obj)), t2.bounds, t2.maximum, hash, seed,
              i + 1)
  {
    hide Contents, Placed, Reaches, Unique, Position;
    var o := t.entries[e].obj;
    var h := hash(o.key);
    var t1 := t.(bounds := bounds, maximum := maximum);
    BoundBelowLimit(t, h);
    RaiseCovers(t1, h, n);
    var t2 := Raise(t1, h, n);
    var t3 := t2.(entries := Replaced(t.entries, e, to, o));
    assert Grows(t1, t3);
    forall s | 0 <= s < |t.entries| && t3.entries[s].Full? && Distance(s, seed, |t.entries|) < i + 1
      ensures Placed(t3, hash(t3.entries[s].obj.key), s)
    {
      DistanceInverse(s, seed, |t.entries|);
      if s == to {
        MovedIsPlaced(t, t1, t3, h, to, n);
      } else {
        StillPlaced(t1, t3, hash(t.entries[s].obj.key), s);
      }
    }
  }

  lemma MovedIsPlaced(t: Table, t1: Table, t3: Table, h: nat, to: nat, n: nat)
    requires Shape(t) && Seen(t, h, to, n, Bound(t, h)) && t1.entries == t.entries && t1.step == t.step
    requires Grows(t1, t3) && Bound(t3, h) >= n
    ensures Placed(t3, h, to)
  {
    hide Contents, Placed, Reaches, Unique;
    SameReach(t, t1, h, n - 1);
    StillReaches(t1, t3, h, n - 1);
    PlacedBy(t3, h, to, n - 1);
  }

  lemma PlacedBy(t: Table, h: nat, s: nat, n: nat)
    requires Shape(t) && PlacedAt(t, h, s, n)
    ensures Placed(t, h, s)
  {
  }

  lemma SameReach(t: Table, t1: Table, h: nat, n: nat)
    requires Shape(t) && Shape(t1) && t1.entries == t.entries && t1.step == t.step && Reaches(t, h, n)
    ensures Reaches(t1, h, n)
  {
    forall i | 0 <= i < n ensures At(t1, h, i) != Empty { assert At(t, h, i) != Empty; }
  }

  lemma RenewedKeeps(t: Table, bounds: seq<nat>, maximum: nat, hash: nat -> nat, seed: nat)
    requires Inv(t, hash) && Renewed(t, bounds, maximum, hash, seed, |t.entries|)
    ensures Inv(t.(bounds := bounds, maximum := maximum), hash)
  {
    forall s | 0 <= s < |t.entries|
      ensures Distance(s, seed, |t.entries|) < |t.entries| { DistanceInverse(s, seed, |t.entries|); }
  }

  lemma FullMeansCounted(t: Table, hash: nat -> nat)
    requires Inv(t, hash)
    ensures forall s :: 0 <= s < |t.entries| && t.entries[s].Full? ==> t.count > 0
  {
    forall s | 0 <= s < |t.entries| && t.entries[s].Full? ensures t.count > 0 { ContentsAt(t.entries, s); }
  }

  lemma BoundBelowLimit(t: Table, h: nat)
    requires Shape(t)
    ensures Bound(t, h) <= t.limit
  {
  }

  lemma RaisePlaceKeeps(t: Table, hash: nat -> nat, s: nat, n: nat, o: Object)
    requires Inv(t, hash) && Seen(t, hash(o.key), s, n, t.limit) && !t.entries[s].Full? && o.key !in Contents(t.entries)
    ensures var t1 := Raise(t, hash(o.key), n);
            var t' := t1.(entries := t.entries[s := Full(o)], count := t.count + 1);
            Inv(t', hash) && Contents(t'.entries) == Contents(t.entries)[o.key := o]
  {
    var t1 := Raise(t, hash(o.key), n);
    RaiseKeeps(t, hash, hash(o.key), n);
    StillReaches(t, t1, hash(o.key), n - 1);
    InsertKeeps(t1, hash, s, n, o);
  }

  lemma RaiseReplaceKeeps(t: Table, hash: nat -> nat, from: nat, to: nat, n: nat, o: Object)
    requires Inv(t, hash) && from < |t.entries| && Matches(t.entries[from], o.key)
    requires Seen(t, hash(o.key), to, n, t.limit) && (to == from || t.entries[to] == Tombstone)
    ensures var t' := Raise(t, hash(o.key), n).(entries := Replaced(t.entries, from, to, o));
            Inv(t', hash) && Contents(t'.entries) == Contents(t.entries)[o.key := o]
  {
    var t1 := Raise(t, hash(o.key), n);
    RaiseKeeps(t, hash, hash(o.key), n);
    StillReaches(t, t1, hash(o.key), n - 1);
    ReplaceKeeps(t1, hash, from, to, n, o);
  }

  lemma StepIsCapacity(t: Table)
    requires Shape(t)
    ensures Pow2(t.step) >= L1
  {
    BucketInside(t.step, 0, L1 - 1);
  }
}
