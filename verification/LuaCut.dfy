/**
 How `str_gsub` cuts its subject: into text that is kept and matches that are replaced.

 The matches are chosen from the left, each the first outcome at its start, without overlap and as many as
 the limit allows. Nothing else can be chosen, as `OneSubstitution` says.
 */
module LuaCut {
  import opened LuaPattern

  predicate Anchored(pat: seq<Byte>) { At(pat, 0) == '^' as int }

  /** A piece of the subject, kept or to be replaced. */
  datatype Piece = Kept(start: nat, to: nat) | Swapped(start: nat, to: nat, caps: seq<Cap>)

  /** The pieces follow each other from `a` to `b`. */
  predicate Tiles(ps: seq<Piece>, a: nat, b: nat) {
    if ps == [] then a == b
    else var x := ps[|ps| - 1]; x.start <= x.to == b && Tiles(ps[..|ps| - 1], a, x.start)
  }

  /** The matches among the pieces. */
  function Taken(ps: seq<Piece>): seq<Piece> {
    if ps == [] then [] else Taken(ps[..|ps| - 1]) + if ps[|ps| - 1].Swapped? then [ps[|ps| - 1]] else []
  }

  /** The text of the pieces, with every match replaced by what `repl` makes of it. */
  function Text(src: seq<Byte>, ps: seq<Piece>, repl: Piece -> seq<Byte>): seq<Byte> {
    if ps == [] then []
    else var x := ps[|ps| - 1];
      Text(src, ps[..|ps| - 1], repl) + if x.Swapped? then repl(x)
        else if x.start <= x.to <= |src| then src[x.start..x.to] else []
  }

  /** Replacing every match by itself gives the subject back. */
  lemma {:induction false} TextKept(src: seq<Byte>, ps: seq<Piece>, a: nat, b: nat, repl: Piece -> seq<Byte>)
    requires Tiles(ps, a, b) && b <= |src| && forall x <- ps :: x.Swapped? ==>
             x.start <= x.to <= |src| && repl(x) == src[x.start..x.to]
    ensures a <= b && Text(src, ps, repl) == src[a..b]
  {
    if ps != [] {
      var x := ps[|ps| - 1];
      TextKept(src, ps[..|ps| - 1], a, x.start, repl);
      assert x in ps && src[a..x.start] + src[x.start..b] == src[a..b];
    }
  }

  // ---------------------------------------------------------------- which matches are chosen

  /** The outcomes of matching the whole pattern from position `i`. */
  ghost function WholeOutcomes(src: seq<Byte>, pat: seq<Byte>, i: nat): seq<Outcome>
    requires i <= |src|
  {
    Outcomes(src, pat, if Anchored(pat) then 1 else 0, i, [])
  }

  /** `x` is the first outcome at its start. */
  ghost predicate IsMatch(src: seq<Byte>, pat: seq<Byte>, x: Piece) {
    && x.Swapped? && x.start <= x.to <= |src|
    && var os := WholeOutcomes(src, pat, x.start); os != [] && os[0] == Found(x.to, x.caps)
  }

  ghost predicate Faulty(src: seq<Byte>, pat: seq<Byte>, i: nat, e: Error) {
    i <= |src| && var os := WholeOutcomes(src, pat, i); os != [] && os[0] == Fault(e)
  }

  predicate Covers(x: Piece, i: nat) { x.start == i || x.start <= i < x.to }

  /** A match is chosen at `i` or across it, or there is none. */
  ghost predicate Settled(src: seq<Byte>, pat: seq<Byte>, ts: seq<Piece>, i: nat)
    requires i <= |src|
  {
    (exists x <- ts :: Covers(x, i)) || WholeOutcomes(src, pat, i) == []
  }

  predicate Before(x: Piece, y: Piece) { x.start < y.start && x.to <= y.start }

  /** Matches chosen from the left up to `stop`, in order and without overlap, none passed over. */
  ghost predicate Chosen(src: seq<Byte>, pat: seq<Byte>, ts: seq<Piece>, stop: nat) {
    && stop <= |src| && (forall x <- ts :: IsMatch(src, pat, x) && x.to <= stop)
    && (forall a, b :: 0 <= a < b < |ts| ==> Before(ts[a], ts[b]))
    && (forall i :: 0 <= i < stop ==> Settled(src, pat, ts, i))
  }

  /** The choice ends at `stop`: it is complete or at its limit, or there is an error. */
  ghost predicate Stops(src: seq<Byte>, pat: seq<Byte>, max: int, ts: seq<Piece>, stop: nat, error: Result) {
    && Chosen(src, pat, ts, stop)
    && match error
       case NoMatch =>
         && (|ts| <= max || ts == []) && (max > 0 ==> Settled(src, pat, ts, 0))
         && (Anchored(pat) ==> forall x <- ts :: x.start == 0)
         && (|ts| < max && !Anchored(pat) ==> stop == |src| && Settled(src, pat, ts, stop))
       case Raised(e) => |ts| < max && (Anchored(pat) ==> stop == 0) && Faulty(src, pat, stop, e)
       case Matched(_) => false
  }

  // ---------------------------------------------------------------- one step of the choice

  /** Between two attempts: the pieces end at `pos`, and no match has been chosen there. */
  ghost predicate Cutting(src: seq<Byte>, pat: seq<Byte>, ps: seq<Piece>, pos: nat) {
    Tiles(ps, 0, pos) && Chosen(src, pat, Taken(ps), pos) && forall x <- Taken(ps) :: x.start < pos
  }

  lemma NothingCut(src: seq<Byte>, pat: seq<Byte>)
    ensures Cutting(src, pat, [], 0) && Taken([]) == []
  {
  }

  lemma PieceAdded(ps: seq<Piece>, x: Piece, a: nat)
    requires Tiles(ps, 0, a) && x.start == a <= x.to
    ensures Tiles(ps + [x], 0, x.to) && Taken(ps + [x]) == Taken(ps) + if x.Swapped? then [x] else []
  {
    assert (ps + [x])[..|ps|] == ps;
  }

  /** A match is added. */
  lemma MatchChosen(src: seq<Byte>, pat: seq<Byte>, ts: seq<Piece>, x: Piece)
    requires Chosen(src, pat, ts, x.start) && IsMatch(src, pat, x) && forall y <- ts :: y.start < x.start
    ensures Chosen(src, pat, ts + [x], x.to) && Settled(src, pat, ts + [x], x.start)
  {
    hide IsMatch, WholeOutcomes;
    var us := ts + [x];
    assert x in us && x.start <= x.to <= |src| by { IsMatchBounds(src, pat, x); }
    forall i | 0 <= i < x.to ensures Settled(src, pat, us, i) {
      if i < x.start {
        MoreSettled(src, pat, ts, x, i);
      } else {
        assert Covers(x, i);
      }
    }
    assert Covers(x, x.start);
  }

  lemma IsMatchBounds(src: seq<Byte>, pat: seq<Byte>, x: Piece)
    requires IsMatch(src, pat, x)
    ensures x.start <= x.to <= |src|
  {
  }

  lemma MoreSettled(src: seq<Byte>, pat: seq<Byte>, ts: seq<Piece>, x: Piece, i: nat)
    requires i <= |src| && Settled(src, pat, ts, i)
    ensures Settled(src, pat, ts + [x], i)
  {
    hide WholeOutcomes;
    if y :| y in ts && Covers(y, i) { assert y in ts + [x]; }
  }

  /** A settled position is passed. */
  lemma PositionPassed(src: seq<Byte>, pat: seq<Byte>, ts: seq<Piece>, pos: nat)
    requires Chosen(src, pat, ts, pos) && pos < |src| && Settled(src, pat, ts, pos)
    ensures Chosen(src, pat, ts, pos + 1)
  {
  }

  /** The choice up to `pos`, with that position settled too. */
  ghost predicate SettledHere(src: seq<Byte>, pat: seq<Byte>, ps: seq<Piece>, pos: nat) {
    && Tiles(ps, 0, pos) && Chosen(src, pat, Taken(ps), pos) && Settled(src, pat, Taken(ps), pos)
    && forall x <- Taken(ps) :: x.start <= pos
  }

  /** The next match is cut out. */
  lemma MatchCut(src: seq<Byte>, pat: seq<Byte>, ps: seq<Piece>, x: Piece)
    requires Cutting(src, pat, ps, x.start) && IsMatch(src, pat, x)
    ensures Taken(ps + [x]) == Taken(ps) + [x]
    ensures if x.to > x.start then Cutting(src, pat, ps + [x], x.to) else SettledHere(src, pat, ps + [x], x.start)
  {
    hide Chosen, Settled;
    PieceAdded(ps, x, x.start);
    MatchChosen(src, pat, Taken(ps), x);
  }

  /** A position without a match, or behind an empty one, is kept. */
  lemma KeptCut(src: seq<Byte>, pat: seq<Byte>, ps: seq<Piece>, pos: nat)
    requires pos < |src| && SettledHere(src, pat, ps, pos)
    ensures var ps' := ps + [Kept(pos, pos + 1)]; Taken(ps') == Taken(ps) && Cutting(src, pat, ps', pos + 1)
  {
    hide Chosen, Settled;
    PieceAdded(ps, Kept(pos, pos + 1), pos);
    PositionPassed(src, pat, Taken(ps), pos);
  }

  lemma FirstIsMatch(src: seq<Byte>, pat: seq<Byte>, x: Piece)
    requires x.Swapped? && x.start <= |src|
    requires var os := WholeOutcomes(src, pat, x.start); os != [] && os[0] == Found(x.to, x.caps)
    ensures IsMatch(src, pat, x)
  {
    hide Outcomes;
    OutcomesSound(src, pat, if Anchored(pat) then 1 else 0, x.start, []);
    assert WholeOutcomes(src, pat, x.start)[0] in WholeOutcomes(src, pat, x.start);
  }

  lemma NoMatchHere(src: seq<Byte>, pat: seq<Byte>, ps: seq<Piece>, pos: nat)
    requires pos <= |src| && Cutting(src, pat, ps, pos) && WholeOutcomes(src, pat, pos) == []
    ensures SettledHere(src, pat, ps, pos)
  {
  }

  /** The last piece. */
  lemma RestKept(src: seq<Byte>, ps: seq<Piece>, pos: nat)
    requires pos <= |src| && Tiles(ps, 0, pos)
    ensures var ps' := ps + [Kept(pos, |src|)]; Taken(ps') == Taken(ps) && Tiles(ps', 0, |src|)
  {
    PieceAdded(ps, Kept(pos, |src|), pos);
  }

  /** At its limit the choice stops, with the beginning settled. */
  lemma LimitReached(src: seq<Byte>, pat: seq<Byte>, max: int, ps: seq<Piece>, pos: nat)
    requires Cutting(src, pat, ps, pos) && |Taken(ps)| >= max && (|Taken(ps)| <= max || Taken(ps) == [])
    requires Anchored(pat) ==> forall x <- Taken(ps) :: x.start == 0
    ensures Stops(src, pat, max, Taken(ps), pos, NoMatch)
  {
    hide IsMatch, Settled;
    if max > 0 { assert Taken(ps)[0] in Taken(ps); }
  }

  /** At the end of the subject there is nothing more to choose. */
  lemma EndReached(src: seq<Byte>, pat: seq<Byte>, max: int, ps: seq<Piece>)
    requires SettledHere(src, pat, ps, |src|) && |Taken(ps)| <= max
    requires Anchored(pat) ==> forall x <- Taken(ps) :: x.start == 0
    ensures Stops(src, pat, max, Taken(ps), |src|, NoMatch)
  {
    hide IsMatch;
  }

  /** An anchored pattern is tried once. */
  lemma AnchorTried(src: seq<Byte>, pat: seq<Byte>, max: int, ps: seq<Piece>, pos: nat)
    requires Cutting(src, pat, ps, pos) && pos > 0 && |Taken(ps)| <= max && Anchored(pat)
    requires forall x <- Taken(ps) :: x.start == 0
    ensures Stops(src, pat, max, Taken(ps), pos, NoMatch)
  {
    hide IsMatch;
  }

  // ---------------------------------------------------------------- there is only one choice

  /** Where a match or an error is found, a settled position is covered. */
  lemma Coverer(src: seq<Byte>, pat: seq<Byte>, ts: seq<Piece>, i: nat) returns (a: nat)
    requires i <= |src| && Settled(src, pat, ts, i) && WholeOutcomes(src, pat, i) != []
    ensures a < |ts| && Covers(ts[a], i)
  {
    hide WholeOutcomes;
    var x :| x in ts && Covers(x, i);
    a :| 0 <= a < |ts| && ts[a] == x;
  }

  /** Only later matches of another choice could cover the next match. */
  lemma CoveredLater(src: seq<Byte>, pat: seq<Byte>, ts: seq<Piece>, stop: nat, us: seq<Piece>, k: nat) returns (a: nat)
    requires Chosen(src, pat, ts, stop) && k < |ts| && k <= |us| && ts[..k] == us[..k]
    requires Settled(src, pat, us, ts[k].start)
    ensures k <= a < |us| && us[a].start <= ts[k].start
  {
    hide WholeOutcomes, Settled;
    assert ts[k] in ts && IsMatch(src, pat, ts[k]);
    a := Coverer(src, pat, us, ts[k].start);
    assert forall i :: 0 <= i < k ==> us[i] == us[..k][i] && ts[i] == ts[..k][i];
  }

  /** An error ends every choice that comes to it. */
  lemma ErrorEnds(src: seq<Byte>, pat: seq<Byte>, ts: seq<Piece>, stop: nat, us: seq<Piece>, i: nat, e: Error)
    requires Chosen(src, pat, ts, i) && Faulty(src, pat, i, e) && Chosen(src, pat, us, stop) && ts <= us
    requires forall a :: |ts| <= a < |us| ==> us[a].start > i
    ensures !Settled(src, pat, us, i)
  {
    hide WholeOutcomes;
    if Settled(src, pat, us, i) {
      var a := Coverer(src, pat, us, i);
      assert false;
    }
  }

  /** Choices that agree so far: if the one goes on, so does the other. */
  lemma GoesOn(src: seq<Byte>, pat: seq<Byte>, max: int, ts: seq<Piece>, stop: nat, error: Result,
               us: seq<Piece>, stop': nat, error': Result)
    requires Stops(src, pat, max, ts, stop, error) && Stops(src, pat, max, us, stop', error') && us <= ts
    ensures us == ts
  {
    hide WholeOutcomes, Settled;
    if us != ts {
      var k := |us|;
      var x := ts[k];
      assert us == ts[..k] == us[..k] && x in ts && IsMatch(src, pat, x);
      if Settled(src, pat, us, x.start) {
        var a := CoveredLater(src, pat, ts, stop, us, k);
      } else if error' == NoMatch {
        assert false;
      } else {
        assert x.start >= stop';
        if x.start == stop' {
          assert false;
        }
        forall a | k <= a < |ts| ensures ts[a].start > stop' { assert a > k ==> Before(ts[k], ts[a]); }
        ErrorEnds(src, pat, us, stop, ts, stop', error'.error);
      }
    }
  }

  lemma {:induction false} SameSoFar(src: seq<Byte>, pat: seq<Byte>, ts: seq<Piece>, stop: nat, us: seq<Piece>,
                                     stop': nat, k: nat)
    requires Chosen(src, pat, ts, stop) && Chosen(src, pat, us, stop') && k <= |ts| && k <= |us|
    ensures ts[..k] == us[..k]
    decreases k
  {
    hide Settled, WholeOutcomes;
    if k > 0 {
      var j := k - 1;
      SameSoFar(src, pat, ts, stop, us, stop', j);
      NotEarlier(src, pat, ts, stop, us, stop', j);
      NotEarlier(src, pat, us, stop', ts, stop, j);
      assert ts[j] in ts && us[j] in us && IsMatch(src, pat, ts[j]) && IsMatch(src, pat, us[j]);
      assert ts[..k] == ts[..j] + [ts[j]] && us[..k] == us[..j] + [us[j]];
    }
  }

  /** No choice takes a match earlier than another that agrees with it so far. */
  lemma NotEarlier(src: seq<Byte>, pat: seq<Byte>, ts: seq<Piece>, stop: nat, us: seq<Piece>, stop': nat, k: nat)
    requires Chosen(src, pat, ts, stop) && Chosen(src, pat, us, stop') && k < |ts| && k < |us| && ts[..k] == us[..k]
    ensures us[k].start <= ts[k].start
  {
    hide Settled, WholeOutcomes;
    assert us[k] in us && IsMatch(src, pat, us[k]);
    if ts[k].start < us[k].start {
      var a := CoveredLater(src, pat, ts, stop, us, k);
      assert false;
    }
  }

  /** With the same matches the same error, or none. */
  lemma SameEnd(src: seq<Byte>, pat: seq<Byte>, max: int, ts: seq<Piece>, stop: nat, error: Result, stop': nat,
                error': Result)
    requires Stops(src, pat, max, ts, stop, error) && Stops(src, pat, max, ts, stop', error') && error.Raised?
    ensures error' == error
  {
    hide Settled, WholeOutcomes;
    ErrorEnds(src, pat, ts, stop', ts, stop, error.error);
    if error'.Raised? { ErrorEnds(src, pat, ts, stop, ts, stop', error'.error); }
  }

  /** The text as its matches and the end of the subject determine it. */
  function Rendered(src: seq<Byte>, ts: seq<Piece>, b: nat, repl: Piece -> seq<Byte>): seq<Byte> {
    if ts == [] then src[..Min(b, |src|)]
    else var x := ts[|ts| - 1];
      Rendered(src, ts[..|ts| - 1], x.start, repl) + repl(x) + if x.to <= b <= |src| then src[x.to..b] else []
  }

  function Min(a: nat, b: nat): nat { if a <= b then a else b }

  lemma RenderedOn(src: seq<Byte>, ts: seq<Piece>, a: nat, b: nat, repl: Piece -> seq<Byte>)
    requires a <= b <= |src| && (ts != [] ==> ts[|ts| - 1].to <= a)
    ensures Rendered(src, ts, b, repl) == Rendered(src, ts, a, repl) + src[a..b]
  {
    if ts == [] {
      assert src[..a] + src[a..b] == src[..b];
    } else {
      var y := ts[|ts| - 1];
      var front := Rendered(src, ts[..|ts| - 1], y.start, repl) + repl(y);
      assert src[y.to..a] + src[a..b] == src[y.to..b];
      assert (front + src[y.to..a]) + src[a..b] == front + (src[y.to..a] + src[a..b]);
    }
  }

  lemma RenderedMatch(src: seq<Byte>, ts: seq<Piece>, x: Piece, repl: Piece -> seq<Byte>)
    requires x.to <= |src|
    ensures Rendered(src, ts + [x], x.to, repl) == Rendered(src, ts, x.start, repl) + repl(x)
  {
    assert (ts + [x])[..|ts|] == ts;
    assert src[x.to..x.to] == [];
  }

  lemma {:induction false} TextIsRendered(src: seq<Byte>, ps: seq<Piece>, b: nat, repl: Piece -> seq<Byte>)
    requires Tiles(ps, 0, b) && b <= |src|
    ensures Text(src, ps, repl) == Rendered(src, Taken(ps), b, repl)
    ensures Taken(ps) != [] ==> Taken(ps)[|Taken(ps)| - 1].to <= b
  {
    hide Rendered;
    if ps == [] {
      NothingRendered(src, repl);
    } else {
      var x, qs := ps[|ps| - 1], ps[..|ps| - 1];
      TextIsRendered(src, qs, x.start, repl);
      if x.Swapped? {
        RenderedMatch(src, Taken(qs), x, repl);
      } else {
        assert Taken(ps) == Taken(qs);
        RenderedOn(src, Taken(qs), x.start, b, repl);
      }
    }
  }

  lemma NothingRendered(src: seq<Byte>, repl: Piece -> seq<Byte>)
    ensures Rendered(src, [], 0, repl) == []
  {
  }

  /**
   The matches, their number, the error and the text are determined: two ways of cutting the subject as
   `Stops` demands come to the same.
   */
  lemma OneSubstitution(src: seq<Byte>, pat: seq<Byte>, max: int, ps: seq<Piece>, stop: nat, error: Result,
                        qs: seq<Piece>, stop': nat, error': Result, repl: Piece -> seq<Byte>)
    requires Stops(src, pat, max, Taken(ps), stop, error) && Stops(src, pat, max, Taken(qs), stop', error')
    requires Tiles(ps, 0, if error == NoMatch then |src| else stop)
    requires Tiles(qs, 0, if error' == NoMatch then |src| else stop')
    ensures Taken(qs) == Taken(ps) && error' == error
    ensures error == NoMatch ==> Text(src, qs, repl) == Text(src, ps, repl)
  {
    hide Settled, WholeOutcomes, Tiles, Taken, Text, IsMatch;
    var ts, us := Taken(ps), Taken(qs);
    var k := Min(|ts|, |us|);
    SameSoFar(src, pat, ts, stop, us, stop', k);
    if |us| <= |ts| {
      GoesOn(src, pat, max, ts, stop, error, us, stop', error');
    } else {
      GoesOn(src, pat, max, us, stop', error', ts, stop, error);
    }
    if error.Raised? { SameEnd(src, pat, max, ts, stop, error, stop', error'); }
    if error'.Raised? { SameEnd(src, pat, max, ts, stop', error', stop, error); }
    if error == NoMatch {
      TextIsRendered(src, ps, |src|, repl);
      TextIsRendered(src, qs, |src|, repl);
    }
  }
}
