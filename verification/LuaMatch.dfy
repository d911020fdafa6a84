/**
 Lua's pattern matcher (`lstrlib.c`), which backtracks by recursion and keeps its captures in one array,
 undoing what a failed attempt has written there.
 */
module LuaMatch {
  import opened LuaCut
  import opened LuaPattern

  /** The result is the first outcome, with the captures it has; without an outcome the captures are as they were. */
  predicate IsFirst(os: seq<Outcome>, r: Result, before: seq<Cap>, after: seq<Cap>) {
    match r
    case Matched(e) => os != [] && os[0] == Found(e, after)
    case NoMatch => os == [] && after == before
    case Raised(e) => os != [] && os[0] == Fault(e)
  }

  predicate AllClosed(caps: seq<Cap>) { forall c <- caps :: c.len != Unfinished }

  /** What the caller gets for an outcome. */
  function Delivered(o: Outcome): Result {
    match o
    case Found(e, caps) => if AllClosed(caps) then Matched(e) else Raised(OpenCapture)
    case Fault(e) => Raised(e)
  }

  class MatchState {
    const src: seq<Byte>
    const pat: seq<Byte>
    var level: nat
    const capture: array<Cap>

    constructor (src: seq<Byte>, pat: seq<Byte>)
      ensures Valid() && level == 0 && this.src == src && this.pat == pat && fresh(capture)
    {
      this.src, this.pat, level := src, pat, 0;
      capture := new Cap[MAX_CAPTURES](_ => Cap(0, Unfinished));
    }

    predicate Valid()
      reads this
    {
      capture.Length == MAX_CAPTURES && level <= MAX_CAPTURES
    }

    function Caps(): seq<Cap>
      requires Valid()
      reads this, capture
    {
      capture[..level]
    }

    /** `classend`. */
    method ClassEnd(p: nat) returns (r: Ends)
      requires p < |pat|
      ensures r == SetEnd(pat, p)
    {
      var c := pat[p];
      var i := p + 1;
      if c == ESC {
        if At(pat, i) == 0 {
          return Broken(EndsWithEscape);
        }
        return Ends(i + 1);
      } else if c == '[' as int {
        if At(pat, i) == '^' as int {
          i := i + 1;
        }
        while true
          invariant p < i <= |pat| && SetEnd(pat, p) == BracketEnd(pat, i)
          decreases |pat| - i
        {
          if At(pat, i) == 0 {
            return Broken(MissingBracket);
          }
          i := i + 1;
          if pat[i - 1] == ESC && At(pat, i) != 0 {
            i := i + 1;
          }
          if At(pat, i) == ']' as int {
            return Ends(i + 1);
          }
        }
      } else {
        return Ends(i);
      }
    }

    /** `matchbracketclass`, from the bracket at `p` to the one at `ec`. */
    method MatchBracketClass(c: Byte, p: nat, ec: nat) returns (r: bool)
      ensures r == Has(BracketSet(pat, p, ec), c)
    {
      hide Among, MatchClass, At;
      var sig := true;
      var i := p;
      if At(pat, i + 1) == '^' as int {
        sig := false;
        i := i + 1;
      }
      i := i + 1;
      ghost var items := SetItems(pat, i, ec);
      while i < ec
        invariant Among(items, c) <==> Among(SetItems(pat, i, ec), c)
        decreases ec - i
      {
        if At(pat, i) == ESC {
          i := i + 1;
          FirstItem(Class(At(pat, i)), SetItems(pat, i + 1, ec), c);
          if MatchClass(c, At(pat, i)) {
            return sig;
          }
        } else if At(pat, i + 1) == '-' as int && i + 2 < ec {
          i := i + 2;
          FirstItem(Range(At(pat, i - 2), At(pat, i)), SetItems(pat, i + 1, ec), c);
          if At(pat, i - 2) <= c <= At(pat, i) {
            return sig;
          }
        } else {
          FirstItem(Range(At(pat, i), At(pat, i)), SetItems(pat, i + 1, ec), c);
          if At(pat, i) == c {
            return sig;
          }
        }
        i := i + 1;
      }
      assert !Among([], c) by { NothingAmong(c); }
      return !sig;
    }

    /** `singlematch`. */
    method SingleMatch(c: Byte, p: nat, ep: nat) returns (r: bool)
      requires p < |pat| && SetEnd(pat, p) == Ends(ep)
      ensures r == Has(SetAt(pat, p, ep), c)
    {
      if pat[p] == '.' as int {
        r := true;
      } else if pat[p] == ESC {
        FirstItem(Class(At(pat, p + 1)), [], c);
        r := MatchClass(c, At(pat, p + 1));
      } else if pat[p] == '[' as int {
        r := MatchBracketClass(c, p, ep - 1);
      } else {
        FirstItem(Range(At(pat, p), At(pat, p)), [], c);
        r := pat[p] == c;
      }
    }

    /** `matchbalance`, with its two characters known to be there. */
    method MatchBalance(s: nat, b: Byte, e: Byte) returns (r: Option)
      requires s <= |src|
      ensures r == Balanced(src, s, b, e)
    {
      if At(src, s) != b {
        return None;
      }
      var cont := 1;
      var i := s + 1;
      while i < |src|
        invariant cont > 0 && Balanced(src, s, b, e) == BalanceEnd(src, i, b, e, cont)
        decreases |src| - i
      {
        if src[i] == e {
          cont := cont - 1;
          if cont == 0 {
            return Some(i + 1);
          }
        } else if src[i] == b {
          cont := cont + 1;
        }
        i := i + 1;
      }
      return None;
    }

    /** `capture_to_close`. */
    method CaptureToClose() returns (l: int)
      requires Valid()
      ensures l == LastOpen(Caps())
    {
      l := level - 1;
      while l >= 0
        invariant -1 <= l < level && LastOpen(Caps()) == LastOpen(capture[..l + 1])
      {
        assert capture[..l + 1][..l] == capture[..l];
        if capture[l].len == Unfinished {
          return;
        }
        l := l - 1;
      }
    }

    /** `check_capture` and `match_capture`. */
    method MatchCapture(s: nat, d: Byte) returns (r: Result)
      requires Valid() && Fits(src, Caps(), s)
      ensures r == BackTo(src, s, Caps(), d)
    {
      var l := d - '1' as int;
      if l < 0 || l >= level || capture[l].len == Unfinished {
        return Raised(BadIndex);
      }
      var cap := capture[l];
      if cap.len.Closed? && |src| - s >= cap.len.n && src[cap.init..cap.init + cap.len.n] == src[s..s + cap.len.n] {
        return Matched(s + cap.len.n);
      }
      return NoMatch;
    }

    /** `match`. */
    method Match(s: nat, p: nat) returns (r: Result)
      requires Valid() && p <= |pat| && Fits(src, Caps(), s)
      modifies this`level, capture
      ensures Valid() && IsFirst(Outcomes(src, pat, p, s, old(Caps())), r, old(Caps()), Caps())
      decreases |pat| - p, 4
    {
      hide Outcomes, Fits, SingleAt, EscapedAt;
      ghost var caps := Caps();
      Unfold(src, pat, p, s, caps);
      var c := At(pat, p);
      if c == 0 {
        r := Matched(s);
      } else if c == '(' as int {
        if At(pat, p + 1) == ')' as int {
          r := StartCapture(s, p + 2, Position);
        } else {
          r := StartCapture(s, p + 1, Unfinished);
        }
      } else if c == ')' as int {
        r := EndCapture(s, p + 1);
      } else if c == ESC {
        r := MatchEscape(s, p);
      } else if c == '$' as int && At(pat, p + 1) == 0 {
        r := if s == |src| then Matched(s) else NoMatch;
      } else {
        r := MatchItem(s, p);
      }
    }

    /** The escapes of `match`: balanced strings, frontiers, back references, and classes. */
    method MatchEscape(s: nat, p: nat) returns (r: Result)
      requires Valid() && p < |pat| && pat[p] == ESC && Fits(src, Caps(), s)
      modifies this`level, capture
      ensures Valid() && IsFirst(Outcomes(src, pat, p, s, old(Caps())), r, old(Caps()), Caps())
      decreases |pat| - p, 3
    {
      hide Outcomes, SingleAt, SetEnd, Has;
      ghost var caps := Caps();
      Unfold(src, pat, p, s, caps);
      var d := At(pat, p + 1);
      if d == 'b' as int {
        if At(pat, p + 2) == 0 || At(pat, p + 3) == 0 {
          return Raised(Unbalanced);
        }
        var t := MatchBalance(s, At(pat, p + 2), At(pat, p + 3));
        if t.None? {
          return NoMatch;
        }
        r := Match(t.at, p + 4);
      } else if d == 'f' as int {
        if At(pat, p + 2) != '[' as int {
          return Raised(MissingSet);
        }
        r := MatchFrontier(s, p);
      } else if IsDigit(d) {
        r := MatchCapture(s, d);
        if r.Matched? {
          r := Match(r.end, p + 2);
        }
      } else {
        r := MatchItem(s, p);
      }
    }

    method MatchFrontier(s: nat, p: nat) returns (r: Result)
      requires Valid() && p + 2 < |pat| && pat[p] == ESC && pat[p + 1] == 'f' as int && pat[p + 2] == '[' as int
               && Fits(src, Caps(), s)
      modifies this`level, capture
      ensures Valid() && IsFirst(Outcomes(src, pat, p, s, old(Caps())), r, old(Caps()), Caps())
      decreases |pat| - p, 2
    {
      hide Outcomes, SingleAt, SetEnd, Has;
      ghost var caps := Caps();
      Unfold(src, pat, p, s, caps);
      var e := ClassEnd(p + 2);
      if e.Broken? {
        return Raised(e.error);
      }
      var previous := if s == 0 then 0 else src[s - 1];
      var before := MatchBracketClass(previous, p + 2, e.at - 1);
      var after := MatchBracketClass(At(src, s), p + 2, e.at - 1);
      if before || !after {
        return NoMatch;
      }
      r := Match(s, e.at);
    }

    /** The default case of `match`: a single-character item and its repetition. */
    method MatchItem(s: nat, p: nat) returns (r: Result)
      requires Valid() && p < |pat| && ItemAt(pat, p) == SingleAt(pat, p) && Fits(src, Caps(), s)
      modifies this`level, capture
      ensures Valid() && IsFirst(Outcomes(src, pat, p, s, old(Caps())), r, old(Caps()), Caps())
      decreases |pat| - p, 2
    {
      hide Outcomes, ItemAt, SetEnd, SetAt, Has, Longest, Shortest;
      ghost var caps := Caps();
      Unfold(src, pat, p, s, caps);
      var e := ClassEnd(p);
      if e.Broken? {
        return Raised(e.error);
      }
      var ep := e.at;
      var m := false;
      if s < |src| {
        m := SingleMatch(src[s], p, ep);
      }
      ghost var set' := SetAt(pat, p, ep);
      RunStarts(src, s, set');
      match At(pat, ep) as char {
        case '?' =>
          OptionalIs(src, pat, ep + 1, s, caps);
          if m {
            r := Match(s + 1, ep + 1);
            if r != NoMatch {
              return;
            }
          }
          r := Match(s, ep + 1);
        case '*' =>
          r := MaxExpand(s, p, ep);
        case '+' =>
          if !m {
            return NoMatch;
          }
          LongestShift(src, pat, ep + 1, s, RunLength(src, s + 1, set'), caps);
          r := MaxExpand(s + 1, p, ep);
        case '-' =>
          r := MinExpand(s, p, ep);
        case _ =>
          if !m {
            return NoMatch;
          }
          OnceIs(src, pat, ep, s, caps);
          r := Match(s + 1, ep);
      }
    }

    /** The first loop of `max_expand`. */
    method CountRun(s: nat, p: nat, ep: nat) returns (i: nat)
      requires p < |pat| && SetEnd(pat, p) == Ends(ep) && s <= |src|
      ensures i == RunLength(src, s, SetAt(pat, p, ep))
    {
      hide SetEnd, SetAt, Has;
      ghost var set' := SetAt(pat, p, ep);
      i := 0;
      while s + i < |src|
        invariant s + i <= |src| && RunLength(src, s, set') == i + RunLength(src, s + i, set')
        decreases |src| - i
      {
        var m := SingleMatch(src[s + i], p, ep);
        if !m {
          return;
        }
        i := i + 1;
      }
    }

    /** `max_expand`. */
    method MaxExpand(s: nat, p: nat, ep: nat) returns (r: Result)
      requires Valid() && p < |pat| && SetEnd(pat, p) == Ends(ep) && ep < |pat| && Fits(src, Caps(), s)
      modifies this`level, capture
      ensures Valid()
      ensures IsFirst(Longest(src, pat, ep + 1, s, RunLength(src, s, SetAt(pat, p, ep)), 0, old(Caps())), r,
              old(Caps()), Caps())
      decreases |pat| - p, 1
    {
      hide Outcomes, SetEnd, SetAt, Has, RunLength;
      ghost var caps := Caps();
      var i := CountRun(s, p, ep);
      ghost var os := Longest(src, pat, ep + 1, s, i, 0, caps);
      while true
        invariant Valid() && Caps() == caps && s + i <= |src| && os == Longest(src, pat, ep + 1, s, i, 0, caps)
        decreases i
      {
        r := Match(s + i, ep + 1);
        if r != NoMatch || i == 0 {
          return;
        }
        i := i - 1;
      }
    }

    /** `min_expand`. */
    method MinExpand(s: nat, p: nat, ep: nat) returns (r: Result)
      requires Valid() && p < |pat| && SetEnd(pat, p) == Ends(ep) && ep < |pat| && Fits(src, Caps(), s)
      modifies this`level, capture
      ensures Valid()
      ensures IsFirst(Shortest(src, pat, ep + 1, s, 0, RunLength(src, s, SetAt(pat, p, ep)), old(Caps())), r,
              old(Caps()), Caps())
      decreases |pat| - p, 1
    {
      hide Outcomes, SetEnd, SetAt, Has, RunLength;
      ghost var caps, set' := Caps(), SetAt(pat, p, ep);
      ghost var n := RunLength(src, s, set');
      ghost var os := Shortest(src, pat, ep + 1, s, 0, n, caps);
      var i := 0;
      while true
        invariant Valid() && Caps() == caps && i <= n && n == i + RunLength(src, s + i, set')
        invariant os == Shortest(src, pat, ep + 1, s, i, n, caps)
        decreases n - i
      {
        r := Match(s + i, ep + 1);
        if r != NoMatch {
          return;
        }
        var m := false;
        if s + i < |src| {
          m := SingleMatch(src[s + i], p, ep);
        }
        RunStarts(src, s + i, set');
        if !m {
          return;
        }
        i := i + 1;
      }
    }

    /** `start_capture`. */
    method StartCapture(s: nat, p: nat, what: Len) returns (r: Result)
      requires Valid() && p <= |pat| && Fits(src, Caps(), s) && (what == Position || what == Unfinished)
      modifies this`level, capture
      ensures Valid()
      ensures IsFirst(if |old(Caps())| >= MAX_CAPTURES then
              [Fault(TooManyCaptures)] else Started(src, pat, p, s, old(Caps()), what), r, old(Caps()), Caps())
      decreases |pat| - p, 5
    {
      if level >= MAX_CAPTURES {
        return Raised(TooManyCaptures);
      }
      ghost var caps := Caps();
      capture[level] := Cap(s, what);
      level := level + 1;
      assert Caps() == caps + [Cap(s, what)];
      r := Match(s, p);
      if r == NoMatch {
        level := level - 1;
        assert Caps() == (caps + [Cap(s, what)])[..|caps|] == caps;
      }
    }

    /** `end_capture`. */
    method EndCapture(s: nat, p: nat) returns (r: Result)
      requires Valid() && p <= |pat| && Fits(src, Caps(), s)
      modifies this`level, capture
      ensures Valid() && IsFirst(Ended(src, pat, p, s, old(Caps())), r, old(Caps()), Caps())
      decreases |pat| - p, 5
    {
      hide Outcomes;
      var l := CaptureToClose();
      if l < 0 {
        return Raised(BadClose);
      }
      ghost var caps := Caps();
      assert caps[l] in caps;
      capture[l] := capture[l].(len := Closed(s - capture[l].init));
      assert Caps() == Close(caps, l, s);
      r := Match(s, p);
      if r == NoMatch {
        capture[l] := capture[l].(len := Unfinished);
        assert Caps() == caps;
      }
    }

    /** `push_captures`: a capture that was never closed is an error. */
    method PushCaptures() returns (ok: bool)
      requires Valid()
      ensures ok <==> AllClosed(Caps())
    {
      var i := 0;
      while i < level
        invariant 0 <= i <= level && AllClosed(capture[..i])
      {
        if capture[i].len == Unfinished {
          assert capture[i] in Caps();
          return false;
        }
        assert capture[..i + 1] == capture[..i] + [capture[i]];
        i := i + 1;
      }
      return true;
    }

    /** The loop of `str_find_aux`: the leftmost start with an outcome, and what comes of the first outcome there. */
    method Find(init: nat) returns (start: nat, r: Result)
      requires Valid() && init <= |src|
      modifies this`level, capture
      ensures Valid() && init <= start <= |src| && (forall i :: init <= i < start ==> OutcomesAt(i) == [])
      ensures r == if OutcomesAt(start) == [] then NoMatch else Delivered(OutcomesAt(start)[0])
      ensures r.Matched? ==> Caps() == OutcomesAt(start)[0].caps
      ensures r == NoMatch ==> start == if Anchored(pat) then init else |src|
    {
      hide Outcomes;
      var p := if Anchored(pat) then 1 else 0;
      start := init;
      while true
        invariant Valid() && init <= start <= |src|
        invariant forall i :: init <= i < start ==> OutcomesAt(i) == []
        invariant Anchored(pat) ==> start == init
        decreases |src| - start
      {
        level := 0;
        r := Match(start, p);
        if r.Matched? {
          var ok := PushCaptures();
          if !ok {
            r := Raised(OpenCapture);
          }
          return;
        }
        if r != NoMatch || start == |src| || Anchored(pat) {
          return;
        }
        start := start + 1;
      }
    }

    /** The outcomes of matching the whole pattern from position `i`. */
    ghost function OutcomesAt(i: nat): seq<Outcome>
      requires i <= |src|
    {
      WholeOutcomes(src, pat, i)
    }

    /**
     The loop of `str_gsub`. The pieces are the subject cut in order into text that is kept and matches
     to be replaced, `n` of them, up to `stop` and then to the end. `LuaCut` says what `Stops` amounts to.
     */
    method Substitute(max: int) returns (pieces: seq<Piece>, n: nat, error: Result, ghost stop: nat)
      requires Valid()
      modifies this`level, capture
      ensures Valid() && n == |Taken(pieces)| && Stops(src, pat, max, Taken(pieces), stop, error)
      ensures Tiles(pieces, 0, if error == NoMatch then |src| else stop)
    {
      hide Outcomes, Tiles, Taken, Chosen, Settled;
      NothingCut(src, pat);
      var p := if Anchored(pat) then 1 else 0;
      var pos := 0;
      pieces, n := [], 0;
      while n < max
        invariant Valid() && n == |Taken(pieces)| && Cutting(src, pat, pieces, pos) && (n <= max || n == 0)
        invariant pos <= |src| && (Anchored(pat) ==> pos == 0 && pieces == [])
        decreases |src| - pos
      {
        level := 0;
        var e := Match(pos, p);
        if e.Raised? {
          return pieces, n, e, pos;
        }
        if e.Matched? {
          var x := Swapped(pos, e.end, Caps());
          FirstIsMatch(src, pat, x);
          MatchCut(src, pat, pieces, x);
          n, pieces := n + 1, pieces + [x];
        } else {
          NoMatchHere(src, pat, pieces, pos);
        }
        if e.Matched? && e.end > pos {
          pos := e.end;
        } else if pos < |src| {
          KeptCut(src, pat, pieces, pos);
          pieces, pos := pieces + [Kept(pos, pos + 1)], pos + 1;
        } else {
          EndReached(src, pat, max, pieces);
          break;
        }
        if Anchored(pat) {
          AnchorTried(src, pat, max, pieces, pos);
          break;
        }
      }
      if Cutting(src, pat, pieces, pos) && n >= max {
        LimitReached(src, pat, max, pieces, pos);
      }
      RestKept(src, pieces, pos);
      pieces, error, stop := pieces + [Kept(pos, |src|)], NoMatch, pos;
    }
  }

  // ---------------------------------------------------------------- the cases of the list of outcomes

  function Unfolded(src: seq<Byte>, pat: seq<Byte>, p: nat, s: nat, caps: seq<Cap>): seq<Outcome>
    requires p <= |pat| && Fits(src, caps, s)
  {
    match ItemAt(pat, p)
    case End => [Found(s, caps)]
    case Anchor => if s == |src| then [Found(s, caps)] else []
    case Bad(e) => [Fault(e)]
    case OpenCap(position, next) =>
      if |caps| >= MAX_CAPTURES then [Fault(TooManyCaptures)]
        else Started(src, pat, next, s, caps, if position then Position else Unfinished)
    case CloseCap(next) => Ended(src, pat, next, s, caps)
    case Balance(b, e, next) => var t := Balanced(src, s, b, e); if t.None? then []
      else Outcomes(src, pat, next, t.at, caps)
    case Frontier(set', next) => if AtFrontier(src, s, set') then Outcomes(src, pat, next, s, caps) else []
    case BackRef(d, next) =>
      var t := BackTo(src, s, caps, d);
      if t.Raised? then [Fault(t.error)] else if t.NoMatch? then [] else Outcomes(src, pat, next, t.end, caps)
    case One(set', rep, next) => Choices(src, pat, next, s, Least(rep), Most(rep, RunLength(src, s, set')), rep, caps)
  }

  lemma Unfold(src: seq<Byte>, pat: seq<Byte>, p: nat, s: nat, caps: seq<Cap>)
    requires p <= |pat| && Fits(src, caps, s)
    ensures Outcomes(src, pat, p, s, caps) == Unfolded(src, pat, p, s, caps)
  {
    hide ItemAt, Choices;
  }

  lemma RunStarts(src: seq<Byte>, s: nat, set': Set)
    ensures RunLength(src, s, set') == if Fit(src, s, set') then 1 + RunLength(src, s + 1, set') else 0
  {
  }

  lemma OnceIs(src: seq<Byte>, pat: seq<Byte>, next: nat, s: nat, caps: seq<Cap>)
    requires next <= |pat| && Fits(src, caps, s) && s < |src|
    ensures Longest(src, pat, next, s, 1, 1, caps) == Outcomes(src, pat, next, s + 1, caps)
  {
  }

  lemma OptionalIs(src: seq<Byte>, pat: seq<Byte>, next: nat, s: nat, caps: seq<Cap>)
    requires next <= |pat| && Fits(src, caps, s)
    ensures Longest(src, pat, next, s, 0, 0, caps) == Outcomes(src, pat, next, s, caps)
    ensures s < |src| ==>
              Longest(src, pat, next, s, 1, 0, caps) ==
              Outcomes(src, pat, next, s + 1, caps) + Outcomes(src, pat, next, s, caps)
  {
    hide Outcomes;
  }

  /** One repetition and then any number of them. */
  lemma {:induction false} LongestShift(src: seq<Byte>, pat: seq<Byte>, next: nat, s: nat, n: nat, caps: seq<Cap>)
    requires next <= |pat| && Fits(src, caps, s) && s + 1 + n <= |src|
    ensures Longest(src, pat, next, s + 1, n, 0, caps) == Longest(src, pat, next, s, n + 1, 1, caps)
  {
    hide Outcomes;
    if n > 0 { LongestShift(src, pat, next, s, n - 1, caps); }
  }

  /** What a back reference does. */
  function BackTo(src: seq<Byte>, s: nat, caps: seq<Cap>, d: Byte): Result {
    var l := d - '1' as int;
    if l < 0 || l >= |caps| || caps[l].len == Unfinished then Raised(BadIndex)
    else if Repeats(src, s, caps[l]) then Matched(s + caps[l].len.n)
    else NoMatch
  }

  function Started(src: seq<Byte>, pat: seq<Byte>, p: nat, s: nat, caps: seq<Cap>, what: Len): seq<Outcome>
    requires p <= |pat| && Fits(src, caps, s) && !what.Closed?
  {
    Outcomes(src, pat, p, s, caps + [Cap(s, what)])
  }

  function Ended(src: seq<Byte>, pat: seq<Byte>, p: nat, s: nat, caps: seq<Cap>): seq<Outcome>
    requires p <= |pat| && Fits(src, caps, s)
  {
    var l := LastOpen(caps);
    if l < 0 then [Fault(BadClose)] else Outcomes(src, pat, p, s, Close(caps, l, s))
  }

  lemma FirstItem(x: SetItem, rest: seq<SetItem>, c: Byte)
    ensures Among([x] + rest, c) <==> ItemHas(x, c) || Among(rest, c)
    ensures Among([x], c) <==> ItemHas(x, c)
  {
    var all := [x] + rest;
    assert all[0] == x && [x][0] == x && forall y <- rest :: y in all;
  }

  lemma NothingAmong(c: Byte)
    ensures !Among([], c)
  {
  }
}
