/**
 Lua's patterns (section 5.4.1 of the Lua 5.1 Reference Manual) as `lstrlib.c` reads them: the items
 of a pattern, the characters an item stands for, and the list of all outcomes of matching, in the
 order in which backtracking tries them.

 A pattern and a subject are byte strings with a zero byte behind them. The classes are those of the
 "C" locale.
 */
module LuaPattern {
  type Byte = b: int | 0 <= b < 256

  const ESC: Byte := '%' as int
  const MAX_CAPTURES := 32

  datatype Error = EndsWithEscape | MissingBracket | Unbalanced | MissingSet | BadIndex | BadClose | TooManyCaptures
    | OpenCapture

  /** The byte at an index; a zero byte follows the last one. */
  function At(s: seq<Byte>, i: nat): Byte { if i < |s| then s[i] else 0 }

  // ---------------------------------------------------------------- sets of characters

  predicate IsLower(c: Byte) { 'a' as int <= c <= 'z' as int }

  predicate IsUpper(c: Byte) { 'A' as int <= c <= 'Z' as int }

  predicate IsDigit(c: Byte) { '0' as int <= c <= '9' as int }

  predicate IsAlpha(c: Byte) { IsLower(c) || IsUpper(c) }

  predicate IsAlnum(c: Byte) { IsAlpha(c) || IsDigit(c) }

  predicate IsHex(c: Byte) { IsDigit(c) || 'a' as int <= c <= 'f' as int || 'A' as int <= c <= 'F' as int }

  predicate IsPunct(c: Byte) { 33 <= c <= 126 && !IsAlnum(c) }

  predicate IsSpace(c: Byte) { c == 32 || 9 <= c <= 13 }

  predicate IsControl(c: Byte) { c < 32 || c == 127 }

  function ToLower(c: Byte): Byte { if IsUpper(c) then c + 32 else c }

  predicate InClass(c: Byte, l: Byte) {
    match l as char
    case 'a' => IsAlpha(c)
    case 'c' => IsControl(c)
    case 'd' => IsDigit(c)
    case 'l' => IsLower(c)
    case 'p' => IsPunct(c)
    case 's' => IsSpace(c)
    case 'u' => IsUpper(c)
    case 'w' => IsAlnum(c)
    case 'x' => IsHex(c)
    case _ => l == 'z' as int && c == 0
  }

  /** `match_class`: an upper-case letter stands for the complement, anything but a class letter for itself. */
  predicate MatchClass(c: Byte, cl: Byte) {
    if ToLower(cl) as char !in "acdlpsuwxz" then c == cl else InClass(c, ToLower(cl)) == IsLower(cl)
  }

  datatype SetItem = Class(cl: Byte) | Range(lo: Byte, hi: Byte)

  datatype Set = Any | Bracket(positive: bool, items: seq<SetItem>)

  predicate ItemHas(x: SetItem, c: Byte) {
    match x case Class(cl) => MatchClass(c, cl) case Range(lo, hi) => lo <= c <= hi
  }

  predicate Among(items: seq<SetItem>, c: Byte) { exists x <- items :: ItemHas(x, c) }

  /** A character is in a bracketed set if one of its items has it, or none if the set is a complement. */
  predicate Has(set': Set, c: Byte) {
    match set' case Any => true case Bracket(positive, items) => Among(items, c) == positive
  }

  /** The items of a bracketed set between `i` and the closing bracket at `e`. */
  function SetItems(pat: seq<Byte>, i: nat, e: nat): seq<SetItem>
    decreases e - i
  {
    if i >= e then []
    else if At(pat, i) == ESC then [Class(At(pat, i + 1))] + SetItems(pat, i + 2, e)
    else if At(pat, i + 1) == '-' as int && i + 2 < e then [Range(At(pat, i), At(pat, i + 2))] + SetItems(pat, i + 3, e)
    else [Range(At(pat, i), At(pat, i))] + SetItems(pat, i + 1, e)
  }

  /** The set between the bracket at `p` and the one at `e`. */
  function BracketSet(pat: seq<Byte>, p: nat, e: nat): Set {
    if At(pat, p + 1) == '^' as int then Bracket(false, SetItems(pat, p + 2, e))
      else Bracket(true, SetItems(pat, p + 1, e))
  }

  /** What the single character item from `p` to `e` stands for. */
  function SetAt(pat: seq<Byte>, p: nat, e: nat): Set {
    if At(pat, p) == '.' as int then Any
    else if At(pat, p) == ESC then Bracket(true, [Class(At(pat, p + 1))])
    else if At(pat, p) == '[' as int && e > 0 then BracketSet(pat, p, e - 1)
    else Bracket(true, [Range(At(pat, p), At(pat, p))])
  }

  // ---------------------------------------------------------------- the items of a pattern

  datatype Ends = Ends(at: nat) | Broken(error: Error)

  /** Behind the bracket that closes a set: the first one that is neither escaped nor the first character of the set. */
  function BracketEnd(pat: seq<Byte>, i: nat): (r: Ends)
    requires i <= |pat|
    ensures r.Ends? ==> i + 1 < r.at <= |pat| && pat[r.at - 1] == ']' as int
    decreases |pat| - i
  {
    if At(pat, i) == 0 then Broken(MissingBracket) else
    var j := if At(pat, i) == ESC && At(pat, i + 1) != 0 then i + 2 else i + 1;
    if At(pat, j) == ']' as int then Ends(j + 1) else BracketEnd(pat, j)
  }

  /** `classend`. */
  function SetEnd(pat: seq<Byte>, p: nat): (r: Ends)
    requires p < |pat|
    ensures r.Ends? ==> p < r.at <= |pat|
  {
    if pat[p] == ESC then if At(pat, p + 1) == 0 then Broken(EndsWithEscape) else Ends(p + 2)
    else if pat[p] == '[' as int then BracketEnd(pat, if At(pat, p + 1) == '^' as int then p + 2 else p + 1)
    else Ends(p + 1)
  }

  datatype Len = Unfinished | Position | Closed(n: nat)

  datatype Cap = Cap(init: nat, len: Len)

  datatype Rep = Once | Optional | Star | Plus | Minus

  datatype Item =
    | End
    | Anchor
    | Bad(error: Error)
    | OpenCap(position: bool, next: nat)
    | CloseCap(next: nat)
    | Balance(open: Byte, close: Byte, next: nat)
    | Frontier(set': Set, next: nat)
    | BackRef(digit: Byte, next: nat)
    | One(set': Set, rep: Rep, next: nat)

  function RepAt(pat: seq<Byte>, e: nat): Rep {
    match At(pat, e) as char
    case '?' => Optional
    case '*' => Star
    case '+' => Plus
    case '-' => Minus
    case _ => Once
  }

  function SingleAt(pat: seq<Byte>, p: nat): (r: Item)
    requires p < |pat|
    ensures r.Bad? || (r.One? && p < r.next <= |pat|)
  {
    match SetEnd(pat, p)
    case Broken(e) => Bad(e)
    case Ends(e) => var rep := RepAt(pat, e); One(SetAt(pat, p, e), rep, if rep == Once then e else e + 1)
  }

  function EscapedAt(pat: seq<Byte>, p: nat): (r: Item)
    requires p < |pat|
    ensures r.Bad? || ((r.Balance? || r.Frontier? || r.BackRef? || r.One?) && p < r.next <= |pat|)
  {
    if At(pat, p + 1) == 'b' as int then
      if At(pat, p + 2) == 0 || At(pat, p + 3) == 0 then Bad(Unbalanced)
        else Balance(At(pat, p + 2), At(pat, p + 3), p + 4)
    else if At(pat, p + 1) == 'f' as int then
      if At(pat, p + 2) != '[' as int then Bad(MissingSet) else
      match SetEnd(pat, p + 2)
      case Broken(e) => Bad(e)
      case Ends(e) => Frontier(SetAt(pat, p + 2, e), e)
    else if IsDigit(At(pat, p + 1)) then BackRef(At(pat, p + 1), p + 2)
    else SingleAt(pat, p)
  }

  /** The item of the pattern at `p`, and where the next one begins. */
  function ItemAt(pat: seq<Byte>, p: nat): (r: Item)
    requires p <= |pat|
    ensures r.Bad? || r.End? || r.Anchor? || p < r.next <= |pat|
  {
    if At(pat, p) == 0 then End
    else if pat[p] == '(' as int then if At(pat, p + 1) == ')' as int then OpenCap(true, p + 2)
      else OpenCap(false, p + 1)
    else if pat[p] == ')' as int then CloseCap(p + 1)
    else if pat[p] == ESC then EscapedAt(pat, p)
    else if pat[p] == '$' as int && At(pat, p + 1) == 0 then Anchor
    else SingleAt(pat, p)
  }

  // ---------------------------------------------------------------- outcomes

  datatype Outcome = Found(end: nat, caps: seq<Cap>) | Fault(error: Error)

  /** What the matcher returns: where the match ends, nothing, or an error. */
  datatype Result = Matched(end: nat) | NoMatch | Raised(error: Error)

  /** Captures begin at or before `s`, and finished ones lie within the subject. */
  predicate Fits(src: seq<Byte>, caps: seq<Cap>, s: nat) {
    s <= |src| && forall c <- caps :: c.init <= s && (c.len.Closed? ==> c.init + c.len.n <= |src|)
  }

  /** The last unfinished capture, or -1. */
  function LastOpen(caps: seq<Cap>): (l: int)
    ensures -1 <= l < |caps| && (l >= 0 ==> caps[l].len == Unfinished) && forall i :: l < i < |caps| ==>
            caps[i].len != Unfinished
  {
    if caps == [] then -1
    else if caps[|caps| - 1].len == Unfinished then |caps| - 1
    else LastOpen(caps[..|caps| - 1])
  }

  function Close(caps: seq<Cap>, l: nat, s: nat): (r: seq<Cap>)
    requires l < |caps| && caps[l].init <= s
    ensures |r| == |caps| && r[l] == Cap(caps[l].init, Closed(s - caps[l].init)) && forall i ::
              0 <= i < |caps| && i != l ==> r[i] == caps[i]
  {
    caps[l := caps[l].(len := Closed(s - caps[l].init))]
  }

  datatype Option = None | Some(at: nat)

  /**
   Behind the first character at which as many `close` as `open` have been seen, `depth` being still due before `i`.
   */
  function BalanceEnd(src: seq<Byte>, i: nat, open: Byte, close: Byte, depth: nat): (r: Option)
    requires depth > 0
    ensures r.Some? ==> i < r.at <= |src|
    decreases |src| - i
  {
    if i >= |src| then None
    else if src[i] == close then if depth == 1 then Some(i + 1) else BalanceEnd(src, i + 1, open, close, depth - 1)
    else BalanceEnd(src, i + 1, open, close, if src[i] == open then depth + 1 else depth)
  }

  function Balanced(src: seq<Byte>, s: nat, open: Byte, close: Byte): (r: Option)
    ensures r.Some? ==> s < r.at <= |src|
  {
    if At(src, s) != open then None else BalanceEnd(src, s + 1, open, close, 1)
  }

  /** How many more `open` than `close` there are from `i` to `j`. */
  function Surplus(src: seq<Byte>, i: nat, j: nat, open: Byte, close: Byte): int
    requires i <= j <= |src|
    decreases j - i
  {
    if i == j then 0 else (if src[i] == close then -1 else if src[i] == open then 1 else 0) + Surplus(src, i + 1, j,
      open, close)
  }

  /** It is the first position at which nothing is due any more. */
  lemma {:induction false} BalanceEndIs(src: seq<Byte>, i: nat, open: Byte, close: Byte, depth: nat)
    requires depth > 0 && i <= |src|
    ensures var r := BalanceEnd(src, i, open, close, depth);
            && (r.Some? ==> depth + Surplus(src, i, r.at, open, close) == 0)
            && forall j :: i <= j < (if r.Some? then r.at else |src| + 1) ==>
               depth + Surplus(src, i, j, open, close) > 0
    decreases |src| - i
  {
    if i < |src| {
      var d := if src[i] == close then depth - 1 else if src[i] == open then depth + 1 else depth;
      if d > 0 { BalanceEndIs(src, i + 1, open, close, d); }
      forall j | i <= j < (if BalanceEnd(src, i, open, close, depth).Some? then
        BalanceEnd(src, i, open, close, depth).at else |src| + 1)
        ensures depth + Surplus(src, i, j, open, close) > 0
      {
        if j > i { assert Surplus(src, i, j, open, close) == d - depth + Surplus(src, i + 1, j, open, close); }
      }
    }
  }

  /** The previous character is not in the set and the next one is; there is a zero at both ends. */
  predicate AtFrontier(src: seq<Byte>, s: nat, set': Set) {
    !Has(set', if s == 0 then 0 else At(src, s - 1)) && Has(set', At(src, s))
  }

  /** The captured text is here again. The text of a position capture is nowhere. */
  predicate Repeats(src: seq<Byte>, s: nat, cap: Cap) {
    cap.len.Closed? && s + cap.len.n <= |src| && cap.init + cap.len.n <= |src|
    && src[s..s + cap.len.n] == src[cap.init..cap.init + cap.len.n]
  }

  predicate Fit(src: seq<Byte>, s: nat, set': Set) { s < |src| && Has(set', src[s]) }

  /** How many characters from `s` on are in the set. */
  function RunLength(src: seq<Byte>, s: nat, set': Set): (n: nat)
    ensures s <= |src| ==> s + n <= |src|
    ensures (forall k :: s <= k < s + n ==> Fit(src, k, set')) && !Fit(src, s + n, set')
    decreases |src| - s
  {
    if Fit(src, s, set') then 1 + RunLength(src, s + 1, set') else 0
  }

  /** The fewest repetitions of an item. */
  function Least(rep: Rep): nat { if rep == Once || rep == Plus then 1 else 0 }

  /** The most repetitions, when `n` characters are there. */
  function Most(rep: Rep, n: nat): nat { if (rep == Once || rep == Optional) && n > 1 then 1 else n }

  /** Captures are only added, and those that are finished stay as they are. */
  predicate Extends(caps: seq<Cap>, caps': seq<Cap>) {
    && |caps| <= |caps'| && (|caps| <= MAX_CAPTURES ==> |caps'| <= MAX_CAPTURES)
    && forall i :: 0 <= i < |caps| ==>
       caps'[i].init == caps[i].init && (caps[i].len != Unfinished ==> caps'[i] == caps[i])
  }

  /** What one item leads to: nothing more, the next item, or a choice between numbers of repetitions. */
  datatype Move = Stop(os: seq<Outcome>) | Go(next: nat, s: nat, caps: seq<Cap>)
    | Choose(set': Set, rep: Rep, next: nat)

  predicate Continues(x: Item) { !x.End? && !x.Anchor? && !x.Bad? }

  function Advance(src: seq<Byte>, pat: seq<Byte>, p: nat, s: nat, caps: seq<Cap>): (r: Move)
    requires p <= |pat| && Fits(src, caps, s)
    ensures r.Stop? ==> |r.os| <= 1 && forall o <- r.os :: o.Found? ==> o == Found(s, caps)
    ensures r.Go? ==>
              Continues(ItemAt(pat, p)) && p < r.next == ItemAt(pat, p).next <= |pat| && Fits(src, r.caps, r.s)
              && s <= r.s && Extends(caps, r.caps)
    ensures r.Choose? <==> ItemAt(pat, p).One?
    ensures r.Choose? ==> p < r.next == ItemAt(pat, p).next <= |pat| && r.rep == ItemAt(pat, p).rep
  {
    match ItemAt(pat, p)
    case End => Stop([Found(s, caps)])
    case Anchor => Stop(if s == |src| then [Found(s, caps)] else [])
    case Bad(e) => Stop([Fault(e)])
    case OpenCap(position, next) =>
      if |caps| >= MAX_CAPTURES then Stop([Fault(TooManyCaptures)])
      else Go(next, s, caps + [Cap(s, if position then Position else Unfinished)])
    case CloseCap(next) =>
      var l := LastOpen(caps);
      if l < 0 then Stop([Fault(BadClose)]) else Go(next, s, Close(caps, l, s))
    case Balance(b, e, next) =>
      var t := Balanced(src, s, b, e);
      if t.None? then Stop([]) else Go(next, t.at, caps)
    case Frontier(set', next) => if AtFrontier(src, s, set') then Go(next, s, caps) else Stop([])
    case BackRef(d, next) =>
      var l := d - '1' as int;
      if l < 0 || l >= |caps| || caps[l].len == Unfinished then Stop([Fault(BadIndex)])
      else if Repeats(src, s, caps[l]) then Go(next, s + caps[l].len.n, caps)
      else Stop([])
    case One(set', rep, next) => Choose(set', rep, next)
  }

  /**
   All outcomes of matching the pattern from `p` with the subject from `s`, the most preferred first. A
   fault ends the search, so what follows it does not matter.
   */
  function Outcomes(src: seq<Byte>, pat: seq<Byte>, p: nat, s: nat, caps: seq<Cap>): seq<Outcome>
    requires p <= |pat| && Fits(src, caps, s)
    decreases |pat| - p, 1, 0
  {
    match Advance(src, pat, p, s, caps)
    case Stop(os) => os
    case Go(next, s', caps') => Outcomes(src, pat, next, s', caps')
    case Choose(set', rep, next) => Choices(src, pat, next, s, Least(rep), Most(rep, RunLength(src, s, set')), rep,
      caps)
  }

  function Choices(src: seq<Byte>, pat: seq<Byte>, next: nat, s: nat, lo: nat, hi: nat, rep: Rep,
                   caps: seq<Cap>): seq<Outcome>
    requires next <= |pat| && Fits(src, caps, s) && s + hi <= |src|
    decreases |pat| - next, 3, 0
  {
    if hi < lo then []
    else if rep == Minus then Shortest(src, pat, next, s, lo, hi, caps)
    else Longest(src, pat, next, s, hi, lo, caps)
  }

  /** The outcomes with `hi` down to `lo` repetitions. */
  function Longest(src: seq<Byte>, pat: seq<Byte>, next: nat, s: nat, hi: nat, lo: nat, caps: seq<Cap>): seq<Outcome>
    requires next <= |pat| && Fits(src, caps, s) && lo <= hi && s + hi <= |src|
    decreases |pat| - next, 2, hi
  {
    Outcomes(src, pat, next, s + hi, caps) + if hi == lo then [] else Longest(src, pat, next, s, hi - 1, lo, caps)
  }

  /** The outcomes with `lo` up to `hi` repetitions. */
  function Shortest(src: seq<Byte>, pat: seq<Byte>, next: nat, s: nat, lo: nat, hi: nat, caps: seq<Cap>): seq<Outcome>
    requires next <= |pat| && Fits(src, caps, s) && lo <= hi && s + hi <= |src|
    decreases |pat| - next, 2, hi - lo
  {
    Outcomes(src, pat, next, s + lo, caps) + if lo == hi then [] else Shortest(src, pat, next, s, lo + 1, hi, caps)
  }

  // ---------------------------------------------------------------- what the outcomes are

  predicate Sound(src: seq<Byte>, s: nat, caps: seq<Cap>, o: Outcome) {
    o.Found? ==> s <= o.end && Fits(src, o.caps, o.end) && Extends(caps, o.caps)
  }

  lemma SoundLater(src: seq<Byte>, s: nat, caps: seq<Cap>, s': nat, caps': seq<Cap>, os: seq<Outcome>)
    requires s <= s' && Extends(caps, caps') && forall o <- os :: Sound(src, s', caps', o)
    ensures forall o <- os :: Sound(src, s, caps, o)
  {
  }

  /** A match ends within the subject, and so do its captures. */
  lemma {:induction false} OutcomesSound(src: seq<Byte>, pat: seq<Byte>, p: nat, s: nat, caps: seq<Cap>)
    requires p <= |pat| && Fits(src, caps, s)
    ensures forall o <- Outcomes(src, pat, p, s, caps) :: Sound(src, s, caps, o)
    decreases |pat| - p, 1, 0
  {
    hide Advance, ItemAt, RunLength;
    match Advance(src, pat, p, s, caps)
    case Stop(_) =>
    case Go(next, s', caps') =>
      OutcomesSound(src, pat, next, s', caps');
      SoundLater(src, s, caps, s', caps', Outcomes(src, pat, next, s', caps'));
    case Choose(set', rep, next) =>
      var n := RunLength(src, s, set');
      if Least(rep) <= Most(rep, n) { RepeatsSound(src, pat, next, s, Most(rep, n), Least(rep), caps); }
  }

  lemma {:induction false} RepeatsSound(src: seq<Byte>, pat: seq<Byte>, next: nat, s: nat, hi: nat, lo: nat,
                                        caps: seq<Cap>)
    requires next <= |pat| && Fits(src, caps, s) && lo <= hi && s + hi <= |src|
    ensures forall o <- Longest(src, pat, next, s, hi, lo, caps) :: Sound(src, s, caps, o)
    ensures forall o <- Shortest(src, pat, next, s, lo, hi, caps) :: Sound(src, s, caps, o)
    decreases |pat| - next, 2, hi - lo
  {
    hide Outcomes;
    OutcomesSound(src, pat, next, s + hi, caps);
    OutcomesSound(src, pat, next, s + lo, caps);
    if lo < hi {
      RepeatsSound(src, pat, next, s, hi - 1, lo, caps);
      RepeatsSound(src, pat, next, s, hi, lo + 1, caps);
    }
  }
}
