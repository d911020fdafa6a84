/**
 What the text of a pattern means (section 5.4.1 of the Lua 5.1 Reference Manual): patterns as the manual
 builds them up, their text, and the outcomes they are to have, stated by the subject and by the bytes of
 each character class. `OutcomesMean` says that `LuaPattern`, and with it the matcher, gives them these.
 */
module LuaPatternText {
  import opened LuaCut
  import opened LuaPattern

  // ---------------------------------------------------------------- characters

  predicate Alphanumeric(c: Byte) { 48 <= c <= 57 || 65 <= c <= 90 || 97 <= c <= 122 }

  /** The magic characters are ^ $ ( ) % . [ ] * + - ?. */
  const MAGIC: set<Byte> := {94, 36, 40, 41, 37, 46, 91, 93, 42, 43, 45, 63}

  /** The bytes of a class letter. */
  predicate ClassHas(l: char, c: Byte) {
    match l
    case 'a' => 65 <= c <= 90 || 97 <= c <= 122
    case 'c' => c <= 31 || c == 127
    case 'd' => 48 <= c <= 57
    case 'l' => 97 <= c <= 122
    case 'p' => 33 <= c <= 47 || 58 <= c <= 64 || 91 <= c <= 96 || 123 <= c <= 126
    case 's' => 9 <= c <= 13 || c == 32
    case 'u' => 65 <= c <= 90
    case 'w' => 48 <= c <= 57 || 65 <= c <= 90 || 97 <= c <= 122
    case 'x' => 48 <= c <= 57 || 65 <= c <= 70 || 97 <= c <= 102
    case 'z' => c == 0
    case _ => false
  }

  /** A character itself, plain or behind a %; a range; or a class, its complement with the letter in upper case. */
  datatype Member = Sole(c: Byte, escaped: bool) | Span(lo: Byte, hi: Byte) | Kind(letter: char, others: bool)

  datatype Chars = Every | Just(m: Member) | OneOf(others: bool, members: seq<Member>)

  predicate ProperMember(m: Member) {
    match m
    case Sole(c, escaped) => c != 0 && if escaped then !Alphanumeric(c) else c !in MAGIC
    case Span(lo, hi) => Alphanumeric(lo) && Alphanumeric(hi)
    case Kind(l, _) => l in "acdlpsuwxz"
  }

  predicate ProperMembers(ms: seq<Member>) { ms != [] && forall m <- ms :: ProperMember(m) }

  predicate ProperChars(x: Chars) {
    match x
    case Every => true
    case Just(m) => ProperMember(m) && !m.Span?
    case OneOf(_, ms) => ProperMembers(ms)
  }

  predicate MemberHas(m: Member, c: Byte) {
    match m
    case Sole(d, _) => c == d
    case Span(lo, hi) => lo <= c <= hi
    case Kind(l, others) => ClassHas(l, c) != others
  }

  predicate CharsHave(x: Chars, c: Byte) {
    match x
    case Every => true
    case Just(m) => MemberHas(m, c)
    case OneOf(others, ms) => (exists m <- ms :: MemberHas(m, c)) != others
  }

  function MemberText(m: Member): seq<Byte> {
    match m
    case Sole(c, escaped) => if escaped then [37, c] else [c]
    case Span(lo, hi) => [lo, 45, hi]
    case Kind(l, others) => if l in "acdlpsuwxz" then [37, if others then l as int - 32 else l as int] else []
  }

  function MembersText(ms: seq<Member>): seq<Byte> {
    if ms == [] then [] else MemberText(ms[0]) + MembersText(ms[1..])
  }

  function SetText(others: bool, ms: seq<Member>): seq<Byte> {
    [91] + (if others then [94] else []) + MembersText(ms) + [93]
  }

  function CharsText(x: Chars): seq<Byte> {
    match x
    case Every => [46]
    case Just(m) => MemberText(m)
    case OneOf(others, ms) => SetText(others, ms)
  }

  function RepText(rep: Rep): seq<Byte> {
    match rep case Once => [] case Optional => [63] case Star => [42] case Plus => [43] case Minus => [45]
  }

  // ---------------------------------------------------------------- patterns

  datatype Unit =
    | Some(x: Chars, rep: Rep)
    | Place
    | Begin
    | Finish
    | Between(open: Byte, close: Byte)
    | Border(others: bool, members: seq<Member>)
    | Again(n: nat)

  predicate ProperUnit(u: Unit) {
    match u
    case Some(x, _) => ProperChars(x)
    case Between(a, b) => a != 0 && b != 0
    case Border(_, ms) => ProperMembers(ms)
    case Again(n) => n < 10
    case _ => true
  }

  /** The units can be written one after the other: an opening and a closing bracket together are a place. */
  predicate Proper(us: seq<Unit>) {
    us == [] || (ProperUnit(us[0]) && (us[0].Begin? && |us| > 1 ==> !us[1].Finish?) && Proper(us[1..]))
  }

  function UnitText(u: Unit): seq<Byte> {
    match u
    case Some(x, rep) => CharsText(x) + RepText(rep)
    case Place => [40, 41]
    case Begin => [40]
    case Finish => [41]
    case Between(a, b) => [37, 98, a, b]
    case Border(others, ms) => [37, 102] + SetText(others, ms)
    case Again(n) => if n < 10 then [37, 48 + n] else []
  }

  /** The units, and a $ if the match has to end with the subject. */
  function Text(us: seq<Unit>, end: bool): seq<Byte> {
    if us == [] then if end then [36] else [] else UnitText(us[0]) + Text(us[1..], end)
  }

  // ---------------------------------------------------------------- what they are to match

  /** How many characters from `s` on are among those of `x`. */
  function RunOf(src: seq<Byte>, s: nat, x: Chars): (n: nat)
    ensures s <= |src| ==> s + n <= |src|
    decreases |src| - s
  {
    if s < |src| && CharsHave(x, src[s]) then 1 + RunOf(src, s + 1, x) else 0
  }

  function Down(hi: nat, lo: nat): seq<nat> { if hi < lo then [] else [hi] + if hi == 0 then [] else Down(hi - 1, lo) }

  function Up(lo: nat, hi: nat): seq<nat>
    decreases hi - lo
  {
    if hi < lo then [] else [lo] + Up(lo + 1, hi)
  }

  /** The numbers of repetitions to try, in order, with `n` characters there. */
  function Counts(rep: Rep, n: nat): seq<nat> {
    match rep
    case Once => if n > 0 then [1] else []
    case Optional => if n > 0 then [1, 0] else [0]
    case Star => Down(n, 0)
    case Plus => Down(n, 1)
    case Minus => Up(0, n)
  }

  /** The text from `s` to `e` begins with `open` and is the first with as many `close`. */
  ghost predicate IsBalanced(src: seq<Byte>, s: nat, e: nat, open: Byte, close: Byte) {
    s < e <= |src| && src[s] == open && EvenFirst(src, s + 1, e, open, close)
  }

  ghost predicate EvenFirst(src: seq<Byte>, i: nat, e: nat, open: Byte, close: Byte)
    requires i <= e <= |src|
  {
    && 1 + Surplus(src, i, e, open, close) == 0
    && forall j :: i <= j < e ==> 1 + Surplus(src, i, j, open, close) > 0
  }

  ghost predicate HasBalanced(src: seq<Byte>, s: nat, open: Byte, close: Byte) {
    exists e :: IsBalanced(src, s, e, open, close)
  }

  ghost function BalancedEnd(src: seq<Byte>, s: nat, open: Byte, close: Byte): (e: nat)
    requires HasBalanced(src, s, open, close)
    ensures IsBalanced(src, s, e, open, close)
  {
    var e :| IsBalanced(src, s, e, open, close); e
  }

  /** `l` is the last capture that is not finished. */
  predicate IsLastOpen(caps: seq<Cap>, l: nat) {
    l < |caps| && caps[l].len == Unfinished && forall i :: l < i < |caps| ==> caps[i].len != Unfinished
  }

  predicate AnyOpen(caps: seq<Cap>) { exists c <- caps :: c.len == Unfinished }

  /** The captured text is at `s` again; a place has no text. */
  predicate SeenAgain(src: seq<Byte>, s: nat, c: Cap) {
    c.len.Closed? && s + c.len.n <= |src| && c.init + c.len.n <= |src|
    && src[s..s + c.len.n] == src[c.init..c.init + c.len.n]
  }

  /** The outcomes of the units from `s` on, in the order in which they are preferred. */
  ghost function Results(src: seq<Byte>, us: seq<Unit>, end: bool, s: nat, caps: seq<Cap>): seq<Outcome>
    requires Fits(src, caps, s)
    decreases |us|, 0
  {
    if us == [] then if end && s < |src| then [] else [Found(s, caps)] else
    var rest := us[1..];
    match us[0]
    case Some(x, rep) => Tried(src, rest, end, s, Counts(rep, RunOf(src, s, x)), caps)
    case Place =>
      if |caps| >= 32 then [Fault(TooManyCaptures)] else Results(src, rest, end, s, caps + [Cap(s, Position)])
    case Begin =>
      if |caps| >= 32 then [Fault(TooManyCaptures)] else Results(src, rest, end, s, caps + [Cap(s, Unfinished)])
    case Finish =>
      if !AnyOpen(caps) then [Fault(BadClose)] else
      OpenThere(caps);
      var l: nat :| IsLastOpen(caps, l);
      var c := caps[l];
      assert c in caps;
      Results(src, rest, end, s, caps[l := Cap(c.init, Closed(s - c.init))])
    case Between(a, b) =>
      if HasBalanced(src, s, a, b) then Results(src, rest, end, BalancedEnd(src, s, a, b), caps) else []
    case Border(others, ms) =>
      var x, before, after := OneOf(others, ms), if s == 0 then 0 else src[s - 1], if s == |src| then 0 else src[s];
      if !CharsHave(x, before) && CharsHave(x, after) then Results(src, rest, end, s, caps) else []
    case Again(n) =>
      if n == 0 || n > |caps| || caps[n - 1].len == Unfinished then [Fault(BadIndex)] else
      var c := caps[n - 1];
      if SeenAgain(src, s, c) then Results(src, rest, end, s + c.len.n, caps) else []
  }

  ghost function Tried(src: seq<Byte>, us: seq<Unit>, end: bool, s: nat, ks: seq<nat>, caps: seq<Cap>): seq<Outcome>
    requires Fits(src, caps, s)
    decreases |us|, 1 + |ks|
  {
    if ks == [] then [] else
    (if s + ks[0] <= |src| then Results(src, us, end, s + ks[0], caps) else []) + Tried(src, us, end, s, ks[1..], caps)
  }

  lemma {:induction false} OpenThere(caps: seq<Cap>)
    requires AnyOpen(caps)
    ensures exists l: nat :: IsLastOpen(caps, l)
  {
    var l := LastOpen(caps);
    assert forall c <- caps :: c.len == Unfinished ==> l >= 0;
    assert IsLastOpen(caps, l);
  }

  // ---------------------------------------------------------------- reading the text

  /** The text of a pattern at `p`. */
  predicate Reads(pat: seq<Byte>, p: nat, t: seq<Byte>) { p + |t| <= |pat| && pat[p..p + |t|] == t }

  lemma ReadsAt(pat: seq<Byte>, p: nat, t: seq<Byte>, k: nat)
    requires Reads(pat, p, t) && k < |t|
    ensures At(pat, p + k) == pat[p + k] == t[k]
  {
    assert pat[p..p + |t|][k] == pat[p + k];
  }

  lemma ReadsPart(pat: seq<Byte>, p: nat, t: seq<Byte>, u: seq<Byte>)
    requires Reads(pat, p, t + u)
    ensures Reads(pat, p, t) && Reads(pat, p + |t|, u)
  {
    assert pat[p..p + |t|] == pat[p..p + |t| + |u|][..|t|] == (t + u)[..|t|] == t;
    assert pat[p + |t|..p + |t| + |u|] == pat[p..p + |t| + |u|][|t|..] == (t + u)[|t|..] == u;
  }

  /** A class letter stands for its bytes, in upper case for all others. */
  lemma ClassIs(l: char, others: bool, c: Byte)
    requires l in "acdlpsuwxz"
    ensures MatchClass(c, if others then l as int - 32 else l as int) <==> ClassHas(l, c) != others
  {
  }

  lemma EscapedIs(d: Byte, c: Byte)
    requires !Alphanumeric(d)
    ensures MatchClass(c, d) <==> c == d
  {
  }

  // ---------------------------------------------------------------- sets

  /** No member begins with a byte that means something else there. */
  lemma MemberStarts(m: Member)
    requires ProperMember(m)
    ensures 1 <= |MemberText(m)| <= 3 && MemberText(m)[0] !in {0, 45, 93, 94}
    ensures |MemberText(m)| == 2 <==> MemberText(m)[0] == 37
    ensures |MemberText(m)| == 2 ==> MemberText(m)[1] != 0
    ensures |MemberText(m)| == 3 <==> m.Span?
  {
  }

  /** Past one member, to the next or to the closing bracket. */
  lemma MemberPassed(pat: seq<Byte>, i: nat, m: Member)
    requires ProperMember(m) && Reads(pat, i, MemberText(m))
    ensures i < |pat| && BracketEnd(pat, i) ==
            var j := i + |MemberText(m)|; if At(pat, j) == 93 then Ends(j + 1) else BracketEnd(pat, j)
  {
    var t := MemberText(m);
    MemberStarts(m);
    ReadsAt(pat, i, t, 0);
    if |t| > 1 { ReadsAt(pat, i, t, 1); }
    if |t| > 2 {
      ReadsAt(pat, i, t, 2);
      assert BracketEnd(pat, i) == BracketEnd(pat, i + 1) == BracketEnd(pat, i + 2);
    }
  }

  lemma {:induction false} MembersEnd(pat: seq<Byte>, i: nat, ms: seq<Member>)
    requires ProperMembers(ms) && Reads(pat, i, MembersText(ms) + [93])
    ensures i <= |pat| && BracketEnd(pat, i) == Ends(i + |MembersText(ms)| + 1)
    decreases |ms|
  {
    hide BracketEnd, MemberText, ProperMember;
    var t, rest := MemberText(ms[0]), MembersText(ms[1..]) + [93];
    assert MembersText(ms) + [93] == t + rest;
    ReadsPart(pat, i, t, rest);
    assert ms[0] in ms;
    MemberPassed(pat, i, ms[0]);
    ReadsAt(pat, i + |t|, rest, 0);
    if |ms| > 1 {
      assert ms[1] in ms;
      MemberStarts(ms[1]);
      assert ms[1..][0] == ms[1] && forall m <- ms[1..] :: m in ms;
      MembersEnd(pat, i + |t|, ms[1..]);
    } else {
      assert MembersText(ms[1..]) == [];
    }
  }

  /** A member is one item of the set, with the bytes it stands for. */
  lemma MemberIs(pat: seq<Byte>, i: nat, m: Member, e: nat)
    requires ProperMember(m) && Reads(pat, i, MemberText(m)) && i + |MemberText(m)| <= e
    requires i + |MemberText(m)| < |pat| && pat[i + |MemberText(m)|] != 45
    ensures exists x :: SetItems(pat, i, e) == [x] + SetItems(pat, i + |MemberText(m)|, e) && SameBytes(x, m)
  {
    var t := MemberText(m);
    MemberStarts(m);
    ReadsAt(pat, i, t, 0);
    if |t| > 1 { ReadsAt(pat, i, t, 1); }
    if |t| > 2 { ReadsAt(pat, i, t, 2); }
    var x := if t[0] == 37 then Class(t[1]) else if |t| == 3 then Range(t[0], t[2]) else Range(t[0], t[0]);
    assert SetItems(pat, i, e) == [x] + SetItems(pat, i + |t|, e);
    forall c: Byte ensures ItemHas(x, c) <==> MemberHas(m, c) {
      if m.Kind? { ClassIs(m.letter, m.others, c); }
      if m.Sole? && m.escaped { EscapedIs(m.c, c); }
    }
  }

  ghost predicate SameBytes(x: SetItem, m: Member) { forall c: Byte :: ItemHas(x, c) <==> MemberHas(m, c) }

  lemma {:induction false} MembersAre(pat: seq<Byte>, i: nat, ms: seq<Member>, c: Byte)
    requires (forall m <- ms :: ProperMember(m)) && Reads(pat, i, MembersText(ms) + [93])
    ensures Among(SetItems(pat, i, i + |MembersText(ms)|), c) <==> exists m <- ms :: MemberHas(m, c)
    decreases |ms|
  {
    hide SetItems, MemberText, ProperMember, ItemHas, MemberHas;
    var e := i + |MembersText(ms)|;
    if ms == [] {
      NoItems(pat, i);
    } else {
      var t, rest := MemberText(ms[0]), MembersText(ms[1..]) + [93];
      assert MembersText(ms) + [93] == t + rest && ms[0] in ms;
      ReadsPart(pat, i, t, rest);
      ReadsAt(pat, i + |t|, rest, 0);
      if |ms| > 1 {
        assert ms[1] in ms && ms[1..][0] == ms[1];
        MemberStarts(ms[1]);
      } else {
        assert MembersText(ms[1..]) == [];
      }
      MemberIs(pat, i, ms[0], e);
      var x :| SetItems(pat, i, e) == [x] + SetItems(pat, i + |t|, e) && SameBytes(x, ms[0]);
      assert forall m <- ms[1..] :: m in ms;
      assert forall m <- ms :: m == ms[0] || m in ms[1..];
      MembersAre(pat, i + |t|, ms[1..], c);
      AmongOne(x, SetItems(pat, i + |t|, e), c);
    }
  }

  lemma NoItems(pat: seq<Byte>, i: nat)
    ensures SetItems(pat, i, i) == []
  {
  }

  lemma AmongOne(x: SetItem, items: seq<SetItem>, c: Byte)
    ensures Among([x] + items, c) <==> ItemHas(x, c) || Among(items, c)
  {
    hide ItemHas;
    if y :| y in items && ItemHas(y, c) { assert y in [x] + items; }
    assert x in [x] + items && forall y <- [x] + items :: y == x || y in items;
  }

  function SetHead(others: bool): seq<Byte> { if others then [91, 94] else [91] }

  lemma SetStarts(pat: seq<Byte>, p: nat, others: bool, ms: seq<Member>)
    requires ProperMembers(ms) && Reads(pat, p, SetText(others, ms))
    ensures Reads(pat, p + |SetHead(others)|, MembersText(ms) + [93])
    ensures |SetText(others, ms)| == |SetHead(others)| + |MembersText(ms)| + 1
    ensures pat[p] == 91 && (At(pat, p + 1) == 94 <==> others)
  {
    hide MemberText, ProperMember;
    var head, tail := SetHead(others), MembersText(ms) + [93];
    assert SetText(others, ms) == head + tail;
    ReadsPart(pat, p, head, tail);
    ReadsAt(pat, p, head, 0);
    assert ms[0] in ms;
    MemberStarts(ms[0]);
    assert tail[0] == MemberText(ms[0])[0];
    ReadsAt(pat, p + |head|, tail, 0);
    if others { ReadsAt(pat, p, head, 1); }
  }

  /** The text of a set ends where it should and has the characters it should. */
  lemma SetIs(pat: seq<Byte>, p: nat, others: bool, ms: seq<Member>)
    requires ProperMembers(ms) && Reads(pat, p, SetText(others, ms))
    ensures var e := p + |SetText(others, ms)|;
            && p < |pat| && SetEnd(pat, p) == Ends(e)
            && forall c: Byte :: Has(SetAt(pat, p, e), c) <==> CharsHave(OneOf(others, ms), c)
  {
    hide BracketEnd, SetItems, MemberText, MembersText, ProperMember, Reads, SetText;
    SetStarts(pat, p, others, ms);
    var i := p + |SetHead(others)|;
    MembersEnd(pat, i, ms);
    forall c: Byte ensures Has(SetAt(pat, p, i + |MembersText(ms)| + 1), c) <==> CharsHave(OneOf(others, ms), c) {
      MembersAre(pat, i, ms, c);
    }
  }

  /** The same of any single character. */
  lemma CharsAre(pat: seq<Byte>, p: nat, x: Chars)
    requires ProperChars(x) && Reads(pat, p, CharsText(x))
    ensures var e := p + |CharsText(x)|;
            && p < |pat| && SetEnd(pat, p) == Ends(e)
            && forall c: Byte :: Has(SetAt(pat, p, e), c) <==> CharsHave(x, c)
  {
    if x.OneOf? {
      SetIs(pat, p, x.others, x.members);
    } else {
      var t := CharsText(x);
      if x.Just? { MemberStarts(x.m); }
      ReadsAt(pat, p, t, 0);
      if |t| > 1 { ReadsAt(pat, p, t, 1); }
      var e := p + |t|;
      assert SetEnd(pat, p) == Ends(e);
      hide Has, SetAt, CharsHave, SetEnd, ProperMember, MemberText;
      forall c: Byte ensures Has(SetAt(pat, p, e), c) <==> CharsHave(x, c) { JustHas(pat, p, x, c); }
    }
  }

  lemma JustHas(pat: seq<Byte>, p: nat, x: Chars, c: Byte)
    requires ProperChars(x) && !x.OneOf? && Reads(pat, p, CharsText(x))
    ensures Has(SetAt(pat, p, p + |CharsText(x)|), c) <==> CharsHave(x, c)
  {
    var t := CharsText(x);
    if x.Just? { MemberStarts(x.m); }
    ReadsAt(pat, p, t, 0);
    if |t| > 1 { ReadsAt(pat, p, t, 1); }
    if x.Just? {
      if x.m.Kind? { ClassIs(x.m.letter, x.m.others, c); }
      if x.m.Sole? && x.m.escaped { EscapedIs(x.m.c, c); }
      var y := if t[0] == 37 then Class(t[1]) else Range(t[0], t[0]);
      assert SetAt(pat, p, p + |t|) == Bracket(true, [y]);
      AmongOne(y, [], c);
    }
  }

  // ---------------------------------------------------------------- units

  /** The first byte of a text is not read as a repetition of what is before it, and not as a closing bracket. */
  lemma UnitStarts(u: Unit)
    requires ProperUnit(u)
    ensures UnitText(u) != [] && UnitText(u)[0] !in {0, 63, 42, 43, 45, 94} && (UnitText(u)[0] == 41 <==> u.Finish?)
  {
    if u.Some? && u.x.Just? { MemberStarts(u.x.m); }
  }

  lemma TextStarts(pat: seq<Byte>, p: nat, us: seq<Unit>, end: bool)
    requires Proper(us) && p <= |pat| && pat[p..] == Text(us, end)
    ensures At(pat, p) !in {63, 42, 43, 45, 94} && (At(pat, p) == 41 ==> us != [] && us[0].Finish?)
  {
    if us != [] {
      UnitStarts(us[0]);
      assert pat[p] == pat[p..][0] == UnitText(us[0])[0];
    } else if end {
      assert pat[p] == pat[p..][0];
    }
  }

  lemma TextSplits(pat: seq<Byte>, p: nat, us: seq<Unit>, end: bool)
    requires us != [] && p <= |pat| && pat[p..] == Text(us, end)
    ensures var q := p + |UnitText(us[0])|;
            Reads(pat, p, UnitText(us[0])) && q <= |pat| && pat[q..] == Text(us[1..], end)
  {
    var t, rest := UnitText(us[0]), Text(us[1..], end);
    assert pat[p..] == t + rest;
    assert pat[p..p + |t|] == pat[p..][..|t|] == t && pat[p + |t|..] == pat[p..][|t|..] == rest;
  }

  ghost predicate SameChars(set': Set, x: Chars) { forall c: Byte :: Has(set', c) <==> CharsHave(x, c) }

  /** A single character with its repetition. */
  lemma SomeItem(pat: seq<Byte>, p: nat, u: Unit)
    requires u.Some? && ProperUnit(u) && Reads(pat, p, UnitText(u)) && At(pat, p + |UnitText(u)|) !in {63, 42, 43, 45}
    ensures var i := ItemAt(pat, p);
            i.One? && i.rep == u.rep && i.next == p + |UnitText(u)| && SameChars(i.set', u.x)
  {
    var t, r := CharsText(u.x), RepText(u.rep);
    ReadsPart(pat, p, t, r);
    if r != [] { ReadsAt(pat, p + |t|, r, 0); }
    CharsAre(pat, p, u.x);
    SomeStarts(pat, p, u.x);
    hide SetEnd, SetAt, CharsText, ProperChars;
    assert RepAt(pat, p + |t|) == u.rep;
  }

  lemma SomeStarts(pat: seq<Byte>, p: nat, x: Chars)
    requires ProperChars(x) && Reads(pat, p, CharsText(x))
    ensures p < |pat| && ItemAt(pat, p) == SingleAt(pat, p)
  {
    hide SingleAt;
    var t := CharsText(x);
    if x.Just? { MemberStarts(x.m); }
    ReadsAt(pat, p, t, 0);
    if x.Just? && |t| > 1 { ReadsAt(pat, p, t, 1); }
  }

  /** Every other unit. */
  lemma PlainItem(pat: seq<Byte>, p: nat, u: Unit)
    requires ProperUnit(u) && Reads(pat, p, UnitText(u)) && (u.Begin? ==> At(pat, p + 1) != 41)
    ensures var i, next := ItemAt(pat, p), p + |UnitText(u)|;
            match u
            case Some(_, _) => true
            case Place => i == OpenCap(true, next)
            case Begin => i == OpenCap(false, next)
            case Finish => i == CloseCap(next)
            case Between(a, b) => i == Balance(a, b, next)
            case Border(others, ms) => i.Frontier? && i.next == next && SameChars(i.set', OneOf(others, ms))
            case Again(n) => i == BackRef(48 + n, next)
  {
    var t := UnitText(u);
    UnitStarts(u);
    ReadsAt(pat, p, t, 0);
    if u.Border? {
      BorderItem(pat, p, u.others, u.members);
    } else if !u.Some? {
      if |t| > 1 { ReadsAt(pat, p, t, 1); }
      if |t| > 2 { ReadsAt(pat, p, t, 2); ReadsAt(pat, p, t, 3); }
    }
  }

  lemma BorderItem(pat: seq<Byte>, p: nat, others: bool, ms: seq<Member>)
    requires ProperMembers(ms) && Reads(pat, p, [37, 102] + SetText(others, ms))
    ensures var i := ItemAt(pat, p);
            i.Frontier? && i.next == p + 2 + |SetText(others, ms)| && SameChars(i.set', OneOf(others, ms))
  {
    var t := SetText(others, ms);
    ReadsPart(pat, p, [37, 102], t);
    ReadsAt(pat, p, [37, 102], 0);
    ReadsAt(pat, p, [37, 102], 1);
    SetStarts(pat, p + 2, others, ms);
    SetIs(pat, p + 2, others, ms);
    hide SetEnd, SetAt, SetText, CharsHave, Has, ProperMembers, Reads;
  }

  // ---------------------------------------------------------------- outcomes

  lemma {:induction false} SameRun(src: seq<Byte>, s: nat, set': Set, x: Chars)
    requires SameChars(set', x)
    ensures RunLength(src, s, set') == RunOf(src, s, x)
    decreases |src| - s
  {
    hide Has, CharsHave;
    if s < |src| { SameRun(src, s + 1, set', x); }
  }

  lemma BalancedIs(src: seq<Byte>, s: nat, open: Byte, close: Byte)
    requires open != 0 && s <= |src|
    ensures Balanced(src, s, open, close) ==
            if HasBalanced(src, s, open, close) then Option.Some(BalancedEnd(src, s, open, close)) else None
  {
    var r := Balanced(src, s, open, close);
    if s < |src| && src[s] == open {
      var i := s + 1;
      BalanceEndIs(src, i, open, close, 1);
      if r.Some? { assert IsBalanced(src, s, r.at, open, close); }
      if HasBalanced(src, s, open, close) {
        var e := BalancedEnd(src, s, open, close);
        assert 1 + Surplus(src, i, e, open, close) == 0;
        assert r.Some? && e >= r.at;
      }
    }
  }

  lemma NoneOpen(caps: seq<Cap>)
    requires !AnyOpen(caps)
    ensures LastOpen(caps) == -1
  {
  }

  lemma TriedStep(src: seq<Byte>, us: seq<Unit>, end: bool, s: nat, k: nat, ks: seq<nat>, caps: seq<Cap>)
    requires Fits(src, caps, s) && s + k <= |src|
    ensures Tried(src, us, end, s, [k] + ks, caps) ==
            Results(src, us, end, s + k, caps) + Tried(src, us, end, s, ks, caps)
  {
    hide Results;
    assert ([k] + ks)[1..] == ks;
  }

  lemma NothingTried(src: seq<Byte>, us: seq<Unit>, end: bool, s: nat, caps: seq<Cap>)
    requires Fits(src, caps, s)
    ensures Tried(src, us, end, s, [], caps) == []
  {
  }

  lemma DownStep(hi: nat, lo: nat)
    requires lo <= hi
    ensures Down(hi, lo) == [hi] + if hi == lo then [] else Down(hi - 1, lo)
  {
  }

  lemma UpStep(lo: nat, hi: nat)
    requires lo <= hi
    ensures Up(lo, hi) == [lo] + if hi == lo then [] else Up(lo + 1, hi)
  {
  }

  lemma {:induction false} LongestMean(src: seq<Byte>, pat: seq<Byte>, q: nat, us: seq<Unit>, end: bool, s: nat,
                                       hi: nat, lo: nat, caps: seq<Cap>)
    requires Proper(us) && q <= |pat| && pat[q..] == Text(us, end) && Fits(src, caps, s) && lo <= hi && s + hi <= |src|
    ensures Longest(src, pat, q, s, hi, lo, caps) == Tried(src, us, end, s, Down(hi, lo), caps)
    decreases |us|, 3 + hi - lo
  {
    hide Outcomes, Results, Proper, Text, Tried, Down;
    DownStep(hi, lo);
    TriedStep(src, us, end, s, hi, if hi == lo then [] else Down(hi - 1, lo), caps);
    OutcomesMean(src, pat, q, us, end, s + hi, caps);
    if hi > lo {
      LongestMean(src, pat, q, us, end, s, hi - 1, lo, caps);
    } else {
      NothingTried(src, us, end, s, caps);
    }
  }

  lemma {:induction false} ShortestMean(src: seq<Byte>, pat: seq<Byte>, q: nat, us: seq<Unit>, end: bool, s: nat,
                                        lo: nat, hi: nat, caps: seq<Cap>)
    requires Proper(us) && q <= |pat| && pat[q..] == Text(us, end) && Fits(src, caps, s) && lo <= hi && s + hi <= |src|
    ensures Shortest(src, pat, q, s, lo, hi, caps) == Tried(src, us, end, s, Up(lo, hi), caps)
    decreases |us|, 3 + hi - lo
  {
    hide Outcomes, Results, Proper, Text, Tried, Up;
    UpStep(lo, hi);
    TriedStep(src, us, end, s, lo, if hi == lo then [] else Up(lo + 1, hi), caps);
    OutcomesMean(src, pat, q, us, end, s + lo, caps);
    if lo < hi {
      ShortestMean(src, pat, q, us, end, s, lo + 1, hi, caps);
    } else {
      NothingTried(src, us, end, s, caps);
    }
  }

  lemma {:induction false} ChoicesMean(src: seq<Byte>, pat: seq<Byte>, q: nat, us: seq<Unit>, end: bool, s: nat,
                                       rep: Rep, n: nat, caps: seq<Cap>)
    requires Proper(us) && q <= |pat| && pat[q..] == Text(us, end) && Fits(src, caps, s) && s + n <= |src|
    ensures Choices(src, pat, q, s, Least(rep), Most(rep, n), rep, caps) ==
            Tried(src, us, end, s, Counts(rep, n), caps)
    decreases |us|, 5 + n
  {
    hide Outcomes, Results, Proper, Text, Longest, Shortest, Tried;
    NothingTried(src, us, end, s, caps);
    var lo, hi := Least(rep), Most(rep, n);
    if lo <= hi {
      if rep == Minus {
        ShortestMean(src, pat, q, us, end, s, lo, hi, caps);
      } else {
        LongestMean(src, pat, q, us, end, s, hi, lo, caps);
        assert Down(1, 0) == [1, 0] && Down(0, 0) == [0] && Down(1, 1) == [1];
      }
    }
  }

  lemma RestProper(us: seq<Unit>)
    requires Proper(us) && us != []
    ensures Proper(us[1..]) && ProperUnit(us[0]) && (us[0].Begin? && |us| > 1 ==> !us[1].Finish?)
  {
  }

  lemma {:induction false} SomeMeans(src: seq<Byte>, pat: seq<Byte>, p: nat, us: seq<Unit>, end: bool, s: nat,
                                     caps: seq<Cap>)
    requires Proper(us) && us != [] && us[0].Some? && p <= |pat| && pat[p..] == Text(us, end) && Fits(src, caps, s)
    ensures Outcomes(src, pat, p, s, caps) == Results(src, us, end, s, caps)
    decreases |us|, 0
  {
    hide Proper, Text, ItemAt, ProperUnit, UnitText, Counts, Choices, Tried, RunOf, RunLength;
    RestProper(us);
    TextSplits(pat, p, us, end);
    var q := p + |UnitText(us[0])|;
    TextStarts(pat, q, us[1..], end);
    SomeItem(pat, p, us[0]);
    var i := ItemAt(pat, p);
    SameRun(src, s, i.set', us[0].x);
    ChoicesMean(src, pat, q, us[1..], end, s, i.rep, RunOf(src, s, us[0].x), caps);
  }

  lemma {:induction false} PlainMeans(src: seq<Byte>, pat: seq<Byte>, p: nat, us: seq<Unit>, end: bool, s: nat,
                                      caps: seq<Cap>)
    requires Proper(us) && us != [] && !us[0].Some? && p <= |pat| && pat[p..] == Text(us, end) && Fits(src, caps, s)
    ensures Outcomes(src, pat, p, s, caps) == Results(src, us, end, s, caps)
    decreases |us|, 1
  {
    RestProper(us);
    TextSplits(pat, p, us, end);
    var u, rest, q := us[0], us[1..], p + |UnitText(us[0])|;
    hide Proper, Text, ItemAt, Outcomes, Results;
    if u.Begin? { TextStarts(pat, q, rest, end); }
    PlainItem(pat, p, u);
    match u
    case Place => OpenMeans(src, pat, p, us, end, s, caps);
    case Begin => OpenMeans(src, pat, p, us, end, s, caps);
    case Finish => FinishMeans(src, pat, p, us, end, s, caps);
    case Between(_, _) => BetweenMeans(src, pat, p, us, end, s, caps);
    case Border(_, _) => BorderMeans(src, pat, p, q, us, end, s, caps);
    case Again(_) => AgainMeans(src, pat, p, us, end, s, caps);
    case _ =>
  }

  lemma {:induction false} OpenMeans(src: seq<Byte>, pat: seq<Byte>, p: nat, us: seq<Unit>, end: bool, s: nat,
                                     caps: seq<Cap>)
    requires us != [] && (us[0].Place? || us[0].Begin?) && Fits(src, caps, s) && Proper(us[1..]) && p <= |pat|
    requires var q := p + if us[0].Place? then 2 else 1;
             q <= |pat| && ItemAt(pat, p) == OpenCap(us[0].Place?, q) && pat[q..] == Text(us[1..], end)
    ensures Outcomes(src, pat, p, s, caps) == Results(src, us, end, s, caps)
    decreases |us|, 0
  {
    hide Proper, Text, ItemAt;
    if |caps| < 32 {
      var c := Cap(s, if us[0].Place? then Position else Unfinished);
      OutcomesMean(src, pat, p + if us[0].Place? then 2 else 1, us[1..], end, s, caps + [c]);
    }
  }

  lemma FinishResults(src: seq<Byte>, us: seq<Unit>, end: bool, s: nat, caps: seq<Cap>, l: nat)
    requires us != [] && us[0].Finish? && Fits(src, caps, s) && IsLastOpen(caps, l)
    ensures caps[l].init <= s && Fits(src, Close(caps, l, s), s)
    ensures Results(src, us, end, s, caps) == Results(src, us[1..], end, s, Close(caps, l, s))
  {
    assert caps[l] in caps;
    assert forall k: nat :: IsLastOpen(caps, k) ==> k == l;
  }

  lemma {:induction false} FinishMeans(src: seq<Byte>, pat: seq<Byte>, p: nat, us: seq<Unit>, end: bool, s: nat,
                                       caps: seq<Cap>)
    requires us != [] && us[0].Finish? && Fits(src, caps, s) && Proper(us[1..]) && p < |pat|
    requires ItemAt(pat, p) == CloseCap(p + 1) && pat[p + 1..] == Text(us[1..], end)
    ensures Outcomes(src, pat, p, s, caps) == Results(src, us, end, s, caps)
    decreases |us|, 0
  {
    hide Proper, Text, ItemAt;
    var l := LastOpen(caps);
    if !AnyOpen(caps) {
      NoneOpen(caps);
    } else {
      hide Results;
      assert l >= 0;
      assert IsLastOpen(caps, l);
      FinishResults(src, us, end, s, caps, l);
      OutcomesMean(src, pat, p + 1, us[1..], end, s, Close(caps, l, s));
    }
  }

  lemma {:induction false} BetweenMeans(src: seq<Byte>, pat: seq<Byte>, p: nat, us: seq<Unit>, end: bool, s: nat,
                                        caps: seq<Cap>)
    requires us != [] && us[0].Between? && us[0].open != 0 && Fits(src, caps, s) && Proper(us[1..]) && p + 4 <= |pat|
    requires ItemAt(pat, p) == Balance(us[0].open, us[0].close, p + 4) && pat[p + 4..] == Text(us[1..], end)
    ensures Outcomes(src, pat, p, s, caps) == Results(src, us, end, s, caps)
    decreases |us|, 0
  {
    hide Proper, Text, ItemAt, IsBalanced, HasBalanced, Balanced, BalancedEnd;
    var a, b := us[0].open, us[0].close;
    BalancedIs(src, s, a, b);
    if HasBalanced(src, s, a, b) {
      OutcomesMean(src, pat, p + 4, us[1..], end, BalancedEnd(src, s, a, b), caps);
    }
  }

  lemma {:induction false} BorderMeans(src: seq<Byte>, pat: seq<Byte>, p: nat, q: nat, us: seq<Unit>, end: bool, s: nat,
                                       caps: seq<Cap>)
    requires us != [] && us[0].Border? && Fits(src, caps, s) && Proper(us[1..]) && p <= |pat|
    requires q <= |pat| && pat[q..] == Text(us[1..], end)
    requires var u, i := us[0], ItemAt(pat, p);
             i.Frontier? && i.next == q && SameChars(i.set', OneOf(u.others, u.members))
    ensures Outcomes(src, pat, p, s, caps) == Results(src, us, end, s, caps)
    decreases |us|, 0
  {
    hide Proper, Text, ItemAt, Has, CharsHave;
    var u, i := us[0], ItemAt(pat, p);
    var before, after := if s == 0 then 0 else src[s - 1], if s == |src| then 0 else src[s];
    assert AtFrontier(src, s, i.set') <==>
           !CharsHave(OneOf(u.others, u.members), before) && CharsHave(OneOf(u.others, u.members), after);
    hide AtFrontier, SameChars;
    OutcomesMean(src, pat, q, us[1..], end, s, caps);
  }

  lemma AgainOutcomes(src: seq<Byte>, pat: seq<Byte>, p: nat, n: nat, s: nat, caps: seq<Cap>)
    requires Fits(src, caps, s) && n < 10 && p + 2 <= |pat| && ItemAt(pat, p) == BackRef(48 + n, p + 2)
    ensures n == 0 || n > |caps| || caps[n - 1].len == Unfinished ==>
              Outcomes(src, pat, p, s, caps) == [Fault(BadIndex)]
    ensures 0 < n <= |caps| && caps[n - 1].len != Unfinished ==>
              Outcomes(src, pat, p, s, caps) ==
              if SeenAgain(src, s, caps[n - 1]) then Outcomes(src, pat, p + 2, s + caps[n - 1].len.n, caps) else []
  {
    hide ItemAt, Choices;
  }

  lemma AgainResults(src: seq<Byte>, us: seq<Unit>, end: bool, s: nat, caps: seq<Cap>)
    requires us != [] && us[0].Again? && Fits(src, caps, s)
    ensures var n := us[0].n;
            && (n == 0 || n > |caps| || caps[n - 1].len == Unfinished ==>
                  Results(src, us, end, s, caps) == [Fault(BadIndex)])
            && (0 < n <= |caps| && caps[n - 1].len != Unfinished ==>
                  Results(src, us, end, s, caps) ==
                  if SeenAgain(src, s, caps[n - 1]) then Results(src, us[1..], end, s + caps[n - 1].len.n, caps)
                  else [])
  {
    hide Tried;
    if 0 < us[0].n <= |caps| { assert caps[us[0].n - 1] in caps; }
  }

  lemma {:induction false} AgainMeans(src: seq<Byte>, pat: seq<Byte>, p: nat, us: seq<Unit>, end: bool, s: nat,
                                      caps: seq<Cap>)
    requires us != [] && us[0].Again? && us[0].n < 10 && Fits(src, caps, s) && Proper(us[1..]) && p + 2 <= |pat|
    requires ItemAt(pat, p) == BackRef(48 + us[0].n, p + 2) && pat[p + 2..] == Text(us[1..], end)
    ensures Outcomes(src, pat, p, s, caps) == Results(src, us, end, s, caps)
    decreases |us|, 0
  {
    hide Proper, Text, ItemAt, Outcomes, Results;
    var n := us[0].n;
    AgainOutcomes(src, pat, p, n, s, caps);
    AgainResults(src, us, end, s, caps);
    if 0 < n <= |caps| && caps[n - 1].len != Unfinished && SeenAgain(src, s, caps[n - 1]) {
      OutcomesMean(src, pat, p + 2, us[1..], end, s + caps[n - 1].len.n, caps);
    }
  }

  /**
   The outcomes of a pattern are those that its text means: for every pattern that the manual allows, every
   subject and every place in it.
   */
  lemma {:induction false} OutcomesMean(src: seq<Byte>, pat: seq<Byte>, p: nat, us: seq<Unit>, end: bool, s: nat,
                                        caps: seq<Cap>)
    requires Proper(us) && p <= |pat| && pat[p..] == Text(us, end) && Fits(src, caps, s)
    ensures Outcomes(src, pat, p, s, caps) == Results(src, us, end, s, caps)
    decreases |us|, 2
  {
    hide Proper, Outcomes, Results;
    if us == [] {
      EndMeans(src, pat, p, end, s, caps);
    } else if us[0].Some? {
      SomeMeans(src, pat, p, us, end, s, caps);
    } else {
      PlainMeans(src, pat, p, us, end, s, caps);
    }
  }

  lemma EndMeans(src: seq<Byte>, pat: seq<Byte>, p: nat, end: bool, s: nat, caps: seq<Cap>)
    requires p <= |pat| && pat[p..] == Text([], end) && Fits(src, caps, s)
    ensures Outcomes(src, pat, p, s, caps) == Results(src, [], end, s, caps)
  {
    if end { assert pat[p] == pat[p..][0]; }
  }

  /** A whole pattern, with a ^ in front if it is to match at the start only. */
  function Whole(anchored: bool, us: seq<Unit>, end: bool): seq<Byte> {
    (if anchored then [94] else []) + Text(us, end)
  }

  /** The outcomes of a whole pattern, from which `string.find` and `string.gsub` choose. */
  lemma WholeMeans(src: seq<Byte>, anchored: bool, us: seq<Unit>, end: bool, i: nat)
    requires Proper(us) && i <= |src|
    ensures Anchored(Whole(anchored, us, end)) <==> anchored
    ensures WholeOutcomes(src, Whole(anchored, us, end), i) == Results(src, us, end, i, [])
  {
    hide Proper, Outcomes, Results;
    var pat, p := Whole(anchored, us, end), if anchored then 1 else 0;
    assert pat[p..] == Text(us, end);
    TextStarts(pat, p, us, end);
    OutcomesMean(src, pat, p, us, end, i, []);
  }

  // ---------------------------------------------------------------- some patterns

  function EndsAt(ks: seq<nat>): seq<Outcome> { seq(|ks|, i requires 0 <= i < |ks| => Found(ks[i], [])) }

  lemma {:induction false} TriedEnds(src: seq<Byte>, ks: seq<nat>)
    requires forall k <- ks :: k <= |src|
    ensures Tried(src, [], false, 0, ks, []) == EndsAt(ks)
    decreases |ks|
  {
    if ks != [] {
      assert forall k <- ks[1..] :: k in ks;
      TriedEnds(src, ks[1..]);
      assert ks[0] in ks && EndsAt(ks) == [Found(ks[0], [])] + EndsAt(ks[1..]);
    }
  }

  lemma SomeText(x: Chars, rep: Rep)
    requires ProperChars(x)
    ensures Proper([Unit.Some(x, rep)]) && Text([Unit.Some(x, rep)], false) == CharsText(x) + RepText(rep)
  {
    var us := [Unit.Some(x, rep)];
    assert us[1..] == [] && Proper([]) && Text([], false) == [];
  }

  /** The outcomes of one character with its repetition, from the start of a subject. */
  lemma SomeResults(src: seq<Byte>, x: Chars, rep: Rep)
    requires ProperChars(x)
    ensures Outcomes(src, CharsText(x) + RepText(rep), 0, 0, []) == EndsAt(Counts(rep, RunOf(src, 0, x)))
  {
    var us, pat, ks := [Unit.Some(x, rep)], CharsText(x) + RepText(rep), Counts(rep, RunOf(src, 0, x));
    SomeText(x, rep);
    assert pat[0..] == pat && us[1..] == [];
    hide Proper, Text, CharsText, Outcomes, ProperChars;
    OutcomesMean(src, pat, 0, us, false, 0, []);
    CountsWithin(rep, RunOf(src, 0, x));
    TriedEnds(src, ks);
  }

  lemma {:induction false} CountsWithin(rep: Rep, n: nat)
    ensures forall k <- Counts(rep, n) :: k <= n
  {
    DownWithin(n, 0);
    DownWithin(n, 1);
    UpWithin(0, n);
  }

  lemma {:induction false} DownWithin(hi: nat, lo: nat)
    ensures forall k <- Down(hi, lo) :: lo <= k <= hi
  {
    if hi > 0 && lo <= hi { DownWithin(hi - 1, lo); }
  }

  lemma {:induction false} UpWithin(lo: nat, hi: nat)
    ensures forall k <- Up(lo, hi) :: lo <= k <= hi
    decreases hi - lo
  {
    if lo <= hi { UpWithin(lo + 1, hi); }
  }

  /** `%d` and the other classes on a subject of one byte. */
  lemma ClassMatches(l: char, c: Byte)
    requires l in "acdlpsuwxz"
    ensures Outcomes([c], [37, l as int], 0, 0, []) == if ClassHas(l, c) then [Found(1, [])] else []
    ensures Outcomes([c], [37, l as int - 32], 0, 0, []) == if ClassHas(l, c) then [] else [Found(1, [])]
  {
    hide Outcomes, ClassHas;
    var x, y := Just(Kind(l, false)), Just(Kind(l, true));
    assert CharsText(x) + RepText(Once) == [37, l as int] && CharsText(y) + RepText(Once) == [37, l as int - 32];
    SomeResults([c], x, Once);
    SomeResults([c], y, Once);
    assert RunOf([c], 1, x) == 0 && RunOf([c], 1, y) == 0;
    assert EndsAt([]) == [] && EndsAt([1]) == [Found(1, [])];
  }

  lemma {:induction false} RunOfCopies(n: nat, x: Byte, s: nat)
    requires s <= n
    ensures RunOf(seq(n, _ => x), s, Just(Sole(x, false))) == n - s
    decreases n - s
  {
    if s < n { RunOfCopies(n, x, s + 1); }
  }

  /** The repetitions of a character on `n` copies of it: most first, at least one, fewest first, one or none. */
  lemma RepetitionsMatch(x: Byte, n: nat)
    requires x != 0 && x !in MAGIC
    ensures Outcomes(seq(n, _ => x), [x, 42], 0, 0, []) == EndsAt(Down(n, 0))
    ensures Outcomes(seq(n, _ => x), [x, 43], 0, 0, []) == EndsAt(Down(n, 1))
    ensures Outcomes(seq(n, _ => x), [x, 45], 0, 0, []) == EndsAt(Up(0, n))
    ensures Outcomes(seq(n, _ => x), [x, 63], 0, 0, []) == EndsAt(if n > 0 then [1, 0] else [0])
    ensures Outcomes(seq(n, _ => x), [x], 0, 0, []) == EndsAt(if n > 0 then [1] else [])
  {
    hide Outcomes, EndsAt, RunOf, Down, Up;
    var src, c := seq(n, _ => x), Just(Sole(x, false));
    RunOfCopies(n, x, 0);
    assert [x] + [] == [x] && [x] + [42] == [x, 42] && [x] + [43] == [x, 43] && [x] + [45] == [x, 45]
      && [x] + [63] == [x, 63];
    SomeResults(src, c, Once);
    SomeResults(src, c, Star);
    SomeResults(src, c, Plus);
    SomeResults(src, c, Minus);
    SomeResults(src, c, Optional);
  }

  /** `$` matches at the end only, `%f[x]` where `x` begins, and `(.)%1` two bytes that are the same. */
  lemma EndMatches(src: seq<Byte>, s: nat)
    requires s <= |src|
    ensures Outcomes(src, [36], 0, s, []) == if s == |src| then [Found(s, [])] else []
  {
    assert [36][0..] == Text([], true);
    OutcomesMean(src, [36], 0, [], true, s, []);
  }

  lemma BorderMatches(src: seq<Byte>, s: nat, x: Byte)
    requires s <= |src| && x != 0 && x !in MAGIC
    ensures Outcomes(src, [37, 102, 91, x, 93], 0, s, []) ==
            if (s == 0 || src[s - 1] != x) && s < |src| && src[s] == x then [Found(s, [])] else []
  {
    var m, us := Sole(x, false), [Border(false, [Sole(x, false)])];
    var pat := [37, 102, 91, x, 93];
    assert [m][1..] == [] && MembersText([]) == [] && us[1..] == [] && Text([], false) == [] && Proper([]);
    assert MembersText([m]) == [x];
    assert UnitText(us[0]) == pat && Text(us, false) == pat == pat[0..];
    hide Outcomes, Text, Proper, UnitText, MembersText;
    assert forall c: Byte :: CharsHave(OneOf(false, [m]), c) <==> c == x by {
      assert m in [m] && forall k <- [m] :: k == m;
    }
    assert Proper(us) by { BorderProper(x); }
    OutcomesMean(src, pat, 0, us, false, s, []);
  }

  lemma BorderProper(x: Byte)
    requires x != 0 && x !in MAGIC
    ensures Proper([Border(false, [Sole(x, false)])])
  {
    var us := [Border(false, [Sole(x, false)])];
    assert us[1..] == [] && Proper([]);
  }

  lemma TwiceMatches(a: Byte, b: Byte)
    ensures Outcomes([a, b], [40, 46, 41, 37, 49], 0, 0, []) ==
            if a == b then [Found(2, [Cap(0, Closed(1))])] else []
  {
    var src, pat := [a, b], [40, 46, 41, 37, 49];
    var u3 := [Again(1)];
    var u2 := [Finish] + u3;
    var u1 := [Unit.Some(Every, Once)] + u2;
    var us := [Begin] + u1;
    assert us[1..] == u1 && u1[1..] == u2 && u2[1..] == u3 && u3[1..] == [] && Text([], false) == [] && Proper([]);
    assert Text(u3, false) == [37, 49] && Text(u2, false) == [41, 37, 49] && Text(u1, false) == [46, 41, 37, 49];
    assert Text(us, false) == pat == pat[0..];
    assert Proper(u3) && Proper(u2) && Proper(u1) && Proper(us);
    hide Outcomes, Text, Proper;
    OutcomesMean(src, pat, 0, us, false, 0, []);
    TwiceResults(a, b);
  }

  lemma TwiceResults(a: Byte, b: Byte)
    ensures Results([a, b], [Begin] + ([Unit.Some(Every, Once)] + ([Finish] + [Again(1)])), false, 0, []) ==
            if a == b then [Found(2, [Cap(0, Closed(1))])] else []
  {
    var src := [a, b];
    var u3 := [Again(1)];
    var u2 := [Finish] + u3;
    var u1 := [Unit.Some(Every, Once)] + u2;
    var us := [Begin] + u1;
    assert us[1..] == u1 && u1[1..] == u2 && u2[1..] == u3 && u3[1..] == [];
    var open, shut := Cap(0, Unfinished), Cap(0, Closed(1));
    assert RunOf(src, 2, Every) == 0 && RunOf(src, 1, Every) == 1 && RunOf(src, 0, Every) == 2;
    assert [] + [open] == [open];
    assert Results(src, us, false, 0, []) == Results(src, u1, false, 0, [open]);
    TriedStep(src, u2, false, 0, 1, [], [open]);
    NothingTried(src, u2, false, 0, [open]);
    assert [1] + [] == [1] && Counts(Once, 2) == [1];
    assert Results(src, u1, false, 0, [open]) == Results(src, u2, false, 1, [open]) + [];
    FinishResults(src, u2, false, 1, [open], 0);
    assert Close([open], 0, 1) == [shut];
    assert src[0..1] == [a] && src[1..2] == [b];
    assert Results(src, u3, false, 1, [shut]) == if a == b then Results(src, [], false, 2, [shut]) else [];
  }
}
