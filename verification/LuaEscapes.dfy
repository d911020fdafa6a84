/**
 What string literals mean (section 2.1 of the Lua 5.1 Reference Manual): the parts a literal is written
 with, and the byte that each stands for. The reader of `LuaQuote` reads exactly these.
 */
module LuaEscapes {
  import opened LuaPattern
  import opened LuaQuote

  /** A plain byte, or behind a backslash a letter, one to three digits, a line end, or any other byte. */
  datatype Part = Plain(c: Byte) | Named(letter: Byte) | Decimal(value: nat, width: nat) | LineBreak(ends: seq<Byte>)
    | Itself(c: Byte)

  /** The bytes of a, b, t, n, v, f and r, and what they name. */
  const NAMES: map<Byte, Byte> := map[97 := 7, 98 := 8, 116 := 9, 110 := 10, 118 := 11, 102 := 12, 114 := 13]

  const LINE_ENDS: set<seq<Byte>> := {[10], [13], [10, 13], [13, 10]}

  /** The part can be written, in a literal that ends with `del`. */
  predicate Proper(x: Part, del: Byte) {
    match x
    case Plain(c) => c !in {del, 92, 10, 13}
    case Named(l) => del != 92 && l in NAMES
    case Decimal(v, w) => del != 92 && 1 <= w <= 3 && v < if w == 1 then 10 else if w == 2 then 100 else 256
    case LineBreak(ends) => del != 92 && ends in LINE_ENDS
    case Itself(c) => del != 92 && c !in NAMES && c !in {10, 13} && !(48 <= c <= 57)
  }

  /** The last `width` decimal digits of a value. */
  function DigitsOf(v: nat, width: nat): seq<Byte> {
    if width == 0 then [] else DigitsOf(v / 10, width - 1) + [48 + v % 10]
  }

  function Written(x: Part): seq<Byte> {
    match x
    case Plain(c) => [c]
    case Named(l) => [92, l]
    case Decimal(v, w) => [92] + DigitsOf(v, w)
    case LineBreak(ends) => [92] + ends
    case Itself(c) => [92, c]
  }

  function Meant(x: Part, del: Byte): Byte
    requires Proper(x, del)
  {
    match x
    case Plain(c) => c
    case Named(l) => NAMES[l]
    case Decimal(v, _) => v
    case LineBreak(_) => 10
    case Itself(c) => c
  }

  /** What follows does not belong to the part: no digit after one or two digits, no second half of a line end. */
  predicate Apart(x: Part, next: int) {
    && (x.Decimal? && x.width < 3 ==> !(48 <= next <= 57))
    && (x.LineBreak? ==> (x.ends == [10] ==> next != 13) && (x.ends == [13] ==> next != 10))
  }

  function Next(input: seq<Byte>, i: nat): int { if i < |input| then input[i] else -1 }

  predicate PartAt(input: seq<Byte>, i: nat, x: Part, del: Byte) {
    && Proper(x, del) && i + |Written(x)| <= |input| && input[i..i + |Written(x)|] == Written(x)
    && Apart(x, Next(input, i + |Written(x)|))
  }

  /** From `i` to `j` the input is written with the parts. */
  predicate Spells(input: seq<Byte>, i: nat, xs: seq<Part>, j: nat, del: Byte)
    decreases |xs|
  {
    if xs == [] then i == j else PartAt(input, i, xs[0], del) && Spells(input, i + |Written(xs[0])|, xs[1..], j, del)
  }

  function Text(xs: seq<Part>, del: Byte): seq<Byte>
    requires forall x <- xs :: Proper(x, del)
  {
    if xs == [] then [] else [Meant(xs[0], del)] + Text(xs[1..], del)
  }

  function Breaks(xs: seq<Part>): nat {
    if xs == [] then 0 else (if xs[0].LineBreak? then 1 else 0) + Breaks(xs[1..])
  }

  /** There is no part at `j`, for the reason given. */
  predicate Stuck(input: seq<Byte>, j: nat, line: int, del: Byte, f: Fault) {
    && Next(input, j) != del
    && match f
       case UnfinishedString => Next(input, j) in {-1, 10, 13} || (Next(input, j) == 92 && j + 1 >= |input|)
       case EscapeTooLarge => TooLarge(input, j)
       case TooManyLines => Next(input, j) == 92 && Next(input, j + 1) in {10, 13} && line + 1 >= MAX_INT
  }

  predicate IsStuck(input: seq<Byte>, j: nat, line: int, del: Byte) { exists f :: Stuck(input, j, line, del, f) }

  predicate TooLarge(input: seq<Byte>, j: nat) {
    j + 4 <= |input| && exists v :: 256 <= v < 1000 && input[j..j + 4] == [92] + DigitsOf(v, 3)
  }

  // ---------------------------------------------------------------- one part

  lemma OneDigit(v: nat)
    ensures DigitsOf(v, 1) == [48 + v % 10]
  {
  }

  lemma TwoDigits(v: nat)
    ensures DigitsOf(v, 2) == [48 + v / 10 % 10, 48 + v % 10]
  {
    OneDigit(v / 10);
  }

  lemma ThreeDigits(v: nat)
    ensures DigitsOf(v, 3) == [48 + v / 10 / 10 % 10, 48 + v / 10 % 10, 48 + v % 10]
  {
    TwoDigits(v / 10);
  }

  lemma DigitsLength(v: nat, w: nat)
    ensures |DigitsOf(v, w)| == w
  {
  }

  lemma ValueOf(input: seq<Byte>, i: nat)
    ensures Value(input, i, 1) == Cur(input, i) - 48
    ensures Value(input, i, 2) == 10 * (Cur(input, i) - 48) + (Cur(input, i + 1) - 48)
    ensures Value(input, i, 3) == 100 * (Cur(input, i) - 48) + 10 * (Cur(input, i + 1) - 48) + (Cur(input, i + 2) - 48)
  {
    assert Value(input, i, 0) == 0;
  }

  /** The digits of a value are read as that value. */
  lemma DigitsRead(input: seq<Byte>, i: nat, v: nat, w: nat)
    requires 1 <= w <= 3 && v < (if w == 1 then 10 else if w == 2 then 100 else 1000)
    requires i + w <= |input| && input[i..i + w] == DigitsOf(v, w) && (w < 3 ==> !(48 <= Next(input, i + w) <= 57))
    ensures Digits(input, i) == w && Value(input, i, w) == v && Digit(Cur(input, i))
  {
    hide DigitsOf, Value;
    if w == 1 { OneDigit(v); } else if w == 2 { TwoDigits(v); } else { ThreeDigits(v); }
    ValueOf(input, i);
    var got := input[i..i + w];
    assert forall k :: 0 <= k < w ==> got[k] == input[i + k];
  }

  lemma LettersAre(c: Byte)
    ensures Letter(c) == if c in NAMES then NAMES[c] else -1
  {
  }

  lemma DecimalRead(input: seq<Byte>, i: nat, x: Part, line: int, del: Byte)
    requires PartAt(input, i, x, del) && x.Decimal?
    ensures Cur(input, i) != del && |Written(x)| > 0
    ensures ReadOne(input, i, line) == Saved(x.value, i + |Written(x)|, line)
  {
    hide DigitsOf, Value, Digits;
    var w := Written(x);
    DigitsLength(x.value, x.width);
    var got := input[i..i + |w|];
    assert got[0] == input[i] && got[1] == input[i + 1];
    assert input[i + 1..i + |w|] == w[1..] == DigitsOf(x.value, x.width);
    DigitsRead(input, i + 1, x.value, x.width);
    LettersAre(input[i + 1]);
  }

  lemma PartRead(input: seq<Byte>, i: nat, x: Part, line: int, del: Byte)
    requires PartAt(input, i, x, del)
    ensures Cur(input, i) != del && |Written(x)| > 0
    ensures ReadOne(input, i, line) ==
            if x.LineBreak? && line + 1 >= MAX_INT then Wrong(TooManyLines)
            else Saved(Meant(x, del), i + |Written(x)|, if x.LineBreak? then line + 1 else line)
  {
    hide DigitsOf, Value, Digits;
    if x.Decimal? {
      DecimalRead(input, i, x, line, del);
    } else {
      var w := Written(x);
      var got := input[i..i + |w|];
      assert forall k :: 0 <= k < |w| ==> got[k] == input[i + k];
      if !x.Plain? { LettersAre(input[i + 1]); }
    }
  }

  /** A byte that is read was written by a part. */
  lemma PartFound(input: seq<Byte>, i: nat, line: int, del: Byte) returns (x: Part)
    requires Cur(input, i) != del && ReadOne(input, i, line).Saved?
    ensures PartAt(input, i, x, del)
  {
    var c := input[i];
    if c != BACKSLASH {
      x := Plain(c);
      return;
    }
    var d := input[i + 1];
    LettersAre(d);
    if IsNewline(d) {
      x := LineFound(input, i, del);
    } else if Digit(d) {
      x := DecimalFound(input, i, line, del);
    } else {
      x := if d in NAMES then Named(d) else Itself(d);
      assert input[i..i + 2] == [92, d];
    }
  }

  lemma LineFound(input: seq<Byte>, i: nat, del: Byte) returns (x: Part)
    requires i + 1 < |input| && input[i] == BACKSLASH != del && IsNewline(input[i + 1])
    ensures PartAt(input, i, x, del)
  {
    var d, e := input[i + 1], LineEnd(input, i + 1);
    if e == i + 2 {
      x := LineBreak([d]);
      assert input[i..i + 2] == [92, d] == Written(x);
    } else {
      x := LineBreak([d, input[i + 2]]);
      assert input[i..i + 3] == [92, d, input[i + 2]] == Written(x);
    }
  }

  lemma DigitsBack(a: nat, b: nat, c: nat)
    requires a < 10 && b < 10 && c < 10
    ensures var v := 100 * a + 10 * b + c; v % 10 == c && v / 10 % 10 == b && v / 10 / 10 % 10 == a
  {
    assert (100 * a + 10 * b + c) / 10 == 10 * a + b;
  }

  /** Digits that are read are those of their value. */
  lemma ShortDigits(input: seq<Byte>, i: nat) returns (v: nat, w: nat)
    requires Digit(Cur(input, i))
    ensures w == Digits(input, i) && v == Value(input, i, w) && i + w <= |input| && input[i..i + w] == DigitsOf(v, w)
    ensures v < if w == 1 then 10 else if w == 2 then 100 else 1000
  {
    hide DigitsOf, Value;
    w := Digits(input, i);
    ValueOf(input, i);
    v := Value(input, i, w);
    if w == 1 {
      OneDigit(v);
      assert input[i..i + 1] == [input[i]];
    } else if w == 2 {
      TwoDigits(v);
      DigitsBack(0, input[i] - 48, input[i + 1] - 48);
      assert input[i..i + 2] == [input[i], input[i + 1]];
    } else {
      ThreeDigits(v);
      DigitsBack(input[i] - 48, input[i + 1] - 48, input[i + 2] - 48);
      assert input[i..i + 3] == [input[i], input[i + 1], input[i + 2]];
    }
  }

  lemma DecimalFound(input: seq<Byte>, i: nat, line: int, del: Byte) returns (x: Part)
    requires Cur(input, i) != del && Cur(input, i) == BACKSLASH && Digit(Cur(input, i + 1))
    requires ReadOne(input, i, line).Saved?
    ensures PartAt(input, i, x, del)
  {
    var v, w := ShortDigits(input, i + 1);
    LettersAre(input[i + 1]);
    x := Decimal(v, w);
    DigitsLength(v, w);
    assert input[i..i + 1 + w] == [92] + input[i + 1..i + 1 + w];
  }

  lemma StuckMeans(input: seq<Byte>, j: nat, line: int, del: Byte, f: Fault)
    ensures Cur(input, j) != del && ReadOne(input, j, line) == Wrong(f) <==> Stuck(input, j, line, del, f)
  {
    if j + 1 < |input| { LettersAre(input[j + 1]); }
    if TooLarge(input, j) { LargeRead(input, j, line); }
    if j + 1 < |input| && input[j] == 92 && Digit(input[j + 1]) {
      var v, w := ShortDigits(input, j + 1);
      assert w == 3 ==> input[j..j + 4] == [92] + input[j + 1..j + 4];
    }
  }

  lemma LargeRead(input: seq<Byte>, j: nat, line: int)
    requires TooLarge(input, j)
    ensures ReadOne(input, j, line) == Wrong(EscapeTooLarge) && input[j] == 92 && Digit(Cur(input, j + 1))
  {
    var v :| 256 <= v < 1000 && input[j..j + 4] == [92] + DigitsOf(v, 3);
    DigitsLength(v, 3);
    assert input[j + 1..j + 4] == input[j..j + 4][1..] == DigitsOf(v, 3) && input[j] == input[j..j + 4][0];
    DigitsRead(input, j + 1, v, 3);
    LettersAre(input[j + 1]);
  }

  // ---------------------------------------------------------------- whole literals

  lemma {:induction false} SpelledProper(input: seq<Byte>, i: nat, xs: seq<Part>, j: nat, del: Byte)
    requires Spells(input, i, xs, j, del)
    ensures forall x <- xs :: Proper(x, del)
    decreases |xs|
  {
    hide Proper, Written, Apart;
    if xs != [] { SpelledProper(input, i + |Written(xs[0])|, xs[1..], j, del); }
  }

  lemma PrefixedBefore(c: Byte, text: seq<Byte>, t: Token)
    ensures Prefixed([c], Prefixed(text, t)) == Prefixed([c] + text, t)
  {
    if t.Read? { assert [c] + (text + t.text) == [c] + text + t.text; }
  }

  /** Whatever is behind the parts, the reader comes there with what they mean. */
  lemma {:induction false} PartsRead(input: seq<Byte>, i: nat, xs: seq<Part>, j: nat, line: int, del: Byte)
    requires Spells(input, i, xs, j, del) && (Breaks(xs) == 0 || line + Breaks(xs) < MAX_INT)
    ensures forall x <- xs :: Proper(x, del)
    ensures Scan(input, i, line, del) == Prefixed(Text(xs, del), Scan(input, j, line + Breaks(xs), del))
    decreases |xs|
  {
    hide ReadOne, PartAt, Scan, Proper, Written, Prefixed, Meant;
    SpelledProper(input, i, xs, j, del);
    var t := Scan(input, j, line + Breaks(xs), del);
    if xs == [] {
      NothingPrefixed(t);
    } else {
      var x, k := xs[0], i + |Written(xs[0])|;
      var line' := if x.LineBreak? then line + 1 else line;
      assert Breaks(xs) == Breaks(xs[1..]) + line' - line;
      PartRead(input, i, x, line, del);
      ScanStep(input, i, line, del);
      PartsRead(input, k, xs[1..], j, line', del);
      PrefixedBefore(Meant(x, del), Text(xs[1..], del), t);
    }
  }

  lemma NothingPrefixed(t: Token)
    ensures Prefixed([], t) == t
  {
    if t.Read? { assert [] + t.text == t.text; }
  }

  /** A literal written with the parts is read as the bytes they mean, and its lines are counted. */
  lemma LiteralRead(input: seq<Byte>, i: nat, xs: seq<Part>, j: nat, line: int, del: Byte)
    requires Spells(input, i, xs, j, del) && Next(input, j) == del
    requires Breaks(xs) == 0 || line + Breaks(xs) < MAX_INT
    ensures forall x <- xs :: Proper(x, del)
    ensures Scan(input, i, line, del) == Read(Text(xs, del), j + 1, line + Breaks(xs))
  {
    hide Scan, ReadOne, Spells;
    PartsRead(input, i, xs, j, line, del);
    ScanStep(input, j, line + Breaks(xs), del);
    assert Text(xs, del) + [] == Text(xs, del);
  }

  /** Where the parts end with neither a part nor the delimiter, that is the error. */
  lemma LiteralFails(input: seq<Byte>, i: nat, xs: seq<Part>, j: nat, line: int, del: Byte, f: Fault)
    requires Spells(input, i, xs, j, del) && (Breaks(xs) == 0 || line + Breaks(xs) < MAX_INT)
    requires Stuck(input, j, line + Breaks(xs), del, f)
    ensures Scan(input, i, line, del) == Failed(f)
  {
    hide Scan, ReadOne, Spells;
    PartsRead(input, i, xs, j, line, del);
    StuckMeans(input, j, line + Breaks(xs), del, f);
    ScanStep(input, j, line + Breaks(xs), del);
  }

  /** Every input is one or the other, so that the reader reads exactly the literals and fails exactly at the others. */
  lemma {:induction false} LiteralOrNot(input: seq<Byte>, i: nat, line: int, del: Byte) returns (xs: seq<Part>, j: nat)
    ensures Spells(input, i, xs, j, del) && (Breaks(xs) == 0 || line + Breaks(xs) < MAX_INT)
    ensures Next(input, j) == del || IsStuck(input, j, line + Breaks(xs), del)
    decreases |input| - i
  {
    hide ReadOne, PartAt, Stuck;
    xs, j := [], i;
    if Cur(input, i) == del {
      return;
    }
    var r := ReadOne(input, i, line);
    if r.Wrong? {
      StuckMeans(input, i, line, del, r.fault);
      return;
    }
    var x := PartFound(input, i, line, del);
    PartRead(input, i, x, line, del);
    var ys, k := LiteralOrNot(input, r.next, r.line, del);
    xs, j := [x] + ys, k;
    assert xs[1..] == ys;
  }

  /** What a literal of one named escape is read as. */
  lemma NamedRead(line: int)
    ensures Scan([QUOTE, BACKSLASH, 'a' as int, QUOTE], 1, line, QUOTE) == Read([7], 4, line)
    ensures Scan([QUOTE, BACKSLASH, 'b' as int, QUOTE], 1, line, QUOTE) == Read([8], 4, line)
    ensures Scan([QUOTE, BACKSLASH, 't' as int, QUOTE], 1, line, QUOTE) == Read([9], 4, line)
    ensures Scan([QUOTE, BACKSLASH, 'n' as int, QUOTE], 1, line, QUOTE) == Read([10], 4, line)
    ensures Scan([QUOTE, BACKSLASH, 'v' as int, QUOTE], 1, line, QUOTE) == Read([11], 4, line)
    ensures Scan([QUOTE, BACKSLASH, 'f' as int, QUOTE], 1, line, QUOTE) == Read([12], 4, line)
    ensures Scan([QUOTE, BACKSLASH, 'r' as int, QUOTE], 1, line, QUOTE) == Read([13], 4, line)
  {
    hide Scan;
    forall l | l in NAMES
      ensures Scan([QUOTE, BACKSLASH, l, QUOTE], 1, line, QUOTE) == Read([NAMES[l]], 4, line)
    {
      var input, xs := [QUOTE, BACKSLASH, l, QUOTE], [Named(l)];
      assert input[1..3] == Written(xs[0]) && xs[1..] == [] && Text([], QUOTE) == [];
      assert Spells(input, 3, [], 3, QUOTE) && Breaks(xs[1..]) == 0;
      LiteralRead(input, 1, xs, 3, line, QUOTE);
    }
  }
}
