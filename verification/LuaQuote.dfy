/**
 The `%q` format of `string.format` (`lstrlib.c`) and the lexer's reader of quoted strings (`llex.c`),
 which is meant to read back what `%q` writes.
 */
module LuaQuote {
  import opened LuaPattern

  const QUOTE: Byte := '\"' as int
  const BACKSLASH: Byte := '\\' as int
  const NEWLINE: Byte := 10
  const RETURN: Byte := 13
  const EOZ: int := -1
  const MAX_INT: int := 0x7FFF_FFFD

  // ---------------------------------------------------------------- %q

  function QuotedByte(c: Byte): seq<Byte> {
    if c == QUOTE || c == BACKSLASH || c == NEWLINE then [BACKSLASH, c]
    else if c == RETURN then [BACKSLASH, 'r' as int]
    else if c == 0 then [BACKSLASH, '0' as int, '0' as int, '0' as int]
    else [c]
  }

  function QuotedBytes(s: seq<Byte>): seq<Byte> {
    if s == [] then [] else QuotedByte(s[0]) + QuotedBytes(s[1..])
  }

  function Quoted(s: seq<Byte>): seq<Byte> { [QUOTE] + QuotedBytes(s) + [QUOTE] }

  lemma QuotedRest(s: seq<Byte>, i: nat)
    requires i < |s|
    ensures QuotedBytes(s[i..]) == QuotedByte(s[i]) + QuotedBytes(s[i + 1..])
  {
    assert s[i..][1..] == s[i + 1..];
  }

  lemma QuotedNothing()
    ensures QuotedBytes([]) == []
  {
  }

  /** `addquoted`. */
  method AddQuoted(s: seq<Byte>) returns (b: seq<Byte>)
    ensures b == Quoted(s)
  {
    hide QuotedBytes;
    b := [QUOTE];
    var i := 0;
    assert s[0..] == s;
    while i < |s|
      invariant 0 <= i <= |s| && [QUOTE] + QuotedBytes(s) == b + QuotedBytes(s[i..])
    {
      ghost var before := b;
      QuotedRest(s, i);
      if s[i] == QUOTE || s[i] == BACKSLASH || s[i] == NEWLINE {
        b := b + [BACKSLASH];
        b := b + [s[i]];
      } else if s[i] == RETURN {
        b := b + [BACKSLASH, 'r' as int];
      } else if s[i] == 0 {
        b := b + [BACKSLASH, '0' as int, '0' as int, '0' as int];
      } else {
        b := b + [s[i]];
      }
      assert b == before + QuotedByte(s[i]);
      i := i + 1;
    }
    QuotedNothing();
    assert s[i..] == [] && b + [] == b;
    b := b + [QUOTE];
  }

  // ---------------------------------------------------------------- reading

  datatype Fault = UnfinishedString | EscapeTooLarge | TooManyLines

  /**
   What one round of the reader's loop makes of the input: a byte saved, with the position and line behind it, or an
   error.
   */
  datatype Step = Saved(c: Byte, next: nat, line: int) | Wrong(fault: Fault)

  function Cur(input: seq<Byte>, i: nat): int { if i < |input| then input[i] else EOZ }

  predicate IsNewline(c: int) { c == NEWLINE || c == RETURN }

  predicate Digit(c: int) { '0' as int <= c <= '9' as int }

  /** How many digits, at most three, an escape at `i` has. */
  function Digits(input: seq<Byte>, i: nat): (n: nat)
    ensures n <= 3 && (n > 0 ==> i + n <= |input|)
  {
    if !Digit(Cur(input, i)) then 0 else if !Digit(Cur(input, i + 1)) then 1 else if !Digit(Cur(input, i + 2)) then 2
      else 3
  }

  /** The decimal value of `n` digits. */
  function Value(input: seq<Byte>, i: nat, n: nat): int {
    if n == 0 then 0 else 10 * Value(input, i, n - 1) + (Cur(input, i + n - 1) - '0' as int)
  }

  /** The end of a line at `i`: one character, or two different ones. */
  function LineEnd(input: seq<Byte>, i: nat): nat {
    if IsNewline(Cur(input, i + 1)) && Cur(input, i + 1) != Cur(input, i) then i + 2 else i + 1
  }

  function Letter(c: int): (r: int) {
    if c == 'a' as int then 7 else if c == 'b' as int then 8 else if c == 'f' as int then 12
      else if c == 'n' as int then 10
    else if c == 'r' as int then 13 else if c == 't' as int then 9 else if c == 'v' as int then 11 else -1
  }

  /** The escape whose backslash is before `i`. */
  function Escape(input: seq<Byte>, i: nat, line: int): (r: Step)
    ensures r.Saved? ==> i < r.next <= |input|
  {
    var c := Cur(input, i);
    if c == EOZ then Wrong(UnfinishedString)
    else if Letter(c) >= 0 then Saved(Letter(c), i + 1, line)
    else if IsNewline(c) then if line + 1 >= MAX_INT then Wrong(TooManyLines)
      else Saved(NEWLINE, LineEnd(input, i), line + 1)
    else if !Digit(c) then Saved(c, i + 1, line)
    else var v := Value(input, i, Digits(input, i)); if 0 <= v < 256 then Saved(v, i + Digits(input, i), line)
      else Wrong(EscapeTooLarge)
  }

  function ReadOne(input: seq<Byte>, i: nat, line: int): (r: Step)
    ensures r.Saved? ==> i < r.next <= |input|
  {
    var c := Cur(input, i);
    if c == EOZ || IsNewline(c) then Wrong(UnfinishedString)
    else if c == BACKSLASH then Escape(input, i + 1, line)
    else Saved(c, i + 1, line)
  }

  datatype Token = Read(text: seq<Byte>, next: nat, line: int) | Failed(fault: Fault)

  /** The string that ends at the first delimiter from `i` on that is not escaped. */
  function Scan(input: seq<Byte>, i: nat, line: int, del: Byte): Token
    decreases |input| - i
  {
    if Cur(input, i) == del then Read([], i + 1, line) else
    match ReadOne(input, i, line)
    case Wrong(f) => Failed(f)
    case Saved(c, next, line') =>
      var t := Scan(input, next, line', del);
      if t.Failed? then t else t.(text := [c] + t.text)
  }

  class LexState {
    const input: seq<Byte>
    /** The position of the current character. */
    var pos: nat
    var linenumber: int
    var buff: seq<Byte>

    constructor (input: seq<Byte>)
      ensures this.input == input && pos == 0 && linenumber == 1 && buff == []
    {
      this.input, pos, linenumber, buff := input, 0, 1, [];
    }

    function Current(): int
      reads this
    {
      Cur(input, pos)
    }

    /** `inclinenumber`. */
    method IncLineNumber() returns (ok: bool)
      requires IsNewline(Current())
      modifies this`pos, this`linenumber
      ensures ok == (old(linenumber) + 1 < MAX_INT) && pos == LineEnd(input, old(pos))
              && linenumber == old(linenumber) + 1
    {
      var old' := Current();
      pos := pos + 1;
      if IsNewline(Current()) && Current() != old' {
        pos := pos + 1;
      }
      linenumber := linenumber + 1;
      ok := linenumber < MAX_INT;
    }

    /** The digits of a decimal escape. */
    method ReadDigits() returns (c: int)
      requires Digit(Current())
      modifies this`pos
      ensures pos == old(pos) + Digits(input, old(pos)) && c == Value(input, old(pos), Digits(input, old(pos))) >= 0
    {
      ghost var p := pos;
      var i := 0;
      c := 0;
      while i < 3 && Digit(Current())
        invariant 0 <= i <= 3 && pos == p + i && c == Value(input, p, i) >= 0 && i <= Digits(input, p)
      {
        c := 10 * c + (Current() - '0' as int);
        pos := pos + 1;
        i := i + 1;
      }
    }

    /** What follows a backslash; false, with the error, if that is not to be read. */
    method ReadEscape() returns (ok: bool, fault: Fault)
      modifies this`pos, this`linenumber, this`buff
      ensures ok ==> |buff| == |old(buff)| + 1 && buff[..|old(buff)|] == old(buff)
      ensures ok ==> Escape(input, old(pos), old(linenumber)) == Saved(buff[|old(buff)|], pos, linenumber)
      ensures !ok ==> Escape(input, old(pos), old(linenumber)) == Wrong(fault)
    {
      ok, fault := true, UnfinishedString;
      if Current() == EOZ {
        ok := false;
      } else if Letter(Current()) >= 0 {
        buff, pos := buff + [Letter(Current())], pos + 1;
      } else if IsNewline(Current()) {
        buff := buff + [NEWLINE];
        ok := IncLineNumber();
        fault := TooManyLines;
      } else if !Digit(Current()) {
        buff, pos := buff + [Current()], pos + 1;
      } else {
        var c := ReadDigits();
        if c >= 256 {
          return false, EscapeTooLarge;
        }
        buff := buff + [c];
      }
    }

    /** `read_string`: the text between the delimiters, which are in the buffer too. */
    method ReadString(del: Byte) returns (t: Token)
      requires Current() == del && buff == []
      modifies this`pos, this`linenumber, this`buff
      ensures t == Scan(input, old(pos) + 1, old(linenumber), del)
      ensures t.Read? ==> pos == t.next && linenumber == t.line
    {
      hide Escape, Scan;
      ghost var want := Scan(input, pos + 1, linenumber, del);
      buff, pos := buff + [del], pos + 1;
      while Current() != del
        invariant |buff| > 0 && want == Prefixed(buff[1..], Scan(input, pos, linenumber, del))
        decreases |input| - pos
      {
        ScanStep(input, pos, linenumber, del);
        if Current() == EOZ || IsNewline(Current()) {
          return Failed(UnfinishedString);
        }
        ghost var b := buff;
        if Current() == BACKSLASH {
          pos := pos + 1;
          var ok, fault := ReadEscape();
          if !ok {
            return Failed(fault);
          }
        } else {
          buff, pos := buff + [Current()], pos + 1;
        }
        assert buff[1..] == b[1..] + [buff[|b|]];
        PrefixedTwice(b[1..], buff[|b|], Scan(input, pos, linenumber, del));
      }
      ScanStep(input, pos, linenumber, del);
      buff, pos := buff + [del], pos + 1;
      assert buff[1..|buff| - 1] + [] == buff[1..|buff| - 1];
      t := Read(buff[1..|buff| - 1], pos, linenumber);
    }
  }

  function Prefixed(text: seq<Byte>, t: Token): Token { if t.Failed? then t else t.(text := text + t.text) }

  lemma ScanStep(input: seq<Byte>, i: nat, line: int, del: Byte)
    ensures Scan(input, i, line, del) ==
            if Cur(input, i) == del then Read([], i + 1, line)
            else if ReadOne(input, i, line).Wrong? then Failed(ReadOne(input, i, line).fault)
            else var x := ReadOne(input, i, line); Prefixed([x.c], Scan(input, x.next, x.line, del))
  {
  }

  lemma PrefixedTwice(text: seq<Byte>, c: Byte, t: Token)
    ensures Prefixed(text, Prefixed([c], t)) == Prefixed(text + [c], t)
  {
    if t.Read? { assert text + ([c] + t.text) == text + [c] + t.text; }
  }

  // ---------------------------------------------------------------- the round trip

  function Newlines(s: seq<Byte>): nat { if s == [] then 0 else Newlines(s[1..]) + if s[0] == NEWLINE then 1 else 0 }

  /** The line numbers do not run out. */
  predicate LinesLeft(s: seq<Byte>, line: int) { Newlines(s) == 0 || line + Newlines(s) < MAX_INT }

  lemma FirstQuoted(s: seq<Byte>, rest: seq<Byte>)
    ensures var q := QuotedBytes(s) + [QUOTE] + rest; !IsNewline(q[0])
  {
    if s != [] { assert QuotedBytes(s) == QuotedByte(s[0]) + QuotedBytes(s[1..]); }
  }

  /** One byte of the original, whatever follows its quoted form. */
  lemma ReadQuoted(input: seq<Byte>, i: nat, c: Byte, line: int)
    requires i + |QuotedByte(c)| < |input| && input[i..i + |QuotedByte(c)|] == QuotedByte(c)
             && !IsNewline(input[i + |QuotedByte(c)|])
    ensures ReadOne(input, i, line) ==
            if c == NEWLINE && line + 1 >= MAX_INT then Wrong(TooManyLines)
            else Saved(c, i + |QuotedByte(c)|, if c == NEWLINE then line + 1 else line)
    ensures Cur(input, i) != QUOTE
  {
    var q := QuotedByte(c);
    assert input[i] == input[i..i + |q|][0] == q[0];
    assert |q| > 1 ==> input[i + 1] == input[i..i + |q|][1] == q[1];
    if c == 0 {
      assert input[i + 2] == input[i..i + |q|][2] == q[2] && input[i + 3] == input[i..i + |q|][3] == q[3];
      assert Digits(input, i + 1) == 3;
      assert Value(input, i + 1, 0) == 0 && Value(input, i + 1, 1) == 0 && Value(input, i + 1, 2) == 0
        && Value(input, i + 1, 3) == 0;
    }
  }

  lemma {:induction false} ScanQuoted(input: seq<Byte>, i: nat, s: seq<Byte>, line: int)
    requires i <= |input| && QuotedBytes(s) + [QUOTE] <= input[i..]
    ensures Scan(input, i, line, QUOTE) ==
            if LinesLeft(s, line) then Read(s, i + |QuotedBytes(s)| + 1, line + Newlines(s)) else Failed(TooManyLines)
    decreases |s|
  {
    hide ReadOne, QuotedByte;
    var all := QuotedBytes(s) + [QUOTE];
    assert forall k :: 0 <= k < |all| ==> input[i..][k] == input[i + k] == all[k];
    if s != [] {
      var q, rest := QuotedByte(s[0]), QuotedBytes(s[1..]) + [QUOTE];
      assert all == q + rest;
      FirstQuoted(s[1..], []);
      assert rest == QuotedBytes(s[1..]) + [QUOTE] + [];
      assert rest[0] == input[i + |q|] && input[i..i + |q|] == q;
      ReadQuoted(input, i, s[0], line);
      assert rest <= input[i + |q|..] by {
        assert forall k :: 0 <= k < |rest| ==> rest[k] == all[|q| + k] == input[i + |q| + k];
      }
      ScanQuoted(input, i + |q|, s[1..], if s[0] == NEWLINE then line + 1 else line);
      assert [s[0]] + s[1..] == s;
    }
  }

  /** Reading back what `%q` wrote gives the string, with the lines counted, unless there are too many lines. */
  lemma QuoteRoundTrip(s: seq<Byte>, before: seq<Byte>, after: seq<Byte>, line: int)
    ensures Scan(before + Quoted(s) + after, |before| + 1, line, QUOTE) ==
            if LinesLeft(s, line) then Read(s, |before| + |Quoted(s)|, line + Newlines(s)) else Failed(TooManyLines)
  {
    var input := before + Quoted(s) + after;
    assert input[|before| + 1..] == QuotedBytes(s) + [QUOTE] + after;
    ScanQuoted(input, |before| + 1, s, line);
  }

  /** `%q` and then the lexer, from the first line of a chunk. */
  method ReadBack(s: seq<Byte>) returns (t: Token)
    ensures LinesLeft(s, 1) ==> t.Read? && t.text == s
    ensures !LinesLeft(s, 1) ==> t == Failed(TooManyLines)
  {
    hide Scan;
    var q := AddQuoted(s);
    var ls := new LexState(q);
    assert [] + Quoted(s) + [] == q;
    QuoteRoundTrip(s, [], [], 1);
    t := ls.ReadString(QUOTE);
  }

  function Lines(n: nat): seq<Byte> { seq(n, _ => NEWLINE) }

  lemma {:induction false} ManyLines(n: nat)
    ensures Newlines(Lines(n)) == n
  {
    if n > 0 {
      ManyLines(n - 1);
      assert Lines(n)[1..] == Lines(n - 1);
    }
  }

  /** A string of `MAX_INT - 1` newlines is quoted, but not read back. */
  lemma TooManyLinesFail()
    ensures Scan(Quoted(Lines(MAX_INT - 1)), 1, 1, QUOTE) == Failed(TooManyLines)
  {
    hide Lines, Scan, Quoted;
    var s := Lines(MAX_INT - 1);
    ManyLines(MAX_INT - 1);
    assert [] + Quoted(s) + [] == Quoted(s);
    QuoteRoundTrip(s, [], [], 1);
  }
}
