/**
 The instructions that Lua's code generator emits for logical expressions, with the meaning that
 `lopcodes.h` gives them and `lvm.c` implements, and the expressions with the meaning that section
 2.5.3 of the Lua 5.1 Reference Manual gives them.

 Code under construction has jumps without a target yet. `exits` are those on the lists of an
 expression descriptor, and `here` those that wait for the next instruction. All targets lie ahead.
 */
module LuaVm {
  datatype Val = NilV | BoolV(b: bool) | Datum(id: nat)

  predicate Truthy(v: Val) { v != NilV && v != BoolV(false) }

  datatype Rel = Eq | Lt | Le

  /** What the order relations yield; errors and metamethods are left out. */
  datatype Order = Order(lt: (Val, Val) -> bool, le: (Val, Val) -> bool)

  function Holds(o: Order, rel: Rel, v: Val, w: Val): bool {
    match rel
    case Eq => v == w
    case Lt => o.lt(v, w)
    case Le => o.le(v, w)
  }

  // ---------------------------------------------------------------- expressions

  datatype CompOp = EQ | NE | LT | LE | GT | GE

  datatype Expr =
    | Nil | True | False
    | Numeral(v: Val) | Str(v: Val)
    | Local(r: nat)
    | Not(e: Expr)
    | And(a: Expr, b: Expr)
    | Or(a: Expr, b: Expr)
    | Comp(op: CompOp, a: Expr, b: Expr)

  type Regs = nat -> Val

  function Compared(o: Order, op: CompOp, v: Val, w: Val): bool {
    match op
    case EQ => v == w
    case NE => v != w
    case LT => o.lt(v, w)
    case LE => o.le(v, w)
    case GT => o.lt(w, v)
    case GE => o.le(w, v)
  }

  function Eval(o: Order, e: Expr, r: Regs): Val {
    match e
    case Nil => NilV
    case True => BoolV(true)
    case False => BoolV(false)
    case Numeral(v) => v
    case Str(v) => v
    case Local(i) => r(i)
    case Not(e) => BoolV(!Truthy(Eval(o, e, r)))
    case And(a, b) => if Truthy(Eval(o, a, r)) then Eval(o, b, r) else Eval(o, a, r)
    case Or(a, b) => if Truthy(Eval(o, a, r)) then Eval(o, a, r) else Eval(o, b, r)
    case Comp(op, a, b) => BoolV(Compared(o, op, Eval(o, a, r), Eval(o, b, r)))
  }

  /** Locals are below `n`, and the literals are true values, as numbers and strings are. */
  predicate Closed(e: Expr, n: nat) {
    match e
    case Numeral(v) => v.Datum?
    case Str(v) => v.Datum?
    case Local(i) => i < n
    case Not(e) => Closed(e, n)
    case And(a, b) => Closed(a, n) && Closed(b, n)
    case Or(a, b) => Closed(a, n) && Closed(b, n)
    case Comp(_, a, b) => Closed(a, n) && Closed(b, n)
    case _ => true
  }

  ghost predicate Keeps(r: Regs, r': Regs, n: nat) {
    forall i :: 0 <= i < n ==> r'(i) == r(i)
  }

  lemma {:induction false} SameLocals(o: Order, e: Expr, r: Regs, r': Regs, n: nat)
    requires Closed(e, n) && Keeps(r, r', n)
    ensures Eval(o, e, r') == Eval(o, e, r)
  {
    match e
    case Not(e) => SameLocals(o, e, r, r', n);
    case And(a, b) => SameLocals(o, a, r, r', n); SameLocals(o, b, r, r', n);
    case Or(a, b) => SameLocals(o, a, r, r', n); SameLocals(o, b, r, r', n);
    case Comp(_, a, b) => SameLocals(o, a, r, r', n); SameLocals(o, b, r, r', n);
    case _ =>
  }

  // ---------------------------------------------------------------- instructions

  datatype RK = Reg(r: nat) | Kst(k: nat)
  datatype Target = NoReg | To(r: nat)

  datatype Instr =
    | Move(a: nat, b: nat)
    | LoadK(a: nat, k: nat)
    | LoadBool(a: nat, v: bool, skip: bool)
    | LoadNil(a: nat, b: nat)
    | NotOp(a: nat, b: nat)
    | Jmp(sbx: int)
    | Compare(rel: Rel, cond: bool, x: RK, y: RK)
    | Test(a: nat, c: bool)
    | TestSet(t: Target, b: nat, c: bool)

  predicate IsTest(i: Instr) { i.Compare? || i.Test? || i.TestSet? }

  function Put(r: Regs, a: nat, v: Val): Regs { (i: nat) => if i == a then v else r(i) }

  function Nils(r: Regs, a: nat, b: nat): Regs { (i: nat) => if a <= i <= b then NilV else r(i) }

  function Operand(k: seq<Val>, r: Regs, x: RK): Val {
    match x
    case Reg(i) => r(i)
    case Kst(i) => if i < |k| then k[i] else NilV
  }

  /** Whether a test lets the jump behind it happen. */
  function Accepts(o: Order, k: seq<Val>, i: Instr, r: Regs): bool
    requires IsTest(i)
  {
    match i
    case Compare(rel, cond, x, y) => Holds(o, rel, Operand(k, r, x), Operand(k, r, y)) == cond
    case Test(a, c) => Truthy(r(a)) == c
    case TestSet(_, b, c) => Truthy(r(b)) == c
  }

  /** What the test leaves behind when it accepts. */
  function Accepted(i: Instr, r: Regs): Regs {
    if i.TestSet? && i.t.To? then Put(r, i.t.r, r(i.b)) else r
  }

  datatype Outcome = Fall(r: Regs) | Exit(at: nat, r: Regs) | Wrong

  datatype Machine = Machine(o: Order, k: seq<Val>)

  /** Run `code` from `pc` until its end or an exit. */
  function Exec(m: Machine, code: seq<Instr>, exits: set<nat>, here: set<nat>, pc: int, r: Regs): Outcome
    decreases |code| - pc
  {
    if pc < 0 || pc > |code| then Wrong
    else if pc == |code| then Fall(r)
    else match code[pc]
      case Move(a, b) => Exec(m, code, exits, here, pc + 1, Put(r, a, r(b)))
      case LoadK(a, i) => if i < |m.k| then Exec(m, code, exits, here, pc + 1, Put(r, a, m.k[i])) else Wrong
      case LoadBool(a, v, skip) => Exec(m, code, exits, here, if skip then pc + 2 else pc + 1, Put(r, a, BoolV(v)))
      case LoadNil(a, b) => Exec(m, code, exits, here, pc + 1, Nils(r, a, b))
      case NotOp(a, b) => Exec(m, code, exits, here, pc + 1, Put(r, a, BoolV(!Truthy(r(b)))))
      case Jmp(s) =>
        if pc in exits then Wrong
        else if pc in here then Fall(r)
        else if s >= 0 then Exec(m, code, exits, here, pc + 1 + s, r) else Wrong
      case Compare(_, _, _, _) => ExecTest(m, code, exits, here, pc, r)
      case Test(_, _) => ExecTest(m, code, exits, here, pc, r)
      case TestSet(_, _, _) => ExecTest(m, code, exits, here, pc, r)
  }

  /** A test and the jump behind it are one step, as in the interpreter. */
  function ExecTest(m: Machine, code: seq<Instr>, exits: set<nat>, here: set<nat>, pc: int, r: Regs): Outcome
    requires 0 <= pc < |code| && IsTest(code[pc])
    decreases |code| - pc, 0
  {
    if pc + 1 >= |code| || !code[pc + 1].Jmp? then Wrong
    else if !Accepts(m.o, m.k, code[pc], r) then Exec(m, code, exits, here, pc + 2, r)
    else
      var r' := Accepted(code[pc], r);
      if pc + 1 in exits then Exit(pc + 1, r')
      else if pc + 1 in here then Fall(r')
      else if code[pc + 1].sbx >= 0 then Exec(m, code, exits, here, pc + 2 + code[pc + 1].sbx, r') else Wrong
  }

  // ---------------------------------------------------------------- what the instructions are

  /** Both nil and false are false, and everything else is true; `not`, `and` and `or` follow that. */
  lemma TruthIs(o: Order, a: Expr, b: Expr, r: Regs)
    ensures var v, w := Eval(o, a, r), Eval(o, b, r);
            && Eval(o, And(a, b), r) == (if v == NilV || v == BoolV(false) then v else w)
            && Eval(o, Or(a, b), r) == (if v == NilV || v == BoolV(false) then w else v)
            && Eval(o, Not(a), r) == BoolV(v == NilV || v == BoolV(false))
  {
  }

  /** The run ends behind the code with `v` in register `a` and the other registers as they were. */
  ghost predicate Leaves(out: Outcome, r: Regs, a: nat, v: Val) {
    out.Fall? && forall i: nat :: out.r(i) == if i == a then v else r(i)
  }

  /** A test and two more instructions: a jump behind the last, which the test takes exactly if `jumps`, and a move. */
  ghost predicate Jumps(m: Machine, test: Instr, r: Regs, a: nat, d: nat, jumps: bool) {
    Leaves(Exec(m, [test, Jmp(1), Move(a, d)], {}, {}, 0, r), r, a, if jumps then r(a) else r(d))
  }

  lemma TestDecides(m: Machine, test: Instr, r: Regs, a: nat, d: nat)
    requires IsTest(test) && Accepted(test, r) == r
    ensures Jumps(m, test, r, a, d, Accepts(m.o, m.k, test, r))
  {
    hide Accepts, Accepted;
    var code := [test, Jmp(1), Move(a, d)];
    var r' := Put(r, a, r(d));
    assert Exec(m, code, {}, {}, 3, r) == Fall(r) && Exec(m, code, {}, {}, 3, r') == Fall(r');
    assert Exec(m, code, {}, {}, 2, r) == Exec(m, code, {}, {}, 3, r');
    assert Exec(m, code, {}, {}, 0, r) == ExecTest(m, code, {}, {}, 0, r);
  }

  /** The tests: the jump behind one is taken exactly if the outcome is the one asked for. */
  lemma TestsAre(m: Machine, r: Regs, a: nat, b: nat, d: nat, x: nat, y: nat, c: bool)
    ensures var isTrue := !(r(b) == NilV || r(b) == BoolV(false));
            Jumps(m, Test(b, c), r, a, d, isTrue == c)
    ensures Jumps(m, Compare(Eq, c, Reg(x), Reg(y)), r, a, d, (r(x) == r(y)) == c)
    ensures Jumps(m, Compare(Lt, c, Reg(x), Reg(y)), r, a, d, m.o.lt(r(x), r(y)) == c)
    ensures Jumps(m, Compare(Le, c, Reg(x), Reg(y)), r, a, d, m.o.le(r(x), r(y)) == c)
  {
    hide Jumps;
    TestDecides(m, Test(b, c), r, a, d);
    TestDecides(m, Compare(Eq, c, Reg(x), Reg(y)), r, a, d);
    TestDecides(m, Compare(Lt, c, Reg(x), Reg(y)), r, a, d);
    TestDecides(m, Compare(Le, c, Reg(x), Reg(y)), r, a, d);
  }

  /** A test that keeps the value moves it exactly if the jump is taken. */
  lemma TestSetIs(m: Machine, r: Regs, a: nat, b: nat, c: bool)
    ensures var isTrue := !(r(b) == NilV || r(b) == BoolV(false));
            Leaves(Exec(m, [TestSet(To(a), b, c), Jmp(0)], {}, {}, 0, r), r, a, if isTrue == c then r(b) else r(a))
  {
    var code := [TestSet(To(a), b, c), Jmp(0)];
    var r' := Put(r, a, r(b));
    assert Exec(m, code, {}, {}, 2, r) == Fall(r) && Exec(m, code, {}, {}, 2, r') == Fall(r');
    assert Exec(m, code, {}, {}, 0, r) == ExecTest(m, code, {}, {}, 0, r);
  }

  /** The loads, the logical negation, and the skip of a load of a boolean. */
  lemma LoadsAre(m: Machine, r: Regs, a: nat, b: nat, d: nat, k: nat, v: bool)
    ensures k < |m.k| ==> Leaves(Exec(m, [LoadK(a, k)], {}, {}, 0, r), r, a, m.k[k])
    ensures Leaves(Exec(m, [NotOp(a, b)], {}, {}, 0, r), r, a, BoolV(r(b) == NilV || r(b) == BoolV(false)))
    ensures Leaves(Exec(m, [LoadBool(a, v, true), Move(b, d)], {}, {}, 0, r), r, a, BoolV(v))
    ensures Leaves(Exec(m, [LoadBool(a, v, false)], {}, {}, 0, r), r, a, BoolV(v))
    ensures var out := Exec(m, [LoadNil(a, b)], {}, {}, 0, r);
            out.Fall? && forall i: nat :: out.r(i) == if a <= i <= b then NilV else r(i)
  {
  }

  // ---------------------------------------------------------------- code that is being completed

  /** A later form of a test: the value it would keep may have been dropped or given a register. */
  predicate SameTest(i: Instr, i': Instr) {
    || i' == i
    || (i.TestSet? && i'.Test? && i'.a == i.b && i'.c == i.c)
    || (i.TestSet? && i'.TestSet? && i'.b == i.b && i'.c == i.c)
  }

  /** The later form keeps the same value, which is none unless it has a register already. */
  predicate SameKeep(i: Instr, i': Instr) {
    i' == i || (i.TestSet? && i.t == NoReg && i'.Test?)
  }

  /** Where the end of `code` leads nowhere else in `code'`: jumps may keep waiting. */
  predicate Stops(code: seq<Instr>, code': seq<Instr>, exits': set<nat>, here': set<nat>) {
    var n := |code|;
    |code'| == n || (|code'| > n && code'[n].Jmp? && n in here' && n !in exits')
  }

  /** How the jump at `p` may have been completed. */
  predicate SameJump(code: seq<Instr>, exits: set<nat>, here: set<nat>, code': seq<Instr>, exits': set<nat>,
                     here': set<nat>, p: nat)
    requires p < |code| <= |code'| && code[p].Jmp?
  {
    && code'[p].Jmp?
    && if p in exits then p in exits' || (p !in here' && code'[p].sbx >= 0)
       else
         && p !in exits'
         && if p in here then
              if p in here' then Stops(code, code', exits', here') else code'[p].sbx == |code| - p - 1
            else p !in here' && code'[p] == code[p]
  }

  /** `code'` completes `code` at `p`. */
  predicate CompletesAt(code: seq<Instr>, exits: set<nat>, here: set<nat>, code': seq<Instr>, exits': set<nat>,
                        here': set<nat>, p: nat)
    requires p < |code| <= |code'|
  {
    if code[p].Jmp? then SameJump(code, exits, here, code', exits', here', p)
    else if IsTest(code[p]) then
      && IsTest(code'[p]) && SameTest(code[p], code'[p])
      && if p + 1 < |code| && p + 1 in exits && p + 1 !in exits' then !(code[p].TestSet? && code[p].t.To?)
         else SameKeep(code[p], code'[p])
    else code'[p] == code[p]
  }

  predicate Completes(code: seq<Instr>, exits: set<nat>, here: set<nat>, code': seq<Instr>, exits': set<nat>,
                      here': set<nat>, lo: nat) {
    |code| <= |code'| && forall p: nat :: lo <= p < |code| ==> CompletesAt(code, exits, here, code', exits', here', p)
  }

  /** How a run goes on in the completed code from where it left the old code. */
  function GoOn(m: Machine, code': seq<Instr>, exits': set<nat>, here': set<nat>, n: nat, out: Outcome): Outcome {
    match out
    case Fall(r) => Exec(m, code', exits', here', n, r)
    case Exit(j, r) =>
      if j in exits' then out
      else if 0 < j < |code'| && code'[j].Jmp? then
        Exec(m, code', exits', here', j + 1 + code'[j].sbx, Accepted(code'[j - 1], r))
      else Wrong
    case Wrong => Wrong
  }

  /** Completing code does not change its runs, except that they go on. */
  lemma {:induction false} CompletedRuns(m: Machine, code: seq<Instr>, exits: set<nat>, here: set<nat>,
                                         code': seq<Instr>, exits': set<nat>, here': set<nat>, lo: nat, pc: int,
                                           r: Regs)
    requires Completes(code, exits, here, code', exits', here', lo) && lo <= pc
    requires Exec(m, code, exits, here, pc, r) != Wrong
    ensures Exec(m, code', exits', here', pc, r) ==
            GoOn(m, code', exits', here', |code|, Exec(m, code, exits, here, pc, r))
    decreases |code| - pc
  {
    if pc < |code| {
      assert CompletesAt(code, exits, here, code', exits', here', pc);
      match code[pc]
      case Move(a, b) => CompletedRuns(m, code, exits, here, code', exits', here', lo, pc + 1, Put(r, a, r(b)));
      case LoadK(a, i) => CompletedRuns(m, code, exits, here, code', exits', here', lo, pc + 1, Put(r, a, m.k[i]));
      case LoadBool(a, v, skip) =>
        CompletedRuns(m, code, exits, here, code', exits', here', lo, if skip then pc + 2 else pc + 1,
          Put(r, a, BoolV(v)));
      case LoadNil(a, b) => CompletedRuns(m, code, exits, here, code', exits', here', lo, pc + 1, Nils(r, a, b));
      case NotOp(a, b) => CompletedRuns(m, code, exits, here, code', exits', here', lo, pc + 1,
        Put(r, a, BoolV(!Truthy(r(b)))));
      case Jmp(s) =>
        if pc !in here { CompletedRuns(m, code, exits, here, code', exits', here', lo, pc + 1 + s, r); }
      case _ => CompletedTest(m, code, exits, here, code', exits', here', lo, pc, r);
    }
  }

  lemma {:induction false} CompletedTest(m: Machine, code: seq<Instr>, exits: set<nat>, here: set<nat>,
                                         code': seq<Instr>, exits': set<nat>, here': set<nat>, lo: nat, pc: int,
                                           r: Regs)
    requires Completes(code, exits, here, code', exits', here', lo) && lo <= pc < |code| && IsTest(code[pc])
    requires Exec(m, code, exits, here, pc, r) != Wrong
    ensures Exec(m, code', exits', here', pc, r) ==
            GoOn(m, code', exits', here', |code|, Exec(m, code, exits, here, pc, r))
    decreases |code| - pc, 0
  {
    assert CompletesAt(code, exits, here, code', exits', here', pc);
    assert CompletesAt(code, exits, here, code', exits', here', pc + 1);
    if !Accepts(m.o, m.k, code[pc], r) {
      CompletedRuns(m, code, exits, here, code', exits', here', lo, pc + 2, r);
    } else if pc + 1 !in exits && pc + 1 !in here {
      CompletedRuns(m, code, exits, here, code', exits', here', lo, pc + 2 + code[pc + 1].sbx, Accepted(code[pc], r));
    }
  }
}
