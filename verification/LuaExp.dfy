/**
 What an expression descriptor (`expdesc` of `lparser.h`) means at a point of the compilation: how
 the code so far and the jumps still open add up to the value of the expression.
 */
module LuaExp {
  import opened LuaVm
  import opened LuaJumps

  datatype Kind =
    | VNil | VTrue | VFalse
    | VK(i: nat) | VKNum(v: Val)
    | VLocal(r: nat) | VNonReloc(r: nat)
    | VReloc(pc: nat) | VJmp(pc: nat)

  datatype Exp = Exp(k: Kind, t: int, f: int)

  /** The members of the two lists of a descriptor. */
  datatype Lists = Lists(ts: seq<nat>, fs: seq<nat>)

  function Exits(x: Lists): set<nat> { Elems(x.ts) + Elems(x.fs) }

  /** How many instructions at the end still wait for their target register or their use. */
  function Suspended(k: Kind): nat {
    match k
    case VReloc(_) => 1
    case VJmp(_) => 2
    case _ => 0
  }

  predicate Unkept(i: Instr) { i.TestSet? ==> i.t == NoReg }

  /** A jump on one of the lists has its test before it, which has no register yet. */
  predicate Conditional(code: seq<Instr>, j: nat, lo: nat, hi: nat) {
    lo < j < hi <= |code| && code[j].Jmp? && IsTest(code[j - 1]) && Unkept(code[j - 1])
  }

  predicate Open(code: seq<Instr>, d: Exp, x: Lists, lo: nat) {
    && Chain(code, d.t, x.ts) && Chain(code, d.f, x.fs) && Elems(x.ts) !! Elems(x.fs)
    && Suspended(d.k) <= |code|
    && forall j <- Exits(x) :: Conditional(code, j, lo, |code| - Suspended(d.k))
  }

  /** Code never stops between a test and its jump. */
  predicate Ended(code: seq<Instr>, lo: nat) { |code| > lo ==> !IsTest(code[|code| - 1]) }

  /** The waiting jumps. They belong to the code from `lo` on, if there is any. */
  predicate Waiting(code: seq<Instr>, js: seq<nat>, x: Lists, lo: nat) {
    && Elems(js) !! Exits(x)
    && forall j <- js :: j < |code| && code[j].Jmp? && (j >= 1 ==> Unkept(code[j - 1])) && (|code| > lo ==> j > lo)
  }

  /** What a kind says about the code and the constants. */
  predicate Fitting(code: seq<Instr>, js: seq<nat>, k: seq<Val>, kind: Kind, lo: nat, nactvar: nat, base: nat) {
    match kind
    case VK(i) => i < |k| && k[i].Datum?
    case VKNum(v) => v.Datum?
    case VLocal(r) => r < nactvar
    case VNonReloc(r) => r < nactvar || r == base
    case VReloc(pc) => lo <= pc == |code| - 1 && code[pc].NotOp? && js == []
    case VJmp(pc) => lo < pc == |code| - 1 && code[pc] == Jmp(NO_JUMP) && code[pc - 1].Compare? && js == []
    case _ => true
  }

  /** The value of a descriptor once control gets to the end of its code with these registers. */
  function ValueOf(m: Machine, code: seq<Instr>, kind: Kind, r: Regs): Val {
    match kind
    case VNil => NilV
    case VTrue => BoolV(true)
    case VFalse => BoolV(false)
    case VK(i) => if i < |m.k| then m.k[i] else NilV
    case VKNum(v) => v
    case VLocal(i) => r(i)
    case VNonReloc(i) => r(i)
    case VReloc(pc) => if pc < |code| && code[pc].NotOp? then BoolV(!Truthy(r(code[pc].b))) else NilV
    case VJmp(pc) => if 0 < pc <= |code| && IsTest(code[pc - 1]) then BoolV(Accepts(m.o, m.k, code[pc - 1], r))
      else NilV
  }

  /** The value with which the jump `j` leaves, if it does not keep one. */
  function ExitValue(code: seq<Instr>, j: nat, b: bool, r: Regs): Val {
    if KeepsValue(code, j) then r(code[j - 1].b) else BoolV(b)
  }

  predicate ExitOk(code: seq<Instr>, x: Lists, j: nat, r: Regs, v: Val) {
    if j in x.ts then Truthy(v) && v == ExitValue(code, j, true, r)
    else j in x.fs && !Truthy(v) && v == ExitValue(code, j, false, r)
  }

  ghost predicate KeepsBut(r: Regs, r': Regs, n: nat, but: Target) {
    forall i :: 0 <= i < n && but != To(i) ==> r'(i) == r(i)
  }

  /** Started at `lo`, the code computes `e`, and leaves registers below `keep` alone (but one on the way through). */
  ghost predicate Means(m: Machine, code: seq<Instr>, js: seq<nat>, kind: Kind, x: Lists, lo: nat, keep: nat,
                        but: Target, e: Expr, r: Regs) {
    && Suspended(kind) <= |code|
    && Delivers(m, code, kind, x, keep, but, Eval(m.o, e, r), r,
       Exec(m, code[..|code| - Suspended(kind)], Exits(x), Elems(js), lo, r))
  }

  /** The outcome of a run that delivers the value `v`. */
  ghost predicate Delivers(m: Machine, code: seq<Instr>, kind: Kind, x: Lists, keep: nat, but: Target, v: Val, r: Regs,
                           out: Outcome) {
    match out
    case Fall(r') => KeepsBut(r, r', keep, but) && ValueOf(m, code, kind, r') == v
    case Exit(j, r') => Keeps(r, r', keep) && ExitOk(code, x, j, r', v)
    case Wrong => false
  }

  /** The code goes through exactly when `e` is true (or false); otherwise it leaves by a jump. */
  ghost predicate Branches(m: Machine, code: seq<Instr>, js: seq<nat>, x: Lists, lo: nat, keep: nat, e: Expr, r: Regs,
                           through: bool) {
    var v := Eval(m.o, e, r);
    match Exec(m, code, Exits(x), Elems(js), lo, r)
    case Fall(r') => Keeps(r, r', keep) && Truthy(v) == through
    case Exit(j, r') => Keeps(r, r', keep) && ExitOk(code, x, j, r', v)
    case Wrong => false
  }

  // ---------------------------------------------------------------- changes that runs do not see

  /** Emitting instructions completes the code before them. */
  lemma EmitCompletes(code: seq<Instr>, js: seq<nat>, x: Lists, code': seq<Instr>, exits': set<nat>, here': set<nat>,
                      lo: nat)
    requires Waiting(code, js, x, lo)
    requires |code'| >= |code| && code'[..|code|] == Discharged(code, Elems(js))
    requires forall p :: lo <= p < |code| ==> (p in Exits(x) <==> p in exits') && p !in here'
    ensures Completes(code, Exits(x), Elems(js), code', exits', here', lo)
  {
    forall p: nat | lo <= p < |code| ensures CompletesAt(code, Exits(x), Elems(js), code', exits', here', p) {
      assert code'[p] == Discharged(code, Elems(js))[p];
      if p + 1 in Elems(js) && p + 1 < |code| { assert Unkept(code[p]); }
      if p in Elems(js) { assert p in js; }
    }
  }

  /** Changing the links of open jumps changes nothing. */
  lemma RelinkCompletes(code: seq<Instr>, code': seq<Instr>, list: set<nat>, exits: set<nat>, here: set<nat>,
                        exits': set<nat>, here': set<nat>, lo: nat)
    requires Relinked(code, code', list) && forall p <- list :: p >= lo ==> p in exits || (p in here && p in here')
    requires forall p :: lo <= p < |code| ==> (p in exits <==> p in exits') && (p in here <==> p in here')
    ensures Completes(code, exits, here, code', exits', here', lo)
  {
    forall p: nat | lo <= p < |code| ensures CompletesAt(code, exits, here, code', exits', here', p) {}
  }

  /** Exits that are to go on right here. */
  lemma {:induction false} ExitsFall(m: Machine, code: seq<Instr>, exits: set<nat>, here: set<nat>, some: set<nat>,
                                     pc: int, r: Regs)
    requires some <= exits && some !! here && Exec(m, code, exits, here, pc, r) != Wrong
    ensures var out := Exec(m, code, exits, here, pc, r);
            Exec(m, code, exits - some, here + some, pc, r) == if out.Exit? && out.at in some then Fall(out.r) else out
    decreases |code| - pc
  {
    if 0 <= pc < |code| {
      match code[pc]
      case Move(a, b) => ExitsFall(m, code, exits, here, some, pc + 1, Put(r, a, r(b)));
      case LoadK(a, i) => ExitsFall(m, code, exits, here, some, pc + 1, Put(r, a, m.k[i]));
      case LoadBool(a, v, skip) => ExitsFall(m, code, exits, here, some, if skip then pc + 2 else pc + 1,
        Put(r, a, BoolV(v)));
      case LoadNil(a, b) => ExitsFall(m, code, exits, here, some, pc + 1, Nils(r, a, b));
      case NotOp(a, b) => ExitsFall(m, code, exits, here, some, pc + 1, Put(r, a, BoolV(!Truthy(r(b)))));
      case Jmp(s) => if pc !in here { ExitsFall(m, code, exits, here, some, pc + 1 + s, r); }
      case _ =>
        if !Accepts(m.o, m.k, code[pc], r) {
          ExitsFall(m, code, exits, here, some, pc + 2, r);
        } else if pc + 1 !in exits && pc + 1 !in here {
          ExitsFall(m, code, exits, here, some, pc + 2 + code[pc + 1].sbx, Accepted(code[pc], r));
        }
    }
  }

  // ---------------------------------------------------------------- getting a value into a register

  /** The instruction that loads a value of this kind. */
  predicate IsLoad(k: seq<Val>, kind: Kind, i: Instr, reg: nat) {
    match kind
    case VNil => i == LoadNil(reg, reg)
    case VTrue => i == LoadBool(reg, true, false)
    case VFalse => i == LoadBool(reg, false, false)
    case VK(c) => i == LoadK(reg, c) && c < |k|
    case VKNum(v) => i.LoadK? && i.a == reg && i.k < |k| && k[i.k] == v
    case VNonReloc(b) => i == Move(reg, b)
    case _ => false
  }

  /** Code after an emission: what was waiting has gone to the new instructions. */
  predicate Emitted(code: seq<Instr>, js: seq<nat>, code': seq<Instr>, tail: seq<Instr>) {
    code' == Discharged(code, Elems(js)) + tail
  }

  lemma ExitsStay(code: seq<Instr>, code': seq<Instr>, x: Lists, j: nat, r: Regs, v: Val)
    requires 0 < j <= |code| && j <= |code'| && code'[j - 1] == code[j - 1]
    ensures ExitOk(code, x, j, r, v) <==> ExitOk(code', x, j, r, v)
  {
  }

  /** An emission leaves the tests before open jumps alone. */
  lemma EmittedTest(code: seq<Instr>, js: seq<nat>, x: Lists, lo: nat, code': seq<Instr>, tail: seq<Instr>, j: nat)
    requires Waiting(code, js, x, lo) && Emitted(code, js, code', tail) && j in Exits(x)
             && Conditional(code, j, lo, |code|)
    ensures code'[j - 1] == code[j - 1] && code'[j] == code[j]
  {
    assert j !in Elems(js) && (j - 1 in Elems(js) ==> j - 1 in js);
  }

  /** What has been computed before an emission is there when the new instructions start. */
  lemma EmittedRuns(m: Machine, code: seq<Instr>, js: seq<nat>, x: Lists, lo: nat, code': seq<Instr>, tail: seq<Instr>,
                    exits': set<nat>, r: Regs)
    requires Waiting(code, js, x, lo) && Emitted(code, js, code', tail)
    requires Exec(m, code, Exits(x), Elems(js), lo, r) != Wrong
    requires forall p :: lo <= p < |code| ==> (p in Exits(x) <==> p in exits')
    requires Exits(x) <= exits'
    ensures var out := Exec(m, code, Exits(x), Elems(js), lo, r);
            Exec(m, code', exits', {}, lo, r) == if out.Fall? then Exec(m, code', exits', {}, |code|, out.r) else out
  {
    EmitCompletes(code, js, x, code', exits', {}, lo);
    CompletedRuns(m, code, Exits(x), Elems(js), code', exits', {}, lo, lo, r);
    ExitIsExit(m, code, Exits(x), Elems(js), lo, r);
  }

  lemma {:induction false} ExitIsExit(m: Machine, code: seq<Instr>, exits: set<nat>, here: set<nat>, pc: int, r: Regs)
    ensures var out := Exec(m, code, exits, here, pc, r);
            out.Exit? ==> out.at in exits && pc < out.at < |code|
    decreases |code| - pc
  {
    if 0 <= pc < |code| {
      match code[pc]
      case Move(a, b) => ExitIsExit(m, code, exits, here, pc + 1, Put(r, a, r(b)));
      case LoadK(a, i) => if i < |m.k| { ExitIsExit(m, code, exits, here, pc + 1, Put(r, a, m.k[i])); }
      case LoadBool(a, v, skip) => ExitIsExit(m, code, exits, here, if skip then pc + 2 else pc + 1,
        Put(r, a, BoolV(v)));
      case LoadNil(a, b) => ExitIsExit(m, code, exits, here, pc + 1, Nils(r, a, b));
      case NotOp(a, b) => ExitIsExit(m, code, exits, here, pc + 1, Put(r, a, BoolV(!Truthy(r(b)))));
      case Jmp(s) => if s >= 0 { ExitIsExit(m, code, exits, here, pc + 1 + s, r); }
      case _ =>
        if pc + 1 < |code| && code[pc + 1].Jmp? {
          if !Accepts(m.o, m.k, code[pc], r) {
            ExitIsExit(m, code, exits, here, pc + 2, r);
          } else if code[pc + 1].sbx >= 0 {
            ExitIsExit(m, code, exits, here, pc + 2 + code[pc + 1].sbx, Accepted(code[pc], r));
          }
        }
    }
  }

  lemma LoadRuns(m: Machine, code: seq<Instr>, kind: Kind, i: Instr, reg: nat, code': seq<Instr>, exits: set<nat>,
                 r: Regs)
    requires IsLoad(m.k, kind, i, reg) && |code'| > 0 && code'[|code'| - 1] == i
    ensures var out := Exec(m, code', exits, {}, |code'| - 1, r);
            out.Fall? && out.r(reg) == ValueOf(m, code, kind, r) && forall j: nat :: j != reg ==> out.r(j) == r(j)
  {
  }

  lemma LoadMeans(m: Machine, code: seq<Instr>, js: seq<nat>, kind: Kind, x: Lists, lo: nat, keep: nat, e: Expr,
                  r: Regs,
                  i: Instr, reg: nat, code': seq<Instr>)
    requires Means(m, code, js, kind, x, lo, keep, NoReg, e, r) && IsLoad(m.k, kind, i, reg)
    requires Waiting(code, js, x, lo) && Emitted(code, js, code', [i])
             && forall j <- Exits(x) :: Conditional(code, j, lo, |code|)
    ensures Means(m, code', [], VNonReloc(reg), x, lo, keep, To(reg), e, r)
  {
    hide Exec, ExitOk, Discharged, Eval;
    assert Suspended(kind) == 0;
    assert code[..|code|] == code && code'[..|code'|] == code';
    assert |code'| == |code| + 1 && code'[|code|] == i by { EmittedSize(code, js, code', [i]); }
    var out := Exec(m, code, Exits(x), Elems(js), lo, r);
    EmittedRuns(m, code, js, x, lo, code', [i], Exits(x), r);
    assert Elems([]) == {};
    if out.Fall? {
      LoadRuns(m, code, kind, i, reg, code', Exits(x), out.r);
    } else {
      ExitIsExit(m, code, Exits(x), Elems(js), lo, r);
      EmittedTest(code, js, x, lo, code', [i], out.at);
      ExitsStay(code, code', x, out.at, out.r, Eval(m.o, e, r));
    }
  }

  lemma EmittedSize(code: seq<Instr>, js: seq<nat>, code': seq<Instr>, tail: seq<Instr>)
    requires Emitted(code, js, code', tail)
    ensures |code'| == |code| + |tail| && code'[|code|..] == tail
    ensures forall i :: 0 <= i < |tail| ==> code'[|code| + i] == tail[i]
  {
  }

  /** A relocatable instruction gets its register. */
  lemma RelocMeans(m: Machine, code: seq<Instr>, pc: nat, x: Lists, lo: nat, keep: nat, e: Expr, r: Regs, reg: nat)
    requires Means(m, code, [], VReloc(pc), x, lo, keep, NoReg, e, r)
    requires lo <= pc == |code| - 1 && code[pc].NotOp? && forall j <- Exits(x) :: Conditional(code, j, lo, pc)
    ensures Means(m, code[pc := NotOp(reg, code[pc].b)], [], VNonReloc(reg), x, lo, keep, To(reg), e, r)
  {
    hide Exec, ExitOk, Eval;
    var code' := code[pc := NotOp(reg, code[pc].b)];
    var c := code[..pc];
    assert Elems([]) == {};
    NothingWaits(c, code', [NotOp(reg, code[pc].b)]);
    var out := Exec(m, c, Exits(x), {}, lo, r);
    EmittedRuns(m, c, [], x, lo, code', [NotOp(reg, code[pc].b)], Exits(x), r);
    assert code'[..|code'|] == code';
    if out.Fall? {
      NotRuns(m, code', Exits(x), out.r);
    } else {
      ExitIsExit(m, c, Exits(x), {}, lo, r);
      ExitsStay(code, code', x, out.at, out.r, Eval(m.o, e, r));
    }
  }

  lemma NotRuns(m: Machine, code: seq<Instr>, exits: set<nat>, r: Regs)
    requires |code| > 0 && code[|code| - 1].NotOp?
    ensures var i := code[|code| - 1];
              Exec(m, code, exits, {}, |code| - 1, r) == Fall(Put(r, i.a, BoolV(!Truthy(r(i.b)))))
  {
  }

  lemma NothingWaits(code: seq<Instr>, code': seq<Instr>, tail: seq<Instr>)
    requires code' == code + tail
    ensures Emitted(code, [], code', tail)
  {
    assert Elems([]) == {};
    NothingPatched(code, |code|, NoReg, |code|);
  }

  // ---------------------------------------------------------------- branching on a value

  /** With the registers at the end of `c`, the test decides whether `e` is true, and knows its value if it leaves. */
  ghost predicate Decides(m: Machine, test: Instr, cond: bool, r: Regs, v: Val) {
    && IsTest(test) && Unkept(test)
    && (Accepts(m.o, m.k, test, r) <==> Truthy(v) == cond)
    && (Truthy(v) == cond ==> v == if test.TestSet? then r(test.b) else BoolV(cond))
  }

  ghost predicate Tested(m: Machine, c: seq<Instr>, js: seq<nat>, x: Lists, lo: nat, keep: nat, e: Expr, r: Regs,
                         test: Instr, cond: bool) {
    var v := Eval(m.o, e, r);
    match Exec(m, c, Exits(x), Elems(js), lo, r)
    case Fall(r') => Keeps(r, r', keep) && Decides(m, test, cond, r', v)
    case Exit(j, r') => Keeps(r, r', keep) && ExitOk(c, x, j, r', v)
    case Wrong => false
  }

  /** The lists with one more jump, which leaves when the condition is met. */
  function Added(x: Lists, j: nat, cond: bool): Lists {
    if cond then Lists(x.ts + [j], x.fs) else Lists(x.ts, x.fs + [j])
  }

  lemma AddedExits(x: Lists, j: nat, cond: bool)
    ensures Exits(Added(x, j, cond)) == Exits(x) + {j}
  {
    ElemsJoin(x.ts, [j]);
    ElemsJoin(x.fs, [j]);
    assert Elems([j]) == {j};
  }

  lemma TestRuns(m: Machine, code: seq<Instr>, exits: set<nat>, r: Regs)
    requires |code| >= 2 && IsTest(code[|code| - 2]) && Unkept(code[|code| - 2]) && code[|code| - 1].Jmp?
             && |code| - 1 in exits
    ensures Exec(m, code, exits, {}, |code| - 2, r) == if Accepts(m.o, m.k, code[|code| - 2], r) then
            Exit(|code| - 1, r) else Fall(r)
  {
    assert Exec(m, code, exits, {}, |code|, r) == Fall(r);
  }

  lemma CondBranches(m: Machine, c: seq<Instr>, js: seq<nat>, x: Lists, lo: nat, keep: nat, e: Expr, r: Regs,
                     test: Instr, cond: bool, code': seq<Instr>)
    requires Tested(m, c, js, x, lo, keep, e, r, test, cond) && Waiting(c, js, x, lo)
    requires IsTest(test) && Unkept(test) && (forall j <- Exits(x) :: Conditional(c, j, lo, |c|))
    requires Emitted(c, js, code', [test, Jmp(NO_JUMP)])
    ensures Branches(m, code', [], Added(x, |c| + 1, cond), lo, keep, e, r, !cond)
  {
    hide Exec, Discharged, Eval;
    var x' := Added(x, |c| + 1, cond);
    AddedExits(x, |c| + 1, cond);
    EmittedSize(c, js, code', [test, Jmp(NO_JUMP)]);
    assert code'[|c|] == test && code'[|c| + 1] == Jmp(NO_JUMP);
    assert Elems([]) == {};
    assert |c| + 1 !in Exits(x);
    var out := Exec(m, c, Exits(x), Elems(js), lo, r);
    EmittedRuns(m, c, js, x, lo, code', [test, Jmp(NO_JUMP)], Exits(x'), r);
    if out.Fall? {
      TestRuns(m, code', Exits(x'), out.r);
    } else {
      ExitIsExit(m, c, Exits(x), Elems(js), lo, r);
      EmittedTest(c, js, x, lo, code', [test, Jmp(NO_JUMP)], out.at);
      ExitsStay(c, code', x, out.at, out.r, Eval(m.o, e, r));
    }
  }

  lemma TestedByRegister(m: Machine, code: seq<Instr>, js: seq<nat>, b: nat, x: Lists, lo: nat, keep: nat, e: Expr,
                         r: Regs, cond: bool)
    requires Means(m, code, js, VNonReloc(b), x, lo, keep, NoReg, e, r)
    ensures Tested(m, code, js, x, lo, keep, e, r, TestSet(NoReg, b, cond), cond)
  {
    hide Exec, Eval;
    assert code[..|code|] == code;
  }

  lemma TestedByNot(m: Machine, code: seq<Instr>, pc: nat, x: Lists, lo: nat, keep: nat, e: Expr, r: Regs, cond: bool)
    requires Means(m, code, [], VReloc(pc), x, lo, keep, NoReg, e, r) && pc == |code| - 1 && code[pc].NotOp?
    requires forall j <- Exits(x) :: Conditional(code, j, lo, pc)
    ensures Tested(m, code[..pc], [], x, lo, keep, e, r, Test(code[pc].b, !cond), cond)
  {
    hide Exec, Eval;
    PrefixExits(m, code, pc, x, lo, r, Eval(m.o, e, r));
  }

  function Inverted(i: Instr): Instr
    requires i.Compare?
  {
    i.(cond := !i.cond)
  }

  lemma TestedByCompare(m: Machine, code: seq<Instr>, pc: nat, x: Lists, lo: nat, keep: nat, e: Expr, r: Regs)
    requires Means(m, code, [], VJmp(pc), x, lo, keep, NoReg, e, r) && 0 < pc == |code| - 1 && code[pc - 1].Compare?
    requires forall j <- Exits(x) :: Conditional(code, j, lo, pc - 1)
    ensures Tested(m, code[..pc - 1], [], x, lo, keep, e, r, code[pc - 1], true)
    ensures Tested(m, code[..pc - 1], [], x, lo, keep, e, r, Inverted(code[pc - 1]), false)
  {
    hide Exec, Eval;
    PrefixExits(m, code, pc - 1, x, lo, r, Eval(m.o, e, r));
  }

  /** Exits from a prefix of the code are exits of the code. */
  lemma PrefixExits(m: Machine, code: seq<Instr>, n: nat, x: Lists, lo: nat, r: Regs, v: Val)
    requires n <= |code| && forall j <- Exits(x) :: Conditional(code, j, lo, n)
    ensures var out := Exec(m, code[..n], Exits(x), Elems([]), lo, r);
            out.Exit? && ExitOk(code, x, out.at, out.r, v) ==> ExitOk(code[..n], x, out.at, out.r, v)
  {
    hide Exec;
    ExitIsExit(m, code[..n], Exits(x), Elems([]), lo, r);
  }

  /** A constant needs no test. */
  predicate AlwaysTrue(k: Kind) { k.VK? || k.VKNum? || k.VTrue? }
  predicate AlwaysFalse(k: Kind) { k.VNil? || k.VFalse? }

  lemma ConstantBranches(m: Machine, code: seq<Instr>, js: seq<nat>, k: seq<Val>, kind: Kind, x: Lists, lo: nat,
                         nactvar: nat, keep: nat, e: Expr, r: Regs)
    requires Means(m, code, js, kind, x, lo, keep, NoReg, e, r) && Fitting(code, js, k, kind, lo, nactvar, keep)
             && k <= m.k
    ensures AlwaysTrue(kind) ==> Branches(m, code, js, x, lo, keep, e, r, true)
    ensures AlwaysFalse(kind) ==> Branches(m, code, js, x, lo, keep, e, r, false)
  {
    hide Exec, Eval;
    assert code[..|code|] == code;
  }

  /** `luaK_patchtohere` on the list of the outcome that goes through. */
  lemma HereBranches(m: Machine, code: seq<Instr>, js: seq<nat>, x: Lists, lo: nat, keep: nat, e: Expr, r: Regs,
                     through: bool, code': seq<Instr>)
    requires Branches(m, code, js, x, lo, keep, e, r, through) && Waiting(code, js, x, lo)
    requires Relinked(code, code', Elems(js)) && Elems(x.ts) !! Elems(x.fs)
    requires forall j <- Exits(x) :: Conditional(code, j, lo, |code|)
    ensures var some := if through then x.ts else x.fs;
            Branches(m, code', js + some, if through then Lists([], x.fs) else Lists(x.ts, []), lo, keep, e, r, through)
  {
    hide Exec, Eval;
    var some := if through then x.ts else x.fs;
    var x' := if through then Lists([], x.fs) else Lists(x.ts, []);
    assert Elems([]) == {};
    ElemsJoin(js, some);
    var exits', here' := Exits(x) - Elems(some), Elems(js) + Elems(some);
    assert Exits(x') == exits' && Elems(js + some) == here';
    var out := Exec(m, code, Exits(x), Elems(js), lo, r);
    ExitsFall(m, code, Exits(x), Elems(js), Elems(some), lo, r);
    ExitIsExit(m, code, Exits(x), Elems(js), lo, r);
    RelinkedRuns(m, code, code', Elems(js), exits', here', lo, r);
    if out.Exit? {
      assert Conditional(code, out.at, lo, |code|);
      assert code'[out.at - 1] == code[out.at - 1];
    }
  }

  lemma RelinkedRuns(m: Machine, code: seq<Instr>, code': seq<Instr>, list: set<nat>, exits: set<nat>, here: set<nat>,
                     lo: nat, r: Regs)
    requires Relinked(code, code', list) && list <= exits + here && Exec(m, code, exits, here, lo, r) != Wrong
    ensures Exec(m, code', exits, here, lo, r) == Exec(m, code, exits, here, lo, r)
  {
    RelinkCompletes(code, code', list, exits, here, exits, here, lo);
    CompletedRuns(m, code, exits, here, code', exits, here, lo, lo, r);
    ExitIsExit(m, code, exits, here, lo, r);
  }

  // ---------------------------------------------------------------- one piece of code after another

  /** Compiling the next piece leaves the code before it alone, apart from sending on what was waiting. */
  predicate Grew(code: seq<Instr>, js: seq<nat>, code': seq<Instr>, js': seq<nat>) {
    if |code'| <= |code| then code' == code && js' == js
    else code'[..|code|] == Discharged(code, Elems(js)) && forall j <- js' :: j > |code|
  }

  lemma GrewTwice(code: seq<Instr>, js: seq<nat>, code1: seq<Instr>, js1: seq<nat>, code2: seq<Instr>, js2: seq<nat>)
    requires Grew(code, js, code1, js1) && Grew(code1, js1, code2, js2)
             && (forall j <- js1 :: j < |code1| && code1[j].Jmp?)
    ensures Grew(code, js, code2, js2)
  {
    if |code2| > |code1| > |code| {
      forall p | 0 <= p < |code| ensures code2[p] == Discharged(code, Elems(js))[p] {
        assert code2[..|code1|][p] == Discharged(code1, Elems(js1))[p];
        assert code1[..|code|][p] == Discharged(code, Elems(js))[p];
        assert p !in Elems(js1) && p + 1 !in Elems(js1);
      }
    }
  }

  /** How the runs of the first piece go on in the grown code. */
  lemma GrownRuns(m: Machine, code: seq<Instr>, js: seq<nat>, x: Lists, lo: nat, code': seq<Instr>, js': seq<nat>,
                  n: nat, exits': set<nat>, r: Regs)
    requires Waiting(code, js, x, lo) && Grew(code, js, code', js') && |code| <= n <= |code'|
    requires Exits(x) <= exits' && forall p :: lo <= p < |code| ==> (p in Exits(x) <==> p in exits')
    requires Exec(m, code, Exits(x), Elems(js), lo, r) != Wrong
    ensures var out := Exec(m, code, Exits(x), Elems(js), lo, r);
            Exec(m, code'[..n], exits', Elems(js'), lo, r) == if out.Fall? then
              Exec(m, code'[..n], exits', Elems(js'), |code|, out.r) else out
  {
    hide Exec;
    var c := code'[..n];
    if |code'| == |code| {
      assert c == code;
      RelinkCompletes(code, c, {}, Exits(x), Elems(js), exits', Elems(js'), lo);
    } else {
      assert c[..|code|] == code'[..|code|];
      EmitCompletes(code, js, x, c, exits', Elems(js'), lo);
    }
    CompletedRuns(m, code, Exits(x), Elems(js), c, exits', Elems(js'), lo, lo, r);
    GoesOn(m, c, exits', Elems(js'), |code|, Exec(m, code, Exits(x), Elems(js), lo, r));
    ExitIsExit(m, code, Exits(x), Elems(js), lo, r);
  }

  lemma GoesOn(m: Machine, code': seq<Instr>, exits': set<nat>, here': set<nat>, n: nat, out: Outcome)
    ensures out.Fall? ==> GoOn(m, code', exits', here', n, out) == Exec(m, code', exits', here', n, out.r)
    ensures out.Exit? && out.at in exits' ==> GoOn(m, code', exits', here', n, out) == out
  {
  }

  lemma GrownTest(code: seq<Instr>, js: seq<nat>, x: Lists, lo: nat, code': seq<Instr>, js': seq<nat>, j: nat)
    requires Waiting(code, js, x, lo) && Grew(code, js, code', js') && j in Exits(x) && Conditional(code, j, lo, |code|)
    ensures |code'| >= |code| && code'[j - 1] == code[j - 1] && code'[j] == code[j]
  {
    if |code'| > |code| {
      assert code'[j - 1] == code'[..|code|][j - 1] && code'[j] == code'[..|code|][j];
      assert j - 1 in Elems(js) ==> j - 1 in js;
    }
  }

  function Joined(x: Lists, y: Lists): Lists { Lists(x.ts + y.ts, x.fs + y.fs) }

  lemma JoinedExits(x: Lists, y: Lists)
    ensures Exits(Joined(x, y)) == Exits(x) + Exits(y)
  {
    ElemsJoin(x.ts, y.ts);
    ElemsJoin(x.fs, y.fs);
  }

  /** The value of `and` and `or`: the second operand if the first lets control through, else the first. */
  predicate ShortCircuit(o: Order, e: Expr, a: Expr, b: Expr, through: bool, r: Regs) {
    Eval(o, e, r) == if Truthy(Eval(o, a, r)) == through then Eval(o, b, r) else Eval(o, a, r)
  }

  /** Two pieces of code, the second of which takes over the exits of the first. */
  ghost predicate Pieces(code: seq<Instr>, js: seq<nat>, x: Lists, lo: nat, code2: seq<Instr>, js2: seq<nat>,
                         kind: Kind, y: Lists) {
    && Waiting(code, js, x, lo) && (forall j <- Exits(x) :: Conditional(code, j, lo, |code|)) && lo <= |code|
    && Grew(code, js, code2, js2) && |code| + Suspended(kind) <= |code2|
    && (forall j <- Exits(y) :: Conditional(code2, j, |code|, |code2| - Suspended(kind)))
    && Elems(y.ts) !! Elems(y.fs)
  }

  /** The first piece lets control through to the second. */
  lemma JoinThrough(m: Machine, code: seq<Instr>, js: seq<nat>, x: Lists, lo: nat, keep: nat, v: Val, r: Regs,
                    code2: seq<Instr>, js2: seq<nat>, kind: Kind, y: Lists, r1: Regs)
    requires Pieces(code, js, x, lo, code2, js2, kind, y)
    requires Exec(m, code, Exits(x), Elems(js), lo, r) == Fall(r1) && Keeps(r, r1, keep)
    requires Delivers(m, code2, kind, y, keep, NoReg, v, r1,
             Exec(m, code2[..|code2| - Suspended(kind)], Exits(y), Elems(js2), |code|, r1))
    ensures Delivers(m, code2, kind, Joined(y, x), keep, NoReg, v, r,
                     Exec(m, code2[..|code2| - Suspended(kind)], Exits(Joined(y, x)), Elems(js2), lo, r))
  {
    var n := |code2| - Suspended(kind);
    var exits := Exits(Joined(y, x));
    JoinedApart(code, code2, x, y, lo, n);
    hide Exec, Delivers, Grew, Waiting, Exits, Joined, Conditional, Suspended;
    GrownRuns(m, code, js, x, lo, code2, js2, n, exits, r);
    var out2 := Exec(m, code2[..n], Exits(y), Elems(js2), |code|, r1);
    ExitIsExit(m, code2[..n], Exits(y), Elems(js2), |code|, r1);
    DeliversSomething(m, code2, kind, y, keep, NoReg, v, r1, out2);
    SameExitsAhead(m, code2[..n], Exits(y), exits, Elems(js2), |code|, r1);
    JoinedLeft(m, code2, kind, y, x, keep, v, r, r1, out2);
  }

  /** The first piece leaves by one of its jumps. */
  lemma JoinExit(m: Machine, code: seq<Instr>, js: seq<nat>, x: Lists, lo: nat, keep: nat, v: Val, r: Regs,
                 code2: seq<Instr>, js2: seq<nat>, kind: Kind, y: Lists)
    requires Pieces(code, js, x, lo, code2, js2, kind, y)
    requires var out := Exec(m, code, Exits(x), Elems(js), lo, r);
               out.Exit? && Keeps(r, out.r, keep) && ExitOk(code, x, out.at, out.r, v)
    ensures Delivers(m, code2, kind, Joined(y, x), keep, NoReg, v, r,
                     Exec(m, code2[..|code2| - Suspended(kind)], Exits(Joined(y, x)), Elems(js2), lo, r))
  {
    var n := |code2| - Suspended(kind);
    JoinedApart(code, code2, x, y, lo, n);
    hide Exec, Delivers, Grew, Waiting, Exits, Joined, Suspended, ExitOk;
    var out := Exec(m, code, Exits(x), Elems(js), lo, r);
    GrownRuns(m, code, js, x, lo, code2, js2, n, Exits(Joined(y, x)), r);
    ExitIsExit(m, code, Exits(x), Elems(js), lo, r);
    assert Conditional(code, out.at, lo, |code|);
    GrownTest(code, js, x, lo, code2, js2, out.at);
    JoinedRight(m, code, code2, kind, y, x, keep, v, r, out);
  }

  /** `luaK_posfix` for `and` and `or`: the lists of both operands together. */
  lemma JoinMeans(m: Machine, code: seq<Instr>, js: seq<nat>, x: Lists, lo: nat, nactvar: nat, keep: nat, a: Expr,
                  r: Regs, through: bool,
                  code2: seq<Instr>, js2: seq<nat>, kind: Kind, y: Lists, b: Expr, e: Expr)
    requires Branches(m, code, js, x, lo, keep, a, r, through) && Pieces(code, js, x, lo, code2, js2, kind, y)
    requires var out := Exec(m, code, Exits(x), Elems(js), lo, r);
             out.Fall? ==> Means(m, code2, js2, kind, y, |code|, keep, NoReg, b, out.r)
    requires Closed(b, nactvar) && nactvar <= keep && ShortCircuit(m.o, e, a, b, through, r)
    requires (if through then x.ts else x.fs) == []
    ensures Means(m, code2, js2, kind, Joined(y, x), lo, keep, NoReg, e, r)
  {
    assert Suspended(kind) <= |code2|;
    hide Exec, Eval, Delivers, Exits, Joined, ExitOk, Pieces, Suspended;
    var out := Exec(m, code, Exits(x), Elems(js), lo, r);
    if out.Fall? {
      SameLocals(m.o, b, r, out.r, nactvar);
      JoinThrough(m, code, js, x, lo, keep, Eval(m.o, b, r), r, code2, js2, kind, y, out.r);
    } else {
      JoinExit(m, code, js, x, lo, keep, Eval(m.o, a, r), r, code2, js2, kind, y);
      ExitSide(code, x, out.at, out.r, Eval(m.o, a, r));
    }
  }

  /** The open jumps of the two pieces lie in different places. */
  lemma JoinedApart(code: seq<Instr>, code2: seq<Instr>, x: Lists, y: Lists, lo: nat, n: nat)
    requires forall j <- Exits(x) :: Conditional(code, j, lo, |code|)
    requires forall j <- Exits(y) :: Conditional(code2, j, |code|, n)
    ensures var exits := Exits(Joined(y, x));
            && Exits(x) <= exits && Exits(y) <= exits
            && (forall p :: lo <= p < |code| ==> (p in Exits(x) <==> p in exits))
            && (forall p :: |code| <= p < n ==> (p in Exits(y) <==> p in exits))
    ensures forall j <- Exits(y) :: j !in Exits(x) && j > 0
    ensures forall j <- Exits(x) :: j !in Exits(y) && 0 < j < |code|
  {
    JoinedExits(y, x);
  }

  lemma DeliversSomething(m: Machine, code: seq<Instr>, kind: Kind, x: Lists, keep: nat, but: Target, v: Val, r: Regs,
                          out: Outcome)
    requires Delivers(m, code, kind, x, keep, but, v, r, out)
    ensures out != Wrong
  {
  }

  lemma ExitSide(code: seq<Instr>, x: Lists, j: nat, r: Regs, v: Val)
    requires ExitOk(code, x, j, r, v)
    ensures x.ts == [] ==> !Truthy(v)
    ensures x.fs == [] ==> Truthy(v)
  {
  }

  lemma JoinedLeft(m: Machine, code: seq<Instr>, kind: Kind, y: Lists, x: Lists, keep: nat, v: Val, r: Regs, r1: Regs,
                   out: Outcome)
    requires Delivers(m, code, kind, y, keep, NoReg, v, r1, out) && Keeps(r, r1, keep)
             && (out.Exit? ==> out.at !in Exits(x))
    ensures Delivers(m, code, kind, Joined(y, x), keep, NoReg, v, r, out)
  {
  }

  lemma JoinedRight(m: Machine, code: seq<Instr>, code2: seq<Instr>, kind: Kind, y: Lists, x: Lists, keep: nat, v: Val,
                    r: Regs, out: Outcome)
    requires out.Exit? && Keeps(r, out.r, keep) && ExitOk(code, x, out.at, out.r, v) && out.at !in Exits(y)
    requires 0 < out.at <= |code| <= |code2| && code2[out.at - 1] == code[out.at - 1]
    ensures Delivers(m, code2, kind, Joined(y, x), keep, NoReg, v, r, out)
  {
  }

  /** The links of open jumps do not matter. */
  lemma RelinkMeans(m: Machine, code: seq<Instr>, js: seq<nat>, kind: Kind, x: Lists, lo: nat, keep: nat, but: Target,
                    e: Expr, r: Regs,
                    code': seq<Instr>, list: set<nat>)
    requires Means(m, code, js, kind, x, lo, keep, but, e, r) && Relinked(code, code', list)
             && list <= Exits(x) + Elems(js)
    requires forall j <- Exits(x) :: Conditional(code, j, lo, |code| - Suspended(kind))
    requires kind.VReloc? ==> kind.pc < |code| && code[kind.pc].NotOp?
    requires kind.VJmp? ==> 0 < kind.pc < |code| && IsTest(code[kind.pc - 1])
    ensures Means(m, code', js, kind, x, lo, keep, but, e, r)
  {
    hide Exec, Eval, Relinked, ValueOf, KeepsBut, ExitOk;
    var n := |code| - Suspended(kind);
    RelinkedPrefix(code, code', list, n);
    RelinkedRuns(m, code[..n], code'[..n], list, Exits(x), Elems(js), lo, r);
    ExitIsExit(m, code[..n], Exits(x), Elems(js), lo, r);
    var out := Exec(m, code[..n], Exits(x), Elems(js), lo, r);
    if out.Exit? {
      assert Conditional(code, out.at, lo, n);
      RelinkedAt(code, code', list, out.at - 1);
      ExitsStay(code, code', x, out.at, out.r, Eval(m.o, e, r));
    } else {
      RelinkedValue(m, code, code', list, kind, out.r);
    }
  }

  lemma RelinkedPrefix(code: seq<Instr>, code': seq<Instr>, list: set<nat>, n: nat)
    requires Relinked(code, code', list) && n <= |code|
    ensures |code'| == |code| && Relinked(code[..n], code'[..n], list)
  {
  }

  lemma RelinkedAt(code: seq<Instr>, code': seq<Instr>, list: set<nat>, p: nat)
    requires Relinked(code, code', list) && p < |code| && !code[p].Jmp?
    ensures code'[p] == code[p]
  {
  }

  lemma RelinkedValue(m: Machine, code: seq<Instr>, code': seq<Instr>, list: set<nat>, kind: Kind, r: Regs)
    requires Relinked(code, code', list)
    requires kind.VReloc? ==> kind.pc < |code| && code[kind.pc].NotOp?
    requires kind.VJmp? ==> 0 < kind.pc < |code| && IsTest(code[kind.pc - 1])
    ensures ValueOf(m, code', kind, r) == ValueOf(m, code, kind, r)
  {
  }

  lemma SameExitsAhead(m: Machine, code: seq<Instr>, exits: set<nat>, exits': set<nat>, here: set<nat>, lo: nat,
                       r: Regs)
    requires (forall p :: lo <= p < |code| ==> (p in exits <==> p in exits')) && exits <= exits'
    requires Exec(m, code, exits, here, lo, r) != Wrong
    ensures Exec(m, code, exits', here, lo, r) == Exec(m, code, exits, here, lo, r)
  {
    RelinkCompletes(code, code, {}, exits, here, exits', here, lo);
    CompletedRuns(m, code, exits, here, code, exits', here, lo, lo, r);
    ExitIsExit(m, code, exits, here, lo, r);
  }

  // ---------------------------------------------------------------- negation

  /** The code up to here delivers the opposite of `v`, its exits still belong to `v` itself. */
  ghost predicate Negates(m: Machine, code: seq<Instr>, js: seq<nat>, kind: Kind, x: Lists, lo: nat, keep: nat, v: Val,
                          r: Regs) {
    && Suspended(kind) <= |code|
    && match Exec(m, code[..|code| - Suspended(kind)], Exits(x), Elems(js), lo, r)
       case Fall(r') => KeepsBut(r, r', keep, NoReg) && ValueOf(m, code, kind, r') == BoolV(!Truthy(v))
       case Exit(j, r') => Keeps(r, r', keep) && ExitOk(code, x, j, r', v)
       case Wrong => false
  }

  lemma ConstantNegates(m: Machine, code: seq<Instr>, js: seq<nat>, k: seq<Val>, kind: Kind, x: Lists, lo: nat,
                        nactvar: nat, keep: nat, e: Expr, r: Regs)
    requires Means(m, code, js, kind, x, lo, keep, NoReg, e, r) && Fitting(code, js, k, kind, lo, nactvar, keep)
             && k <= m.k
    requires AlwaysTrue(kind) || AlwaysFalse(kind)
    ensures Negates(m, code, js, if AlwaysTrue(kind) then VFalse else VTrue, x, lo, keep, Eval(m.o, e, r), r)
  {
    hide Exec, Eval;
  }

  lemma JmpNegates(m: Machine, code: seq<Instr>, pc: nat, x: Lists, lo: nat, keep: nat, e: Expr, r: Regs)
    requires Means(m, code, [], VJmp(pc), x, lo, keep, NoReg, e, r) && 0 < pc == |code| - 1 && code[pc - 1].Compare?
    requires forall j <- Exits(x) :: Conditional(code, j, lo, pc - 1)
    ensures Negates(m, code[pc - 1 := Inverted(code[pc - 1])], [], VJmp(pc), x, lo, keep, Eval(m.o, e, r), r)
  {
    hide Exec, Eval;
    var code' := code[pc - 1 := Inverted(code[pc - 1])];
    assert code'[..pc - 1] == code[..pc - 1];
    ExitIsExit(m, code[..pc - 1], Exits(x), Elems([]), lo, r);
  }

  lemma RegisterNegates(m: Machine, code: seq<Instr>, js: seq<nat>, b: nat, x: Lists, lo: nat, keep: nat, e: Expr,
                        r: Regs, code': seq<Instr>)
    requires Means(m, code, js, VNonReloc(b), x, lo, keep, NoReg, e, r) && Waiting(code, js, x, lo)
    requires Emitted(code, js, code', [NotOp(0, b)]) && forall j <- Exits(x) :: Conditional(code, j, lo, |code|)
    ensures Negates(m, code', [], VReloc(|code|), x, lo, keep, Eval(m.o, e, r), r)
  {
    hide Exec, Eval, Discharged, ExitOk;
    EmittedSize(code, js, code', [NotOp(0, b)]);
    assert code[..|code|] == code && code'[|code|] == NotOp(0, b);
    assert Elems([]) == {};
    var c := code'[..|code|];
    assert Emitted(code, js, c, []);
    EmittedRuns(m, code, js, x, lo, c, [], Exits(x), r);
    var out := Exec(m, code, Exits(x), Elems(js), lo, r);
    if out.Fall? {
      EndFalls(m, c, Exits(x), out.r);
    } else {
      ExitIsExit(m, code, Exits(x), Elems(js), lo, r);
      EmittedTest(code, js, x, lo, code', [NotOp(0, b)], out.at);
      ExitsStay(code, code', x, out.at, out.r, Eval(m.o, e, r));
    }
  }

  lemma EndFalls(m: Machine, code: seq<Instr>, exits: set<nat>, r: Regs)
    ensures forall here :: Exec(m, code, exits, here, |code|, r) == Fall(r)
  {
  }

  /** `codenot`: interchange the lists and drop the values they would have kept. */
  lemma SwapMeans(m: Machine, code: seq<Instr>, js: seq<nat>, kind: Kind, x: Lists, lo: nat, keep: nat, e: Expr,
                  r: Regs, code': seq<Instr>)
    requires Negates(m, code, js, kind, x, lo, keep, Eval(m.o, e, r), r)
    requires forall j <- Exits(x) :: Conditional(code, j, lo, |code| - Suspended(kind))
    requires code' == RemoveAll(RemoveAll(code, Elems(x.ts)), Elems(x.fs)) && Elems(x.ts) !! Elems(x.fs)
    requires kind.VReloc? ==> kind.pc == |code| - 1 && code[kind.pc].NotOp?
    requires kind.VJmp? ==> 0 < kind.pc == |code| - 1 && code[kind.pc - 1].Compare?
    ensures Means(m, code', js, kind, Lists(x.fs, x.ts), lo, keep, NoReg, Not(e), r)
  {
    hide Exec, KeepsBut, Eval, ExitOk;
    var n := |code| - Suspended(kind);
    var x' := Lists(x.fs, x.ts);
    assert Exits(x') == Exits(x);
    RemovedRuns(m, code, code', x, lo, n, Elems(js), r);
    var out := Exec(m, code[..n], Exits(x), Elems(js), lo, r);
    assert Eval(m.o, Not(e), r) == BoolV(!Truthy(Eval(m.o, e, r))) by { NotValue(m.o, e, r); }
    if out.Fall? {
      RemovedValue(m, code, code', x, kind, lo, out.r);
    } else {
      ExitIsExit(m, code[..n], Exits(x), Elems(js), lo, r);
      RemovedExit(code, code', x, out.at, out.r, Eval(m.o, e, r), lo, n);
    }
  }

  lemma NotValue(o: Order, e: Expr, r: Regs)
    ensures Eval(o, Not(e), r) == BoolV(!Truthy(Eval(o, e, r)))
  {
  }

  lemma RemovedRuns(m: Machine, code: seq<Instr>, code': seq<Instr>, x: Lists, lo: nat, n: nat, here: set<nat>, r: Regs)
    requires (forall j <- Exits(x) :: Conditional(code, j, lo, n)) && n <= |code|
    requires code' == RemoveAll(RemoveAll(code, Elems(x.ts)), Elems(x.fs))
    requires Exec(m, code[..n], Exits(x), here, lo, r) != Wrong
    ensures |code'| == |code| && Exec(m, code'[..n], Exits(x), here, lo, r) == Exec(m, code[..n], Exits(x), here, lo, r)
  {
    hide Exec;
    RemoveCompletes(code, code', x, lo, n, here);
    var out := Exec(m, code[..n], Exits(x), here, lo, r);
    CompletedRuns(m, code[..n], Exits(x), here, code'[..n], Exits(x), here, lo, lo, r);
    ExitIsExit(m, code[..n], Exits(x), here, lo, r);
    GoesOn(m, code'[..n], Exits(x), here, n, out);
    if out.Fall? { EndFalls(m, code'[..n], Exits(x), out.r); }
  }

  lemma RemovedValue(m: Machine, code: seq<Instr>, code': seq<Instr>, x: Lists, kind: Kind, lo: nat, r: Regs)
    requires code' == RemoveAll(RemoveAll(code, Elems(x.ts)), Elems(x.fs))
    requires kind.VReloc? ==> kind.pc == |code| - 1 && code[kind.pc].NotOp?
    requires kind.VJmp? ==> 0 < kind.pc == |code| - 1 && code[kind.pc - 1].Compare?
    ensures ValueOf(m, code', kind, r) == ValueOf(m, code, kind, r)
  {
  }

  /** An exit of the operand is an exit of its negation, on the other list and with the opposite value. */
  lemma RemovedExit(code: seq<Instr>, code': seq<Instr>, x: Lists, j: nat, r: Regs, v: Val, lo: nat, n: nat)
    requires code' == RemoveAll(RemoveAll(code, Elems(x.ts)), Elems(x.fs)) && Elems(x.ts) !! Elems(x.fs)
    requires j in Exits(x) && Conditional(code, j, lo, n) && ExitOk(code, x, j, r, v)
    ensures ExitOk(code', Lists(x.fs, x.ts), j, r, BoolV(!Truthy(v)))
  {
    assert !KeepsValue(code', j);
  }

  lemma RemoveCompletes(code: seq<Instr>, code': seq<Instr>, x: Lists, lo: nat, n: nat, here: set<nat>)
    requires forall j <- Exits(x) :: Conditional(code, j, lo, n)
    requires code' == RemoveAll(RemoveAll(code, Elems(x.ts)), Elems(x.fs)) && n <= |code|
    ensures Completes(code[..n], Exits(x), here, code'[..n], Exits(x), here, lo)
  {
    forall p: nat | lo <= p < n ensures CompletesAt(code[..n], Exits(x), here, code'[..n], Exits(x), here, p) {
      if p + 1 in Exits(x) { assert Conditional(code, p + 1, lo, n); }
    }
  }

  // ---------------------------------------------------------------- comparison

  /** The code goes through, and the operand then has the value `v`. */
  ghost predicate Offers(m: Machine, code: seq<Instr>, js: seq<nat>, lo: nat, keep: nat, rk: RK, v: Val, r: Regs) {
    match Exec(m, code, {}, Elems(js), lo, r)
    case Fall(r') => Keeps(r, r', keep) && Operand(m.k, r', rk) == v
    case _ => false
  }

  /** Two operands, one computed after the other. */
  lemma OffersBoth(m: Machine, code: seq<Instr>, js: seq<nat>, lo: nat, keep: nat, x: RK, v: Val, code2: seq<Instr>,
                   js2: seq<nat>, keep2: nat,
                   y: RK, w: Val, r: Regs)
    requires Offers(m, code, js, lo, keep, x, v, r) && Waiting(code, js, Lists([], []), lo)
             && Grew(code, js, code2, js2) && lo <= |code|
    requires var out := Exec(m, code, {}, Elems(js), lo, r); Offers(m, code2, js2, |code|, keep2, y, w, out.r)
    requires keep <= keep2 && (x.Reg? ==> x.r < keep2)
    ensures Offers(m, code2, js2, lo, keep, x, v, r) && Offers(m, code2, js2, lo, keep, y, w, r)
  {
    hide Exec, Grew, Waiting;
    var none := Lists([], []);
    assert Exits(none) == {};
    GrownSize(code, js, code2, js2);
    assert code2[..|code2|] == code2;
    GrownRuns(m, code, js, none, lo, code2, js2, |code2|, {}, r);
  }

  lemma GrownSize(code: seq<Instr>, js: seq<nat>, code': seq<Instr>, js': seq<nat>)
    requires Grew(code, js, code', js')
    ensures |code'| >= |code|
  {
  }

  /** The test behind the two operands. */
  lemma CompareMeans(m: Machine, code: seq<Instr>, js: seq<nat>, lo: nat, keep: nat, x: RK, y: RK, r: Regs,
                     code': seq<Instr>,
                     op: CompOp, a: Expr, b: Expr, test: Instr)
    requires Offers(m, code, js, lo, keep, x, Eval(m.o, a, r), r)
             && Offers(m, code, js, lo, keep, y, Eval(m.o, b, r), r)
    requires Waiting(code, js, Lists([], []), lo) && Emitted(code, js, code', [test, Jmp(NO_JUMP)])
             && IsComparison(test, op, x, y)
    ensures Means(m, code', [], VJmp(|code| + 1), Lists([], []), lo, keep, NoReg, Comp(op, a, b), r)
  {
    hide Exec, Discharged, Waiting;
    var none := Lists([], []);
    assert Elems([]) == {} && Exits(none) == {};
    EmittedSize(code, js, code', [test, Jmp(NO_JUMP)]);
    assert code'[|code|] == test;
    var c := code'[..|code|];
    assert Emitted(code, js, c, []);
    EmittedRuns(m, code, js, none, lo, c, [], {}, r);
    EndFalls(m, c, {}, Exec(m, code, {}, Elems(js), lo, r).r);
  }

  /** The test that `codecomp` emits: `>` and `>=` exchange the operands, `~=` asks for inequality. */
  predicate IsComparison(test: Instr, op: CompOp, x: RK, y: RK) {
    match op
    case EQ => test == Compare(Eq, true, x, y)
    case NE => test == Compare(Eq, false, x, y)
    case LT => test == Compare(Lt, true, x, y)
    case LE => test == Compare(Le, true, x, y)
    case GT => test == Compare(Lt, true, y, x)
    case GE => test == Compare(Le, true, y, x)
  }

  // ---------------------------------------------------------------- the value in a register, with all jumps closed

  /** The code goes through and leaves `v` in `reg`. */
  ghost predicate Results(m: Machine, code: seq<Instr>, js: seq<nat>, lo: nat, keep: nat, reg: nat, v: Val, r: Regs) {
    match Exec(m, code, {}, Elems(js), lo, r)
    case Fall(r') => KeepsBut(r, r', keep, To(reg)) && r'(reg) == v
    case _ => false
  }

  /** Before the exits are closed: a value in `reg`, or, behind a comparison that failed, false. */
  ghost predicate Ready(m: Machine, code: seq<Instr>, js: seq<nat>, x: Lists, lo: nat, keep: nat, reg: nat, v: Val,
                        r: Regs, jmp: bool) {
    match Exec(m, code, Exits(x), Elems(js), lo, r)
    case Fall(r') => KeepsBut(r, r', keep, To(reg)) && if jmp then v == BoolV(false) else r'(reg) == v
    case Exit(j, r') => Keeps(r, r', keep) && ExitOk(code, x, j, r', v)
    case Wrong => false
  }

  /** A comparison whose jump joins the list of exits when true. */
  lemma JmpReady(m: Machine, code: seq<Instr>, pc: nat, x: Lists, lo: nat, keep: nat, e: Expr, r: Regs, reg: nat)
    requires Means(m, code, [], VJmp(pc), x, lo, keep, NoReg, e, r) && lo < pc == |code| - 1
    requires code[pc] == Jmp(NO_JUMP) && code[pc - 1].Compare?
             && forall j <- Exits(x) :: Conditional(code, j, lo, pc - 1)
    ensures Ready(m, code, [], Added(x, pc, true), lo, keep, reg, Eval(m.o, e, r), r, true)
  {
    hide Exec, Eval;
    var c := code[..pc - 1];
    var x' := Added(x, pc, true);
    AddedExits(x, pc, true);
    assert Elems([]) == {};
    assert code == c + [code[pc - 1], Jmp(NO_JUMP)];
    NothingWaits(c, code, [code[pc - 1], Jmp(NO_JUMP)]);
    assert pc !in Exits(x);
    var out := Exec(m, c, Exits(x), {}, lo, r);
    EmittedRuns(m, c, [], x, lo, code, [code[pc - 1], Jmp(NO_JUMP)], Exits(x'), r);
    if out.Fall? {
      TestRuns(m, code, Exits(x'), out.r);
    } else {
      ExitIsExit(m, c, Exits(x), {}, lo, r);
    }
  }

  /** Both lists patched: each jump has its target, and the tests before them what they keep. */
  predicate Closes(code: seq<Instr>, code': seq<Instr>, x: Lists, final: nat, reg: nat, pf: int, pt: int) {
    code' == PatchAll(PatchAll(code, Elems(x.fs), final, To(reg), pf), Elems(x.ts), final, To(reg), pt)
  }

  lemma ClosedJump(code: seq<Instr>, code': seq<Instr>, x: Lists, final: nat, reg: nat, pf: int, pt: int, j: nat,
                   lo: nat, hi: nat)
    requires Closes(code, code', x, final, reg, pf, pt) && Elems(x.ts) !! Elems(x.fs) && j in Exits(x)
    requires 0 < j < |code| && forall i <- Exits(x) :: Conditional(code, i, lo, hi)
    ensures |code'| == |code| && code'[j].Jmp?
    ensures j + 1 + code'[j].sbx == if KeepsValue(code, j) then final else if j in x.ts then pt else pf
    ensures code'[j - 1] == if code[j - 1].TestSet? then Patched(code[j - 1], To(reg)) else code[j - 1]
  {
    assert Conditional(code, j, lo, hi);
    assert !code[j - 1].Jmp? && j - 1 !in Exits(x);
    var c := PatchAll(code, Elems(x.fs), final, To(reg), pf);
    assert c[j - 1] == PatchAt(code, Elems(x.fs), final, To(reg), pf, j - 1);
  }

  lemma ClosedSize(code: seq<Instr>, code': seq<Instr>, x: Lists, final: nat, reg: nat, pf: int, pt: int)
    requires Closes(code, code', x, final, reg, pf, pt)
    ensures |code'| == |code|
  {
  }

  lemma ClosedElsewhere(code: seq<Instr>, code': seq<Instr>, x: Lists, final: nat, reg: nat, pf: int, pt: int, p: nat)
    requires Closes(code, code', x, final, reg, pf, pt) && p < |code| && p !in Exits(x) && p + 1 !in Exits(x)
    ensures |code'| == |code| && code'[p] == code[p]
  {
  }

  /** The instructions behind the value: a jump over two loads, or just the loads. */
  predicate Loads(code: seq<Instr>, js: seq<nat>, code2: seq<Instr>, js2: seq<nat>, reg: nat, jmp: bool, need: bool) {
    if !need then code2 == code && js2 == js && !jmp
    else if jmp then code2 == code + [LoadBool(reg, false, true), LoadBool(reg, true, false)] && js == [] && js2 == []
    else
      && |code2| == |code| + 3 && code2[..|code|] == code && code2[|code|].Jmp?
      && code2[|code| + 1] == LoadBool(reg, false, true) && code2[|code| + 2] == LoadBool(reg, true, false)
      && js2 == [|code|] + js
  }

  /** Everything about the state in which `exp2reg` closes the lists. */
  predicate Closing(code: seq<Instr>, js: seq<nat>, x: Lists, lo: nat, code2: seq<Instr>, js2: seq<nat>,
                    code': seq<Instr>, reg: nat, jmp: bool, need: bool) {
    && Loads(code, js, code2, js2, reg, jmp, need) && Waiting(code, js, x, lo)
    && (forall j <- Exits(x) :: Conditional(code, j, lo, |code|)) && Elems(x.ts) !! Elems(x.fs)
    && (!need ==> forall j <- Exits(x) :: KeepsValue(code, j))
    && Closes(code2, code', x, |code2|, reg, if need then |code2| - 2 else -1, if need then |code2| - 1 else -1)
  }

  lemma ClosingCompletes(code: seq<Instr>, js: seq<nat>, x: Lists, lo: nat, code2: seq<Instr>, js2: seq<nat>,
                         code': seq<Instr>, reg: nat, jmp: bool, need: bool)
    requires Closing(code, js, x, lo, code2, js2, code', reg, jmp, need)
    ensures Completes(code, Exits(x), Elems(js), code', {}, Elems(js2), lo)
  {
    ClosedSize(code2, code', x, |code2|, reg, if need then |code2| - 2 else -1, if need then |code2| - 1 else -1);
    hide Closes;
    var pf, pt := if need then |code2| - 2 else -1, if need then |code2| - 1 else -1;
    forall j | j in Exits(x) ensures Conditional(code2, j, lo, |code|) {
      assert Conditional(code, j, lo, |code|);
      assert code2[..|code|] == code;
      assert code2[j] == code[j] && code2[j - 1] == code[j - 1];
    }
    forall p: nat | lo <= p < |code| ensures CompletesAt(code, Exits(x), Elems(js), code', {}, Elems(js2), p) {
      assert code2[p] == code2[..|code|][p];
      if p in Exits(x) {
        ClosedJump(code2, code', x, |code2|, reg, pf, pt, p, lo, |code|);
        assert KeepsValue(code2, p) == KeepsValue(code, p);
      } else if p + 1 in Exits(x) {
        ClosedJump(code2, code', x, |code2|, reg, pf, pt, p + 1, lo, |code|);
      } else {
        ClosedElsewhere(code2, code', x, |code2|, reg, pf, pt, p);
        if need && !jmp { ClosedElsewhere(code2, code', x, |code2|, reg, pf, pt, |code|); }
      }
    }
  }

  /** The two loads at the end, and the jump over them. */
  lemma LoadsRun(m: Machine, code: seq<Instr>, js: seq<nat>, x: Lists, lo: nat, code2: seq<Instr>, js2: seq<nat>,
                 code': seq<Instr>, reg: nat, jmp: bool, need: bool, r: Regs)
    requires Closing(code, js, x, lo, code2, js2, code', reg, jmp, need)
    ensures |code'| == |code2|
    ensures Exec(m, code', {}, Elems(js2), |code2|, r) == Fall(r)
    ensures need ==> Exec(m, code', {}, Elems(js2), |code2| - 2, r) == Fall(Put(r, reg, BoolV(false)))
    ensures need ==> Exec(m, code', {}, Elems(js2), |code2| - 1, r) == Fall(Put(r, reg, BoolV(true)))
    ensures !jmp ==> Exec(m, code', {}, Elems(js2), |code|, r) == Fall(r)
  {
    var pf, pt := if need then |code2| - 2 else -1, if need then |code2| - 1 else -1;
    ClosedSize(code2, code', x, |code2|, reg, pf, pt);
    EndFalls(m, code', {}, r);
    if need {
      ClosedElsewhere(code2, code', x, |code2|, reg, pf, pt, |code2| - 2);
      ClosedElsewhere(code2, code', x, |code2|, reg, pf, pt, |code2| - 1);
      assert code2[|code2| - 2] == LoadBool(reg, false, true) && code2[|code2| - 1] == LoadBool(reg, true, false);
      if !jmp {
        ClosedElsewhere(code2, code', x, |code2|, reg, pf, pt, |code|);
        assert |code| in Elems(js2);
      }
    }
    assert !need ==> |code| == |code2|;
    assert need && !jmp ==> code'[|code|].Jmp? && |code| < |code'| && |code| in Elems(js2);
    hide Exec, Closing, Closes, Loads;
    if need {
      TwoLoads(m, code', Elems(js2), reg, r);
      if !jmp { JumpsOver(m, code', Elems(js2), |code|, r); }
    }
  }

  lemma TwoLoads(m: Machine, code: seq<Instr>, here: set<nat>, reg: nat, r: Regs)
    requires |code| >= 2 && code[|code| - 2] == LoadBool(reg, false, true)
             && code[|code| - 1] == LoadBool(reg, true, false)
    ensures Exec(m, code, {}, here, |code| - 2, r) == Fall(Put(r, reg, BoolV(false)))
    ensures Exec(m, code, {}, here, |code| - 1, r) == Fall(Put(r, reg, BoolV(true)))
  {
    EndFalls(m, code, {}, Put(r, reg, BoolV(false)));
    EndFalls(m, code, {}, Put(r, reg, BoolV(true)));
  }

  lemma JumpsOver(m: Machine, code: seq<Instr>, here: set<nat>, p: nat, r: Regs)
    requires p < |code| && code[p].Jmp? && p in here
    ensures Exec(m, code, {}, here, p, r) == Fall(r)
  {
  }

  /** A jump whose test keeps the value goes to the end with the value in the register. */
  lemma ExitKeeping(m: Machine, code: seq<Instr>, js: seq<nat>, x: Lists, lo: nat, keep: nat, v: Val, r: Regs, reg: nat,
                    code2: seq<Instr>, js2: seq<nat>, code': seq<Instr>, jmp: bool, need: bool, j: nat, r1: Regs)
    requires Closing(code, js, x, lo, code2, js2, code', reg, jmp, need)
    requires j in Exits(x) && 0 < j < |code| && Keeps(r, r1, keep) && ExitOk(code, x, j, r1, v)
    requires KeepsValue(code, j)
    ensures var out := GoOn(m, code', {}, Elems(js2), |code|, Exit(j, r1));
            out.Fall? && KeepsBut(r, out.r, keep, To(reg)) && out.r(reg) == v
  {
    ClosingJump(code, js, x, lo, code2, js2, code', reg, jmp, need, j);
    assert IsTest(code[j - 1]) && Unkept(code[j - 1]) by { assert Conditional(code, j, lo, |code|); }
    PatchedKeeps(code[j - 1], reg, r1);
    hide Closing, Patched, Accepted, Exits;
  }

  /** A jump that keeps no value goes on with the registers it left with. */
  lemma PlainJump(m: Machine, code': seq<Instr>, here: set<nat>, n: nat, j: nat, at: nat, r1: Regs, r2: Regs)
    requires 0 < j < |code'| && code'[j].Jmp? && at == j + 1 + code'[j].sbx && !code'[j - 1].TestSet?
    requires Exec(m, code', {}, here, at, r1) == Fall(r2)
    ensures GoOn(m, code', {}, here, n, Exit(j, r1)) == Fall(r2)
  {
    hide Exec;
  }

  lemma ExitBool(code: seq<Instr>, x: Lists, j: nat, r: Regs, v: Val)
    requires 0 < j < |code| && ExitOk(code, x, j, r, v) && !KeepsValue(code, j)
    ensures v == BoolV(j in x.ts) && !code[j - 1].TestSet?
  {
  }

  lemma PutKeeps(r: Regs, r1: Regs, keep: nat, reg: nat, v: Val)
    requires Keeps(r, r1, keep)
    ensures KeepsBut(r, Put(r1, reg, v), keep, To(reg)) && Put(r1, reg, v)(reg) == v
  {
  }

  /** Any other jump goes to one of the two loads at the end. */
  lemma ExitLoading(m: Machine, code: seq<Instr>, js: seq<nat>, x: Lists, lo: nat, keep: nat, v: Val, r: Regs, reg: nat,
                    code2: seq<Instr>, js2: seq<nat>, code': seq<Instr>, jmp: bool, need: bool, j: nat, r1: Regs)
    requires Closing(code, js, x, lo, code2, js2, code', reg, jmp, need)
    requires j in Exits(x) && 0 < j < |code| && Keeps(r, r1, keep) && ExitOk(code, x, j, r1, v)
    requires !KeepsValue(code, j)
    ensures var out := GoOn(m, code', {}, Elems(js2), |code|, Exit(j, r1));
            out.Fall? && KeepsBut(r, out.r, keep, To(reg)) && out.r(reg) == v
  {
    hide *;
    ExitBool(code, x, j, r1, v);
    var at := |code2| - if j in x.ts then 1 else 2;
    ClosingJump(code, js, x, lo, code2, js2, code', reg, jmp, need, j);
    LoadsRun(m, code, js, x, lo, code2, js2, code', reg, jmp, need, r1);
    PlainJump(m, code', Elems(js2), |code|, j, at, r1, Put(r1, reg, v));
    PutKeeps(r, r1, keep, reg, v);
  }

  /** A jump that leaves comes to the end with the value in the register. */
  lemma ExitResults(m: Machine, code: seq<Instr>, js: seq<nat>, x: Lists, lo: nat, keep: nat, v: Val, r: Regs, reg: nat,
                    code2: seq<Instr>, js2: seq<nat>, code': seq<Instr>, jmp: bool, need: bool, j: nat, r1: Regs)
    requires Closing(code, js, x, lo, code2, js2, code', reg, jmp, need)
    requires j in Exits(x) && 0 < j < |code| && Keeps(r, r1, keep) && ExitOk(code, x, j, r1, v)
    ensures var out := GoOn(m, code', {}, Elems(js2), |code|, Exit(j, r1));
            out.Fall? && KeepsBut(r, out.r, keep, To(reg)) && out.r(reg) == v
  {
    hide Closing, Exec, Exits, KeepsBut, Keeps, ExitOk;
    if KeepsValue(code, j) {
      ExitKeeping(m, code, js, x, lo, keep, v, r, reg, code2, js2, code', jmp, need, j, r1);
    } else {
      ExitLoading(m, code, js, x, lo, keep, v, r, reg, code2, js2, code', jmp, need, j, r1);
    }
  }

  /** A test with its register leaves the tested value there, and any other leaves nothing. */
  lemma PatchedKeeps(i: Instr, reg: nat, r: Regs)
    requires IsTest(i) && Unkept(i)
    ensures i.TestSet? ==>
              var r' := Accepted(Patched(i, To(reg)), r); r'(reg) == r(i.b) && forall n: nat :: n != reg ==>
              r'(n) == r(n)
    ensures !i.TestSet? ==> Accepted(i, r) == r
  {
  }

  /** Where a jump leads once the lists are closed. */
  lemma ClosingJump(code: seq<Instr>, js: seq<nat>, x: Lists, lo: nat, code2: seq<Instr>, js2: seq<nat>,
                    code': seq<Instr>, reg: nat, jmp: bool, need: bool, j: nat)
    requires Closing(code, js, x, lo, code2, js2, code', reg, jmp, need) && j in Exits(x) && 0 < j < |code|
    ensures |code'| == |code2| >= |code| && code'[j].Jmp?
    ensures j + 1 + code'[j].sbx == if KeepsValue(code, j) then |code2| else if j in x.ts then |code2| - 1
            else |code2| - 2
    ensures !KeepsValue(code, j) ==> need
    ensures code'[j - 1] == if code[j - 1].TestSet? then Patched(code[j - 1], To(reg)) else code[j - 1]
  {
    var pf, pt := if need then |code2| - 2 else -1, if need then |code2| - 1 else -1;
    assert code2[..|code|] == code;
    forall i | i in Exits(x) ensures Conditional(code2, i, lo, |code|) {
      assert Conditional(code, i, lo, |code|);
      assert code2[i] == code2[..|code|][i] && code2[i - 1] == code2[..|code|][i - 1];
    }
    assert code2[j - 1] == code2[..|code|][j - 1];
    hide Closes;
    ClosedJump(code2, code', x, |code2|, reg, pf, pt, j, lo, |code|);
  }

  /** `exp2reg` with jumps: whatever way the code takes, the value ends up in the register. */
  lemma ClosingResults(m: Machine, code: seq<Instr>, js: seq<nat>, x: Lists, lo: nat, keep: nat, v: Val, r: Regs,
                       reg: nat,
                       code2: seq<Instr>, js2: seq<nat>, code': seq<Instr>, jmp: bool, need: bool)
    requires Closing(code, js, x, lo, code2, js2, code', reg, jmp, need)
             && Ready(m, code, js, x, lo, keep, reg, v, r, jmp)
    ensures Results(m, code', js2, lo, keep, reg, v, r)
  {
    ClosingCompletes(code, js, x, lo, code2, js2, code', reg, jmp, need);
    assert jmp ==> need && |code| == |code2| - 2;
    hide Exec, Closing, Exits, Completes;
    var out := Exec(m, code, Exits(x), Elems(js), lo, r);
    CompletedRuns(m, code, Exits(x), Elems(js), code', {}, Elems(js2), lo, lo, r);
    if out.Fall? {
      LoadsRun(m, code, js, x, lo, code2, js2, code', reg, jmp, need, out.r);
      GoesOn(m, code', {}, Elems(js2), |code|, out);
    } else {
      ExitIsExit(m, code, Exits(x), Elems(js), lo, r);
      ExitResults(m, code, js, x, lo, keep, v, r, reg, code2, js2, code', jmp, need, out.at, out.r);
    }
  }

  // ---------------------------------------------------------------- the shape of the state

  lemma MeansBut(m: Machine, code: seq<Instr>, js: seq<nat>, kind: Kind, x: Lists, lo: nat, keep: nat, reg: nat,
                 e: Expr, r: Regs)
    ensures Means(m, code, js, kind, x, lo, keep, NoReg, e, r) ==> Means(m, code, js, kind, x, lo, keep, To(reg), e, r)
    ensures reg >= keep && Means(m, code, js, kind, x, lo, keep, To(reg), e, r) ==>
            Means(m, code, js, kind, x, lo, keep, NoReg, e, r)
  {
    hide Exec, Eval;
  }

  /** After an emission nothing waits, and the open lists are as before. */
  lemma EmittedOpen(code: seq<Instr>, js: seq<nat>, d: Exp, x: Lists, lo: nat, code': seq<Instr>, tail: seq<Instr>,
                    d': Exp)
    requires Open(code, d, x, lo) && Waiting(code, js, x, lo) && Emitted(code, js, code', tail)
    requires d'.t == d.t && d'.f == d.f && Suspended(d.k) == 0 && Suspended(d'.k) <= |tail|
    ensures Open(code', d', x, lo) && Waiting(code', [], x, lo)
  {
    hide Discharged;
    EmittedSize(code, js, code', tail);
    forall j | j in Exits(x) ensures Conditional(code', j, lo, |code'| - Suspended(d'.k)) && code'[j] == code[j] {
      assert Conditional(code, j, lo, |code|);
      EmittedTest(code, js, x, lo, code', tail, j);
    }
    EmittedChain(code, code', d.t, x.ts, Exits(x));
    EmittedChain(code, code', d.f, x.fs, Exits(x));
  }

  lemma EmittedChain(code: seq<Instr>, code': seq<Instr>, h: int, xs: seq<nat>, all: set<nat>)
    requires Chain(code, h, xs) && Elems(xs) <= all && forall j <- all ::
               j < |code| && j < |code'| && code'[j] == code[j]
    ensures Chain(code', h, xs)
  {
    forall i | 0 <= i < |xs| ensures code'[xs[i]] == code[xs[i]] && xs[i] < |code'| { assert xs[i] in Elems(xs); }
    ChainFrame(code, code', h, xs);
  }

  lemma GrewEmitted(code0: seq<Instr>, js0: seq<nat>, code: seq<Instr>, js: seq<nat>, x: Lists, code': seq<Instr>,
                    tail: seq<Instr>)
    requires Grew(code0, js0, code, js) && Waiting(code, js, x, |code0|) && Emitted(code, js, code', tail) && tail != []
    ensures Grew(code0, js0, code', [])
  {
    if |code| > |code0| {
      forall p | 0 <= p < |code0| ensures code'[p] == code[p] {
        assert p !in Elems(js) && p + 1 !in Elems(js);
      }
      assert code'[..|code0|] == code[..|code0|];
    } else {
      assert code'[..|code0|] == Discharged(code, Elems(js));
    }
  }

  lemma RelinkBranches(m: Machine, code: seq<Instr>, js: seq<nat>, x: Lists, lo: nat, keep: nat, e: Expr, r: Regs,
                       through: bool, code': seq<Instr>, list: set<nat>)
    requires Branches(m, code, js, x, lo, keep, e, r, through) && Relinked(code, code', list) && list <= Exits(x)
    requires forall j <- Exits(x) :: Conditional(code, j, lo, |code|)
    ensures Branches(m, code', js, x, lo, keep, e, r, through)
  {
    hide Exec, Eval, Relinked, ExitOk;
    RelinkedRuns(m, code, code', list, Exits(x), Elems(js), lo, r);
    var out := Exec(m, code, Exits(x), Elems(js), lo, r);
    ExitIsExit(m, code, Exits(x), Elems(js), lo, r);
    if out.Exit? {
      assert Conditional(code, out.at, lo, |code|);
      RelinkedAt(code, code', list, out.at - 1);
      RelinkedPrefix(code, code', list, |code|);
      ExitsStay(code, code', x, out.at, out.r, Eval(m.o, e, r));
    }
  }

  /** Links that change within the code of an expression do not show in the shape of the state. */
  lemma RelinkedShape(code0: seq<Instr>, js0: seq<nat>, code: seq<Instr>, js: seq<nat>, x: Lists, hi: nat,
                      code': seq<Instr>, list: set<nat>)
    requires Relinked(code, code', list) && (forall j <- list :: j > |code0|) && Grew(code0, js0, code, js)
    requires Waiting(code, js, x, |code0|) && forall j <- Exits(x) :: Conditional(code, j, |code0|, hi)
    ensures Waiting(code', js, x, |code0|) && (forall j <- Exits(x) :: Conditional(code', j, |code0|, hi))
            && Grew(code0, js0, code', js)
  {
    forall j | j in Exits(x) ensures Conditional(code', j, |code0|, hi) { assert Conditional(code, j, |code0|, hi); }
    if |code| > |code0| {
      assert code'[..|code0|] == code[..|code0|];
    } else {
      assert code' == code;
    }
  }

  lemma RelinkedEnd(code: seq<Instr>, code': seq<Instr>, list: set<nat>, lo: nat)
    requires Relinked(code, code', list) && Ended(code, lo)
    ensures Ended(code', lo)
  {
  }

  lemma RelinkedChain(code: seq<Instr>, code': seq<Instr>, h: int, xs: seq<nat>, list: set<nat>)
    requires Chain(code, h, xs) && Relinked(code, code', list) && Elems(xs) !! list
    ensures Chain(code', h, xs)
  {
    forall i | 0 <= i < |xs| ensures code'[xs[i]] == code[xs[i]] { assert xs[i] in Elems(xs); }
    ChainFrame(code, code', h, xs);
  }

  lemma RelinkReady(m: Machine, code: seq<Instr>, js: seq<nat>, x: Lists, lo: nat, keep: nat, reg: nat, v: Val,
                    r: Regs, jmp: bool, code': seq<Instr>, list: set<nat>)
    requires Ready(m, code, js, x, lo, keep, reg, v, r, jmp) && Relinked(code, code', list) && list <= Exits(x)
    requires forall j <- Exits(x) :: Conditional(code, j, lo, |code|)
    ensures Ready(m, code', js, x, lo, keep, reg, v, r, jmp)
  {
    hide Exec, Relinked, ExitOk;
    RelinkedRuns(m, code, code', list, Exits(x), Elems(js), lo, r);
    var out := Exec(m, code, Exits(x), Elems(js), lo, r);
    ExitIsExit(m, code, Exits(x), Elems(js), lo, r);
    if out.Exit? {
      assert Conditional(code, out.at, lo, |code|);
      RelinkedAt(code, code', list, out.at - 1);
      RelinkedPrefix(code, code', list, |code|);
      ExitsStay(code, code', x, out.at, out.r, v);
    }
  }

  lemma RegisterReady(m: Machine, code: seq<Instr>, js: seq<nat>, reg: nat, x: Lists, lo: nat, keep: nat, e: Expr,
                      r: Regs)
    requires Means(m, code, js, VNonReloc(reg), x, lo, keep, To(reg), e, r)
    ensures Ready(m, code, js, x, lo, keep, reg, Eval(m.o, e, r), r, false)
  {
    hide Exec, Eval;
    assert code[..|code|] == code;
  }

  lemma ReadyResults(m: Machine, code: seq<Instr>, js: seq<nat>, lo: nat, keep: nat, reg: nat, v: Val, r: Regs)
    requires Ready(m, code, js, Lists([], []), lo, keep, reg, v, r, false)
    ensures Results(m, code, js, lo, keep, reg, v, r)
  {
    hide Exec;
    assert Exits(Lists([], [])) == {};
  }
}
