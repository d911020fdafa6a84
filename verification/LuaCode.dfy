/**
 Lua's one-pass code generator for logical expressions (`lcode.c`), driven as `subexpr` of
 `lparser.c` drives it. A descriptor is a value that the methods take and return.

 Ghost arguments follow the compilation of one expression: `z` is the state in which it began, and
 `base` the first free register then.
 */
module LuaCode {
  import opened LuaVm
  import opened LuaJumps
  import opened LuaExp

  const MAXINDEXRK: nat := 255

  datatype Snap = Snap(code: seq<Instr>, js: seq<nat>)

  function DischargeVars(k: Kind): Kind {
    if k.VLocal? then VNonReloc(k.r) else k
  }

  /** `hasjumps`. */
  predicate HasJumps(d: Exp) { d.t != d.f }

  lemma HasJumpsMeans(code: seq<Instr>, d: Exp, x: Lists, lo: nat)
    requires Open(code, d, x, lo)
    ensures HasJumps(d) <==> x != Lists([], [])
  {
    if x.ts != [] && x.fs != [] {
      assert x.ts[0] in Elems(x.ts) && x.fs[0] in Elems(x.fs);
    }
  }

  class FuncState {
    const c: CodeState
    const o: Order
    const nactvar: nat
    var freereg: nat
    var k: seq<Val>

    ghost predicate Valid()
      reads this, c
    {
      c.Linked() && nactvar <= freereg
    }

    function Temporaries(kind: Kind): nat { if kind.VNonReloc? && kind.r >= nactvar then 1 else 0 }

    /** The state fits a descriptor for the code since `z`. */
    ghost predicate Described(d: Exp, x: Lists, z: Snap, base: nat)
      reads this, c
    {
      Shaped(d, x, z, base) && freereg == base + Temporaries(d.k)
    }

    ghost predicate Shaped(d: Exp, x: Lists, z: Snap, base: nat)
      reads this, c
    {
      && Valid() && nactvar <= base
      && Grew(z.code, z.js, c.code, c.js) && |z.code| + Suspended(d.k) <= |c.code|
      && Open(c.code, d, x, |z.code|) && Waiting(c.code, c.js, x, |z.code|)
      && Fitting(c.code, c.js, k, d.k, |z.code|, nactvar, base) && Ended(c.code, |z.code|)
    }

    ghost predicate Computes(kind: Kind, x: Lists, z: Snap, keep: nat, but: Target, e: Expr)
      reads this, c
    {
      forall m: Machine, r: Regs :: m.o == o && k <= m.k ==> Means(m, c.code, c.js, kind, x, |z.code|, keep, but, e, r)
    }

    /** The state in which only one list is open, and control goes through exactly if `e` is true (or false). */
    ghost predicate Decided(x: Lists, z: Snap, keep: nat, e: Expr, through: bool)
      reads this, c
    {
      forall m: Machine, r: Regs :: m.o == o && k <= m.k ==> Branches(m, c.code, c.js, x, |z.code|, keep, e, r, through)
    }

    constructor (o: Order, nactvar: nat)
      ensures Valid() && c.code == [] && c.js == [] && k == [] && fresh(c) && this.nactvar == nactvar == freereg
    {
      c := new CodeState();
      this.o, this.nactvar, freereg, k := o, nactvar, nactvar, [];
    }

    /** `addk`: a constant that is there already is not entered again. */
    method AddK(v: Val) returns (i: nat)
      modifies this`k
      ensures k == if v in old(k) then old(k) else old(k) + [v]
      ensures i < |k| && k[i] == v
    {
      i := 0;
      while i < |k|
        invariant 0 <= i <= |k| && v !in k[..i]
      {
        if k[i] == v {
          return;
        }
        i := i + 1;
      }
      k := k + [v];
    }

    /** `freeexp`. */
    method FreeExp(kind: Kind)
      requires kind.VNonReloc? && kind.r >= nactvar ==> freereg == kind.r + 1
      modifies this`freereg
      ensures freereg == old(freereg) - Temporaries(kind)
    {
      if kind.VNonReloc? && kind.r >= nactvar {
        freereg := freereg - 1;
      }
    }

    /** The instruction for a value that is not in a register or under way already. */
    method Load(kind: Kind, reg: nat) returns (i: Instr)
      requires Suspended(kind) == 0 && !kind.VLocal? && (kind.VK? ==> kind.i < |k|)
      modifies this`k
      ensures IsLoad(k, kind, i, reg) && old(k) <= k
    {
      match kind {
        case VNil => i := LoadNil(reg, reg);
        case VTrue => i := LoadBool(reg, true, false);
        case VFalse => i := LoadBool(reg, false, false);
        case VK(n) => i := LoadK(reg, n);
        case VKNum(v) => var n := AddK(v); i := LoadK(reg, n);
        case VNonReloc(b) => i := Move(reg, b);
      }
    }

    /** `discharge2reg`. A comparison is left as it is. */
    method Discharge2Reg(d: Exp, reg: nat, ghost x: Lists, ghost z: Snap, ghost base: nat, ghost e: Expr)
      returns (d': Exp)
      requires Shaped(d, x, z, base) && Computes(d.k, x, z, base, NoReg, e) && !d.k.VLocal?
      modifies this`k, c
      ensures Valid() && old(k) <= k
      ensures d.k.VJmp? ==> d' == d && c.code == old(c.code) && c.js == old(c.js) && c.jpc == old(c.jpc) && k == old(k)
      ensures !d.k.VJmp? ==>
                && d' == d.(k := VNonReloc(reg)) && Computes(VNonReloc(reg), x, z, base, To(reg), e)
                && Grew(z.code, z.js, c.code, c.js) && Open(c.code, d', x, |z.code|)
                   && Waiting(c.code, c.js, x, |z.code|)
                && Ended(c.code, |z.code|)
    {
      hide Means, Grew, Open, Waiting, Emitted;
      d' := if d.k.VJmp? then d else d.(k := VNonReloc(reg));
      if d.k.VReloc? {
        RelocShape(c.code, c.js, d, x, z.code, z.js, reg);
        ghost var code := c.code;
        c.code := c.code[d.k.pc := NotOp(reg, c.code[d.k.pc].b)];
        forall m: Machine, r: Regs | m.o == o && k <= m.k
          ensures Means(m, c.code, [], VNonReloc(reg), x, |z.code|, base, To(reg), e, r) {
          RelocMeans(m, code, d.k.pc, x, |z.code|, base, e, r, reg);
        }
      } else if d.k == VNonReloc(reg) {
        forall m: Machine, r: Regs | m.o == o && k <= m.k
          ensures Means(m, c.code, c.js, d.k, x, |z.code|, base, To(reg), e, r) {
          MeansBut(m, c.code, c.js, d.k, x, |z.code|, base, reg, e, r);
        }
      } else if !d.k.VJmp? {
        var i := Load(d.k, reg);
        ghost var code, js := c.code, c.js;
        var _ := c.Emit(i);
        assert Emitted(code, js, c.code, [i]) by { JustEmitted(code, js, c.code, [i]); }
        LoadShape(code, js, d, x, z.code, z.js, reg, c.code, i);
        forall m: Machine, r: Regs | m.o == o && k <= m.k
          ensures Means(m, c.code, [], VNonReloc(reg), x, |z.code|, base, To(reg), e, r) {
          LoadMeans(m, code, js, d.k, x, |z.code|, base, e, r, i, reg, c.code);
        }
      }
    }

    /** `discharge2anyreg`. */
    method Discharge2AnyReg(d: Exp, ghost x: Lists, ghost z: Snap, ghost base: nat, ghost e: Expr) returns (d': Exp)
      requires Described(d, x, z, base) && Computes(d.k, x, z, base, NoReg, e) && !d.k.VLocal? && !d.k.VJmp?
      modifies this, c
      ensures Described(d', x, z, base) && Computes(d'.k, x, z, base, NoReg, e) && old(k) <= k
      ensures d'.k.VNonReloc? && d' == d.(k := d'.k)
    {
      hide Means, Grew, Open, Waiting;
      if d.k.VNonReloc? {
        return d;
      }
      freereg := freereg + 1;
      d' := Discharge2Reg(d, freereg - 1, x, z, base, e);
      GrownSize(z.code, z.js, c.code, c.js);
      forall m: Machine, r: Regs | m.o == o && k <= m.k
        ensures Means(m, c.code, c.js, d'.k, x, |z.code|, base, NoReg, e, r) {
        MeansBut(m, c.code, c.js, d'.k, x, |z.code|, base, base, e, r);
      }
    }

    /** `condjump`. */
    method CondJump(i: Instr) returns (pc: nat)
      requires Valid()
      modifies c
      ensures Valid() && c.js == [] && pc == |c.code| - 1 && Chain(c.code, pc, [pc])
      ensures Emitted(old(c.code), old(c.js), c.code, [i, Jmp(NO_JUMP)])
    {
      ghost var code, js := c.code, c.js;
      var at := c.Emit(i);
      var j, list := c.Jump();
      pc := at + 1;
      assert list == [pc];
      assert c.code == Discharged(code, Elems(js)) + [i, Jmp(NO_JUMP)];
    }

    /** The part of `jumponcond` that takes an `OP_NOT` just emitted back and tests its operand instead. */
    method JumpOnNot(d: Exp, cond: bool, ghost x: Lists, ghost z: Snap, ghost base: nat, ghost e: Expr)
      returns (pc: nat)
      requires Described(d, x, z, base) && Computes(d.k, x, z, base, NoReg, e) && d.k.VReloc?
      modifies c
      ensures Valid() && c.js == [] && TestBehind(c.code, d, x, z, pc) && Decided(Added(x, pc, cond), z, base, e, !cond)
    {
      hide Means, Grew, Open, Waiting, Branches, Tested, Emitted, TestBehind;
      var i := c.code[d.k.pc];
      ghost var code := c.code;
      c.code := c.code[..|c.code| - 1];
      ghost var prefix := c.code;
      NotShape(code, d, x, z, prefix);
      pc := CondJump(Test(i.b, !cond));
      NotTested(code, d, x, z, prefix, c.code, Test(i.b, !cond));
      ghost var y, through := Added(x, pc, cond), !cond;
      forall m: Machine, r: Regs | m.o == o && k <= m.k
        ensures Branches(m, c.code, c.js, y, |z.code|, base, e, r, through) {
        TestedByNot(m, code, d.k.pc, x, |z.code|, base, e, r, cond);
        CondBranches(m, prefix, [], x, |z.code|, base, e, r, Test(i.b, !cond), cond, c.code);
      }
    }

    /** `jumponcond`: leave if the value is `cond`. */
    method JumpOnCond(d: Exp, cond: bool, ghost x: Lists, ghost z: Snap, ghost base: nat, ghost e: Expr)
      returns (pc: nat)
      requires Described(d, x, z, base) && Computes(d.k, x, z, base, NoReg, e) && !d.k.VLocal? && !d.k.VJmp?
      modifies this, c
      ensures Valid() && old(k) <= k && freereg == base && c.js == []
      ensures TestBehind(c.code, d, x, z, pc) && Decided(Added(x, pc, cond), z, base, e, !cond)
    {
      hide Means, Grew, Open, Waiting, Branches, Tested, Emitted, TestBehind;
      if d.k.VReloc? {
        pc := JumpOnNot(d, cond, x, z, base, e);
        return;
      }
      var d' := Discharge2AnyReg(d, x, z, base, e);
      FreeExp(d'.k);
      ghost var code, js := c.code, c.js;
      var test := TestSet(NoReg, d'.k.r, cond);
      pc := CondJump(test);
      RegTested(code, js, d, d', x, z, c.code, test);
      ghost var y, through := Added(x, pc, cond), !cond;
      forall m: Machine, r: Regs | m.o == o && k <= m.k
        ensures Branches(m, c.code, c.js, y, |z.code|, base, e, r, through) {
        TestedByRegister(m, code, js, d'.k.r, x, |z.code|, base, e, r, cond);
        CondBranches(m, code, js, x, |z.code|, base, e, r, test, cond, c.code);
      }
    }

    /** The jump that decides a branch, if one is needed. */
    method BranchJump(d: Exp, through: bool, ghost x: Lists, ghost z: Snap, ghost base: nat, ghost e: Expr)
      returns (pc: int, ghost ps: seq<nat>)
      requires Described(d, x, z, base) && Computes(d.k, x, z, base, NoReg, e) && !d.k.VLocal?
      modifies this, c
      ensures Valid() && old(k) <= k && freereg == base
      ensures Halfway(c.code, c.js, d, x, z, pc, ps) && Decided(With(x, ps, !through), z, base, e, through)
    {
      hide Means, Grew, Open, Waiting, Branches, TestBehind, Halfway, Emitted;
      ghost var code, js := c.code, c.js;
      if if through then AlwaysTrue(d.k) else AlwaysFalse(d.k) {
        pc, ps := NO_JUMP, [];
        ConstantHalfway(code, js, d, x, z);
        assert With(x, ps, !through) == x;
        forall m: Machine, r: Regs | m.o == o && k <= m.k
          ensures Branches(m, c.code, c.js, x, |z.code|, base, e, r, through) {
          ConstantBranches(m, code, js, k, d.k, x, |z.code|, nactvar, base, e, r);
        }
      } else if d.k.VJmp? {
        pc, ps := d.k.pc, [d.k.pc];
        if through {
          c.code := c.code[pc - 1 := Inverted(c.code[pc - 1])];
        }
        JmpHalfway(code, d, x, z, c.code);
        ghost var y := With(x, ps, !through);
        ghost var test, cond := c.code[pc - 1], !through;
        forall m: Machine, r: Regs | m.o == o && k <= m.k
          ensures Branches(m, c.code, c.js, y, |z.code|, base, e, r, through) {
          TestedByCompare(m, code, pc, x, |z.code|, base, e, r);
          CondBranches(m, code[..pc - 1], [], x, |z.code|, base, e, r, test, cond, c.code);
        }
      } else {
        pc := JumpOnCond(d, !through, x, z, base, e);
        ps := [pc];
        TestHalfway(c.code, d, x, z, pc);
      }
    }

    /** `luaK_goiftrue` and `luaK_goiffalse`: go through if the value is true (or false), leave otherwise. */
    method GoIf(d0: Exp, through: bool, ghost x: Lists, ghost z: Snap, ghost base: nat, ghost e: Expr)
      returns (d: Exp, ghost y: Lists)
      requires Described(d0, x, z, base) && Computes(d0.k, x, z, base, NoReg, e)
      modifies this, c
      ensures Valid() && old(k) <= k && freereg == base
      ensures OneSided(c.code, c.js, d, y, z, through) && Decided(y, z, base, e, through)
    {
      hide Means, Grew, Open, Waiting, Branches, Halfway, OneSided, TwoSided;
      d := d0.(k := DischargeVars(d0.k));
      Discharging(d0, x, z, base, e);
      var pc, ps := BranchJump(d, through, x, z, base, e);
      y := With(x, ps, !through);
      ghost var code, js := c.code, c.js;
      HalfwayApart(code, js, d, x, z, pc, ps);
      if through {
        var f := c.Concat(d.f, pc, x.fs, ps);
        Joining(code, js, d, x, z, pc, ps, through, c.code, f);
        RelinkedChain(code, c.code, c.jpc, js, Elems(x.fs));
        KeepDecided(code, Elems(x.fs), y, z, base, e, through);
        d := d.(f := f);
        ghost var code1 := c.code;
        SendingApart(code1, js, d, y, z);
        c.PatchToHere(d.t, y.ts);
        Sending(code1, js, d, y, z, through, c.code, c.js);
        SendDecided(code1, js, y, z, base, e, through);
        d, y := d.(t := NO_JUMP), Lists([], y.fs);
      } else {
        var t := c.Concat(d.t, pc, x.ts, ps);
        Joining(code, js, d, x, z, pc, ps, through, c.code, t);
        RelinkedChain(code, c.code, c.jpc, js, Elems(x.ts));
        KeepDecided(code, Elems(x.ts), y, z, base, e, through);
        d := d.(t := t);
        ghost var code1 := c.code;
        SendingApart(code1, js, d, y, z);
        c.PatchToHere(d.f, y.fs);
        Sending(code1, js, d, y, z, through, c.code, c.js);
        SendDecided(code1, js, y, z, base, e, through);
        d, y := d.(f := NO_JUMP), Lists(y.ts, []);
      }
    }

    /** The part of `codenot` that turns the value around, before the lists are interchanged. */
    method NegateValue(d0: Exp, ghost x: Lists, ghost z: Snap, ghost base: nat, ghost e: Expr) returns (d: Exp)
      requires Described(d0, x, z, base) && Computes(d0.k, x, z, base, NoReg, e) && !d0.k.VLocal?
      modifies this, c
      ensures Described(d, x, z, base) && Opposite(d.k, x, z, base, e) && old(k) <= k && d == d0.(k := d.k)
      ensures !d.k.VLocal? && !d.k.VNonReloc?
    {
      hide Means, Grew, Open, Waiting, Negates, Emitted;
      ghost var code, js := c.code, c.js;
      if AlwaysTrue(d0.k) || AlwaysFalse(d0.k) {
        d := d0.(k := if AlwaysTrue(d0.k) then VFalse else VTrue);
        SameShape(code, d0, d, x, z);
        forall m: Machine, r: Regs | m.o == o && k <= m.k
          ensures Negates(m, c.code, c.js, d.k, x, |z.code|, base, Eval(m.o, e, r), r) {
          ConstantNegates(m, code, js, k, d0.k, x, |z.code|, nactvar, base, e, r);
        }
      } else if d0.k.VJmp? {
        d := d0;
        c.code := c.code[d.k.pc - 1 := Inverted(c.code[d.k.pc - 1])];
        InvertedShape(code, d, x, z, c.code, c.jpc);
        forall m: Machine, r: Regs | m.o == o && k <= m.k
          ensures Negates(m, c.code, c.js, d.k, x, |z.code|, base, Eval(m.o, e, r), r) {
          JmpNegates(m, code, d.k.pc, x, |z.code|, base, e, r);
        }
      } else {
        d := NegateRegister(d0, x, z, base, e);
      }
    }

    method NegateRegister(d0: Exp, ghost x: Lists, ghost z: Snap, ghost base: nat, ghost e: Expr) returns (d: Exp)
      requires Described(d0, x, z, base) && Computes(d0.k, x, z, base, NoReg, e) && !d0.k.VLocal? && !d0.k.VJmp?
      modifies this, c
      ensures Described(d, x, z, base) && Opposite(d.k, x, z, base, e) && old(k) <= k && d == d0.(k := d.k)
              && d.k.VReloc?
    {
      hide Means, Grew, Open, Waiting, Negates, Emitted;
      var d1 := Discharge2AnyReg(d0, x, z, base, e);
      FreeExp(d1.k);
      ghost var code, js := c.code, c.js;
      var pc := c.Emit(NotOp(0, d1.k.r));
      d := d1.(k := VReloc(pc));
      JustEmitted(code, js, c.code, [NotOp(0, d1.k.r)]);
      NotEmitted(code, js, d1, x, z, c.code, d);
      forall m: Machine, r: Regs | m.o == o && k <= m.k
        ensures Negates(m, c.code, c.js, d.k, x, |z.code|, base, Eval(m.o, e, r), r) {
        RegisterNegates(m, code, js, d1.k.r, x, |z.code|, base, e, r, c.code);
      }
    }

    /** `codenot`. */
    method CodeNot(d0: Exp, ghost x: Lists, ghost z: Snap, ghost base: nat, ghost e: Expr)
      returns (d: Exp, ghost y: Lists)
      requires Described(d0, x, z, base) && Computes(d0.k, x, z, base, NoReg, e)
      modifies this, c
      ensures Described(d, y, z, base) && Computes(d.k, y, z, base, NoReg, Not(e)) && old(k) <= k
    {
      hide Means, Grew, Waiting, Negates, RemoveAll;
      d := d0.(k := DischargeVars(d0.k));
      Discharging(d0, x, z, base, e);
      d := NegateValue(d, x, z, base, e);
      ghost var code, js, d1 := c.code, c.js, d;
      y := Lists(x.fs, x.ts);
      d := d.(t := d.f, f := d.t);
      c.RemoveValues(d.f, x.ts);
      ghost var code1 := c.code;
      RemovedChain(code, x.ts, d.t, x.fs);
      c.RemoveValues(d.t, x.fs);
      RemovedShape(code, js, d1, x, z, c.code, nactvar, k, base);
      RemovedChain(code, x.ts, c.jpc, js);
      RemovedChain(code1, x.fs, c.jpc, js);
      ghost var not := Not(e);
      forall m: Machine, r: Regs | m.o == o && k <= m.k
        ensures Means(m, c.code, c.js, d.k, y, |z.code|, base, NoReg, not, r) {
        SwapMeans(m, code, js, d.k, x, |z.code|, base, e, r, c.code);
      }
    }

    /** The first half of `exp2reg`: the value goes to the register, and the jump of a comparison joins a list. */
    method ValueToReg(d0: Exp, reg: nat, ghost x: Lists, ghost z: Snap, ghost base: nat, ghost e: Expr)
      returns (d: Exp, ghost y: Lists)
      requires Shaped(d0, x, z, base) && Computes(d0.k, x, z, base, NoReg, e) && !d0.k.VLocal?
      modifies this`k, c
      ensures Valid() && old(k) <= k && TwoSided(c.code, c.js, d, y, z) && IsReady(y, z, base, reg, e, d.k.VJmp?)
      ensures d.k.VJmp? ==> c.js == [] && d.k.pc in y.ts && !KeepsValue(c.code, d.k.pc)
    {
      hide Means, Grew, Open, Waiting, Ready, TwoSided;
      d := Discharge2Reg(d0, reg, x, z, base, e);
      ghost var code, js := c.code, c.js;
      if d.k.VJmp? {
        var pc := d.k.pc;
        JmpOpen(code, d, x, z);
        var t := c.Concat(d.t, pc, x.ts, [pc]);
        JmpJoined(code, d, x, z, c.code, t);
        RelinkedChain(code, c.code, c.jpc, js, Elems(x.ts));
        d := d.(t := t);
        y := Added(x, pc, true);
        forall m: Machine, r: Regs | m.o == o && k <= m.k
          ensures Ready(m, c.code, c.js, y, |z.code|, base, reg, Eval(m.o, e, r), r, true) {
          JmpReady(m, code, pc, x, |z.code|, base, e, r, reg);
          RelinkReady(m, code, [], y, |z.code|, base, reg, Eval(m.o, e, r), r, true, c.code, Elems(x.ts));
        }
      } else {
        y := x;
        RegOpen(code, js, d, x, z);
        forall m: Machine, r: Regs | m.o == o && k <= m.k
          ensures Ready(m, c.code, c.js, y, |z.code|, base, reg, Eval(m.o, e, r), r, false) {
          RegisterReady(m, code, js, reg, x, |z.code|, base, e, r);
        }
      }
    }

    method EmitTwo(reg: nat)
      requires Valid() && c.js == []
      modifies c
      ensures Valid() && c.js == [] && c.code == old(c.code) + [LoadBool(reg, false, true), LoadBool(reg, true, false)]
    {
      ghost var code := c.code;
      assert Elems([]) == {};
      NothingPatched(code, |code|, NoReg, |code|);
      var _ := c.Emit(LoadBool(reg, false, true));
      ghost var code1 := c.code;
      NothingPatched(code1, |code1|, NoReg, |code1|);
      var _ := c.Emit(LoadBool(reg, true, false));
    }

    /** The loads of false and true, and the jump over them unless control can only get there by falling through. */
    method EmitLoads(reg: nat, jmp: bool)
      requires Valid() && (jmp ==> c.js == [])
      modifies c
      ensures Valid() && Loads(old(c.code), old(c.js), c.code, c.js, reg, jmp, true)
    {
      hide Relinked, Discharged;
      if jmp {
        EmitTwo(reg);
        c.PatchToHere(NO_JUMP, []);
        assert c.js == [];
      } else {
        ghost var code := c.code;
        var fj, list := c.Jump();
        ghost var code1 := c.code;
        JumpShape(code, code1, list, fj);
        EmitTwo(reg);
        LongerChain(code1, c.code, fj, list);
        c.PatchToHere(fj, list);
        assert c.js == list && c.code[..|code|] == code;
      }
    }

    /** The second half of `exp2reg` for a descriptor with open lists. */
    method CloseLists(d: Exp, reg: nat, ghost y: Lists, ghost z: Snap, ghost base: nat, ghost e: Expr)
      requires Valid() && TwoSided(c.code, c.js, d, y, z) && IsReady(y, z, base, reg, e, d.k.VJmp?) && HasJumps(d)
      requires d.k.VJmp? ==> c.js == [] && d.k.pc in y.ts && !KeepsValue(c.code, d.k.pc)
      modifies c
      ensures Valid() && Settled(c.code, c.js, z) && Delivered(z, base, reg, e)
    {
      hide Grew, Waiting, Ready, TwoSided, Results, Closing, Closes, Loads, Settled, PatchAll;
      ghost var code, js := c.code, c.js;
      TwoSidedLists(code, js, d, y, z);
      var jmp := d.k.VJmp?;
      var needT := c.NeedValue(d.t, y.ts);
      var needF := c.NeedValue(d.f, y.fs);
      var pf, pt, need := NO_JUMP, NO_JUMP, needT || needF;
      if need {
        EmitLoads(reg, jmp);
        pf, pt := |c.code| - 2, |c.code| - 1;
      } else {
        NoLoads(code, js, reg);
      }
      ghost var code2, js2 := c.code, c.js;
      LoadsChains(code, js, d, y, z, code2, js2, reg, jmp, need);
      PatchBoth(d, |c.code|, reg, pf, pt, y);
      ClosingShape(code, js, d, y, z, code2, js2, c.code, c.jpc, reg, jmp, need);
      forall m: Machine, r: Regs | m.o == o && k <= m.k
        ensures Results(m, c.code, c.js, |z.code|, base, reg, Eval(m.o, e, r), r) {
        ClosingResults(m, code, js, y, |z.code|, base, Eval(m.o, e, r), r, reg, code2, js2, c.code, jmp, need);
      }
    }

    method PatchBoth(d: Exp, final: nat, reg: nat, pf: int, pt: int, ghost y: Lists)
      requires Chain(c.code, d.t, y.ts) && Chain(c.code, d.f, y.fs) && Elems(y.ts) !! Elems(y.fs)
      modifies c`code
      ensures Closes(old(c.code), c.code, y, final, reg, pf, pt)
    {
      ghost var code := c.code;
      PatchedChain(code, y.fs, final, To(reg), pf, d.t, y.ts);
      c.PatchListAux(d.f, final, To(reg), pf, y.fs);
      c.PatchListAux(d.t, final, To(reg), pt, y.ts);
    }

    /** `exp2reg`. */
    method Exp2Reg(d0: Exp, reg: nat, ghost x: Lists, ghost z: Snap, ghost base: nat, ghost e: Expr) returns (d: Exp)
      requires Shaped(d0, x, z, base) && Computes(d0.k, x, z, base, NoReg, e) && !d0.k.VLocal?
      modifies this`k, c
      ensures Valid() && old(k) <= k && d == Exp(VNonReloc(reg), NO_JUMP, NO_JUMP)
      ensures Settled(c.code, c.js, z) && Delivered(z, base, reg, e)
    {
      hide Means, Grew, Waiting, Ready, TwoSided, Results, Settled;
      var d1, y := ValueToReg(d0, reg, x, z, base, e);
      ghost var code, js := c.code, c.js;
      if HasJumps(d1) {
        CloseLists(d1, reg, y, z, base, e);
      } else {
        NoLists(code, js, d1, y, z);
        forall m: Machine, r: Regs | m.o == o && k <= m.k
          ensures Results(m, c.code, c.js, |z.code|, base, reg, Eval(m.o, e, r), r) {
          ReadyResults(m, code, js, |z.code|, base, reg, Eval(m.o, e, r), r);
        }
      }
      d := Exp(VNonReloc(reg), NO_JUMP, NO_JUMP);
    }

    /** `luaK_exp2nextreg`. */
    method Exp2NextReg(d0: Exp, ghost x: Lists, ghost z: Snap, ghost base: nat, ghost e: Expr) returns (d: Exp)
      requires Described(d0, x, z, base) && Computes(d0.k, x, z, base, NoReg, e)
      modifies this, c
      ensures Valid() && old(k) <= k && d == Exp(VNonReloc(base), NO_JUMP, NO_JUMP) && freereg == base + 1
      ensures Settled(c.code, c.js, z) && Delivered(z, base, base, e)
    {
      hide Means, Grew, Waiting, Open, Results, Settled;
      d := d0.(k := DischargeVars(d0.k));
      Discharging(d0, x, z, base, e);
      FreeExp(d.k);
      freereg := freereg + 1;
      d := Exp2Reg(d, freereg - 1, x, z, base, e);
    }

    /** Every run of the code since `z` goes through, and the operand then has the value of `e`. */
    ghost predicate Offering(z: Snap, base: nat, rk: RK, e: Expr)
      reads this, c
    {
      forall m: Machine, r: Regs :: m.o == o && k <= m.k ==>
        Offers(m, c.code, c.js, |z.code|, base, rk, Eval(m.o, e, r), r)
    }

    /** A register or constant that an instruction can name. */
    ghost predicate InReach(rk: RK, base: nat)
      reads this
    {
      match rk
      case Reg(r) => if r < nactvar then freereg == base else r == base && freereg == base + 1
      case Kst(i) => i < |k| && freereg == base
    }

    /** `luaK_exp2anyreg`. */
    method Exp2AnyReg(d0: Exp, ghost x: Lists, ghost z: Snap, ghost base: nat, ghost e: Expr) returns (d: Exp)
      requires Described(d0, x, z, base) && Computes(d0.k, x, z, base, NoReg, e)
      modifies this, c
      ensures Valid() && old(k) <= k && d.k.VNonReloc? && d == Exp(d.k, NO_JUMP, NO_JUMP) && nactvar <= base
      ensures Settled(c.code, c.js, z) && Offering(z, base, Reg(d.k.r), e) && InReach(Reg(d.k.r), base)
    {
      hide Means, Grew, Waiting, Results, Settled, Offers;
      d := d0.(k := DischargeVars(d0.k));
      Discharging(d0, x, z, base, e);
      HasJumpsMeans(c.code, d, x, |z.code|);
      if d.k.VNonReloc? && !HasJumps(d) {
        SettledAlready(c.code, c.js, d, x, z);
        forall m: Machine, r: Regs | m.o == o && k <= m.k
          ensures Offers(m, c.code, c.js, |z.code|, base, Reg(d.k.r), Eval(m.o, e, r), r) {
          RegisterOffers(m, c.code, c.js, d.k.r, |z.code|, base, e, r);
        }
        return;
      }
      if d.k.VNonReloc? && d.k.r >= nactvar {
        d := Exp2Reg(d, d.k.r, x, z, base, e);
      } else {
        d := Exp2NextReg(d, x, z, base, e);
      }
      forall m: Machine, r: Regs | m.o == o && k <= m.k
        ensures Offers(m, c.code, c.js, |z.code|, base, Reg(d.k.r), Eval(m.o, e, r), r) {
        ResultOffers(m, c.code, c.js, |z.code|, base, Eval(m.o, e, r), r);
      }
    }

    /** `luaK_exp2RK`. The second look at a descriptor that is a register already finds nothing to do. */
    method Exp2RK(d0: Exp, ghost x: Lists, ghost z: Snap, ghost base: nat, ghost e: Expr) returns (kind: Kind, rk: RK)
      requires Described(d0, x, z, base) && Computes(d0.k, x, z, base, NoReg, e)
      modifies this, c
      ensures Valid() && old(k) <= k
              && (if rk.Reg? then kind == VNonReloc(rk.r) else kind == VK(rk.k) && rk.k <= MAXINDEXRK)
      ensures Settled(c.code, c.js, z) && Offering(z, base, rk, e) && InReach(rk, base) && nactvar <= base
    {
      hide Means, Grew, Waiting, Settled, Offers;
      var d := d0.(k := DischargeVars(d0.k));
      Discharging(d0, x, z, base, e);
      HasJumpsMeans(c.code, d, x, |z.code|);
      if !HasJumps(d) && IsConstant(d.k) && |k| <= MAXINDEXRK {
        ghost var was := k;
        var i := AddK(ConstantOf(d.k));
        kind, rk := VK(i), Kst(i);
        SettledAlready(c.code, c.js, d, x, z);
        forall m: Machine, r: Regs | m.o == o && k <= m.k
          ensures Offers(m, c.code, c.js, |z.code|, base, rk, Eval(m.o, e, r), r) {
          assert was <= m.k;
          ConstantOffers(m, c.code, c.js, d.k, k, i, |z.code|, base, e, r);
        }
      } else if !HasJumps(d) && d.k.VK? && d.k.i <= MAXINDEXRK {
        kind, rk := d.k, Kst(d.k.i);
        SettledAlready(c.code, c.js, d, x, z);
        forall m: Machine, r: Regs | m.o == o && k <= m.k
          ensures Offers(m, c.code, c.js, |z.code|, base, rk, Eval(m.o, e, r), r) {
          KnownOffers(m, c.code, c.js, k, d.k.i, |z.code|, base, e, r);
        }
      } else {
        d := Exp2AnyReg(d, x, z, base, e);
        kind, rk := d.k, Reg(d.k.r);
      }
    }

    /** The end of `codecomp`: free the operands and emit the test. `>` and `>=` exchange their operands. */
    method EmitComparison(op: CompOp, kind1: Kind, rk1: RK, kind2: Kind, rk2: RK, ghost z: Snap, ghost base: nat,
                          ghost a: Expr, ghost b: Expr) returns (d: Exp)
      requires Valid() && Settled(c.code, c.js, z) && nactvar <= base
      requires freereg == base + Temporaries(kind1) + Temporaries(kind2)
      requires Temporaries(kind1) > 0 ==> kind1 == VNonReloc(base)
      requires Temporaries(kind2) > 0 ==> kind2 == VNonReloc(base + Temporaries(kind1))
      requires Offering(z, base, rk1, a) && Offering(z, base, rk2, b)
      modifies this, c
      ensures Described(d, Lists([], []), z, base) && Computes(d.k, Lists([], []), z, base, NoReg, Comp(op, a, b))
              && k == old(k)
    {
      hide Means, Grew, Waiting, Open, Offers, Settled, Emitted;
      FreeExp(kind2);
      FreeExp(kind1);
      var o1, o2, rel, cond := rk1, rk2, Relation(op), op == EQ || op == LT || op == LE;
      if !cond && rel != Eq {
        o1, o2, cond := o2, o1, true;
      }
      ghost var code, js := c.code, c.js;
      var test := Compare(rel, cond, o1, o2);
      var pc := CondJump(test);
      d := Exp(VJmp(pc), NO_JUMP, NO_JUMP);
      ComparisonShape(code, js, z, c.code, test, d);
      assert IsComparison(test, op, rk1, rk2);
      hide IsComparison, Relation, Fitting, Compared;
      ghost var e, none := Comp(op, a, b), Lists([], []);
      forall m: Machine, r: Regs | m.o == o && k <= m.k
        ensures Means(m, c.code, c.js, d.k, none, |z.code|, base, NoReg, e, r) {
        CompareMeans(m, code, js, |z.code|, base, rk1, rk2, r, c.code, op, a, b, test);
      }
    }

    /** Compile an operand and make it a register or a constant. */
    method CompileOperand(e: Expr) returns (kind: Kind, rk: RK)
      requires Valid() && Clean(c.code, c.js) && Closed(e, nactvar)
      modifies this, c
      ensures Valid() && old(k) <= k
              && (if rk.Reg? then kind == VNonReloc(rk.r) else kind == VK(rk.k) && rk.k <= MAXINDEXRK)
      ensures Settled(c.code, c.js, old(Snap(c.code, c.js))) && Offering(old(Snap(c.code, c.js)), old(freereg), rk, e)
      ensures InReach(rk, old(freereg)) && nactvar <= old(freereg)
      decreases e, 2
    {
      hide Means, Grew, Waiting, Open, Offers, Settled;
      ghost var z, base := Snap(c.code, c.js), freereg;
      var d, x := Compile(e);
      kind, rk := Exp2RK(d, x, z, base, e);
    }

    /** The two operands of a comparison and the comparison itself. */
    method CompileComparison(e: Expr) returns (d: Exp)
      requires Valid() && Clean(c.code, c.js) && Closed(e, nactvar) && e.Comp?
      modifies this, c
      ensures Described(d, Lists([], []), old(Snap(c.code, c.js)), old(freereg)) && old(k) <= k
      ensures Computes(d.k, Lists([], []), old(Snap(c.code, c.js)), old(freereg), NoReg, e)
      decreases e, 0
    {
      hide Means, Grew, Waiting, Open, Offers, Settled, Clean;
      ghost var z, base := Snap(c.code, c.js), freereg;
      var kind1, rk1 := CompileOperand(e.a);
      ghost var z2, base2, k2 := Snap(c.code, c.js), freereg, k;
      SettledClean(c.code, c.js, z);
      var kind2, rk2 := CompileOperand(e.b);
      SettledTwice(z, z2, c.code, c.js);
      FirstOffering(z, z2, base, base2, k2, rk1, rk2, e.a, e.b);
      SecondOffering(z, z2, base, base2, k2, rk1, rk2, e.a, e.b);
      d := EmitComparison(e.op, kind1, rk1, kind2, rk2, z, base, e.a, e.b);
    }

    lemma FirstOffering(z: Snap, z2: Snap, base: nat, base2: nat, k2: seq<Val>, rk1: RK, rk2: RK, a: Expr, b: Expr)
      requires forall m: Machine, r: Regs :: m.o == o && k2 <= m.k ==>
               Offers(m, z2.code, z2.js, |z.code|, base, rk1, Eval(m.o, a, r), r)
      requires Offering(z2, base2, rk2, b) && k2 <= k && Settled(z2.code, z2.js, z) && Settled(c.code, c.js, z2)
      requires nactvar <= base <= base2 && Closed(b, nactvar) && (rk1.Reg? ==> rk1.r < base2)
      ensures Offering(z, base, rk1, a)
    {
      hide Offers, Settled;
      forall m: Machine, r: Regs | m.o == o && k <= m.k
        ensures Offers(m, c.code, c.js, |z.code|, base, rk1, Eval(m.o, a, r), r) {
        var out := Exec(m, z2.code, {}, Elems(z2.js), |z.code|, r);
        assert out.Fall? ==> Offers(m, c.code, c.js, |z2.code|, base2, rk2, Eval(m.o, b, out.r), out.r);
        TwoOffers(m, z2.code, z2.js, z, base, rk1, a, c.code, c.js, base2, rk2, b, r, nactvar);
      }
    }

    lemma SecondOffering(z: Snap, z2: Snap, base: nat, base2: nat, k2: seq<Val>, rk1: RK, rk2: RK, a: Expr, b: Expr)
      requires forall m: Machine, r: Regs :: m.o == o && k2 <= m.k ==>
               Offers(m, z2.code, z2.js, |z.code|, base, rk1, Eval(m.o, a, r), r)
      requires Offering(z2, base2, rk2, b) && k2 <= k && Settled(z2.code, z2.js, z) && Settled(c.code, c.js, z2)
      requires nactvar <= base <= base2 && Closed(b, nactvar) && (rk1.Reg? ==> rk1.r < base2)
      ensures Offering(z, base, rk2, b)
    {
      hide Offers, Settled;
      forall m: Machine, r: Regs | m.o == o && k <= m.k
        ensures Offers(m, c.code, c.js, |z.code|, base, rk2, Eval(m.o, b, r), r) {
        var out := Exec(m, z2.code, {}, Elems(z2.js), |z.code|, r);
        assert out.Fall? ==> Offers(m, c.code, c.js, |z2.code|, base2, rk2, Eval(m.o, b, out.r), out.r);
        TwoOffers(m, z2.code, z2.js, z, base, rk1, a, c.code, c.js, base2, rk2, b, r, nactvar);
      }
    }

    /** The calls that `subexpr` makes for an expression. */
    method Compile(e: Expr) returns (d: Exp, ghost x: Lists)
      requires Valid() && Clean(c.code, c.js) && Closed(e, nactvar)
      modifies this, c
      ensures Described(d, x, old(Snap(c.code, c.js)), old(freereg)) && old(k) <= k
      ensures Computes(d.k, x, old(Snap(c.code, c.js)), old(freereg), NoReg, e)
      decreases e, 1
    {
      hide Means, Grew, Waiting, Open, Clean, OneSided;
      ghost var z, base := Snap(c.code, c.js), freereg;
      match e {
        case Nil => d, x := Leaf(VNil, e);
        case True => d, x := Leaf(VTrue, e);
        case False => d, x := Leaf(VFalse, e);
        case Numeral(v) => d, x := Leaf(VKNum(v), e);
        case Str(v) => var i := AddK(v); d, x := Leaf(VK(i), e);
        case Local(r) => d, x := Leaf(VLocal(r), e);
        case Not(a) =>
          d, x := Compile(a);
          d, x := CodeNot(d, x, z, base, a);
        case And(a, b) =>
          d, x := Compile(a);
          d, x := GoIf(d, true, x, z, base, a);
          d, x := Second(d, true, b, x, z, base, e);
        case Or(a, b) =>
          d, x := Compile(a);
          d, x := GoIf(d, false, x, z, base, a);
          d, x := Second(d, false, b, x, z, base, e);
        case Comp(_, _, _) =>
          d := CompileComparison(e);
          x := Lists([], []);
      }
    }

    /**
     Compile an expression into the next free register. Whatever the registers and the order
     relations, the new code goes through, leaves the value of the expression there and all
     registers below alone.
     */
    method CompileToNextReg(e: Expr) returns (reg: nat)
      requires Valid() && Clean(c.code, c.js) && Closed(e, nactvar)
      modifies this, c
      ensures Valid() && Clean(c.code, c.js) && reg == old(freereg) && freereg == reg + 1
      ensures Grew(old(c.code), old(c.js), c.code, c.js) && old(k) <= k
      ensures forall m: Machine, r: Regs :: m.o == o && k <= m.k ==>
              Yields(m, c.code, c.js, |old(c.code)|, reg, reg, Eval(o, e, r), r)
    {
      hide Means, Waiting, Open, Clean, Settled, Results, Grew;
      ghost var z := Snap(c.code, c.js);
      reg := freereg;
      var d, x := Compile(e);
      d := Exp2NextReg(d, x, z, reg, e);
      SettledClean(c.code, c.js, z);
      SettledGrew(c.code, c.js, z);
      forall m: Machine, r: Regs | m.o == o && k <= m.k
        ensures Yields(m, c.code, c.js, |z.code|, reg, reg, Eval(o, e, r), r) {
        ResultsYield(m, c.code, c.js, |z.code|, reg, reg, Eval(o, e, r), r);
      }
    }

    /** The assignment `v = e` to a local variable (`luaK_storevar`): the value may be built from the old one. */
    method CompileAssignment(v: nat, e: Expr)
      requires Valid() && Clean(c.code, c.js) && Closed(e, nactvar) && v < nactvar
      modifies this, c
      ensures Valid() && Clean(c.code, c.js) && freereg == old(freereg)
      ensures Grew(old(c.code), old(c.js), c.code, c.js) && old(k) <= k
      ensures forall m: Machine, r: Regs :: m.o == o && k <= m.k ==>
              Yields(m, c.code, c.js, |old(c.code)|, freereg, v, Eval(o, e, r), r)
    {
      hide Means, Waiting, Open, Clean, Settled, Results, Grew;
      ghost var z, base := Snap(c.code, c.js), freereg;
      var d, x := Compile(e);
      Discharging(d, x, z, base, e);
      d := d.(k := DischargeVars(d.k));
      FreeExp(d.k);
      d := Exp2Reg(d, v, x, z, base, e);
      SettledClean(c.code, c.js, z);
      SettledGrew(c.code, c.js, z);
      forall m: Machine, r: Regs | m.o == o && k <= m.k
        ensures Yields(m, c.code, c.js, |z.code|, base, v, Eval(o, e, r), r) {
        ResultsYield(m, c.code, c.js, |z.code|, base, v, Eval(o, e, r), r);
      }
    }

    /** A constant or local variable needs no code yet (`init_exp`). */
    method Leaf(kind: Kind, ghost e: Expr) returns (d: Exp, ghost x: Lists)
      requires Valid() && Clean(c.code, c.js) && IsLeaf(k, nactvar, kind, e)
      ensures Described(d, x, Snap(c.code, c.js), freereg) && Computes(d.k, x, Snap(c.code, c.js), freereg, NoReg, e)
    {
      d, x := Exp(kind, NO_JUMP, NO_JUMP), Lists([], []);
      LeafShape(c.code, c.js, d);
      hide Means, Grew, Waiting, Open, Clean;
      ghost var lo, base := |c.code|, freereg;
      forall m: Machine, r: Regs | m.o == o && k <= m.k ensures Means(m, c.code, c.js, d.k, x, lo, base, NoReg, e, r) {
        LeafMeans(m, c.code, c.js, k, kind, e, base, nactvar, r);
      }
    }

    /** The second operand of `and` and `or`, and `luaK_posfix`. */
    method Second(d1: Exp, through: bool, b: Expr, ghost y: Lists, ghost z: Snap, ghost base: nat, ghost e: Expr)
      returns (d: Exp, ghost x: Lists)
      requires Valid() && Closed(b, nactvar) && freereg == base
      requires OneSided(c.code, c.js, d1, y, z, through)
      requires (e.And? && e.b == b && through) || (e.Or? && e.b == b && !through)
      requires Decided(y, z, base, e.a, through)
      modifies this, c
      ensures Described(d, x, z, base) && old(k) <= k && Computes(d.k, x, z, base, NoReg, e)
      decreases b, 2
    {
      hide Means, Grew, Waiting, Open, Clean, OneSided, Branches, Pieces, Joined, Fitting;
      ghost var z2, k2 := Snap(c.code, c.js), k;
      OneSidedClean(c.code, c.js, d1, y, z, through);
      var d2, w := Compile(b);
      Discharging(d2, w, z2, base, b);
      d2 := d2.(k := DischargeVars(d2.k));
      x := Joined(w, y);
      d := JoinLists(d1, d2, through, y, w, z, z2, k2, base, b, e);
    }

    /** `luaK_posfix` for `and` and `or`, with both operands compiled. */
    method JoinLists(d1: Exp, d2: Exp, through: bool, ghost y: Lists, ghost w: Lists, ghost z: Snap, ghost z2: Snap,
                     ghost k2: seq<Val>,
                     ghost base: nat, ghost b: Expr, ghost e: Expr) returns (d: Exp)
      requires OneSided(z2.code, z2.js, d1, y, z, through) && Described(d2, w, z2, base)
               && Computes(d2.k, w, z2, base, NoReg, b) && k2 <= k
      requires Closed(b, nactvar) && ((e.And? && e.b == b && through) || (e.Or? && e.b == b && !through))
      requires forall m: Machine, r: Regs :: m.o == o && k2 <= m.k ==>
               Branches(m, z2.code, z2.js, y, |z.code|, base, e.a, r, through)
      modifies c
      ensures Described(d, Joined(w, y), z, base) && Computes(d.k, Joined(w, y), z, base, NoReg, e)
    {
      hide Means, Grew, Waiting, Open, OneSided, Branches, Pieces, Joined, Fitting;
      ghost var code, js, x := c.code, c.js, Joined(w, y);
      SecondLists(z2.code, z2.js, d1, y, z, through, code, js, d2, w, nactvar, k, base);
      OneSidedClean(z2.code, z2.js, d1, y, z, through);
      JoinComputes(y, z, base, e.a, through, z2, k2, d2, w, b, e);
      var l := if through then d2.f else d2.t;
      ghost var list := if through then w.fs else w.ts;
      l := c.Concat(l, if through then d1.f else d1.t, list, if through then y.fs else y.ts);
      d := if through then d2.(f := l) else d2.(t := l);
      JoinedShape(z2.code, z2.js, d1, y, z, through, code, js, d2, w, c.code, c.jpc, d, k, nactvar, base);
      RelinkComputes(code, Elems(list), d.k, x, z, base, e);
    }

    lemma JoinComputes(y: Lists, z: Snap, base: nat, a: Expr, through: bool, z2: Snap, k2: seq<Val>, d: Exp, w: Lists,
                       b: Expr, e: Expr)
      requires forall m: Machine, r: Regs :: m.o == o && k2 <= m.k ==>
               Branches(m, z2.code, z2.js, y, |z.code|, base, a, r, through)
      requires Computes(d.k, w, z2, base, NoReg, b) && k2 <= k
               && Pieces(z2.code, z2.js, y, |z.code|, c.code, c.js, d.k, w)
      requires Closed(b, nactvar) && nactvar <= base && (if through then y.ts else y.fs) == []
      requires (through && e == And(a, b)) || (!through && e == Or(a, b))
      ensures Computes(d.k, Joined(w, y), z, base, NoReg, e)
    {
      hide Means, Pieces, Joined, Branches;
      var x := Joined(w, y);
      forall m: Machine, r: Regs | m.o == o && k <= m.k
        ensures Means(m, c.code, c.js, d.k, x, |z.code|, base, NoReg, e, r) {
        var out := Exec(m, z2.code, Exits(y), Elems(z2.js), |z.code|, r);
        assert out.Fall? ==> Means(m, c.code, c.js, d.k, w, |z2.code|, base, NoReg, b, out.r);
        JoinMeans(m, z2.code, z2.js, y, |z.code|, nactvar, base, a, r, through, c.code, c.js, d.k, w, b, e);
      }
    }

    lemma RelinkComputes(code: seq<Instr>, list: set<nat>, kind: Kind, x: Lists, z: Snap, base: nat, e: Expr)
      requires forall m: Machine, r: Regs :: m.o == o && k <= m.k ==>
               Means(m, code, c.js, kind, x, |z.code|, base, NoReg, e, r)
      requires Relinked(code, c.code, list) && list <= Exits(x) && Suspended(kind) <= |code|
      requires forall j <- Exits(x) :: Conditional(code, j, |z.code|, |code| - Suspended(kind))
      requires kind.VReloc? ==> kind.pc < |code| && code[kind.pc].NotOp?
      requires kind.VJmp? ==> 0 < kind.pc < |code| && IsTest(code[kind.pc - 1])
      ensures Computes(kind, x, z, base, NoReg, e)
    {
      hide Means;
      forall m: Machine, r: Regs | m.o == o && k <= m.k
        ensures Means(m, c.code, c.js, kind, x, |z.code|, base, NoReg, e, r) {
        RelinkMeans(m, code, c.js, kind, x, |z.code|, base, NoReg, e, r, c.code, list);
      }
    }

    ghost predicate IsReady(y: Lists, z: Snap, base: nat, reg: nat, e: Expr, jmp: bool)
      reads this, c
    {
      forall m: Machine, r: Regs :: m.o == o && k <= m.k ==>
        Ready(m, c.code, c.js, y, |z.code|, base, reg, Eval(m.o, e, r), r, jmp)
    }

    /** The code since `z` leaves the value of `e` in `reg`, with no list open. */
    ghost predicate Delivered(z: Snap, base: nat, reg: nat, e: Expr)
      reads this, c
    {
      forall m: Machine, r: Regs :: m.o == o && k <= m.k ==>
        Results(m, c.code, c.js, |z.code|, base, reg, Eval(m.o, e, r), r)
    }

    ghost predicate Opposite(kind: Kind, x: Lists, z: Snap, base: nat, e: Expr)
      reads this, c
    {
      forall m: Machine, r: Regs :: m.o == o && k <= m.k ==>
        Negates(m, c.code, c.js, kind, x, |z.code|, base, Eval(m.o, e, r), r)
    }

    /** `luaK_dischargevars` does not change what a descriptor stands for. */
    lemma Discharging(d: Exp, x: Lists, z: Snap, base: nat, e: Expr)
      requires Described(d, x, z, base) && Computes(d.k, x, z, base, NoReg, e)
      ensures Described(d.(k := DischargeVars(d.k)), x, z, base) && Computes(DischargeVars(d.k), x, z, base, NoReg, e)
    {
      hide Exec, Eval, Grew, Waiting;
      if d.k.VLocal? {
        forall m: Machine, r: Regs | m.o == o && k <= m.k
          ensures Means(m, c.code, c.js, VNonReloc(d.k.r), x, |z.code|, base, NoReg, e, r) {
          assert Means(m, c.code, c.js, d.k, x, |z.code|, base, NoReg, e, r);
        }
      }
    }

    lemma KeepDecided(code: seq<Instr>, list: set<nat>, y: Lists, z: Snap, base: nat, e: Expr, through: bool)
      requires forall m: Machine, r: Regs :: m.o == o && k <= m.k ==>
               Branches(m, code, c.js, y, |z.code|, base, e, r, through)
      requires Relinked(code, c.code, list) && list <= Exits(y)
               && forall j <- Exits(y) :: Conditional(code, j, |z.code|, |code|)
      ensures Decided(y, z, base, e, through)
    {
      hide Branches;
      forall m: Machine, r: Regs | m.o == o && k <= m.k
        ensures Branches(m, c.code, c.js, y, |z.code|, base, e, r, through) {
        RelinkBranches(m, code, c.js, y, |z.code|, base, e, r, through, c.code, list);
      }
    }

    lemma SendDecided(code: seq<Instr>, js: seq<nat>, y: Lists, z: Snap, base: nat, e: Expr, through: bool)
      requires forall m: Machine, r: Regs :: m.o == o && k <= m.k ==>
               Branches(m, code, js, y, |z.code|, base, e, r, through)
      requires Relinked(code, c.code, Elems(js)) && Waiting(code, js, y, |z.code|) && Elems(y.ts) !! Elems(y.fs)
      requires (forall j <- Exits(y) :: Conditional(code, j, |z.code|, |code|)) && c.js == js + if through then y.ts
               else y.fs
      ensures Decided(if through then Lists([], y.fs) else Lists(y.ts, []), z, base, e, through)
    {
      hide Branches;
      var y' := if through then Lists([], y.fs) else Lists(y.ts, []);
      forall m: Machine, r: Regs | m.o == o && k <= m.k
        ensures Branches(m, c.code, c.js, y', |z.code|, base, e, r, through) {
        HereBranches(m, code, js, y, |z.code|, base, e, r, through, c.code);
      }
    }
  }

  /** A branch that can only leave one way. */
  ghost predicate OneSided(code: seq<Instr>, js: seq<nat>, d: Exp, y: Lists, z: Snap, through: bool) {
    && Chain(code, d.t, y.ts) && Chain(code, d.f, y.fs) && (if through then y.ts else y.fs) == []
    && (forall j <- Exits(y) :: Conditional(code, j, |z.code|, |code|))
    && Waiting(code, js, y, |z.code|) && Grew(z.code, z.js, code, js) && |z.code| <= |code|
    && Ended(code, |z.code|)
  }

  lemma HalfwayApart(code: seq<Instr>, js: seq<nat>, d: Exp, x: Lists, z: Snap, pc: int, ps: seq<nat>)
    requires Halfway(code, js, d, x, z, pc, ps)
    ensures Chain(code, pc, ps) && Chain(code, d.t, x.ts) && Chain(code, d.f, x.fs)
    ensures Elems(x.fs) !! Elems(ps) && Elems(x.ts) !! Elems(ps)
    ensures Elems(x.fs) <= Exits(With(x, ps, false)) && Elems(x.ts) <= Exits(With(x, ps, true))
    ensures forall cond :: forall j <- Exits(With(x, ps, cond)) :: Conditional(code, j, |z.code|, |code|)
    ensures Elems(js) !! Elems(x.fs) && Elems(js) !! Elems(x.ts)
  {
    ElemsJoin(x.ts, ps);
    ElemsJoin(x.fs, ps);
  }

  /** Both lists of a branch. */
  ghost predicate TwoSided(code: seq<Instr>, js: seq<nat>, d: Exp, y: Lists, z: Snap) {
    && Chain(code, d.t, y.ts) && Chain(code, d.f, y.fs) && Elems(y.ts) !! Elems(y.fs)
    && (forall j <- Exits(y) :: Conditional(code, j, |z.code|, |code|))
    && Waiting(code, js, y, |z.code|) && Grew(z.code, z.js, code, js) && |z.code| <= |code|
    && Ended(code, |z.code|)
  }

  lemma Joining(code: seq<Instr>, js: seq<nat>, d: Exp, x: Lists, z: Snap, pc: int, ps: seq<nat>, through: bool,
                code': seq<Instr>, h: int)
    requires Halfway(code, js, d, x, z, pc, ps)
    requires var xs := if through then x.fs else x.ts; Relinked(code, code', Elems(xs)) && Chain(code', h, xs + ps)
    ensures TwoSided(code', js, if through then d.(f := h) else d.(t := h), With(x, ps, !through), z)
  {
    var y := With(x, ps, !through);
    var xs := if through then x.fs else x.ts;
    ElemsJoin(x.ts, ps);
    ElemsJoin(x.fs, ps);
    assert Exits(y) == Exits(x) + Elems(ps) == Exits(Lists(x.ts, x.fs + ps));
    RelinkedShape(z.code, z.js, code, js, y, |code|, code', Elems(xs));
    RelinkedChain(code, code', if through then d.t else d.f, if through then x.ts else x.fs, Elems(xs));
  }

  lemma SendingApart(code: seq<Instr>, js: seq<nat>, d: Exp, y: Lists, z: Snap)
    requires TwoSided(code, js, d, y, z)
    ensures Chain(code, d.t, y.ts) && Chain(code, d.f, y.fs) && Elems(js) !! Elems(y.ts) && Elems(js) !! Elems(y.fs)
  {
  }

  lemma Sending(code: seq<Instr>, js: seq<nat>, d: Exp, y: Lists, z: Snap, through: bool, code': seq<Instr>,
                js': seq<nat>)
    requires TwoSided(code, js, d, y, z) && Relinked(code, code', Elems(js))
    requires var some := if through then y.ts else y.fs; js' == js + some && (some == [] ==> code' == code)
    ensures if through then OneSided(code', js', d.(t := NO_JUMP), Lists([], y.fs), z, through)
            else OneSided(code', js', d.(f := NO_JUMP), Lists(y.ts, []), z, through)
    ensures Waiting(code, js, y, |z.code|) && Elems(y.ts) !! Elems(y.fs)
            && forall j <- Exits(y) :: Conditional(code, j, |z.code|, |code|)
  {
    var some, rest := if through then y.ts else y.fs, if through then y.fs else y.ts;
    var y' := if through then Lists([], y.fs) else Lists(y.ts, []);
    assert Elems([]) == {};
    ElemsJoin(js, some);
    RelinkedChain(code, code', if through then d.f else d.t, rest, Elems(js));
    if some == [] {
      assert js' == js && Exits(y') == Exits(y);
    } else {
      SendingSome(code, js, y, z, some, code', js');
    }
    RelinkedEnd(code, code', Elems(js), |z.code|);
  }

  lemma SendingSome(code: seq<Instr>, js: seq<nat>, y: Lists, z: Snap, some: seq<nat>, code': seq<Instr>, js': seq<nat>)
    requires Waiting(code, js, y, |z.code|) && Grew(z.code, z.js, code, js)
             && (forall j <- Exits(y) :: Conditional(code, j, |z.code|, |code|))
    requires Relinked(code, code', Elems(js)) && js' == js + some && some != [] && Elems(some) <= Exits(y)
    ensures Grew(z.code, z.js, code', js') && (forall j <- Exits(y) :: Conditional(code', j, |z.code|, |code'|))
    ensures forall j <- js' :: j < |code'| && code'[j].Jmp? && (j >= 1 ==> Unkept(code'[j - 1])) && j > |z.code|
  {
    assert some[0] in Elems(some);
    assert |code| > |z.code|;
    RelinkedShape(z.code, z.js, code, js, y, |code|, code', Elems(js));
    forall j | j in some ensures Conditional(code', j, |z.code|, |code|) { assert j in Elems(some) && j in Exits(y); }
  }

  /** The lists with the jumps of one more list. */
  function With(x: Lists, ps: seq<nat>, cond: bool): Lists {
    if cond then Lists(x.ts + ps, x.fs) else Lists(x.ts, x.fs + ps)
  }

  /** A branch whose new jump is not on a list yet. */
  ghost predicate Halfway(code: seq<Instr>, js: seq<nat>, d: Exp, x: Lists, z: Snap, pc: int, ps: seq<nat>) {
    && Chain(code, pc, ps) && Chain(code, d.t, x.ts) && Chain(code, d.f, x.fs) && Elems(x.ts) !! Elems(x.fs)
       && Elems(ps) !! Exits(x)
    && (forall j <- Exits(x) + Elems(ps) :: Conditional(code, j, |z.code|, |code|))
    && Waiting(code, js, Lists(x.ts, x.fs + ps), |z.code|) && Grew(z.code, z.js, code, js) && |z.code| <= |code|
    && Ended(code, |z.code|)
  }

  lemma ConstantHalfway(code: seq<Instr>, js: seq<nat>, d: Exp, x: Lists, z: Snap)
    requires Open(code, d, x, |z.code|) && Suspended(d.k) == 0 && Waiting(code, js, x, |z.code|)
             && Grew(z.code, z.js, code, js)
    requires Ended(code, |z.code|)
    ensures Halfway(code, js, d, x, z, NO_JUMP, [])
  {
    assert x.fs + [] == x.fs && Lists(x.ts, x.fs + []) == x;
    assert Elems([]) == {};
    GrownSize(z.code, z.js, code, js);
  }

  lemma TestHalfway(code: seq<Instr>, d: Exp, x: Lists, z: Snap, pc: nat)
    requires TestBehind(code, d, x, z, pc)
    ensures Halfway(code, [], d, x, z, pc, [pc])
  {
    assert Elems([pc]) == {pc} && Elems([]) == {};
    assert pc !in Exits(x);
    GrownSize(z.code, z.js, code, []);
    forall j | j in Exits(x) + Elems([pc]) ensures Conditional(code, j, |z.code|, |code|) {
      if j in Exits(x) { assert Conditional(code, j, |z.code|, pc); }
    }
  }

  lemma JmpHalfway(code: seq<Instr>, d: Exp, x: Lists, z: Snap, code': seq<Instr>)
    requires Open(code, d, x, |z.code|) && Grew(z.code, z.js, code, [])
    requires d.k.VJmp? && |z.code| < d.k.pc == |code| - 1 && code[d.k.pc] == Jmp(NO_JUMP) && code[d.k.pc - 1].Compare?
    requires code' == code || code' == code[d.k.pc - 1 := Inverted(code[d.k.pc - 1])]
    ensures Halfway(code', [], d, x, z, d.k.pc, [d.k.pc]) && Waiting(code[..d.k.pc - 1], [], x, |z.code|)
    ensures forall j <- Exits(x) ::
              Conditional(code, j, |z.code|, d.k.pc - 1) && Conditional(code[..d.k.pc - 1], j, |z.code|, d.k.pc - 1)
    ensures Emitted(code[..d.k.pc - 1], [], code', [code'[d.k.pc - 1], Jmp(NO_JUMP)])
  {
    var pc := d.k.pc;
    forall j | j in Exits(x)
      ensures Conditional(code, j, |z.code|, pc - 1) && Conditional(code[..pc - 1], j, |z.code|, pc - 1)
              && Conditional(code', j, |z.code|, pc) && code'[j] == code[j]
    {
      assert Conditional(code, j, |z.code|, |code| - 2);
    }
    EmittedChain(code, code', d.t, x.ts, Exits(x));
    EmittedChain(code, code', d.f, x.fs, Exits(x));
    assert LinksOn(code', [pc], 0);
    assert code'[..|z.code|] == code[..|z.code|];
    assert TestBehind(code', d, x, z, pc);
    TestHalfway(code', d, x, z, pc);
    assert code' == code[..pc - 1] + [code'[pc - 1], Jmp(NO_JUMP)];
    NothingWaits(code[..pc - 1], code', [code'[pc - 1], Jmp(NO_JUMP)]);
    assert Elems([]) == {};
  }

  /** The state after a test has been emitted behind the code of a descriptor. */
  ghost predicate TestBehind(code: seq<Instr>, d: Exp, x: Lists, z: Snap, pc: nat) {
    && pc == |code| - 1 && Chain(code, pc, [pc]) && Chain(code, d.t, x.ts) && Chain(code, d.f, x.fs)
       && Elems(x.ts) !! Elems(x.fs)
    && (forall j <- Exits(x) :: Conditional(code, j, |z.code|, pc)) && Conditional(code, pc, |z.code|, pc + 1)
    && Grew(z.code, z.js, code, [])
  }

  lemma RegTested(code: seq<Instr>, js: seq<nat>, d: Exp, d': Exp, x: Lists, z: Snap, code': seq<Instr>, test: Instr)
    requires Open(code, d', x, |z.code|) && Waiting(code, js, x, |z.code|) && Grew(z.code, z.js, code, js)
             && Suspended(d'.k) == 0
    requires d'.t == d.t && d'.f == d.f && IsTest(test) && Unkept(test)
             && Emitted(code, js, code', [test, Jmp(NO_JUMP)])
    requires Chain(code', |code'| - 1, [|code'| - 1])
    ensures TestBehind(code', d, x, z, |code'| - 1) && |code'| == |code| + 2
    ensures forall j <- Exits(x) :: Conditional(code, j, |z.code|, |code|)
  {
    hide Discharged;
    GrownSize(z.code, z.js, code, js);
    EmittedSize(code, js, code', [test, Jmp(NO_JUMP)]);
    assert code'[|code|] == test;
    EmittedOpen(code, js, d', x, |z.code|, code', [test, Jmp(NO_JUMP)], d'.(k := VReloc(0)));
    GrewEmitted(z.code, z.js, code, js, x, code', [test, Jmp(NO_JUMP)]);
  }

  lemma NotShape(code: seq<Instr>, d: Exp, x: Lists, z: Snap, prefix: seq<Instr>)
    requires Open(code, d, x, |z.code|) && d.k.VReloc? && |z.code| <= |code| - 1 && prefix == code[..|code| - 1]
    ensures Open(prefix, d.(k := VTrue), x, |z.code|) && Waiting(prefix, [], x, |z.code|)
    ensures forall j <- Exits(x) ::
              Conditional(code, j, |z.code|, |code| - 1) && Conditional(prefix, j, |z.code|, |prefix|)
    ensures Chain(prefix, NO_JUMP, [])
  {
    forall j | j in Exits(x) ensures Conditional(prefix, j, |z.code|, |prefix|) && prefix[j] == code[j] {
      assert Conditional(code, j, |z.code|, |code| - 1);
    }
    EmittedChain(code, prefix, d.t, x.ts, Exits(x));
    EmittedChain(code, prefix, d.f, x.fs, Exits(x));
  }

  lemma NotTested(code: seq<Instr>, d: Exp, x: Lists, z: Snap, prefix: seq<Instr>, code': seq<Instr>, test: Instr)
    requires |z.code| <= |code| - 1 && prefix == code[..|code| - 1] && Grew(z.code, z.js, code, [])
    requires Open(prefix, d.(k := VTrue), x, |z.code|) && Waiting(prefix, [], x, |z.code|)
    requires IsTest(test) && Unkept(test) && Emitted(prefix, [], code', [test, Jmp(NO_JUMP)])
             && Chain(code', |code'| - 1, [|code'| - 1])
    ensures TestBehind(code', d, x, z, |code'| - 1) && |code'| == |prefix| + 2
  {
    EmittedSize(prefix, [], code', [test, Jmp(NO_JUMP)]);
    assert code'[|prefix|] == test;
    EmittedOpen(prefix, [], d.(k := VTrue), x, |z.code|, code', [test, Jmp(NO_JUMP)], d.(k := VReloc(0)));
    assert Elems([]) == {};
    NothingPatched(prefix, |prefix|, NoReg, |prefix|);
    assert code'[..|prefix|] == prefix;
    assert code'[..|z.code|] == code'[..|prefix|][..|z.code|] == code[..|z.code|];
  }

  lemma JustEmitted(code: seq<Instr>, js: seq<nat>, code': seq<Instr>, tail: seq<Instr>)
    requires code' == Discharged(code, Elems(js)) + tail
    ensures Emitted(code, js, code', tail)
  {
  }

  lemma LoadShape(code: seq<Instr>, js: seq<nat>, d: Exp, x: Lists, code0: seq<Instr>, js0: seq<nat>, reg: nat,
                  code': seq<Instr>, i: Instr)
    requires Open(code, d, x, |code0|) && Waiting(code, js, x, |code0|) && Grew(code0, js0, code, js)
             && Suspended(d.k) == 0
    requires Emitted(code, js, code', [i])
    ensures Open(code', d.(k := VNonReloc(reg)), x, |code0|) && Waiting(code', [], x, |code0|)
            && Grew(code0, js0, code', [])
    ensures forall j <- Exits(x) :: Conditional(code, j, |code0|, |code|)
  {
    EmittedOpen(code, js, d, x, |code0|, code', [i], d.(k := VNonReloc(reg)));
    GrewEmitted(code0, js0, code, js, x, code', [i]);
  }

  lemma RelocShape(code: seq<Instr>, js: seq<nat>, d: Exp, x: Lists, code0: seq<Instr>, js0: seq<nat>, reg: nat)
    requires Open(code, d, x, |code0|) && Waiting(code, js, x, |code0|) && Grew(code0, js0, code, js)
    requires d.k.VReloc? && |code0| <= d.k.pc == |code| - 1 && code[d.k.pc].NotOp? && js == []
    ensures var code' := code[d.k.pc := NotOp(reg, code[d.k.pc].b)];
            && Open(code', d.(k := VNonReloc(reg)), x, |code0|) && Waiting(code', [], x, |code0|)
               && Grew(code0, js0, code', [])
    ensures forall j <- Exits(x) :: Conditional(code, j, |code0|, |code| - 1)
  {
    var code' := code[d.k.pc := NotOp(reg, code[d.k.pc].b)];
    forall j | j in Exits(x) ensures Conditional(code', j, |code0|, |code'|) && code'[j] == code[j] {
      assert Conditional(code, j, |code0|, |code| - 1);
    }
    EmittedChain(code, code', d.t, x.ts, Exits(x));
    EmittedChain(code, code', d.f, x.fs, Exits(x));
    assert code'[..|code0|] == code[..|code0|];
  }

  lemma SameShape(code: seq<Instr>, d: Exp, d': Exp, x: Lists, z: Snap)
    requires Open(code, d, x, |z.code|) && Suspended(d.k) == Suspended(d'.k) && d'.t == d.t && d'.f == d.f
    ensures Open(code, d', x, |z.code|)
  {
  }

  lemma InvertedShape(code: seq<Instr>, d: Exp, x: Lists, z: Snap, code': seq<Instr>, jpc: int)
    requires Open(code, d, x, |z.code|) && Waiting(code, [], x, |z.code|) && Grew(z.code, z.js, code, [])
             && Chain(code, jpc, [])
    requires d.k.VJmp? && |z.code| < d.k.pc == |code| - 1 && code[d.k.pc - 1].Compare?
    requires code' == code[d.k.pc - 1 := Inverted(code[d.k.pc - 1])]
    ensures Open(code', d, x, |z.code|) && Waiting(code', [], x, |z.code|) && Grew(z.code, z.js, code', [])
            && Chain(code', jpc, [])
    ensures forall j <- Exits(x) :: Conditional(code, j, |z.code|, d.k.pc - 1)
  {
    forall j | j in Exits(x) ensures Conditional(code', j, |z.code|, |code| - 2) && code'[j] == code[j] {
      assert Conditional(code, j, |z.code|, |code| - 2);
    }
    EmittedChain(code, code', d.t, x.ts, Exits(x));
    EmittedChain(code, code', d.f, x.fs, Exits(x));
    assert code'[..|z.code|] == code[..|z.code|];
  }

  lemma NotEmitted(code: seq<Instr>, js: seq<nat>, d1: Exp, x: Lists, z: Snap, code': seq<Instr>, d: Exp)
    requires Open(code, d1, x, |z.code|) && Waiting(code, js, x, |z.code|) && Grew(z.code, z.js, code, js)
             && d1.k.VNonReloc?
    requires Emitted(code, js, code', [NotOp(0, d1.k.r)]) && d == d1.(k := VReloc(|code|))
    ensures Open(code', d, x, |z.code|) && Waiting(code', [], x, |z.code|) && Grew(z.code, z.js, code', [])
    ensures |z.code| <= |code| == |code'| - 1 && code'[|code|] == NotOp(0, d1.k.r)
    ensures forall j <- Exits(x) :: Conditional(code, j, |z.code|, |code|)
  {
    hide Discharged;
    EmittedSize(code, js, code', [NotOp(0, d1.k.r)]);
    EmittedOpen(code, js, d1, x, |z.code|, code', [NotOp(0, d1.k.r)], d);
    GrewEmitted(z.code, z.js, code, js, x, code', [NotOp(0, d1.k.r)]);
    GrownSize(z.code, z.js, code, js);
  }

  lemma RemovedChain(code: seq<Instr>, xs: seq<nat>, h: int, ys: seq<nat>)
    requires Chain(code, h, ys)
    ensures Chain(RemoveAll(code, Elems(xs)), h, ys)
  {
    ChainFrame(code, RemoveAll(code, Elems(xs)), h, ys);
  }

  lemma RemovedShape(code: seq<Instr>, js: seq<nat>, d: Exp, x: Lists, z: Snap, code': seq<Instr>, nactvar: nat,
                     k: seq<Val>, base: nat)
    requires Open(code, d, x, |z.code|) && Waiting(code, js, x, |z.code|) && Grew(z.code, z.js, code, js)
    requires Fitting(code, js, k, d.k, |z.code|, nactvar, base) && Ended(code, |z.code|)
             && code' == RemoveAll(RemoveAll(code, Elems(x.ts)), Elems(x.fs))
    ensures Open(code', d.(t := d.f, f := d.t), Lists(x.fs, x.ts), |z.code|)
            && Waiting(code', js, Lists(x.fs, x.ts), |z.code|)
    ensures Grew(z.code, z.js, code', js) && Fitting(code', js, k, d.k, |z.code|, nactvar, base)
            && Ended(code', |z.code|)
    ensures |code'| == |code| && forall j <- Exits(x) :: Conditional(code, j, |z.code|, |code| - Suspended(d.k))
  {
    RemovedChain(code, x.ts, d.t, x.ts);
    RemovedChain(code, x.ts, d.f, x.fs);
    RemovedChain(RemoveAll(code, Elems(x.ts)), x.fs, d.t, x.ts);
    RemovedChain(RemoveAll(code, Elems(x.ts)), x.fs, d.f, x.fs);
    forall p: nat | p < |code|
      ensures code'[p] == code[p] || (code[p].TestSet? && code'[p].Test? && p + 1 in Exits(x)) {}
    forall j | j in Exits(x) ensures Conditional(code', j, |z.code|, |code| - Suspended(d.k)) {
      assert Conditional(code, j, |z.code|, |code| - Suspended(d.k));
    }
    forall p | 0 <= p < |z.code| && p < |code| ensures code'[p] == code[p] {
      assert p + 1 !in Exits(x);
    }
    if |code| > |z.code| { assert code'[..|z.code|] == code[..|z.code|]; } else { assert code' == code; }
  }

  lemma JmpOpen(code: seq<Instr>, d: Exp, x: Lists, z: Snap)
    requires Open(code, d, x, |z.code|) && d.k.VJmp? && |z.code| < d.k.pc == |code| - 1 && code[d.k.pc] == Jmp(NO_JUMP)
             && code[d.k.pc - 1].Compare?
    ensures Chain(code, d.t, x.ts) && Chain(code, d.k.pc, [d.k.pc]) && Elems(x.ts) !! Elems([d.k.pc])
    ensures forall j <- Exits(x) :: Conditional(code, j, |z.code|, d.k.pc - 1)
    ensures forall j <- Exits(Added(x, d.k.pc, true)) :: Conditional(code, j, |z.code|, |code|)
    ensures Elems(x.ts) <= Exits(Added(x, d.k.pc, true))
  {
    var pc := d.k.pc;
    assert Elems([pc]) == {pc};
    assert LinksOn(code, [pc], 0);
    AddedExits(x, pc, true);
    assert pc !in Exits(x);
    forall j | j in Exits(x)
      ensures Conditional(code, j, |z.code|, pc - 1) { assert Conditional(code, j, |z.code|, |code| - 2); }
  }

  lemma JmpJoined(code: seq<Instr>, d: Exp, x: Lists, z: Snap, code': seq<Instr>, t: int)
    requires Open(code, d, x, |z.code|) && Grew(z.code, z.js, code, []) && Waiting(code, [], x, |z.code|)
    requires d.k.VJmp? && |z.code| < d.k.pc == |code| - 1 && code[d.k.pc] == Jmp(NO_JUMP) && code[d.k.pc - 1].Compare?
    requires Relinked(code, code', Elems(x.ts)) && Chain(code', t, x.ts + [d.k.pc])
    ensures TwoSided(code', [], d.(t := t), Added(x, d.k.pc, true), z)
  {
    var pc := d.k.pc;
    JmpOpen(code, d, x, z);
    AddedExits(x, pc, true);
    assert Elems([]) == {} && Elems([pc]) == {pc};
    ElemsJoin(x.ts, [pc]);
    assert Waiting(code, [], Added(x, pc, true), |z.code|);
    RelinkedShape(z.code, z.js, code, [], Added(x, pc, true), |code|, code', Elems(x.ts));
    RelinkedChain(code, code', d.f, x.fs, Elems(x.ts));
  }

  lemma RegOpen(code: seq<Instr>, js: seq<nat>, d: Exp, x: Lists, z: Snap)
    requires Open(code, d, x, |z.code|) && Waiting(code, js, x, |z.code|) && Grew(z.code, z.js, code, js)
             && d.k.VNonReloc?
    requires Ended(code, |z.code|)
    ensures TwoSided(code, js, d, x, z)
  {
    GrownSize(z.code, z.js, code, js);
  }

  /** Nothing is open since `z`, apart from jumps to the next instruction. */
  ghost predicate Settled(code: seq<Instr>, js: seq<nat>, z: Snap) {
    Grew(z.code, z.js, code, js) && Waiting(code, js, Lists([], []), |z.code|) && |z.code| <= |code|
      && Ended(code, |z.code|)
  }

  lemma TwoSidedLists(code: seq<Instr>, js: seq<nat>, d: Exp, y: Lists, z: Snap)
    requires TwoSided(code, js, d, y, z)
    ensures Chain(code, d.t, y.ts) && Chain(code, d.f, y.fs) && (HasJumps(d) <==> y != Lists([], []))
  {
    HasJumpsMeans(code, d.(k := VNil), y, |z.code|);
  }

  lemma NoLists(code: seq<Instr>, js: seq<nat>, d: Exp, y: Lists, z: Snap)
    requires TwoSided(code, js, d, y, z) && !HasJumps(d)
    ensures y == Lists([], []) && Settled(code, js, z)
  {
    TwoSidedLists(code, js, d, y, z);
  }

  lemma NoLoads(code: seq<Instr>, js: seq<nat>, reg: nat)
    ensures Loads(code, js, code, js, reg, false, false)
  {
  }

  lemma JumpShape(code: seq<Instr>, code1: seq<Instr>, list: seq<nat>, fj: int)
    requires Relinked(code + [Jmp(NO_JUMP)], code1, {|code|}) && Chain(code1, fj, list)
    ensures |code1| == |code| + 1 && code1[..|code|] == code && code1[|code|].Jmp?
  {
    assert (code + [Jmp(NO_JUMP)])[..|code|] == code;
  }

  lemma LongerChain(code: seq<Instr>, code': seq<Instr>, h: int, xs: seq<nat>)
    requires Chain(code, h, xs) && |code'| >= |code| && code'[..|code|] == code
    ensures Chain(code', h, xs)
  {
    forall i | 0 <= i < |xs| ensures code'[xs[i]] == code[xs[i]] { assert code'[..|code|][xs[i]] == code[xs[i]]; }
    ChainFrame(code, code', h, xs);
  }

  lemma LoadsChains(code: seq<Instr>, js: seq<nat>, d: Exp, y: Lists, z: Snap, code2: seq<Instr>, js2: seq<nat>,
                    reg: nat, jmp: bool, need: bool)
    requires TwoSided(code, js, d, y, z) && Loads(code, js, code2, js2, reg, jmp, need)
    ensures Chain(code2, d.t, y.ts) && Chain(code2, d.f, y.fs) && Elems(y.ts) !! Elems(y.fs)
  {
    assert code2[..|code|] == code;
    forall j | j in Exits(y) ensures j < |code| && code2[j] == code[j] {
      assert Conditional(code, j, |z.code|, |code|);
      assert code2[j] == code2[..|code|][j];
    }
    EmittedChain(code, code2, d.t, y.ts, Exits(y));
    EmittedChain(code, code2, d.f, y.fs, Exits(y));
  }

  lemma PatchedChain(code: seq<Instr>, xs: seq<nat>, vtarget: int, reg: Target, dtarget: int, h: int, ys: seq<nat>)
    requires Chain(code, h, ys) && Elems(xs) !! Elems(ys)
    ensures Chain(PatchAll(code, Elems(xs), vtarget, reg, dtarget), h, ys)
  {
    var code' := PatchAll(code, Elems(xs), vtarget, reg, dtarget);
    forall i | 0 <= i < |ys| ensures code'[ys[i]] == code[ys[i]] { assert ys[i] in Elems(ys); }
    ChainFrame(code, code', h, ys);
  }

  lemma ClosingShape(code: seq<Instr>, js: seq<nat>, d: Exp, y: Lists, z: Snap, code2: seq<Instr>, js2: seq<nat>,
                     code': seq<Instr>, jpc: int,
                     reg: nat, jmp: bool, need: bool)
    requires TwoSided(code, js, d, y, z) && Loads(code, js, code2, js2, reg, jmp, need) && Chain(code2, jpc, js2)
             && y != Lists([], [])
    requires Closes(code2, code', y, |code2|, reg, if need then |code2| - 2 else -1, if need then |code2| - 1 else -1)
    requires need <==> exists j :: (j in y.ts || j in y.fs) && !KeepsValue(code, j)
    ensures Closing(code, js, y, |z.code|, code2, js2, code', reg, jmp, need)
    ensures Settled(code', js2, z) && Chain(code', jpc, js2)
  {
    forall j | j in Exits(y) && !need ensures KeepsValue(code, j) { assert j in y.ts || j in y.fs; }
    assert Closing(code, js, y, |z.code|, code2, js2, code', reg, jmp, need);
    ClosedSize(code2, code', y, |code2|, reg, if need then |code2| - 2 else -1, if need then |code2| - 1 else -1);
    ClosingElsewhere(code, js, y, |z.code|, code2, js2, code', reg, jmp, need);
    SettledIf(code, js, y, z, code2, js2, code', reg, jmp, need);
    forall i | 0 <= i < |js2| ensures code'[js2[i]] == code2[js2[i]] { assert js2[i] in Elems(js2); }
    ChainFrame(code2, code', jpc, js2);
  }

  /** Closing the lists touches only their jumps and the tests before them. */
  lemma ClosingElsewhere(code: seq<Instr>, js: seq<nat>, y: Lists, lo: nat, code2: seq<Instr>, js2: seq<nat>,
                         code': seq<Instr>, reg: nat, jmp: bool, need: bool)
    requires Closing(code, js, y, lo, code2, js2, code', reg, jmp, need)
    ensures |code'| == |code2| && forall p: nat :: p < |code2| && p !in Exits(y) && p + 1 !in Exits(y) ==>
            code'[p] == code2[p]
    ensures forall p <- Elems(js2) :: p < |code2| && code'[p] == code2[p] && code2[p].Jmp?
  {
    var pf, pt := if need then |code2| - 2 else -1, if need then |code2| - 1 else -1;
    ClosedSize(code2, code', y, |code2|, reg, pf, pt);
    forall p: nat | p < |code2| && p !in Exits(y) && p + 1 !in Exits(y) ensures code'[p] == code2[p] {
      ClosedElsewhere(code2, code', y, |code2|, reg, pf, pt, p);
    }
    hide Closes;
    assert code2[..|code|] == code;
    forall p | p in Elems(js2) ensures p < |code2| && p !in Exits(y) && p + 1 !in Exits(y) && code2[p].Jmp? {
      if p < |code| { assert p in js && code2[p] == code[p]; }
    }
  }

  lemma SettledIf(code: seq<Instr>, js: seq<nat>, y: Lists, z: Snap, code2: seq<Instr>, js2: seq<nat>,
                  code': seq<Instr>, reg: nat, jmp: bool, need: bool)
    requires Closing(code, js, y, |z.code|, code2, js2, code', reg, jmp, need) && Grew(z.code, z.js, code, js)
             && Exits(y) != {}
    requires Ended(code, |z.code|)
    ensures Settled(code', js2, z)
  {
    hide Closes;
    ClosingElsewhere(code, js, y, |z.code|, code2, js2, code', reg, jmp, need);
    var j :| j in Exits(y);
    assert Conditional(code, j, |z.code|, |code|);
    assert code2[..|code|] == code && |code| > |z.code|;
    forall p | 0 <= p < |z.code| ensures code'[p] == code[p] {
      assert p !in Exits(y) && p + 1 !in Exits(y);
      assert code2[..|code|][p] == code[p];
    }
    assert code'[..|z.code|] == code[..|z.code|];
    forall i | i in js2 ensures i > |z.code| && i < |code'| && code'[i].Jmp? && (i >= 1 ==> Unkept(code'[i - 1])) {
      assert i in Elems(js2);
      WaitsOn(code, js, y, |z.code|, code2, js2, code', reg, jmp, need, i);
    }
    assert Exits(Lists([], [])) == {};
    var last := |code'| - 1;
    assert last + 1 !in Exits(y);
    if last in Exits(y) {
      ClosedJumpAt(code, js, y, |z.code|, code2, js2, code', reg, jmp, need, last);
    } else {
      assert code'[last] == code2[last];
    }
  }

  lemma WaitsOn(code: seq<Instr>, js: seq<nat>, y: Lists, lo: nat, code2: seq<Instr>, js2: seq<nat>, code': seq<Instr>,
                reg: nat, jmp: bool, need: bool, i: nat)
    requires Closing(code, js, y, lo, code2, js2, code', reg, jmp, need) && i in js2 && |code| > lo && Ended(code, lo)
    ensures i > lo && i <= |code'| && (i >= 1 ==> Unkept(code'[i - 1]))
  {
    hide Closes;
    ClosingElsewhere(code, js, y, lo, code2, js2, code', reg, jmp, need);
    assert code2[..|code|] == code;
    if i in js {
      assert i in Elems(js) && i !in Exits(y);
      assert i - 1 in Exits(y) || code'[i - 1] == code2[..|code|][i - 1];
      if i - 1 in Exits(y) { ClosedJumpAt(code, js, y, lo, code2, js2, code', reg, jmp, need, i - 1); }
    } else {
      assert i == |code| && code2[..|code|][i - 1] == code[i - 1] && i !in Exits(y);
      if i - 1 in Exits(y) { ClosedJumpAt(code, js, y, lo, code2, js2, code', reg, jmp, need, i - 1); }
    }
  }

  lemma ClosedJumpAt(code: seq<Instr>, js: seq<nat>, y: Lists, lo: nat, code2: seq<Instr>, js2: seq<nat>,
                     code': seq<Instr>, reg: nat, jmp: bool, need: bool, j: nat)
    requires Closing(code, js, y, lo, code2, js2, code', reg, jmp, need) && j in Exits(y)
    ensures j < |code'| && code'[j].Jmp?
  {
    assert Conditional(code, j, lo, |code|);
    assert code2[..|code|] == code;
    forall i | i in Exits(y) ensures Conditional(code2, i, lo, |code|) {
      assert Conditional(code, i, lo, |code|);
      assert code2[i] == code2[..|code|][i] && code2[i - 1] == code2[..|code|][i - 1];
    }
    ClosedJump(code2, code', y, |code2|, reg, if need then |code2| - 2 else -1, if need then |code2| - 1 else -1, j,
      lo, |code|);
  }

  lemma SettledAlready(code: seq<Instr>, js: seq<nat>, d: Exp, x: Lists, z: Snap)
    requires Open(code, d, x, |z.code|) && Waiting(code, js, x, |z.code|) && Grew(z.code, z.js, code, js)
             && Ended(code, |z.code|)
    requires x == Lists([], [])
    ensures Settled(code, js, z)
  {
    GrownSize(z.code, z.js, code, js);
  }

  predicate IsConstant(k: Kind) { k.VKNum? || k.VTrue? || k.VFalse? || k.VNil? }

  function ConstantOf(k: Kind): Val
    requires IsConstant(k)
  {
    match k
    case VKNum(v) => v
    case VTrue => BoolV(true)
    case VFalse => BoolV(false)
    case VNil => NilV
  }

  lemma RegisterOffers(m: Machine, code: seq<Instr>, js: seq<nat>, reg: nat, lo: nat, keep: nat, e: Expr, r: Regs)
    requires Means(m, code, js, VNonReloc(reg), Lists([], []), lo, keep, NoReg, e, r)
    ensures Offers(m, code, js, lo, keep, Reg(reg), Eval(m.o, e, r), r)
  {
    hide Exec, Eval;
    assert code[..|code|] == code && Exits(Lists([], [])) == {};
    ExitIsExit(m, code, {}, Elems(js), lo, r);
  }

  lemma ConstantOffers(m: Machine, code: seq<Instr>, js: seq<nat>, kind: Kind, k: seq<Val>, i: nat, lo: nat, keep: nat,
                       e: Expr, r: Regs)
    requires Means(m, code, js, kind, Lists([], []), lo, keep, NoReg, e, r) && IsConstant(kind) && k <= m.k && i < |k|
             && k[i] == ConstantOf(kind)
    ensures Offers(m, code, js, lo, keep, Kst(i), Eval(m.o, e, r), r)
  {
    hide Exec, Eval;
    assert code[..|code|] == code && Exits(Lists([], [])) == {};
    ExitIsExit(m, code, {}, Elems(js), lo, r);
  }

  lemma KnownOffers(m: Machine, code: seq<Instr>, js: seq<nat>, k: seq<Val>, i: nat, lo: nat, keep: nat, e: Expr,
                    r: Regs)
    requires Means(m, code, js, VK(i), Lists([], []), lo, keep, NoReg, e, r) && k <= m.k && i < |k|
    ensures Offers(m, code, js, lo, keep, Kst(i), Eval(m.o, e, r), r)
  {
    hide Exec, Eval;
    assert code[..|code|] == code && Exits(Lists([], [])) == {};
    ExitIsExit(m, code, {}, Elems(js), lo, r);
  }

  lemma ResultOffers(m: Machine, code: seq<Instr>, js: seq<nat>, lo: nat, reg: nat, v: Val, r: Regs)
    requires Results(m, code, js, lo, reg, reg, v, r)
    ensures Offers(m, code, js, lo, reg, Reg(reg), v, r)
  {
    hide Exec;
  }

  /** The waiting jumps are in order. */
  ghost predicate Clean(code: seq<Instr>, js: seq<nat>) {
    Waiting(code, js, Lists([], []), |code|)
  }

  lemma SettledClean(code: seq<Instr>, js: seq<nat>, z: Snap)
    requires Settled(code, js, z)
    ensures Clean(code, js)
  {
  }

  lemma SettledTwice(z: Snap, z2: Snap, code: seq<Instr>, js: seq<nat>)
    requires Settled(z2.code, z2.js, z) && Settled(code, js, z2)
    ensures Settled(code, js, z)
  {
    GrewTwice(z.code, z.js, z2.code, z2.js, code, js);
  }

  function Relation(op: CompOp): Rel {
    match op
    case EQ => Eq
    case NE => Eq
    case LT => Lt
    case GT => Lt
    case LE => Le
    case GE => Le
  }

  lemma ComparisonShape(code: seq<Instr>, js: seq<nat>, z: Snap, code': seq<Instr>, test: Instr, d: Exp)
    requires Settled(code, js, z) && Emitted(code, js, code', [test, Jmp(NO_JUMP)]) && test.Compare?
             && d == Exp(VJmp(|code'| - 1), NO_JUMP, NO_JUMP)
    ensures Open(code', d, Lists([], []), |z.code|) && Waiting(code', [], Lists([], []), |z.code|)
            && Grew(z.code, z.js, code', [])
    ensures |code'| == |code| + 2 && |z.code| <= |code| && code'[|code|] == test && code'[|code| + 1] == Jmp(NO_JUMP)
    ensures Waiting(code, js, Lists([], []), |z.code|)
  {
    hide Discharged;
    EmittedSize(code, js, code', [test, Jmp(NO_JUMP)]);
    assert code'[|code|] == test && code'[|code| + 1] == Jmp(NO_JUMP);
    GrewEmitted(z.code, z.js, code, js, Lists([], []), code', [test, Jmp(NO_JUMP)]);
  }

  lemma TwoOffers(m: Machine, code: seq<Instr>, js: seq<nat>, z: Snap, base: nat, rk1: RK, a: Expr, code2: seq<Instr>,
                  js2: seq<nat>, base2: nat,
                  rk2: RK, b: Expr, r: Regs, nactvar: nat)
    requires Offers(m, code, js, |z.code|, base, rk1, Eval(m.o, a, r), r) && Settled(code, js, z)
    requires var out := Exec(m, code, {}, Elems(js), |z.code|, r);
             out.Fall? ==> Offers(m, code2, js2, |code|, base2, rk2, Eval(m.o, b, out.r), out.r)
    requires Settled(code2, js2, Snap(code, js)) && nactvar <= base <= base2 && Closed(b, nactvar)
             && (rk1.Reg? ==> rk1.r < base2)
    ensures Offers(m, code2, js2, |z.code|, base, rk1, Eval(m.o, a, r), r)
            && Offers(m, code2, js2, |z.code|, base, rk2, Eval(m.o, b, r), r)
  {
    hide Exec, Eval, Grew, Waiting;
    var out := Exec(m, code, {}, Elems(js), |z.code|, r);
    SameLocals(m.o, b, r, out.r, nactvar);
    OffersBoth(m, code, js, |z.code|, base, rk1, Eval(m.o, a, r), code2, js2, base2, rk2, Eval(m.o, b, r), r);
  }

  /** The descriptors that constants and local variables start with. */
  predicate IsLeaf(k: seq<Val>, nactvar: nat, kind: Kind, e: Expr) {
    match e
    case Nil => kind == VNil
    case True => kind == VTrue
    case False => kind == VFalse
    case Numeral(v) => kind == VKNum(v) && v.Datum?
    case Str(v) => kind.VK? && kind.i < |k| && k[kind.i] == v && v.Datum?
    case Local(r) => kind == VLocal(r) && r < nactvar
    case _ => false
  }

  lemma LeafShape(code: seq<Instr>, js: seq<nat>, d: Exp)
    requires Clean(code, js) && d.t == NO_JUMP && d.f == NO_JUMP && Suspended(d.k) == 0
    ensures Grew(code, js, code, js) && Open(code, d, Lists([], []), |code|) && Waiting(code, js, Lists([], []), |code|)
  {
    assert Elems([]) == {};
  }

  lemma LeafMeans(m: Machine, code: seq<Instr>, js: seq<nat>, k: seq<Val>, kind: Kind, e: Expr, keep: nat,
                  nactvar: nat, r: Regs)
    requires IsLeaf(k, nactvar, kind, e) && k <= m.k
    ensures Means(m, code, js, kind, Lists([], []), |code|, keep, NoReg, e, r)
  {
    assert code[..|code|] == code;
  }

  lemma OneSidedClean(code: seq<Instr>, js: seq<nat>, d: Exp, y: Lists, z: Snap, through: bool)
    requires OneSided(code, js, d, y, z, through)
    ensures Clean(code, js) && (if through then y.ts else y.fs) == []
  {
  }

  /** The lists of the first operand are still there after the second has been compiled. */
  lemma SecondLists(code: seq<Instr>, js: seq<nat>, d1: Exp, y: Lists, z: Snap, through: bool, code2: seq<Instr>,
                    js2: seq<nat>, d2: Exp, w: Lists,
                    nactvar: nat, k: seq<Val>, base: nat)
    requires OneSided(code, js, d1, y, z, through) && Grew(code, js, code2, js2) && Open(code2, d2, w, |code|)
             && Waiting(code2, js2, w, |code|)
    requires |code| + Suspended(d2.k) <= |code2| && Fitting(code2, js2, k, d2.k, |code|, nactvar, base)
    ensures Pieces(code, js, y, |z.code|, code2, js2, d2.k, w)
    ensures Chain(code2, d1.t, y.ts) && Chain(code2, d1.f, y.fs) && Chain(code2, d2.t, w.ts) && Chain(code2, d2.f, w.fs)
    ensures Exits(y) !! Exits(w) && Elems(w.ts) !! Elems(w.fs) && Exits(Joined(w, y)) == Exits(w) + Exits(y)
    ensures forall j <- Exits(Joined(w, y)) :: Conditional(code2, j, |z.code|, |code2| - Suspended(d2.k))
    ensures d2.k.VReloc? ==> d2.k.pc < |code2| && code2[d2.k.pc].NotOp?
    ensures d2.k.VJmp? ==> 0 < d2.k.pc < |code2| && IsTest(code2[d2.k.pc - 1])
  {
    JoinedExits(w, y);
    FirstLists(code, js, d1, y, z, through, code2, js2);
    forall j | j in Exits(w) ensures Conditional(code2, j, |z.code|, |code2| - Suspended(d2.k)) && j > |code| {
      assert Conditional(code2, j, |code|, |code2| - Suspended(d2.k));
    }
    hide Grew, Chain, Waiting;
    forall j | j in Exits(y) ensures Conditional(code2, j, |z.code|, |code2| - Suspended(d2.k)) && j < |code| {
      assert Conditional(code2, j, |z.code|, |code|);
    }
  }

  lemma FirstLists(code: seq<Instr>, js: seq<nat>, d1: Exp, y: Lists, z: Snap, through: bool, code2: seq<Instr>,
                   js2: seq<nat>)
    requires OneSided(code, js, d1, y, z, through) && Grew(code, js, code2, js2)
    ensures Chain(code2, d1.t, y.ts) && Chain(code2, d1.f, y.fs)
            && forall j <- Exits(y) :: Conditional(code2, j, |z.code|, |code|)
  {
    forall j | j in Exits(y) ensures Conditional(code2, j, |z.code|, |code|) && code2[j] == code[j] {
      assert Conditional(code, j, |z.code|, |code|);
      GrownTest(code, js, y, |z.code|, code2, js2, j);
    }
    hide Grew;
    EmittedChain(code, code2, d1.t, y.ts, Exits(y));
    EmittedChain(code, code2, d1.f, y.fs, Exits(y));
  }

  lemma JoinedShape(code: seq<Instr>, js: seq<nat>, d1: Exp, y: Lists, z: Snap, through: bool, code2: seq<Instr>,
                    js2: seq<nat>, d2: Exp, w: Lists,
                    code3: seq<Instr>, jpc: int, d: Exp, k: seq<Val>, nactvar: nat, base: nat)
    requires OneSided(code, js, d1, y, z, through) && Grew(code, js, code2, js2) && Open(code2, d2, w, |code|)
             && Waiting(code2, js2, w, |code|)
    requires |code| + Suspended(d2.k) <= |code2| && Fitting(code2, js2, k, d2.k, |code|, nactvar, base)
             && Ended(code2, |code|)
    requires Chain(code2, jpc, js2)
    requires if through then Relinked(code2, code3, Elems(w.fs)) && d == d2.(f := d.f) && Chain(code3, d.f, w.fs + y.fs)
             else Relinked(code2, code3, Elems(w.ts)) && d == d2.(t := d.t) && Chain(code3, d.t, w.ts + y.ts)
    ensures Open(code3, d, Joined(w, y), |z.code|) && Waiting(code3, js2, Joined(w, y), |z.code|)
            && Grew(z.code, z.js, code3, js2)
    ensures Ended(code3, |z.code|) && Fitting(code3, js2, k, d.k, |z.code|, nactvar, base) && Chain(code3, jpc, js2)
    ensures |z.code| + Suspended(d.k) <= |code3| == |code2|
  {
    var x := Joined(w, y);
    var list := if through then Elems(w.fs) else Elems(w.ts);
    SecondLists(code, js, d1, y, z, through, code2, js2, d2, w, nactvar, k, base);
    GrewTwice(z.code, z.js, code, js, code2, js2);
    JoinedWaiting(code, js, y, z, code2, js2, w);
    assert Ended(code2, |z.code|) by { if |code2| == |code| { assert code2 == code; } }
    forall j | j in list ensures |code| < j < |code2| - Suspended(d2.k) {
      assert j in Exits(w) && Conditional(code2, j, |code|, |code2| - Suspended(d2.k));
    }
    assert Elems(js2) !! list && list <= Exits(w);
    hide Grew, Pieces, Waiting, Open, OneSided, Conditional, Chain, Relinked, Fitting, Joined;
    RelinkedShape(z.code, z.js, code2, js2, x, |code2| - Suspended(d2.k), code3, list);
    RelinkedEnd(code2, code3, list, |z.code|);
    RelinkedPrefix(code2, code3, list, |code2|);
    RelinkedChain(code2, code3, if through then d2.t else d2.f, if through then w.ts else w.fs, list);
    RelinkedChain(code2, code3, jpc, js2, list);
    RelinkedFitting(code2, code3, js2, k, d2.k, |code|, |z.code|, nactvar, base, list);
    OneSidedClean(code, js, d1, y, z, through);
    JoinedOpen(code3, d, w, y, through, |z.code|);
  }

  lemma JoinedWaiting(code: seq<Instr>, js: seq<nat>, y: Lists, z: Snap, code2: seq<Instr>, js2: seq<nat>, w: Lists)
    requires Waiting(code, js, y, |z.code|) && Waiting(code2, js2, w, |code|) && Grew(code, js, code2, js2)
             && |z.code| <= |code|
    requires forall j <- Exits(y) :: Conditional(code, j, |z.code|, |code|)
    ensures Waiting(code2, js2, Joined(w, y), |z.code|)
  {
    JoinedExits(w, y);
    if |code2| > |code| {
      forall j | j in Elems(js2) ensures j !in Exits(y) && j > |code| { assert j in js2; }
    } else {
      assert code2 == code && js2 == js;
    }
  }

  lemma RelinkedFitting(code: seq<Instr>, code': seq<Instr>, js: seq<nat>, k: seq<Val>, kind: Kind, lo: nat, lo': nat,
                        nactvar: nat, base: nat, list: set<nat>)
    requires Fitting(code, js, k, kind, lo, nactvar, base) && Relinked(code, code', list) && lo' <= lo
             && Suspended(kind) <= |code|
    requires forall j <- list :: j < |code| - Suspended(kind)
    ensures Fitting(code', js, k, kind, lo', nactvar, base)
  {
  }

  lemma JoinedOpen(code: seq<Instr>, d: Exp, w: Lists, y: Lists, through: bool, lo: nat)
    requires (if through then y.ts else y.fs) == []
    requires if through then Chain(code, d.f, w.fs + y.fs) && Chain(code, d.t, w.ts)
             else Chain(code, d.t, w.ts + y.ts) && Chain(code, d.f, w.fs)
    requires Exits(y) !! Exits(w) && Elems(w.ts) !! Elems(w.fs)
    requires Suspended(d.k) <= |code|
             && forall j <- Exits(Joined(w, y)) :: Conditional(code, j, lo, |code| - Suspended(d.k))
    ensures Open(code, d, Joined(w, y), lo)
  {
    assert w.ts + [] == w.ts && w.fs + [] == w.fs;
    ElemsJoin(w.ts, y.ts);
    ElemsJoin(w.fs, y.fs);
    assert Elems([]) == {};
  }

  /** Run from `lo`, the code gets to its end with `v` in `reg`; of the registers below `keep` no other has changed. */
  predicate Yields(m: Machine, code: seq<Instr>, js: seq<nat>, lo: nat, keep: nat, reg: nat, v: Val, r: Regs) {
    var out := Exec(m, code, {}, Elems(js), lo, r);
    out.Fall? && out.r(reg) == v && forall i :: 0 <= i < keep && i != reg ==> out.r(i) == r(i)
  }

  lemma ResultsYield(m: Machine, code: seq<Instr>, js: seq<nat>, lo: nat, keep: nat, reg: nat, v: Val, r: Regs)
    requires Results(m, code, js, lo, keep, reg, v, r)
    ensures Yields(m, code, js, lo, keep, reg, v, r)
  {
    hide Exec;
  }

  lemma SettledGrew(code: seq<Instr>, js: seq<nat>, z: Snap)
    requires Settled(code, js, z)
    ensures Grew(z.code, z.js, code, js)
  {
  }

  /**
   The next instruction emitted closes what is left: in the code with all jumps patched, every run
   comes to that instruction, with the same registers.
   */
  lemma NextInstruction(m: Machine, code: seq<Instr>, js: seq<nat>, lo: nat, keep: nat, reg: nat, v: Val, r: Regs,
                        code': seq<Instr>, tail: seq<Instr>)
    requires Yields(m, code, js, lo, keep, reg, v, r) && Waiting(code, js, Lists([], []), lo)
    requires code' == Discharged(code, Elems(js)) + tail
    ensures var out := Exec(m, code, {}, Elems(js), lo, r);
            Exec(m, code', {}, {}, lo, r) == Exec(m, code', {}, {}, |code|, out.r)
  {
    hide Exec;
    assert Exits(Lists([], [])) == {};
    EmittedRuns(m, code, js, Lists([], []), lo, code', tail, {}, r);
  }
}
