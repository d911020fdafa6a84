/**
 Patch lists (`lcode.c`): pending jumps linked through their own offset fields. A list is known by
 its first jump, and the sequence of its members is history.
 */
module LuaJumps {
  import opened LuaVm

  const NO_JUMP := -1

  function Elems(xs: seq<nat>): set<nat> { set j | j in xs }

  /** `getjump`: an offset that points to the jump itself ends the list. */
  function GetJump(code: seq<Instr>, p: nat): int
    requires p < |code| && code[p].Jmp?
  {
    if code[p].sbx == NO_JUMP then NO_JUMP else p + 1 + code[p].sbx
  }

  function Link(xs: seq<nat>, i: nat): int { if i < |xs| then xs[i] else NO_JUMP }

  predicate Distinct(xs: seq<nat>) { forall i, j :: 0 <= i < j < |xs| ==> xs[i] != xs[j] }

  /** The list with head `h` runs through `xs`. */
  predicate Chain(code: seq<Instr>, h: int, xs: seq<nat>) {
    && h == Link(xs, 0) && Distinct(xs)
    && (forall i :: 0 <= i < |xs| ==> xs[i] < |code| && code[xs[i]].Jmp?)
    && (forall i :: 0 <= i < |xs| ==> LinksOn(code, xs, i))
  }

  predicate LinksOn(code: seq<Instr>, xs: seq<nat>, i: nat) {
    i < |xs| && xs[i] < |code| && code[xs[i]].Jmp? && GetJump(code, xs[i]) == Link(xs, i + 1)
  }

  /** Only the jumps on a list matter to it. */
  lemma ChainFrame(code: seq<Instr>, code': seq<Instr>, h: int, xs: seq<nat>)
    requires Chain(code, h, xs) && forall i :: 0 <= i < |xs| ==> xs[i] < |code'| && code'[xs[i]] == code[xs[i]]
    ensures Chain(code', h, xs)
  {
    forall i | 0 <= i < |xs| ensures LinksOn(code', xs, i) { assert LinksOn(code, xs, i); }
  }

  /** Joining two lists by the last link of the first. */
  lemma ChainJoin(code: seq<Instr>, h: int, xs: seq<nat>, h2: int, ys: seq<nat>)
    requires Chain(code, h, xs) && Chain(code, h2, ys) && xs != [] && ys != [] && Elems(xs) !! Elems(ys)
    ensures var last := xs[|xs| - 1]; Chain(code[last := Jmp(h2 - (last + 1))], h, xs + ys)
  {
    forall i, j | 0 <= i < |xs| && 0 <= j < |ys| ensures xs[i] != ys[j] {
      assert xs[i] in Elems(xs) && ys[j] in Elems(ys);
    }
    var last := xs[|xs| - 1];
    var code' := code[last := Jmp(h2 - (last + 1))];
    forall i | 0 <= i < |xs + ys| ensures LinksOn(code', xs + ys, i) {
      if i < |xs| { assert LinksOn(code, xs, i); } else { assert LinksOn(code, ys, i - |xs|); }
    }
  }

  // ---------------------------------------------------------------- patching

  /** Whether the test before the jump keeps a value. */
  predicate KeepsValue(code: seq<Instr>, j: nat) { 1 <= j <= |code| && code[j - 1].TestSet? }

  /** `patchtestreg`. */
  function Patched(i: Instr, reg: Target): Instr
    requires i.TestSet?
  {
    if reg.To? && reg.r != i.b then TestSet(reg, i.b, i.c) else Test(i.b, i.c)
  }

  /** The instruction at `p` once the jumps in `list` have been patched. */
  function PatchAt(code: seq<Instr>, list: set<nat>, vtarget: int, reg: Target, dtarget: int, p: nat): Instr
    requires p < |code|
  {
    if p in list then Jmp((if KeepsValue(code, p) then vtarget else dtarget) - (p + 1))
    else if p + 1 in list && code[p].TestSet? then Patched(code[p], reg)
    else code[p]
  }

  function PatchAll(code: seq<Instr>, list: set<nat>, vtarget: int, reg: Target, dtarget: int): seq<Instr> {
    seq(|code|, p requires 0 <= p < |code| => PatchAt(code, list, vtarget, reg, dtarget, p))
  }

  /** `dischargejpc`: the waiting jumps go to the next instruction. */
  function Discharged(code: seq<Instr>, waiting: set<nat>): seq<Instr> {
    PatchAll(code, waiting, |code|, NoReg, |code|)
  }

  /** One more jump patched. No test is a jump, so the members of a list do not interfere. */
  lemma PatchMore(code: seq<Instr>, list: set<nat>, vtarget: int, reg: Target, dtarget: int, j: nat)
    requires j < |code| && code[j].Jmp? && j !in list && forall i <- list :: i < |code| && code[i].Jmp?
    ensures var c := PatchAll(code, list, vtarget, reg, dtarget);
            var c1 := if KeepsValue(c, j) then c[j - 1 := Patched(c[j - 1], reg)] else c;
            c1[j := Jmp((if KeepsValue(c, j) then vtarget else dtarget) - (j + 1))] ==
              PatchAll(code, list + {j}, vtarget, reg, dtarget)
    ensures PatchAll(code, list, vtarget, reg, dtarget)[j] == code[j]
  {
    var c := PatchAll(code, list, vtarget, reg, dtarget);
    assert KeepsValue(c, j) <==> KeepsValue(code, j);
    assert KeepsValue(c, j) ==> c[j - 1] == code[j - 1];
  }

  /** The instruction at `p` once the tests before the jumps in `list` keep no value any more. */
  function RemoveAt(code: seq<Instr>, list: set<nat>, p: nat): Instr
    requires p < |code|
  {
    if p + 1 in list && code[p].TestSet? then Patched(code[p], NoReg) else code[p]
  }

  function RemoveAll(code: seq<Instr>, list: set<nat>): seq<Instr> {
    seq(|code|, p requires 0 <= p < |code| => RemoveAt(code, list, p))
  }

  /** The codes differ at most in the links of jumps in `list`. */
  predicate Relinked(code: seq<Instr>, code': seq<Instr>, list: set<nat>) {
    && |code'| == |code|
    && forall p :: 0 <= p < |code| ==> code'[p] == code[p] || (p in list && code[p].Jmp? && code'[p].Jmp?)
  }

  lemma ElemsNext(xs: seq<nat>, i: nat)
    requires i < |xs|
    ensures Elems(xs[..i + 1]) == Elems(xs[..i]) + {xs[i]}
  {
    assert xs[..i + 1] == xs[..i] + [xs[i]];
  }

  lemma NotYet(xs: seq<nat>, i: nat)
    requires Distinct(xs) && i < |xs|
    ensures xs[i] !in Elems(xs[..i])
  {
  }

  lemma ElemsJoin(xs: seq<nat>, ys: seq<nat>)
    ensures Elems(xs + ys) == Elems(xs) + Elems(ys)
  {
  }

  lemma NothingRelinked(code: seq<Instr>, list: set<nat>)
    ensures Relinked(code, code, list)
  {
  }

  lemma LastRelinked(code: seq<Instr>, xs: seq<nat>, dest: int)
    requires xs != [] && xs[|xs| - 1] < |code| && code[xs[|xs| - 1]].Jmp?
    ensures var last := xs[|xs| - 1]; Relinked(code, code[last := Jmp(dest - (last + 1))], Elems(xs))
  {
    assert xs[|xs| - 1] in Elems(xs);
  }

  /** The part of `FuncState` that holds code and jumps. */
  class CodeState {
    var code: seq<Instr>
    var jpc: int
    /** History: the members of the list `jpc`. */
    ghost var js: seq<nat>

    constructor ()
      ensures Linked() && code == [] && js == []
    {
      code, jpc, js := [], NO_JUMP, [];
    }

    ghost predicate Linked()
      reads this
    {
      Chain(code, jpc, js)
    }

    method FixJump(pc: nat, dest: int)
      requires pc < |code| && code[pc].Jmp?
      modifies this`code
      ensures code == old(code)[pc := Jmp(dest - (pc + 1))]
    {
      code := code[pc := Jmp(dest - (pc + 1))];
    }

    /** `luaK_concat`. */
    method Concat(l1: int, l2: int, ghost xs: seq<nat>, ghost ys: seq<nat>) returns (l: int)
      requires Chain(code, l1, xs) && Chain(code, l2, ys) && Elems(xs) !! Elems(ys)
      modifies this`code
      ensures Chain(code, l, xs + ys) && Relinked(old(code), code, Elems(xs)) && (ys == [] ==> code == old(code))
    {
      assert l1 == Link(xs, 0) && l2 == Link(ys, 0) && forall i :: 0 <= i < |xs| ==> LinksOn(code, xs, i);
      hide Chain, Relinked, Elems;
      assert Relinked(code, code, Elems(xs)) by { NothingRelinked(code, Elems(xs)); }
      if l2 == NO_JUMP {
        assert xs + ys == xs;
        return l1;
      }
      if l1 == NO_JUMP {
        assert xs + ys == ys;
        return l2;
      }
      var list := l1;
      assert LinksOn(code, xs, 0);
      var next := GetJump(code, list);
      ghost var i := 0;
      while next != NO_JUMP
        invariant 0 <= i < |xs| && list == xs[i] && next == Link(xs, i + 1)
        decreases |xs| - i
      {
        list, i := next, i + 1;
        assert LinksOn(code, xs, i);
        next := GetJump(code, list);
      }
      assert i == |xs| - 1;
      ChainJoin(code, l1, xs, l2, ys);
      LastRelinked(code, xs, l2);
      FixJump(list, l2);
      return l1;
    }

    /** `patchtestreg`. */
    method PatchTestReg(node: nat, reg: Target) returns (kept: bool)
      requires node < |code| && code[node].Jmp?
      modifies this`code
      ensures kept == KeepsValue(old(code), node)
      ensures code == if kept then old(code)[node - 1 := Patched(old(code)[node - 1], reg)] else old(code)
    {
      var control := if node >= 1 && IsTest(code[node - 1]) then node - 1 else node;
      var i := code[control];
      if !i.TestSet? {
        return false;
      }
      if reg.To? && reg.r != i.b {
        code := code[control := TestSet(reg, i.b, i.c)];
      } else {
        code := code[control := Test(i.b, i.c)];
      }
      return true;
    }

    /** `patchlistaux`. */
    method PatchListAux(list: int, vtarget: int, reg: Target, dtarget: int, ghost xs: seq<nat>)
      requires Chain(code, list, xs)
      modifies this`code
      ensures code == PatchAll(old(code), Elems(xs), vtarget, reg, dtarget)
    {
      hide PatchAll;
      ghost var was := code;
      var l := list;
      ghost var i := 0;
      assert code == PatchAll(was, Elems(xs[..0]), vtarget, reg, dtarget) by {
        assert Elems(xs[..0]) == {};
        NothingPatched(was, vtarget, reg, dtarget);
      }
      while l != NO_JUMP
        invariant 0 <= i <= |xs| && l == Link(xs, i)
        invariant code == PatchAll(was, Elems(xs[..i]), vtarget, reg, dtarget)
        decreases |xs| - i
      {
        assert LinksOn(was, xs, i);
        NotYet(xs, i);
        ElemsNext(xs, i);
        PatchMore(was, Elems(xs[..i]), vtarget, reg, dtarget, l);
        PatchSize(was, Elems(xs[..i]), vtarget, reg, dtarget);
        var next := GetJump(code, l);
        var kept := PatchTestReg(l, reg);
        if kept {
          FixJump(l, vtarget);
        } else {
          FixJump(l, dtarget);
        }
        l, i := next, i + 1;
      }
      assert xs[..i] == xs;
    }

    /** `removevalues`. */
    method RemoveValues(list: int, ghost xs: seq<nat>)
      requires Chain(code, list, xs)
      modifies this`code
      ensures code == RemoveAll(old(code), Elems(xs)) && Chain(code, list, xs)
    {
      ghost var was := code;
      var l := list;
      ghost var i := 0;
      while l != NO_JUMP
        invariant 0 <= i <= |xs| && l == Link(xs, i)
        invariant code == RemoveAll(was, Elems(xs[..i]))
        decreases |xs| - i
      {
        assert LinksOn(was, xs, i);
        NotYet(xs, i);
        ElemsNext(xs, i);
        var kept := PatchTestReg(l, NoReg);
        l, i := GetJump(code, l), i + 1;
      }
      assert xs[..i] == xs;
      ChainFrame(was, code, list, xs);
    }

    /** `need_value`. */
    method NeedValue(list: int, ghost xs: seq<nat>) returns (need: bool)
      requires Chain(code, list, xs)
      ensures need <==> exists j :: j in xs && !KeepsValue(code, j)
    {
      var l := list;
      ghost var i := 0;
      while l != NO_JUMP
        invariant 0 <= i <= |xs| && l == Link(xs, i)
        invariant forall j :: j in xs[..i] ==> KeepsValue(code, j)
        decreases |xs| - i
      {
        assert LinksOn(code, xs, i);
        var control := if l >= 1 && IsTest(code[l - 1]) then l - 1 else l;
        if !code[control].TestSet? {
          assert l in xs && !KeepsValue(code, l);
          return true;
        }
        l, i := GetJump(code, l), i + 1;
      }
      assert xs[..i] == xs;
      return false;
    }

    /** `luaK_code`: waiting jumps go to the new instruction. */
    method Emit(i: Instr) returns (pc: nat)
      requires Linked()
      modifies this
      ensures Linked() && js == [] && pc == |old(code)|
      ensures code == Discharged(old(code), Elems(old(js))) + [i]
    {
      PatchListAux(jpc, |code|, NoReg, |code|, js);
      jpc, js := NO_JUMP, [];
      pc := |code|;
      code := code + [i];
    }

    /** `luaK_jump`: jumps that wait for this place are kept on hold, on the same list. */
    method Jump() returns (j: int, ghost list: seq<nat>)
      requires Linked()
      modifies this
      ensures Linked() && js == [] && list == [|old(code)|] + old(js) && Chain(code, j, list)
      ensures |code| == |old(code)| + 1 && Relinked(old(code) + [Jmp(NO_JUMP)], code, {|old(code)|})
      ensures old(js) == [] ==> code == old(code) + [Jmp(NO_JUMP)]
    {
      var held := jpc;
      ghost var waiting := js;
      jpc, js := NO_JUMP, [];
      ghost var before := code;
      j := |code|;
      code := code + [Jmp(NO_JUMP)];
      ChainFrame(before, code, held, waiting);
      list := [j] + waiting;
      j := Concat(j, held, [j], waiting);
    }

    /** `luaK_patchtohere`. */
    method PatchToHere(list: int, ghost xs: seq<nat>)
      requires Linked() && Chain(code, list, xs) && Elems(js) !! Elems(xs)
      modifies this
      ensures Linked() && js == old(js) + xs && Relinked(old(code), code, Elems(old(js)))
              && (xs == [] ==> code == old(code))
    {
      jpc := Concat(jpc, list, js, xs);
      js := js + xs;
    }
  }

  lemma NothingPatched(code: seq<Instr>, vtarget: int, reg: Target, dtarget: int)
    ensures PatchAll(code, {}, vtarget, reg, dtarget) == code
  {
  }

  lemma PatchSize(code: seq<Instr>, list: set<nat>, vtarget: int, reg: Target, dtarget: int)
    ensures |PatchAll(code, list, vtarget, reg, dtarget)| == |code|
  {
  }
}
