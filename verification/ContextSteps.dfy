/** What each macro of the context switch does to the registers and the stack. */
module ContextSteps {
  import opened Hart
  import opened PortContext

  /** From s the program runs to its end and leaves t. */
  ghost predicate Runs(w: Widths, p: Program, s: State, t: State) {
    Shaped(s) && Closed(p) && Exec(w, p, s) == t
  }

  lemma RunsThen(w: Widths, p: Program, q: Program, s: State, t: State, u: State)
    requires Runs(w, p, s, t) && Runs(w, q, t, u)
    ensures Runs(w, p + q, s, u)
  {
    ExecAppend(w, p, q, s);
    forall i | 0 <= i < |p + q| && (p + q)[i].Bne? ensures i + 1 + (p + q)[i].skip <= |p + q| {
      if i < |p| {
        assert (p + q)[i] == p[i];
      } else {
        assert (p + q)[i] == q[i - |p|];
      }
    }
  }

  lemma RunsNothing(w: Widths, s: State)
    requires Shaped(s)
    ensures Runs(w, [], s, s)
  {
  }

  lemma RunsOne(w: Widths, i: Instr, s: State)
    requires Shaped(s) && !i.Bne?
    ensures Runs(w, [i], s, Step(w, i, s))
  {
    ExecOne(w, i, s);
  }

  lemma RunsTwo(w: Widths, i: Instr, j: Instr, s: State)
    requires Shaped(s) && !i.Bne? && !j.Bne?
    ensures Runs(w, [i, j], s, Step(w, j, Step(w, i, s)))
  {
    ExecTwo(w, i, j, s);
  }

  /** A two-bit status field of mstatus. */
  function Field(m: int, sh: nat): int {
    Shr(m, sh) % 4
  }

  lemma {:induction false} AndThree(a: int)
    requires a >= 0
    ensures BitAnd(a, 3) == a % 4
  {
    if a != 0 {
      assert BitAnd(a, 3) == a % 2 + 2 * BitAnd(a / 2, 1);
      if a / 2 != 0 {
        assert BitAnd(a / 2, 1) == a / 2 % 2 + 2 * BitAnd(a / 2 / 2, 0);
      }
    }
  }

  /** The state after the test of IfDirty: t1 holds the field, t2 holds 3. */
  function Tested(s: State, reg: Reg, sh: nat): State
    requires Shaped(s)
  {
    s.(x := s.x[T1 := Field(s.x[reg], sh)][T2 := 3])
  }

  /** The guarded block runs exactly when the field says dirty. */
  lemma IfDirtyEffect(w: Widths, reg: Reg, sh: nat, block: Program, s: State, t: State)
    requires IsWidths(w) && Shaped(s) && s.x[0] == 0 && 0 <= s.x[reg] < Cap(w.W)
    requires if Field(s.x[reg], sh) == 3 then Runs(w, block, Tested(s, reg, sh), t)
             else Closed(block) && t == Tested(s, reg, sh)
    ensures Runs(w, IfDirty(reg, sh, block), s, t)
  {
    var test, guard := Test(reg, sh), [Bne(T1, T2, |block|)] + block;
    assert IfDirty(reg, sh, block) == test + guard;
    ClosedGuard(test, guard, block);
    TestEffect(w, reg, sh, s);
    BranchEffect(w, block, Tested(s, reg, sh));
    hide Step, Closed, Shr, Exec, IfDirty;
    ExecAppend(w, test, guard, s);
  }

  lemma BranchEffect(w: Widths, block: Program, s: State)
    requires Shaped(s)
    ensures Exec(w, [Bne(T1, T2, |block|)] + block, s) == if s.x[T1] == s.x[T2] then Exec(w, block, s) else s
  {
    var guard := [Bne(T1, T2, |block|)] + block;
    assert guard[1..] == block && guard[1 + |block|..] == [];
  }

  function Test(reg: Reg, sh: nat): Program {
    [Srli(T1, reg, sh), Andi(T1, T1, 3), Addi(T2, 0, 3)]
  }

  lemma TestEffect(w: Widths, reg: Reg, sh: nat, s: State)
    requires IsWidths(w) && Shaped(s) && s.x[0] == 0 && 0 <= s.x[reg] < Cap(w.W)
    ensures Exec(w, Test(reg, sh), s) == Tested(s, reg, sh)
  {
    SrliStep(w, reg, sh, s);
    var s1 := Step(w, Srli(T1, reg, sh), s);
    AndiStep(w, s1);
    var s2 := Step(w, Andi(T1, T1, 3), s1);
    LoadThreeStep(w, s2);
    ExecThree(w, Srli(T1, reg, sh), Andi(T1, T1, 3), Addi(T2, 0, 3), s);
    hide Step, Exec, Shr;
  }

  lemma SrliStep(w: Widths, reg: Reg, sh: nat, s: State)
    requires IsWidths(w) && Shaped(s) && 0 <= s.x[reg] < Cap(w.W)
    ensures Step(w, Srli(T1, reg, sh), s) == s.(x := s.x[T1 := Shr(s.x[reg], sh)])
  {
    hide Shr;
  }

  lemma AndiStep(w: Widths, s: State)
    requires IsWidths(w) && Shaped(s) && s.x[T1] >= 0
    ensures Step(w, Andi(T1, T1, 3), s) == s.(x := s.x[T1 := s.x[T1] % 4])
  {
    AndThree(s.x[T1]);
    hide BitAnd;
  }

  lemma LoadThreeStep(w: Widths, s: State)
    requires IsWidths(w) && Shaped(s) && s.x[0] == 0
    ensures Step(w, Addi(T2, 0, 3), s) == s.(x := s.x[T2 := 3])
  {
  }

  lemma ClosedGuard(test: Program, guard: Program, block: Program)
    requires |test| == 3 && (forall i :: 0 <= i < 3 ==> !test[i].Bne?)
    requires guard == [Bne(T1, T2, |block|)] + block && Closed(block)
    ensures Closed(test + guard) && Closed(test)
  {
    var p := test + guard;
    forall i | 0 <= i < |p| && p[i].Bne? ensures i + 1 + p[i].skip <= |p| {
      if i > 3 {
        assert p[i] == block[i - 4];
      }
    }
  }

  // ----- runs of stores and loads -----

  lemma StoreXStep(w: Widths, r: Reg, off: int, s: State)
    requires IsWidths(w) && Shaped(s) && 0 <= s.x[SP] + off < Cap(w.W)
    ensures Step(w, StoreX(r, off, SP), s) == s.(mem := Poke(s.mem, s.x[SP] + off, Encode(s.x[r], w.W)))
  {
    hide Poke, Encode;
  }

  lemma StoreFStep(w: Widths, r: Reg, off: int, s: State)
    requires IsWidths(w) && Shaped(s) && 0 <= s.x[SP] + off < Cap(w.W)
    ensures Step(w, StoreF(r, off, SP), s) == s.(mem := Poke(s.mem, s.x[SP] + off, Encode(s.f[r], w.F)))
  {
    hide Poke, Encode;
  }

  /** A load of a register's bytes gives the register back. */
  lemma LoadXStep(w: Widths, r: Reg, off: int, s: State, v: int)
    requires IsWidths(w) && Shaped(s) && 0 <= s.x[SP] + off < Cap(w.W) && r != 0 && 0 <= v < Cap(w.W)
    requires Peek(s.mem, s.x[SP] + off, w.W) == Encode(v, w.W)
    ensures Step(w, LoadX(r, off, SP), s) == s.(x := s.x[r := v])
  {
    hide Encode, Decode, Peek;
    DecodeRegister(v, w.W);
  }

  lemma LoadFStep(w: Widths, r: Reg, off: int, s: State, v: int)
    requires IsWidths(w) && Shaped(s) && 0 <= s.x[SP] + off < Cap(w.W) && 0 <= v < Cap(w.F)
    requires Peek(s.mem, s.x[SP] + off, w.F) == Encode(v, w.F)
    ensures Step(w, LoadF(r, off, SP), s) == s.(f := s.f[r := v])
  {
    hide Encode, Decode, Peek;
    DecodeRegister(v, w.F);
  }

  function Values(x: seq<int>, regs: seq<Reg>): (vs: seq<int>)
    requires |x| == 32
    ensures |vs| == |regs|
  {
    if regs == [] then [] else [x[regs[0]]] + Values(x, regs[1..])
  }

  /** The bytes of a list of registers: the first one's, then the others'. */
  lemma BytesOfFirst(x: seq<int>, regs: seq<Reg>, n: nat)
    requires |x| == 32 && regs != []
    ensures EncodeAll(Values(x, regs), n) == Encode(x[regs[0]], n) + EncodeAll(Values(x, regs[1..]), n)
  {
    assert Values(x, regs)[1..] == Values(x, regs[1..]);
    hide Encode;
  }

  lemma StoresNext(w: Widths, regs: seq<Reg>, off: int)
    requires regs != []
    ensures Stores(w, regs, off) == [StoreX(regs[0], off, SP)] + Stores(w, regs[1..], off + w.W)
  {
  }

  lemma LoadsNext(w: Widths, regs: seq<Reg>, off: int)
    requires regs != []
    ensures Loads(w, regs, off) == [LoadX(regs[0], off, SP)] + Loads(w, regs[1..], off + w.W)
  {
  }

  lemma FloatStoresNext(w: Widths, regs: seq<Reg>, off: int)
    requires regs != []
    ensures FloatStores(w, regs, off) == [StoreF(regs[0], off, SP)] + FloatStores(w, regs[1..], off + w.F)
  {
  }

  lemma FloatLoadsNext(w: Widths, regs: seq<Reg>, off: int)
    requires regs != []
    ensures FloatLoads(w, regs, off) == [LoadF(regs[0], off, SP)] + FloatLoads(w, regs[1..], off + w.F)
  {
  }

  lemma StoresEmpty(w: Widths, s: State, off: int)
    requires Shaped(s)
    ensures Runs(w, Stores(w, [], off), s, s.(mem := Poke(s.mem, s.x[SP] + off, EncodeAll(Values(s.x, []), w.W))))
  {
    RunsNothing(w, s);
  }

  lemma FloatStoresEmpty(w: Widths, s: State, off: int)
    requires Shaped(s)
    ensures Runs(w, FloatStores(w, [], off), s, s.(mem := Poke(s.mem, s.x[SP] + off, EncodeAll(Values(s.f, []), w.F))))
  {
    RunsNothing(w, s);
  }

  lemma LoadsEmpty(w: Widths, off: int)
    ensures Loads(w, [], off) == []
  {
  }

  lemma FloatLoadsEmpty(w: Widths, off: int)
    ensures FloatLoads(w, [], off) == []
  {
  }

  lemma {:induction false} StoresEffect(w: Widths, regs: seq<Reg>, off: int, s: State)
    requires IsWidths(w) && Shaped(s) && off >= 0 && s.x[SP] >= 0
    requires s.x[SP] + off + |EncodeAll(Values(s.x, regs), w.W)| <= Cap(w.W)
    ensures Runs(w, Stores(w, regs, off), s,
      s.(mem := Poke(s.mem, s.x[SP] + off, EncodeAll(Values(s.x, regs), w.W))))
    decreases |regs|
  {
    hide Step, Encode, EncodeAll, Poke, Runs, Stores, Values;
    if regs == [] {
      StoresEmpty(w, s, off);
      return;
    }
    var first, rest := Encode(s.x[regs[0]], w.W), EncodeAll(Values(s.x, regs[1..]), w.W);
    var i, p := StoreX(regs[0], off, SP), Stores(w, regs[1..], off + w.W);
    BytesOfFirst(s.x, regs, w.W);
    StoresNext(w, regs, off);
    StoreXStep(w, regs[0], off, s);
    RunsOne(w, i, s);
    var s1 := s.(mem := Poke(s.mem, s.x[SP] + off, first));
    StoresEffect(w, regs[1..], off + w.W, s1);
    PokeAppend(s.mem, s.x[SP] + off, first, rest);
    RunsThen(w, [i], p, s, s1, s.(mem := Poke(s.mem, s.x[SP] + off, first + rest)));
  }

  lemma {:induction false} FloatStoresEffect(w: Widths, regs: seq<Reg>, off: int, s: State)
    requires IsWidths(w) && Shaped(s) && off >= 0 && s.x[SP] >= 0
    requires s.x[SP] + off + |EncodeAll(Values(s.f, regs), w.F)| <= Cap(w.W)
    ensures Runs(w, FloatStores(w, regs, off), s,
      s.(mem := Poke(s.mem, s.x[SP] + off, EncodeAll(Values(s.f, regs), w.F))))
    decreases |regs|
  {
    hide Step, Encode, EncodeAll, Poke, Runs, FloatStores, Values;
    if regs == [] {
      FloatStoresEmpty(w, s, off);
      return;
    }
    var first, rest := Encode(s.f[regs[0]], w.F), EncodeAll(Values(s.f, regs[1..]), w.F);
    var i, p := StoreF(regs[0], off, SP), FloatStores(w, regs[1..], off + w.F);
    BytesOfFirst(s.f, regs, w.F);
    FloatStoresNext(w, regs, off);
    StoreFStep(w, regs[0], off, s);
    RunsOne(w, i, s);
    var s1 := s.(mem := Poke(s.mem, s.x[SP] + off, first));
    FloatStoresEffect(w, regs[1..], off + w.F, s1);
    PokeAppend(s.mem, s.x[SP] + off, first, rest);
    RunsThen(w, [i], p, s, s1, s.(mem := Poke(s.mem, s.x[SP] + off, first + rest)));
  }

  /** x with the listed registers taken from y. */
  function Merged(x: seq<int>, y: seq<int>, regs: seq<Reg>): (z: seq<int>)
    requires |x| == 32 && |y| == 32
    ensures |z| == 32
  {
    seq<int>(32, r requires 0 <= r < 32 => if r in regs then y[r] else x[r])
  }

  lemma {:induction false} LoadsEffect(w: Widths, regs: seq<Reg>, off: int, s: State, y: seq<int>)
    requires IsWidths(w) && Shaped(s) && off >= 0 && s.x[SP] >= 0 && |y| == 32
    requires forall r :: r in regs ==> r != SP && r != 0 && 0 <= y[r] < Cap(w.W)
    requires s.x[SP] + off + |EncodeAll(Values(y, regs), w.W)| <= Cap(w.W)
    requires Peek(s.mem, s.x[SP] + off, |EncodeAll(Values(y, regs), w.W)|) == EncodeAll(Values(y, regs), w.W)
    ensures Runs(w, Loads(w, regs, off), s, s.(x := Merged(s.x, y, regs)))
    decreases |regs|
  {
    hide Step, Encode, EncodeAll, Runs, Loads, Peek, Values;
    if regs == [] {
      assert s.x == Merged(s.x, y, regs);
      RunsNothing(w, s);
      LoadsEmpty(w, off);
      return;
    }
    var first, rest := Encode(y[regs[0]], w.W), EncodeAll(Values(y, regs[1..]), w.W);
    var i, p := LoadX(regs[0], off, SP), Loads(w, regs[1..], off + w.W);
    BytesOfFirst(y, regs, w.W);
    LoadsNext(w, regs, off);
    PeekFront(s.mem, s.x[SP] + off, first, rest);
    assert regs[0] in regs && forall r :: r in regs[1..] ==> r in regs;
    LoadXStep(w, regs[0], off, s, y[regs[0]]);
    RunsOne(w, i, s);
    var s1 := s.(x := s.x[regs[0] := y[regs[0]]]);
    LoadsEffect(w, regs[1..], off + w.W, s1, y);
    assert Merged(s1.x, y, regs[1..]) == Merged(s.x, y, regs);
    RunsThen(w, [i], p, s, s1, s.(x := Merged(s.x, y, regs)));
  }

  lemma {:induction false} FloatLoadsEffect(w: Widths, regs: seq<Reg>, off: int, s: State, y: seq<int>)
    requires IsWidths(w) && Shaped(s) && off >= 0 && s.x[SP] >= 0 && |y| == 32
    requires forall r :: r in regs ==> 0 <= y[r] < Cap(w.F)
    requires s.x[SP] + off + |EncodeAll(Values(y, regs), w.F)| <= Cap(w.W)
    requires Peek(s.mem, s.x[SP] + off, |EncodeAll(Values(y, regs), w.F)|) == EncodeAll(Values(y, regs), w.F)
    ensures Runs(w, FloatLoads(w, regs, off), s, s.(f := Merged(s.f, y, regs)))
    decreases |regs|
  {
    hide Step, Encode, EncodeAll, Runs, FloatLoads, Peek, Values;
    if regs == [] {
      assert s.f == Merged(s.f, y, regs);
      RunsNothing(w, s);
      FloatLoadsEmpty(w, off);
      return;
    }
    var first, rest := Encode(y[regs[0]], w.F), EncodeAll(Values(y, regs[1..]), w.F);
    var i, p := LoadF(regs[0], off, SP), FloatLoads(w, regs[1..], off + w.F);
    BytesOfFirst(y, regs, w.F);
    FloatLoadsNext(w, regs, off);
    PeekFront(s.mem, s.x[SP] + off, first, rest);
    assert regs[0] in regs && forall r :: r in regs[1..] ==> r in regs;
    LoadFStep(w, regs[0], off, s, y[regs[0]]);
    RunsOne(w, i, s);
    var s1 := s.(f := s.f[regs[0] := y[regs[0]]]);
    FloatLoadsEffect(w, regs[1..], off + w.F, s1, y);
    assert Merged(s1.f, y, regs[1..]) == Merged(s.f, y, regs);
    RunsThen(w, [i], p, s, s1, s.(f := Merged(s.f, y, regs)));
  }

  lemma PeekFront(m: Memory, a: int, first: seq<int>, rest: seq<int>)
    requires Peek(m, a, |first + rest|) == first + rest
    ensures Peek(m, a, |first|) == first && Peek(m, a + |first|, |rest|) == rest
  {
    PeekSplit(m, a, |first|, |rest|);
    assert |Peek(m, a, |first|)| == |first|;
    assert (Peek(m, a, |first|) + Peek(m, a + |first|, |rest|))[..|first|] == Peek(m, a, |first|);
    assert (Peek(m, a, |first|) + Peek(m, a + |first|, |rest|))[|first|..] == Peek(m, a + |first|, |rest|);
    assert (first + rest)[..|first|] == first && (first + rest)[|first|..] == rest;
  }
}
