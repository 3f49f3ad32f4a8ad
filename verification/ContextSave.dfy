/** What the pieces of the save macros do. */
module ContextSave {
  import opened Hart
  import opened PortContext
  import opened ContextSteps

  function Word(m: Memory, a: int, n: nat): int {
    Trunc(Decode(Peek(m, a, n)), n)
  }

  /** A word that holds the bytes of a register value is that value. */
  lemma WordOf(m: Memory, a: int, n: nat, v: int)
    requires (n == 4 || n == 8) && 0 <= v < Cap(n) && Peek(m, a, n) == Encode(v, n)
    ensures Word(m, a, n) == v
  {
    hide Encode, Decode, Peek;
    DecodeRegister(v, n);
  }

  lemma {:induction false} ValuesAgree(x: seq<int>, y: seq<int>, regs: seq<Reg>)
    requires |x| == 32 && |y| == 32 && forall r :: r in regs ==> x[r] == y[r]
    ensures Values(x, regs) == Values(y, regs)
  {
    if regs != [] {
      assert regs[0] in regs && forall r :: r in regs[1..] ==> r in regs;
      ValuesAgree(x, y, regs[1..]);
    }
  }

  // ----- single steps and pairs -----

  lemma MoveSp(w: Widths, imm: int, s: State)
    requires IsWidths(w) && Shaped(s) && 0 <= s.x[SP] + imm < Cap(w.W)
    ensures Runs(w, [Addi(SP, SP, imm)], s, s.(x := s.x[SP := s.x[SP] + imm]))
  {
    RunsOne(w, Addi(SP, SP, imm), s);
    hide Runs;
  }

  lemma LoadSymStep(w: Widths, rd: Reg, a: int, s: State)
    requires IsWidths(w) && Shaped(s) && rd != 0
    ensures Step(w, LoadSym(rd, a), s) == s.(x := s.x[rd := Word(s.mem, a, w.W)])
  {
    hide Peek, Decode;
  }

  lemma CsrrStep(w: Widths, rd: Reg, r: Csr, s: State)
    requires IsWidths(w) && Shaped(s) && rd != 0 && 0 <= s.csr.Get(r) < Cap(w.W)
    ensures Step(w, Csrr(rd, r), s) == s.(x := s.x[rd := s.csr.Get(r)])
  {
    hide Csrs.Get;
  }

  lemma CsrrRuns(w: Widths, rd: Reg, r: Csr, s: State)
    requires IsWidths(w) && Shaped(s) && rd != 0 && 0 <= s.csr.Get(r) < Cap(w.W)
    ensures Runs(w, [Csrr(rd, r)], s, s.(x := s.x[rd := s.csr.Get(r)]))
  {
    hide Runs, Step, Csrs.Get;
    RunsOne(w, Csrr(rd, r), s);
    CsrrStep(w, rd, r, s);
  }

  /** `csrr t0, r; store_x t0, off(sp)` */
  lemma CsrToStack(w: Widths, r: Csr, off: int, s: State)
    requires IsWidths(w) && Shaped(s) && 0 <= s.csr.Get(r) < Cap(w.W) && 0 <= s.x[SP] + off < Cap(w.W)
    ensures Runs(w, [Csrr(T0, r), StoreX(T0, off, SP)], s,
      s.(x := s.x[T0 := s.csr.Get(r)], mem := Poke(s.mem, s.x[SP] + off, Encode(s.csr.Get(r), w.W))))
  {
    hide Runs, Step, Poke, Encode, Csrs.Get;
    RunsTwo(w, Csrr(T0, r), StoreX(T0, off, SP), s);
    CsrrStep(w, T0, r, s);
    StoreXStep(w, T0, off, Step(w, Csrr(T0, r), s));
  }

  // ----- the integer part -----

  /** What the integer part leaves on the stack: x1, x5 and up, and the critical nesting. */
  function IntBlock(b: Build, x: seq<int>, nest: int): seq<int>
    requires |x| == 32
  {
    EncodeAll(Values(x, b.IntRegs()), b.w.W) + Encode(nest, b.w.W)
  }

  lemma FromX5Are(b: Build)
    ensures |b.FromX5()| == if b.rv32e then 11 else 27
    ensures forall r: Reg :: r in b.FromX5() <==> 5 <= r < if b.rv32e then 16 else 32
  {
  }

  lemma IntRegsAre(b: Build)
    ensures |b.IntRegs()| == if b.rv32e then 12 else 28
    ensures forall r: Reg :: r in b.IntRegs() <==> r == 1 || 5 <= r < if b.rv32e then 16 else 32
  {
    FromX5Are(b);
    hide Build.FromX5;
  }

  lemma IntBlockLength(b: Build, x: seq<int>, nest: int)
    requires |x| == 32 && IsWidths(b.w)
    ensures |IntBlock(b, x, nest)| == b.ContextSize() - 2 * b.w.W
    ensures |EncodeAll(Values(x, b.IntRegs()), b.w.W)| == b.NestOffset() - 2 * b.w.W
  {
    IntRegsAre(b);
    hide Build.IntRegs, EncodeAll, Values;
    EncodeAllLength(Values(x, b.IntRegs()), b.w.W);
  }

  lemma NestToStack(b: Build, s: State, nest: int)
    requires IsWidths(b.w) && Shaped(s) && 0 <= s.x[SP] && s.x[SP] + b.ContextSize() <= Cap(b.w.W)
    requires Word(s.mem, b.xCriticalNesting, b.w.W) == nest
    ensures Runs(b.w, [LoadSym(T0, b.xCriticalNesting), StoreX(T0, b.NestOffset(), SP)], s,
      s.(x := s.x[T0 := nest], mem := Poke(s.mem, s.x[SP] + b.NestOffset(), Encode(nest, b.w.W))))
  {
    hide Runs, Step, Poke, Encode, Word;
    RunsTwo(b.w, LoadSym(T0, b.xCriticalNesting), StoreX(T0, b.NestOffset(), SP), s);
    LoadSymStep(b.w, T0, b.xCriticalNesting, s);
    StoreXStep(b.w, T0, b.NestOffset(), Step(b.w, LoadSym(T0, b.xCriticalNesting), s));
  }

  /** The cell of n bytes at a lies outside the addresses from lo up to hi. */
  predicate Outside(a: int, n: int, lo: int, hi: int) {
    a + n <= lo || hi <= a
  }

  function IntsSaved(b: Build, s: State): State
    requires Shaped(s)
  {
    var nest, base := Word(s.mem, b.xCriticalNesting, b.w.W), s.x[SP] - b.ContextSize();
    s.(x := s.x[SP := base][T0 := nest], mem := Poke(s.mem, base + 2 * b.w.W, IntBlock(b, s.x, nest)))
  }

  function SaveIntRegs(b: Build): Program {
    [Addi(SP, SP, -b.ContextSize())] + Stores(b.w, b.IntRegs(), 2 * b.w.W)
  }

  /** x1, x5 and up are on the stack, the critical nesting is not. */
  function IntRegsSaved(b: Build, s: State): State
    requires Shaped(s)
  {
    var base := s.x[SP] - b.ContextSize();
    s.(x := s.x[SP := base], mem := Poke(s.mem, base + 2 * b.w.W, EncodeAll(Values(s.x, b.IntRegs()), b.w.W)))
  }

  lemma NestIsLast(b: Build, s: State)
    requires IsWidths(b.w) && Shaped(s) && Outside(b.xCriticalNesting, b.w.W, s.x[SP] - b.ContextSize(), s.x[SP])
    ensures var t, nest := IntRegsSaved(b, s), Word(s.mem, b.xCriticalNesting, b.w.W);
      Word(t.mem, b.xCriticalNesting, b.w.W) == nest
      && IntsSaved(b, s) == t.(x := t.x[T0 := nest], mem := Poke(t.mem, t.x[SP] + b.NestOffset(), Encode(nest, b.w.W)))
  {
    hide Poke, Peek, Decode, Encode, EncodeAll, Values, Build.IntRegs;
    var base, regs := s.x[SP] - b.ContextSize(), EncodeAll(Values(s.x, b.IntRegs()), b.w.W);
    IntBlockLength(b, s.x, 0);
    PeekBeside(s.mem, base + 2 * b.w.W, regs, b.xCriticalNesting, b.w.W);
    PokeAppend(s.mem, base + 2 * b.w.W, regs, Encode(Word(s.mem, b.xCriticalNesting, b.w.W), b.w.W));
  }

  lemma IntRegsEffect(b: Build, s: State)
    requires IsWidths(b.w) && Shaped(s) && b.ContextSize() <= s.x[SP] < Cap(b.w.W)
    ensures Runs(b.w, SaveIntRegs(b), s, IntRegsSaved(b, s))
  {
    hide Runs, Poke, EncodeAll, Stores, Values, Build.IntRegs;
    var w, base := b.w, s.x[SP] - b.ContextSize();
    IntRegsAre(b);
    MoveSp(w, -b.ContextSize(), s);
    var s1 := s.(x := s.x[SP := base]);
    ValuesAgree(s1.x, s.x, b.IntRegs());
    EncodeAllLength(Values(s.x, b.IntRegs()), w.W);
    StoresEffect(w, b.IntRegs(), 2 * w.W, s1);
    RunsThen(w, [Addi(SP, SP, -b.ContextSize())], Stores(w, b.IntRegs(), 2 * w.W), s, s1, IntRegsSaved(b, s));
  }

  lemma SaveIntsIs(b: Build)
    ensures SaveInts(b) == SaveIntRegs(b) + [LoadSym(T0, b.xCriticalNesting), StoreX(T0, b.NestOffset(), SP)]
  {
    hide Stores, Build.IntRegs;
  }

  lemma SaveIntsEffect(b: Build, s: State)
    requires IsWidths(b.w) && Shaped(s) && b.ContextSize() <= s.x[SP] < Cap(b.w.W)
    requires Outside(b.xCriticalNesting, b.w.W, s.x[SP] - b.ContextSize(), s.x[SP])
    ensures Runs(b.w, SaveInts(b), s, IntsSaved(b, s))
  {
    hide Runs, Poke, Encode, EncodeAll, Values, Word, IntsSaved, SaveInts, SaveIntRegs, Build.IntRegs;
    var t := IntRegsSaved(b, s);
    IntRegsEffect(b, s);
    NestIsLast(b, s);
    NestToStack(b, t, Word(s.mem, b.xCriticalNesting, b.w.W));
    SaveIntsIs(b);
    RunsThen(b.w, SaveIntRegs(b), [LoadSym(T0, b.xCriticalNesting), StoreX(T0, b.NestOffset(), SP)], s, t, IntsSaved(b, s));
  }

  // ----- the floating-point part -----

  /** f0 to f31 and fcsr. */
  function FloatBlock(b: Build, f: seq<int>, fcsr: int): seq<int>
    requires |f| == 32
  {
    EncodeAll(Values(f, FloatRegs()), b.w.F) + Encode(fcsr, b.w.W)
  }

  lemma FloatBlockLength(b: Build, f: seq<int>, fcsr: int)
    requires |f| == 32 && IsWidths(b.w)
    ensures |EncodeAll(Values(f, FloatRegs()), b.w.F)| == 32 * b.w.F
    ensures |FloatBlock(b, f, fcsr)| == 32 * b.w.F + b.w.W
  {
    assert |FloatRegs()| == 32;
    hide FloatRegs, EncodeAll, Values;
    EncodeAllLength(Values(f, FloatRegs()), b.w.F);
  }

  function FloatsSaved(b: Build, s: State): State
    requires Shaped(s)
  {
    var base := s.x[SP] - b.FpuSize();
    s.(x := s.x[SP := base][T0 := s.csr.fcsr], mem := Poke(s.mem, base + 2 * b.w.W, FloatBlock(b, s.f, s.csr.fcsr)))
  }

  function SaveFloatRegs(b: Build): Program {
    [Addi(SP, SP, -b.FpuSize())] + FloatStores(b.w, FloatRegs(), 2 * b.w.W)
  }

  lemma FloatRegsEffect(b: Build, s: State)
    requires IsWidths(b.w) && Shaped(s) && b.FpuSize() <= s.x[SP] && s.x[SP] + 3 * b.w.W <= Cap(b.w.W)
    ensures Runs(b.w, SaveFloatRegs(b), s, FloatRegsSaved(b, s))
  {
    hide Runs, Poke, EncodeAll, Values, FloatRegs, FloatStores, FloatBlock;
    var w, base := b.w, s.x[SP] - b.FpuSize();
    FloatBlockLength(b, s.f, s.csr.fcsr);
    MoveSp(w, -b.FpuSize(), s);
    var s1 := s.(x := s.x[SP := base]);
    FloatStoresEffect(w, FloatRegs(), 2 * w.W, s1);
    RunsThen(w, [Addi(SP, SP, -b.FpuSize())], FloatStores(w, FloatRegs(), 2 * w.W), s, s1,
      s1.(mem := Poke(s.mem, base + 2 * w.W, EncodeAll(Values(s.f, FloatRegs()), w.F))));
  }

  /** f0 to f31 are on the stack, fcsr is not. */
  function FloatRegsSaved(b: Build, s: State): State
    requires Shaped(s)
  {
    var base := s.x[SP] - b.FpuSize();
    s.(x := s.x[SP := base], mem := Poke(s.mem, base + 2 * b.w.W, EncodeAll(Values(s.f, FloatRegs()), b.w.F)))
  }

  lemma FcsrIsLast(b: Build, s: State)
    requires IsWidths(b.w) && Shaped(s)
    ensures var t := FloatRegsSaved(b, s);
      FloatsSaved(b, s) == t.(x := t.x[T0 := s.csr.fcsr],
        mem := Poke(t.mem, t.x[SP] + (2 * b.w.W + 32 * b.w.F), Encode(s.csr.fcsr, b.w.W)))
  {
    hide Poke, Encode, EncodeAll, Values, FloatRegs;
    var regs := EncodeAll(Values(s.f, FloatRegs()), b.w.F);
    FloatBlockLength(b, s.f, s.csr.fcsr);
    PokeAppend(s.mem, s.x[SP] - b.FpuSize() + 2 * b.w.W, regs, Encode(s.csr.fcsr, b.w.W));
  }

  lemma SaveFpuEffect(b: Build, s: State)
    requires IsWidths(b.w) && Shaped(s) && b.FpuSize() <= s.x[SP] && s.x[SP] + 3 * b.w.W <= Cap(b.w.W)
    requires 0 <= s.csr.fcsr < Cap(b.w.W)
    ensures Runs(b.w, SaveFpu(b), s, FloatsSaved(b, s))
  {
    var w, t := b.w, FloatRegsSaved(b, s);
    var r := [Csrr(T0, Fcsr), StoreX(T0, 2 * w.W + 32 * w.F, SP)];
    assert SaveFpu(b) == SaveFloatRegs(b) + r;
    hide Poke, Encode, EncodeAll, Values, FloatsSaved, FloatRegs, SaveFloatRegs, Runs, SaveFpu, Csrs.Get;
    assert t.csr == s.csr && t.x[SP] == s.x[SP] - b.FpuSize();
    hide FloatRegsSaved;
    FloatRegsEffect(b, s);
    FcsrIsLast(b, s);
    GetFcsr(s.csr);
    CsrToStack(w, Fcsr, 2 * w.W + 32 * w.F, t);
    RunsThen(w, SaveFloatRegs(b), r, s, t, FloatsSaved(b, s));
  }

  lemma GetFcsr(c: Csrs)
    ensures c.Get(Fcsr) == c.fcsr
  {
  }

  // ----- the vector part -----

  function Below(s: State, n: int, t0: int, bs: seq<int>): State
    requires Shaped(s)
  {
    s.(x := s.x[SP := s.x[SP] - n][T0 := t0], mem := Poke(s.mem, s.x[SP] - n, bs))
  }

  /** The state after one group: its bytes from vstart on, and vstart back to 0. */
  function GroupSaved(w: Widths, s: State, k: nat): State
    requires Shaped(s)
  {
    s.(x := s.x[SP := s.x[SP] - 8 * w.vlen],
       mem := From(s.mem, s.x[SP] - 8 * w.vlen, Group(s.v, k * w.vlen, 8 * w.vlen), s.csr.vstart),
       csr := s.csr.(vstart := 0))
  }

  lemma SaveGroupFrom(w: Widths, k: nat, s: State)
    requires IsWidths(w) && Shaped(s) && s.x[T0] == Trunc(-8 * w.vlen, w.W)
    requires 8 * w.vlen <= s.x[SP] < Cap(w.W)
    ensures Runs(w, SaveGroup(k), s, GroupSaved(w, s, k))
  {
    hide Runs, From, Group;
    RunsTwo(w, Add(SP, SP, T0), Vs8r(k, SP), s);
    AddBack(w, s);
    hide Step;
    Vs8rStep(w, k, s.(x := s.x[SP := s.x[SP] - 8 * w.vlen]));
  }

  lemma SaveGroupEffect(w: Widths, k: nat, s: State)
    requires IsWidths(w) && Shaped(s) && s.x[T0] == Trunc(-8 * w.vlen, w.W) && s.csr.vstart == 0
    requires 8 * w.vlen <= s.x[SP] < Cap(w.W)
    ensures Runs(w, SaveGroup(k), s, Below(s, 8 * w.vlen, s.x[T0], Group(s.v, k * w.vlen, 8 * w.vlen)))
  {
    hide Runs, Poke, Group, SaveGroup;
    SaveGroupFrom(w, k, s);
    assert GroupSaved(w, s, k).x == Below(s, 8 * w.vlen, s.x[T0], []).x;
  }

  lemma AddBack(w: Widths, s: State)
    requires IsWidths(w) && Shaped(s) && s.x[T0] == Trunc(-8 * w.vlen, w.W)
    requires 8 * w.vlen <= s.x[SP] < Cap(w.W)
    ensures Step(w, Add(SP, SP, T0), s) == s.(x := s.x[SP := s.x[SP] - 8 * w.vlen])
  {
  }

  lemma Vs8rStep(w: Widths, k: nat, s: State)
    requires IsWidths(w) && Shaped(s) && 0 <= s.x[SP] < Cap(w.W)
    ensures Step(w, Vs8r(k, SP), s) ==
      s.(mem := From(s.mem, s.x[SP], Group(s.v, k * w.vlen, 8 * w.vlen), s.csr.vstart), csr := s.csr.(vstart := 0))
  {
    hide From, Group;
  }

  /** Two pushes one after the other are one push of both. */
  lemma PushTwice(w: Widths, p: Program, q: Program, s0: State, s: State,
                  m: int, n: int, t: int, u: int, bs: seq<int>, cs: seq<int>)
    requires Shaped(s) && |bs| == m && |cs| == n
    requires Runs(w, p, s0, Below(s, m, t, bs))
    requires Runs(w, q, Below(s, m, t, bs), Below(Below(s, m, t, bs), n, u, cs))
    ensures Runs(w, p + q, s0, Below(s, m + n, u, cs + bs))
  {
    PokePrepend(s.mem, s.x[SP] - m - n, cs, bs);
    hide Runs, Poke;
    RunsThen(w, p, q, s0, Below(s, m, t, bs), Below(Below(s, m, t, bs), n, u, cs));
  }

  lemma FourGroups(v: seq<int>, vlen: nat)
    requires |v| == 32 * vlen
    ensures |Group(v, 24 * vlen, 8 * vlen)| == |Group(v, 16 * vlen, 8 * vlen)|
         == |Group(v, 8 * vlen, 8 * vlen)| == |Group(v, 0 * vlen, 8 * vlen)| == 8 * vlen
    ensures (Group(v, 0 * vlen, 8 * vlen) + Group(v, 8 * vlen, 8 * vlen)) + Group(v, 16 * vlen, 8 * vlen) == v[..24 * vlen]
    ensures Group(v, 24 * vlen, 8 * vlen) == v[24 * vlen..]
  {
  }

  lemma SaveTwoGroups(w: Widths, k: nat, l: nat, s: State)
    requires IsWidths(w) && Shaped(s) && s.x[T0] == Trunc(-8 * w.vlen, w.W) && 16 * w.vlen <= s.x[SP] < Cap(w.W)
    requires s.csr.vstart == 0
    requires |Group(s.v, k * w.vlen, 8 * w.vlen)| == |Group(s.v, l * w.vlen, 8 * w.vlen)| == 8 * w.vlen
    ensures Runs(w, SaveGroup(k) + SaveGroup(l), s,
      Below(s, 16 * w.vlen, s.x[T0], Group(s.v, l * w.vlen, 8 * w.vlen) + Group(s.v, k * w.vlen, 8 * w.vlen)))
  {
    hide Runs, Poke, Group, SaveGroup, Trunc;
    var n, t := 8 * w.vlen, s.x[T0];
    SaveGroupEffect(w, k, s);
    SaveGroupEffect(w, l, Below(s, n, t, Group(s.v, k * w.vlen, n)));
    PushTwice(w, SaveGroup(k), SaveGroup(l), s, s, n, n, t, t, Group(s.v, k * w.vlen, n), Group(s.v, l * w.vlen, n));
  }

  /** v0 to v23, once the first store has reset vstart. */
  lemma SaveLowGroups(w: Widths, s: State)
    requires IsWidths(w) && Shaped(s) && |s.v| == 32 * w.vlen && s.csr.vstart == 0
    requires 24 * w.vlen <= s.x[SP] < Cap(w.W) && s.x[T0] == Trunc(-8 * w.vlen, w.W)
    ensures Runs(w, SaveGroup(16) + (SaveGroup(8) + SaveGroup(0)), s, Below(s, 24 * w.vlen, s.x[T0], s.v[..24 * w.vlen]))
  {
    hide Runs, Poke, Group, SaveGroup, Trunc;
    var n, t := 8 * w.vlen, s.x[T0];
    var g16, g8, g0 := Group(s.v, 16 * w.vlen, n), Group(s.v, 8 * w.vlen, n), Group(s.v, 0 * w.vlen, n);
    FourGroups(s.v, w.vlen);
    SaveGroupEffect(w, 16, s);
    SaveTwoGroups(w, 8, 0, Below(s, n, t, g16));
    PushTwice(w, SaveGroup(16), SaveGroup(8) + SaveGroup(0), s, s, n, 2 * n, t, t, g16, g0 + g8);
  }

  lemma VectorSetup(w: Widths, s: State)
    requires IsWidths(w) && Shaped(s) && s.csr.vlenb == w.vlen && 32 * w.vlen < Cap(w.W)
    ensures Runs(w, [Csrr(T0, Vlenb), Slli(T0, T0, 3), Neg(T0, T0)], s, s.(x := s.x[T0 := Trunc(-8 * w.vlen, w.W)]))
  {
    assert [Csrr(T0, Vlenb), Slli(T0, T0, 3), Neg(T0, T0)] == [Csrr(T0, Vlenb), Slli(T0, T0, 3)] + [Neg(T0, T0)];
    ScaledVlenb(w, s);
    var s1 := s.(x := s.x[T0 := 8 * w.vlen]);
    RunsOne(w, Neg(T0, T0), s1);
    assert Step(w, Neg(T0, T0), s1).x == s.x[T0 := Trunc(-8 * w.vlen, w.W)];
    hide Runs, Step;
    RunsThen(w, [Csrr(T0, Vlenb), Slli(T0, T0, 3)], [Neg(T0, T0)], s, s1, Step(w, Neg(T0, T0), s1));
  }

  /** `csrr t0, vlenb; slli t0, t0, 3` */
  lemma ScaledVlenb(w: Widths, s: State)
    requires IsWidths(w) && Shaped(s) && s.csr.vlenb == w.vlen && 32 * w.vlen < Cap(w.W)
    ensures Runs(w, [Csrr(T0, Vlenb), Slli(T0, T0, 3)], s, s.(x := s.x[T0 := 8 * w.vlen]))
  {
    RunsTwo(w, Csrr(T0, Vlenb), Slli(T0, T0, 3), s);
    CsrrStep(w, T0, Vlenb, s);
    hide Runs;
    var s1 := Step(w, Csrr(T0, Vlenb), s);
    assert Shl(w.vlen, 3) == Shl(2 * w.vlen, 2) == Shl(4 * w.vlen, 1) == Shl(8 * w.vlen, 0);
    assert Step(w, Slli(T0, T0, 3), s1).x == s1.x[T0 := 8 * w.vlen];
  }

  /** After the first store: v24 to v31 from vstart on, t0 set up. */
  function TopSaved(w: Widths, s: State): State
    requires Shaped(s)
  {
    GroupSaved(w, s.(x := s.x[T0 := Trunc(-8 * w.vlen, w.W)]), 24)
  }

  lemma TopSavedIs(w: Widths, s: State)
    requires Shaped(s)
    ensures var t := TopSaved(w, s);
      && Shaped(t) && t.x[SP] == s.x[SP] - 8 * w.vlen && t.x[T0] == Trunc(-8 * w.vlen, w.W)
      && t.v == s.v && t.csr == s.csr.(vstart := 0)
  {
    hide From, Group, Trunc;
  }

  lemma SaveVectorsEffect(b: Build, s: State)
    requires IsWidths(b.w) && Shaped(s) && |s.v| == 32 * b.w.vlen && s.csr.vlenb == b.w.vlen
    requires 32 * b.w.vlen <= s.x[SP] < Cap(b.w.W)
    ensures Runs(b.w, SaveVectors(), s,
                 Below(TopSaved(b.w, s), 24 * b.w.vlen, Trunc(-8 * b.w.vlen, b.w.W), s.v[..24 * b.w.vlen]))
  {
    hide Runs, Poke, From, Group, Trunc, SaveGroup, SaveVectors;
    var w := b.w;
    var p, low := [Csrr(T0, Vlenb), Slli(T0, T0, 3), Neg(T0, T0)], SaveGroup(16) + (SaveGroup(8) + SaveGroup(0));
    var s0, s1 := s.(x := s.x[T0 := Trunc(-8 * w.vlen, w.W)]), TopSaved(w, s);
    var s2 := Below(s1, 24 * w.vlen, Trunc(-8 * w.vlen, w.W), s.v[..24 * w.vlen]);
    SaveVectorsIs();
    VectorSetup(w, s);
    SaveGroupFrom(w, 24, s0);
    TopSavedIs(w, s);
    hide TopSaved, GroupSaved;
    SaveLowGroups(w, s1);
    RunsThen(w, SaveGroup(24), low, s0, s1, s2);
    RunsThen(w, p, SaveGroup(24) + low, s, s0, s2);
  }

  lemma SaveVectorsIs()
    ensures SaveVectors() == [Csrr(T0, Vlenb), Slli(T0, T0, 3), Neg(T0, T0)]
      + (SaveGroup(24) + (SaveGroup(16) + (SaveGroup(8) + SaveGroup(0))))
  {
    hide SaveGroup;
  }

  ghost predicate CsrsFit(w: Widths, c: Csrs) {
    forall r: Csr :: 0 <= c.Get(r) < Cap(w.W)
  }

  /** vstart, vcsr, vl and vtype. */
  function CsrBlock(w: Widths, c: Csrs): (bs: seq<int>)
    ensures |bs| == 4 * w.W
  {
    (Encode(c.vstart, w.W) + Encode(c.vcsr, w.W)) + (Encode(c.vl, w.W) + Encode(c.vtype, w.W))
  }

  /** Two CSRs stored side by side. */
  lemma TwoCsrsToStack(w: Widths, r: Csr, q: Csr, off: int, s: State)
    requires IsWidths(w) && Shaped(s) && 0 <= s.csr.Get(r) < Cap(w.W) && 0 <= s.csr.Get(q) < Cap(w.W)
    requires 0 <= s.x[SP] + off && s.x[SP] + off + 2 * w.W <= Cap(w.W)
    ensures Runs(w, [Csrr(T0, r), StoreX(T0, off, SP)] + [Csrr(T0, q), StoreX(T0, off + w.W, SP)], s,
      s.(x := s.x[T0 := s.csr.Get(q)],
         mem := Poke(s.mem, s.x[SP] + off, Encode(s.csr.Get(r), w.W) + Encode(s.csr.Get(q), w.W))))
  {
    hide Runs, Poke, Encode, Csrs.Get;
    CsrToStack(w, r, off, s);
    var s1 := s.(x := s.x[T0 := s.csr.Get(r)], mem := Poke(s.mem, s.x[SP] + off, Encode(s.csr.Get(r), w.W)));
    CsrToStack(w, q, off + w.W, s1);
    PokeAppend(s.mem, s.x[SP] + off, Encode(s.csr.Get(r), w.W), Encode(s.csr.Get(q), w.W));
    assert s1.x[T0 := s.csr.Get(q)] == s.x[T0 := s.csr.Get(q)];
    RunsThen(w, [Csrr(T0, r), StoreX(T0, off, SP)], [Csrr(T0, q), StoreX(T0, off + w.W, SP)], s, s1,
      s.(x := s.x[T0 := s.csr.Get(q)],
         mem := Poke(s.mem, s.x[SP] + off, Encode(s.csr.Get(r), w.W) + Encode(s.csr.Get(q), w.W))));
  }

  function StoreVectorCsrs(b: Build): Program {
    ([Csrr(T0, Vstart), StoreX(T0, 0 * b.w.W, SP)] + [Csrr(T0, Vcsr), StoreX(T0, 1 * b.w.W, SP)])
    + ([Csrr(T0, Vl), StoreX(T0, 2 * b.w.W, SP)] + [Csrr(T0, Vtype), StoreX(T0, 3 * b.w.W, SP)])
  }

  lemma SaveVectorCsrsIs(b: Build)
    ensures SaveVectorCsrs(b) == [Addi(SP, SP, -4 * b.w.W)] + StoreVectorCsrs(b)
  {
  }

  lemma GetVectorCsrs(c: Csrs)
    ensures c.Get(Vstart) == c.vstart && c.Get(Vcsr) == c.vcsr && c.Get(Vl) == c.vl && c.Get(Vtype) == c.vtype
  {
  }

  lemma VectorCsrsFit(w: Widths, c: Csrs)
    requires CsrsFit(w, c)
    ensures 0 <= c.vstart < Cap(w.W) && 0 <= c.vcsr < Cap(w.W) && 0 <= c.vl < Cap(w.W) && 0 <= c.vtype < Cap(w.W)
  {
    GetVectorCsrs(c);
    assert 0 <= c.Get(Vstart) < Cap(w.W) && 0 <= c.Get(Vcsr) < Cap(w.W);
    assert 0 <= c.Get(Vl) < Cap(w.W) && 0 <= c.Get(Vtype) < Cap(w.W);
  }

  lemma StoreVectorCsrsEffect(b: Build, s: State)
    requires CsrsFit(b.w, s.csr) && IsWidths(b.w) && Shaped(s) && 0 <= s.x[SP] && s.x[SP] + 4 * b.w.W <= Cap(b.w.W)
    ensures Runs(b.w, StoreVectorCsrs(b), s,
                 s.(x := s.x[T0 := s.csr.vtype], mem := Poke(s.mem, s.x[SP], CsrBlock(b.w, s.csr))))
  {
    hide Runs, Poke, Encode, Csrs.Get, CsrsFit;
    var w, c := b.w, s.csr;
    GetVectorCsrs(c);
    VectorCsrsFit(w, c);
    var lo, hi := Encode(c.vstart, w.W) + Encode(c.vcsr, w.W), Encode(c.vl, w.W) + Encode(c.vtype, w.W);
    TwoCsrsToStack(w, Vstart, Vcsr, 0, s);
    var s1 := s.(x := s.x[T0 := c.vcsr], mem := Poke(s.mem, s.x[SP], lo));
    TwoCsrsToStack(w, Vl, Vtype, 2 * w.W, s1);
    PokeAppend(s.mem, s.x[SP], lo, hi);
    assert s1.x[T0 := c.vtype] == s.x[T0 := c.vtype];
    RunsThen(w, [Csrr(T0, Vstart), StoreX(T0, 0 * w.W, SP)] + [Csrr(T0, Vcsr), StoreX(T0, 1 * w.W, SP)],
      [Csrr(T0, Vl), StoreX(T0, 2 * w.W, SP)] + [Csrr(T0, Vtype), StoreX(T0, 3 * w.W, SP)], s, s1,
      s.(x := s.x[T0 := c.vtype], mem := Poke(s.mem, s.x[SP], lo + hi)));
  }

  lemma SaveVectorCsrsEffect(b: Build, s: State)
    requires CsrsFit(b.w, s.csr) && IsWidths(b.w) && Shaped(s) && 4 * b.w.W <= s.x[SP] < Cap(b.w.W)
    ensures Runs(b.w, SaveVectorCsrs(b), s, Below(s, 4 * b.w.W, s.csr.vtype, CsrBlock(b.w, s.csr)))
  {
    hide Runs, Poke, Encode, CsrBlock, SaveVectorCsrs, StoreVectorCsrs, CsrsFit;
    SaveVectorCsrsIs(b);
    MoveSp(b.w, -4 * b.w.W, s);
    var s1 := s.(x := s.x[SP := s.x[SP] - 4 * b.w.W]);
    StoreVectorCsrsEffect(b, s1);
    RunsThen(b.w, [Addi(SP, SP, -4 * b.w.W)], StoreVectorCsrs(b), s, s1,
      Below(s, 4 * b.w.W, s.csr.vtype, CsrBlock(b.w, s.csr)));
  }

  /** The vector part of a frame that holds all of s. */
  function VectorBlock(b: Build, s: State): seq<int> {
    CsrBlock(b.w, s.csr) + s.v
  }

  /** What is stored below v24: the CSRs, vstart already reset, and v0 to v23. */
  function LowerBlock(b: Build, s: State): seq<int> {
    CsrBlock(b.w, s.csr.(vstart := 0)) + Group(s.v, 0, 24 * b.w.vlen)
  }

  function UpperBlock(b: Build, s: State): seq<int> {
    Group(s.v, 24 * b.w.vlen, 8 * b.w.vlen)
  }

  /** Where v24 goes in a frame whose vector part starts two words above `at`. */
  function UpperAt(b: Build, at: int): int {
    at + 6 * b.w.W + 24 * b.w.vlen
  }

  /** mem with the vector part of s in it. */
  function VectorMem(b: Build, s: State, mem: Memory, at: int): Memory {
    Poke(From(mem, UpperAt(b, at), UpperBlock(b, s), s.csr.vstart), at + 2 * b.w.W, LowerBlock(b, s))
  }

  function VectorsSaved(b: Build, s: State): State
    requires Shaped(s)
  {
    var base := s.x[SP] - b.VpuSize();
    s.(x := s.x[SP := base][T0 := s.csr.vtype], mem := VectorMem(b, s, s.mem, base), csr := s.csr.(vstart := 0))
  }

  // ----- what the vector part of a frame holds -----

  lemma PeekFrom(m: Memory, a: int, bs: seq<int>, start: int)
    ensures Peek(From(m, a, bs, start), a, |bs|) == Tail(Peek(m, a, |bs|), bs, start)
  {
    var p := Peek(From(m, a, bs, start), a, |bs|);
    if start <= 0 {
      PeekPoked(m, a, bs);
    } else if start < |bs| {
      forall i | 0 <= i < |bs| ensures p[i] == Tail(Peek(m, a, |bs|), bs, start)[i] {
        PokedByte(m, a + start, bs[start..], a + i);
      }
    }
  }

  lemma PeekBesideFrom(m: Memory, a: int, bs: seq<int>, start: int, c: int, n: nat)
    requires Outside(c, n, a, a + |bs|)
    ensures Peek(From(m, a, bs, start), c, n) == Peek(m, c, n)
  {
    hide Peek, Poke;
    if start <= 0 {
      PeekBeside(m, a, bs, c, n);
    } else if start < |bs| {
      PeekBeside(m, a + start, bs[start..], c, n);
    }
  }

  lemma BlockLengths(b: Build, s: State)
    requires |s.v| == 32 * b.w.vlen
    ensures |LowerBlock(b, s)| == 4 * b.w.W + 24 * b.w.vlen && |UpperBlock(b, s)| == 8 * b.w.vlen
    ensures |VectorBlock(b, s)| == |LowerBlock(b, s)| + |UpperBlock(b, s)| == b.VpuSize()
  {
    hide CsrBlock;
  }

  /** The vector registers a frame ends up with: the bytes of v24 to v31 below vstart are not stored, so
      they are what the stack held before. */
  function SavedVector(b: Build, s: State, mem: Memory, at: int): seq<int> {
    Group(s.v, 0, 24 * b.w.vlen) + Tail(Peek(mem, UpperAt(b, at), 8 * b.w.vlen), UpperBlock(b, s), s.csr.vstart)
  }

  lemma SavedVectorIs(b: Build, s: State, mem: Memory, at: int)
    requires |s.v| == 32 * b.w.vlen
    ensures |SavedVector(b, s, mem, at)| == 32 * b.w.vlen
    ensures s.csr.vstart <= 0 ==> SavedVector(b, s, mem, at) == s.v
  {
    hide Peek;
  }

  lemma VectorMemHolds(b: Build, s: State, mem: Memory, at: int)
    requires |s.v| == 32 * b.w.vlen
    ensures Peek(VectorMem(b, s, mem, at), at + 2 * b.w.W, b.VpuSize())
         == CsrBlock(b.w, s.csr.(vstart := 0)) + SavedVector(b, s, mem, at)
  {
    hide Peek, Poke, From, Tail, CsrBlock, Group;
    BlockLengths(b, s);
    var lo, hi, m1 := LowerBlock(b, s), UpperBlock(b, s), From(mem, UpperAt(b, at), UpperBlock(b, s), s.csr.vstart);
    PeekFrom(mem, UpperAt(b, at), hi, s.csr.vstart);
    PeekPoked(m1, at + 2 * b.w.W, lo);
    PeekBeside(m1, at + 2 * b.w.W, lo, UpperAt(b, at), |hi|);
    PeekSplit(VectorMem(b, s, mem, at), at + 2 * b.w.W, |lo|, |hi|);
    assert CsrBlock(b.w, s.csr.(vstart := 0)) + SavedVector(b, s, mem, at)
        == lo + Tail(Peek(mem, UpperAt(b, at), 8 * b.w.vlen), hi, s.csr.vstart);
  }

  lemma VectorMemBeside(b: Build, s: State, mem: Memory, at: int, a: int, n: nat)
    requires |s.v| == 32 * b.w.vlen && Outside(a, n, at + 2 * b.w.W, at + 2 * b.w.W + b.VpuSize())
    ensures Peek(VectorMem(b, s, mem, at), a, n) == Peek(mem, a, n)
  {
    hide Peek, Poke, From, LowerBlock, UpperBlock;
    BlockLengths(b, s);
    PeekBesideFrom(mem, UpperAt(b, at), UpperBlock(b, s), s.csr.vstart, a, n);
    PeekBeside(From(mem, UpperAt(b, at), UpperBlock(b, s), s.csr.vstart), at + 2 * b.w.W, LowerBlock(b, s), a, n);
  }

  // ----- the program that stores it -----

  function Unreserved(b: Build, s: State): State
    requires Shaped(s)
  {
    s.(x := s.x[SP := s.x[SP] + 2 * b.w.W])
  }

  /** Everything below v24, as one push. */
  function LowerPushed(b: Build, s: State): State
    requires Shaped(s)
  {
    Below(TopSaved(b.w, s), b.VpuSize() - 8 * b.w.vlen, s.csr.vtype, LowerBlock(b, s))
  }

  lemma CsrsStillFit(w: Widths, c: Csrs)
    requires CsrsFit(w, c)
    ensures CsrsFit(w, c.(vstart := 0))
  {
    forall r: Csr ensures 0 <= c.(vstart := 0).Get(r) < Cap(w.W) {
      assert 0 <= c.Get(r) < Cap(w.W);
    }
  }

  /** Vector registers and CSRs pushed below the two reserved words. */
  lemma VectorPush(b: Build, s: State)
    requires IsWidths(b.w) && Shaped(s) && |s.v| == 32 * b.w.vlen && s.csr.vlenb == b.w.vlen
    requires CsrsFit(b.w, s.csr) && b.VpuSize() <= s.x[SP] < Cap(b.w.W)
    ensures Runs(b.w, SaveVectors() + SaveVectorCsrs(b), s, LowerPushed(b, s))
  {
    hide Runs, Poke, Trunc, SaveVectors, SaveVectorCsrs, CsrBlock, CsrsFit, TopSaved;
    var w, n, t := b.w, 24 * b.w.vlen, Trunc(-8 * b.w.vlen, b.w.W);
    var s1, low := TopSaved(w, s), s.v[..24 * b.w.vlen];
    LowGroup(s.v, 24 * b.w.vlen);
    TopSavedIs(w, s);
    CsrsStillFit(w, s.csr);
    SaveVectorsEffect(b, s);
    SaveVectorCsrsEffect(b, Below(s1, n, t, low));
    PushTwice(w, SaveVectors(), SaveVectorCsrs(b), s, s1, n, 4 * w.W, t, s.csr.vtype, low, CsrBlock(w, s.csr.(vstart := 0)));
  }

  lemma LowGroup(v: seq<int>, n: nat)
    requires n <= |v|
    ensures Group(v, 0, n) == v[..n]
  {
  }

  lemma ReservedAgain(b: Build, s: State)
    requires Shaped(s)
    ensures var s2 := LowerPushed(b, Unreserved(b, s));
      Shaped(s2) && s2.x[SP] == s.x[SP] + 2 * b.w.W - b.VpuSize()
      && s2.(x := s2.x[SP := s2.x[SP] - 2 * b.w.W]) == VectorsSaved(b, s)
  {
    hide Poke, From, Group, Trunc, CsrBlock;
    var s2 := LowerPushed(b, Unreserved(b, s));
    assert s2.x[SP := s2.x[SP] - 2 * b.w.W] == VectorsSaved(b, s).x;
    assert s2.x[SP] == s.x[SP] + 2 * b.w.W - b.VpuSize();
  }

  lemma SaveVpuIs(b: Build)
    ensures SaveVpu(b) == [Addi(SP, SP, 2 * b.w.W)] + (SaveVectors() + SaveVectorCsrs(b)) + [Addi(SP, SP, -2 * b.w.W)]
  {
    hide SaveVectors, SaveVectorCsrs;
  }

  lemma SaveVpuEffect(b: Build, s: State)
    requires IsWidths(b.w) && Shaped(s) && |s.v| == 32 * b.w.vlen && s.csr.vlenb == b.w.vlen
    requires CsrsFit(b.w, s.csr) && b.VpuSize() <= s.x[SP] && s.x[SP] + 2 * b.w.W < Cap(b.w.W)
    ensures Runs(b.w, SaveVpu(b), s, VectorsSaved(b, s))
  {
    hide Runs, Poke, SaveVectors, SaveVectorCsrs, SaveVpu, VectorsSaved, CsrsFit, LowerPushed;
    var w := b.w;
    var up, down := [Addi(SP, SP, 2 * w.W)], [Addi(SP, SP, -2 * w.W)];
    var s1 := Unreserved(b, s);
    var s2 := LowerPushed(b, s1);
    SaveVpuIs(b);
    ReservedAgain(b, s);
    MoveSp(w, 2 * w.W, s);
    VectorPush(b, s1);
    MoveSp(w, -2 * w.W, s2);
    RunsThen(w, up, SaveVectors() + SaveVectorCsrs(b), s, s1, s2);
    RunsThen(w, up + (SaveVectors() + SaveVectorCsrs(b)), down, s, s2, VectorsSaved(b, s));
  }
}
