/** Where a save puts each part of the context, slot by slot, as the kernel finds it. */
module FrameSlots {
  import opened Arith
  import opened Hart
  import opened PortContext
  import opened ContextSteps
  import opened ContextSave
  import opened MarkingClean
  import opened SaveContext
  import opened Frames
  import opened Overlaps
  import opened Restores

  // ----- the two status fields -----

  lemma ShrFour(m: int, sh: nat)
    requires sh >= 4
    ensures Shr(m, sh) == Shr(m / 16, sh - 4)
  {
    hide Shr;
    ShrOnce(m, sh);
    ShrOnce(m / 2, sh - 1);
    ShrOnce(m / 2 / 2, sh - 2);
    ShrOnce(m / 2 / 2 / 2, sh - 3);
    assert m / 2 / 2 / 2 / 2 == m / 16;
  }

  lemma ShrOnce(m: int, sh: nat)
    requires sh >= 1
    ensures Shr(m, sh) == Shr(m / 2, sh - 1)
  {
  }

  lemma ShrOne(m: int)
    ensures Shr(m, 1) == m / 2
  {
  }

  lemma Divided(m: int)
    ensures m / 16 / 16 / 2 == m / 0x200 && m / 16 / 16 / 16 / 2 == m / 0x2000
  {
    assert m / 16 / 16 == m / 256;
    assert m / 256 / 16 == m / 4096;
  }

  lemma ShrIs(m: int)
    ensures Shr(m, 13) == m / 0x2000 && Shr(m, 9) == m / 0x200
  {
    hide Shr;
    Divided(m);
    ShrFour(m, 13);
    ShrFour(m / 16, 9);
    ShrFour(m / 16 / 16, 5);
    ShrOne(m / 16 / 16 / 16);
    ShrFour(m, 9);
    ShrFour(m / 16, 5);
    ShrOne(m / 16 / 16);
  }

  /** FS is bits 13 and 14, VS bits 9 and 10; cleaning takes 3 to 2. */
  lemma FieldsAre(m: int)
    ensures Field(m, FS_OFFSET) == m / 0x2000 % 4 && Field(m, VS_OFFSET) == m / 0x200 % 4
    ensures Cleaned(m, FS_OFFSET) == if m / 0x2000 % 4 == 3 then m - 0x2000 else m
    ensures Cleaned(m, VS_OFFSET) == if m / 0x200 % 4 == 3 then m - 0x200 else m
  {
    hide Shr, Two;
    ShrIs(m);
    TwoIs(FS_OFFSET);
    TwoIs(VS_OFFSET);
  }

  // ----- words in a block -----

  lemma {:induction false} ValuesAt(x: seq<int>, regs: seq<Reg>, i: nat)
    requires |x| == 32 && i < |regs|
    ensures Values(x, regs)[i] == x[regs[i]]
  {
    if i > 0 {
      ValuesAt(x, regs[1..], i - 1);
    }
  }

  lemma {:induction false} EncodeAllAt(vs: seq<int>, n: nat, i: nat)
    requires (n == 4 || n == 8) && i < |vs|
    ensures Bytes(i, n) + n <= |EncodeAll(vs, n)| && EncodeAll(vs, n)[Bytes(i, n)..Bytes(i, n) + n] == Encode(vs[i], n)
    decreases i
  {
    hide Encode;
    EncodeAllLength(vs, n);
    var first, rest := Encode(vs[0], n), EncodeAll(vs[1..], n);
    assert EncodeAll(vs, n) == first + rest;
    if i > 0 {
      EncodeAllAt(vs[1..], n, i - 1);
      assert (first + rest)[Bytes(i, n)..Bytes(i, n) + n] == rest[Bytes(i - 1, n)..Bytes(i - 1, n) + n];
    } else {
      assert (first + rest)[..n] == first;
    }
  }

  /** Word i of a block of registers that begins at a. */
  lemma WordOfBlock(m: Memory, a: int, vs: seq<int>, n: nat, i: nat, v: int)
    requires (n == 4 || n == 8) && i < |vs| && v == vs[i] && 0 <= v < Cap(n)
    requires Peek(m, a, |EncodeAll(vs, n)|) == EncodeAll(vs, n)
    ensures Word(m, a + Bytes(i, n), n) == v
  {
    hide Peek, Encode, EncodeAll, Word;
    EncodeAllAt(vs, n, i);
    PeekPart(m, a, Bytes(i, n), n, EncodeAll(vs, n));
    WordOf(m, a + Bytes(i, n), n, v);
  }

  // ----- the slots -----

  function IntsSlot(b: Build, s: State): int
    requires Shaped(s)
  {
    s.x[2] - Bytes(if b.rv32e then 15 else 31, b.w.W)
  }

  function FloatsSlot(b: Build, s: State): int
    requires Shaped(s)
  {
    IntsSlot(b, s) - if b.fpu && s.csr.mstatus / 0x2000 % 4 == 3 then Bytes(33, b.w.F) else 0
  }

  function LowestSlot(b: Build, s: State): int
    requires Shaped(s)
  {
    FloatsSlot(b, s) - if b.vpu && s.csr.mstatus / 0x200 % 4 == 3 then Bytes(4, b.w.W) + 32 * b.w.vlen else 0
  }

  /** The context of s below its stack pointer: from the lowest address the resume address, mstatus, the vector
      part and the floating-point part if they are dirty, x1, x5 and up, and the nesting count. */
  ghost predicate AtSlots(b: Build, m: Memory, s: State, pc: int, nest: int)
    requires Shaped(s)
  {
    var w, c, at := b.w.W, s.csr, LowestSlot(b, s);
    && Word(m, at, w) == pc && Word(m, at + w, w) == c.mstatus
    && IntsAtSlots(b, m, s.x, nest, IntsSlot(b, s))
    && (b.fpu && c.mstatus / 0x2000 % 4 == 3 ==> FloatsAtSlots(b, m, s, FloatsSlot(b, s)))
    && (b.vpu && c.mstatus / 0x200 % 4 == 3 ==> VectorsAtSlots(b, m, s, at))
  }

  ghost predicate IntsAtSlots(b: Build, m: Memory, x: seq<int>, nest: int, ints: int)
    requires |x| == 32
  {
    && Word(m, ints + Bytes(2, b.w.W), b.w.W) == x[1]
    && (forall r: Reg :: 5 <= r < (if b.rv32e then 16 else 32) ==> Word(m, ints + Bytes(r - 2, b.w.W), b.w.W) == x[r])
    && Word(m, ints + Bytes(if b.rv32e then 14 else 30, b.w.W), b.w.W) == nest
  }

  ghost predicate FloatsAtSlots(b: Build, m: Memory, s: State, floats: int)
    requires Shaped(s)
  {
    && (forall r: Reg :: Word(m, floats + Bytes(2, b.w.W) + Bytes(r, b.w.F), b.w.F) == s.f[r])
    && Word(m, floats + Bytes(2, b.w.W) + Bytes(32, b.w.F), b.w.W) == s.csr.fcsr
  }

  ghost predicate VectorsAtSlots(b: Build, m: Memory, s: State, at: int) {
    && Word(m, at + Bytes(2, b.w.W), b.w.W) == s.csr.vstart && Word(m, at + Bytes(3, b.w.W), b.w.W) == s.csr.vcsr
    && Word(m, at + Bytes(4, b.w.W), b.w.W) == s.csr.vl && Word(m, at + Bytes(5, b.w.W), b.w.W) == s.csr.vtype
    && forall k :: 0 <= k < |s.v| ==> Byte(m, at + Bytes(6, b.w.W) + k) == s.v[k]
  }

  lemma IntRegIs(b: Build, r: nat)
    requires r == 1 || 5 <= r < if b.rv32e then 16 else 32
    ensures var i := if r == 1 then 0 else r - 4; i < |b.IntRegs()| && b.IntRegs()[i] == r
  {
    IntRegsAre(b);
    if r > 1 {
      FromX5At(b, r - 5);
      assert b.IntRegs() == [1] + b.FromX5();
      hide Build.FromX5;
    }
  }

  lemma FromX5At(b: Build, i: nat)
    requires i < if b.rv32e then 11 else 27
    ensures i < |b.FromX5()| && b.FromX5()[i] == i + 5
  {
  }

  lemma RegistersFit(w: Widths, s: State, r: Reg)
    requires IsState(w, s)
    ensures |s.x| == |s.f| == 32 && 0 <= s.x[r] < Cap(w.W) && 0 <= s.f[r] < Cap(w.F)
    ensures 0 <= s.csr.fcsr < 0x1_0000_0000 && 0 <= s.csr.mstatus < Cap(w.W)
  {
    assert s.csr.Get(Mstatus) == s.csr.mstatus;
  }

  lemma IntSlot(b: Build, m: Memory, s: State, nest: int, ints: int, r: nat)
    requires IsWidths(b.w) && IsState(b.w, s) && (r == 1 || 5 <= r < if b.rv32e then 16 else 32)
    requires Peek(m, ints + Bytes(2, b.w.W), |IntBlock(b, s.x, nest)|) == IntBlock(b, s.x, nest)
    ensures Word(m, ints + Bytes(if r == 1 then 2 else r - 2, b.w.W), b.w.W) == s.x[r]
  {
    hide Build.IntRegs, Values, EncodeAll, Encode, Peek, Word, IsState;
    RegistersFit(b.w, s, r);
    var vs, i := Values(s.x, b.IntRegs()), if r == 1 then 0 else r - 4;
    IntRegIs(b, r);
    ValuesAt(s.x, b.IntRegs(), i);
    PeekFront(m, ints + Bytes(2, b.w.W), EncodeAll(vs, b.w.W), Encode(nest, b.w.W));
    WordOfBlock(m, ints + Bytes(2, b.w.W), vs, b.w.W, i, s.x[r]);
    assert Bytes(2, b.w.W) + Bytes(i, b.w.W) == Bytes(if r == 1 then 2 else r - 2, b.w.W);
  }

  lemma NestSlot(b: Build, m: Memory, s: State, nest: int, ints: int)
    requires IsWidths(b.w) && IsState(b.w, s) && 0 <= nest < Cap(b.w.W)
    requires Peek(m, ints + Bytes(2, b.w.W), |IntBlock(b, s.x, nest)|) == IntBlock(b, s.x, nest)
    ensures Word(m, ints + Bytes(if b.rv32e then 14 else 30, b.w.W), b.w.W) == nest
  {
    var bs := EncodeAll(Values(s.x, b.IntRegs()), b.w.W);
    IntBlockLength(b, s.x, nest);
    hide Build.IntRegs, Values, EncodeAll, Encode, Peek, Word;
    PeekFront(m, ints + Bytes(2, b.w.W), bs, Encode(nest, b.w.W));
    WordOf(m, ints + Bytes(2, b.w.W) + |bs|, b.w.W, nest);
    assert Bytes(2, b.w.W) + |bs| == Bytes(if b.rv32e then 14 else 30, b.w.W);
  }

  lemma IntSlots(b: Build, m: Memory, s: State, nest: int, ints: int)
    requires IsWidths(b.w) && IsState(b.w, s) && 0 <= nest < Cap(b.w.W)
    requires Peek(m, ints + Bytes(2, b.w.W), |IntBlock(b, s.x, nest)|) == IntBlock(b, s.x, nest)
    ensures IntsAtSlots(b, m, s.x, nest, ints)
  {
    hide IntBlock, Peek, Word;
    IntSlot(b, m, s, nest, ints, 1);
    NestSlot(b, m, s, nest, ints);
    forall r: Reg | 5 <= r < (if b.rv32e then 16 else 32)
      ensures Word(m, ints + Bytes(r - 2, b.w.W), b.w.W) == s.x[r] {
      IntSlot(b, m, s, nest, ints, r);
    }
  }

  lemma FloatRegAt(r: Reg)
    ensures r < |FloatRegs()| && FloatRegs()[r] == r
  {
  }

  lemma FloatSlots(b: Build, m: Memory, s: State, floats: int)
    requires IsWidths(b.w) && IsState(b.w, s)
    requires var bs := FloatBlock(b, s.f, s.csr.fcsr); Peek(m, floats + Bytes(2, b.w.W), |bs|) == bs
    ensures FloatsAtSlots(b, m, s, floats)
  {
    hide FloatRegs, Values, EncodeAll, Encode, Peek, Word, IsState;
    RegistersFit(b.w, s, 0);
    var vs, a := Values(s.f, FloatRegs()), floats + Bytes(2, b.w.W);
    FloatBlockLength(b, s.f, s.csr.fcsr);
    PeekFront(m, a, EncodeAll(vs, b.w.F), Encode(s.csr.fcsr, b.w.W));
    assert 32 * b.w.F == Bytes(32, b.w.F);
    WordOf(m, a + Bytes(32, b.w.F), b.w.W, s.csr.fcsr);
    forall r: Reg ensures Word(m, a + Bytes(r, b.w.F), b.w.F) == s.f[r] {
      FloatRegAt(r);
      RegistersFit(b.w, s, r);
      ValuesAt(s.f, FloatRegs(), r);
      WordOfBlock(m, a, vs, b.w.F, r, s.f[r]);
    }
  }

  lemma CsrSlots(w: Widths, m: Memory, a: int, c: Csrs)
    requires IsWidths(w) && CsrsFit(w, c) && Peek(m, a, |CsrBlock(w, c)|) == CsrBlock(w, c)
    ensures Word(m, a, w.W) == c.vstart && Word(m, a + Bytes(1, w.W), w.W) == c.vcsr
    ensures Word(m, a + Bytes(2, w.W), w.W) == c.vl && Word(m, a + Bytes(3, w.W), w.W) == c.vtype
  {
    assert c.Get(Vstart) == c.vstart && c.Get(Vcsr) == c.vcsr && c.Get(Vl) == c.vl && c.Get(Vtype) == c.vtype;
    var p, q := Encode(c.vstart, w.W) + Encode(c.vcsr, w.W), Encode(c.vl, w.W) + Encode(c.vtype, w.W);
    hide Encode, Peek, Word, Csrs.Get;
    PeekFront(m, a, p, q);
    PeekFront(m, a, Encode(c.vstart, w.W), Encode(c.vcsr, w.W));
    PeekFront(m, a + Bytes(2, w.W), Encode(c.vl, w.W), Encode(c.vtype, w.W));
    WordOf(m, a, w.W, c.vstart);
    WordOf(m, a + Bytes(1, w.W), w.W, c.vcsr);
    WordOf(m, a + Bytes(2, w.W), w.W, c.vl);
    WordOf(m, a + Bytes(3, w.W), w.W, c.vtype);
  }

  lemma VectorSlots(b: Build, m: Memory, s: State, at: int)
    requires IsWidths(b.w) && IsState(b.w, s)
    requires Peek(m, at + Bytes(2, b.w.W), |VectorBlock(b, s)|) == VectorBlock(b, s)
    ensures VectorsAtSlots(b, m, s, at)
  {
    hide Word, CsrBlock, CsrsFit, IsState, Peek;
    StateIsReady(b, s);
    var w, a := b.w.W, at + Bytes(2, b.w.W);
    PeekFront(m, a, CsrBlock(b.w, s.csr), s.v);
    CsrSlots(b.w, m, a, s.csr);
    BytesAdd(at, w);
    VectorBytes(m, at + Bytes(6, w), s.v);
    hide Bytes;
  }

  lemma BytesAdd(at: int, w: nat)
    requires w == 4 || w == 8
    ensures var a := at + Bytes(2, w);
      && a + Bytes(1, w) == at + Bytes(3, w) && a + Bytes(2, w) == at + Bytes(4, w) && a + Bytes(3, w) == at + Bytes(5, w)
      && a + 4 * w == at + Bytes(6, w)
  {
  }

  lemma VectorBytes(m: Memory, a: int, v: seq<int>)
    requires Peek(m, a, |v|) == v
    ensures forall k :: 0 <= k < |v| ==> Byte(m, a + k) == v[k]
  {
    forall k | 0 <= k < |v| ensures Byte(m, a + k) == v[k] {
      PeekAt(m, a, |v|, k);
    }
  }

  lemma PeekAt(m: Memory, a: int, n: nat, k: nat)
    requires k < n
    ensures Peek(m, a, n)[k] == Byte(m, a + k)
  {
  }

  /** A frame has every part in its slot. */
  lemma FrameIsAtSlots(b: Build, m: Memory, s: State, pc: int, nest: int)
    requires IsWidths(b.w) && IsState(b.w, s) && Frame(b, m, s, pc, nest)
    requires 0 <= pc < Cap(b.w.W) && 0 <= nest < Cap(b.w.W)
    ensures AtSlots(b, m, s, pc, nest)
  {
    hide Field, Peek, Encode, Word, IntBlock, FloatBlock, VectorBlock, IntsAtSlots, FloatsAtSlots, VectorsAtSlots, IsState;
    hide FrameAt, FloatsAt, IntsAt, LowestSlot, FloatsSlot, IntsSlot;
    RegistersFit(b.w, s, 0);
    SlotAddresses(b, s);
    FieldsAre(s.csr.mstatus);
    var at, w := FrameAt(b, s), b.w.W;
    WordOf(m, at, w, pc);
    WordOf(m, at + w, w, s.csr.mstatus);
    IntSlots(b, m, s, nest, IntsAt(b, s));
    if Dirty(b.fpu, s.csr.mstatus, FS_OFFSET) {
      FloatSlots(b, m, s, FloatsAt(b, s));
    }
    if Dirty(b.vpu, s.csr.mstatus, VS_OFFSET) {
      VectorSlots(b, m, s, at);
    }
  }

  lemma SlotAddresses(b: Build, s: State)
    requires IsWidths(b.w) && Shaped(s)
    ensures IntsAt(b, s) == IntsSlot(b, s) && FloatsAt(b, s) == FloatsSlot(b, s) && FrameAt(b, s) == LowestSlot(b, s)
    ensures 2 * b.w.W == Bytes(2, b.w.W)
  {
    FieldsAre(s.csr.mstatus);
    hide Field;
  }

  lemma SavedMstatus(b: Build, m: int)
    ensures CleanedAll(b, m) ==
      m - (if b.fpu && m / 0x2000 % 4 == 3 then 0x2000 else 0) - (if b.vpu && m / 0x200 % 4 == 3 then 0x200 else 0)
  {
    hide Cleaned, Field;
    FieldsAre(m);
    FieldsAre(m - 0x2000);
    if m / 0x2000 % 4 == 3 {
      CleanLeaves(m);
    }
  }

  lemma CleanLeaves(m: int)
    ensures (m - 0x2000) / 0x200 % 4 == m / 0x200 % 4
  {
    assert (m - 0x2000) / 0x200 == m / 0x200 - 16;
  }

  /** What the kernel finds after a save: the context in its slots, the address of the lowest one in the control
      block, the cause and the resume address in a0 and a1, the ISR stack in sp; an exception has moved the
      resume address past its instruction. */
  lemma SaveFillsSlots(b: Build, s: State, exception: bool) returns (t: State)
    requires IsWidths(b.w) && IsState(b.w, s) && Fits(b, s)
    ensures Runs(b.w, SaveProgram(b, exception), s, t)
    ensures var pc := if exception then (s.csr.mepc + 4) % Cap(b.w.W) else s.csr.mepc;
      && Word(t.mem, Word(s.mem, b.pxCurrentTCB, b.w.W), b.w.W) == LowestSlot(b, s)
      && AtSlots(b, t.mem, AsSaved(b, s), pc, Word(s.mem, b.xCriticalNesting, b.w.W))
      && t.x[2] == Word(s.mem, b.xISRStackTop, b.w.W) && t.x[10] == s.csr.mcause && t.x[11] == pc
      && t.csr.mstatus == s.csr.mstatus - (if b.fpu && s.csr.mstatus / 0x2000 % 4 == 3 then 0x2000 else 0)
                                        - (if b.vpu && s.csr.mstatus / 0x200 % 4 == 3 then 0x200 else 0)
  {
    hide Runs, Peek, Poke, Encode, AtSlots, AsSaved, Saved, Frame, IsState, Fits, Word, CsrsFit, CleanedAll, SaveProgram;
    var pc, nest := if exception then (s.csr.mepc + 4) % Cap(b.w.W) else s.csr.mepc, Word(s.mem, b.xCriticalNesting, b.w.W);
    StateIsReady(b, s);
    t := SaveRuns(b, s, exception);
    SavedIsFrame(b, s, pc);
    AsSavedIsState(b, s);
    PcFits(b, s, exception);
    WordFits(s.mem, b.xCriticalNesting, b.w.W);
    FrameIsAtSlots(b, t.mem, AsSaved(b, s), pc, nest);
    SavedMstatus(b, s.csr.mstatus);
    ControlBlockHolds(b, s, pc);
    SlotAddresses(b, s);
  }

  lemma ControlBlockHolds(b: Build, s: State, pc: int)
    requires IsWidths(b.w) && IsState(b.w, s) && Fits(b, s)
    ensures Word(Saved(b, s, pc), Word(s.mem, b.pxCurrentTCB, b.w.W), b.w.W) == FrameAt(b, s)
  {
    hide Encode, Poke, Peek, PartsSaved, Word, IsState, FloatsAt;
    RegistersFit(b.w, s, 0);
    StateIsReady(b, s);
    hide CsrsFit;
    FrameOrder(b, s);
    var w, at, tcb := b.w.W, FrameAt(b, s), Word(s.mem, b.pxCurrentTCB, b.w.W);
    FrameFits(b, s);
    var m := Poke(PartsSaved(b, s), at + w, Encode(s.csr.mstatus, w));
    PeekPoked(m, tcb, Encode(at, w));
    PeekBeside(InternalSaved(b, s), at, Encode(pc, w), tcb, w);
    assert |Encode(at, w)| == w && InternalSaved(b, s) == Poke(m, tcb, Encode(at, w));
    assert Peek(InternalSaved(b, s), tcb, w) == Encode(at, w);
    WordOf(Saved(b, s, pc), tcb, w, at);
  }

  lemma PcFits(b: Build, s: State, exception: bool)
    requires IsWidths(b.w) && IsState(b.w, s)
    ensures 0 <= (if exception then (s.csr.mepc + 4) % Cap(b.w.W) else s.csr.mepc) < Cap(b.w.W)
  {
    assert s.csr.Get(Mepc) == s.csr.mepc;
  }

  lemma WordFits(m: Memory, a: int, n: nat)
    requires n == 4 || n == 8
    ensures 0 <= Word(m, a, n) < Cap(n)
  {
  }
}
