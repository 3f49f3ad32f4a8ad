/** The save macros as a whole: the frame they leave on the task's stack. */
module SaveContext {
  import opened Hart
  import opened PortContext
  import opened ContextSteps
  import opened ContextSave
  import opened MarkingClean

  /** t is s with a new stack pointer, memory and CSRs; only temporaries differ besides. */
  ghost predicate After(s: State, t: State, sp: int, mem: Memory, csr: Csrs) {
    && Shaped(s) && Shaped(t)
    && t.x[SP] == sp && t.x[0] == s.x[0]
    && t.mem == mem && t.csr == csr
    && t.f == s.f && t.v == s.v
  }

  /** What every stage needs of the state it starts from. */
  ghost predicate Ready(b: Build, s: State) {
    && IsWidths(b.w) && Shaped(s) && s.x[0] == 0
    && |s.v| == 32 * b.w.vlen && s.csr.vlenb == b.w.vlen && CsrsFit(b.w, s.csr)
  }

  lemma StateIsReady(b: Build, s: State)
    requires IsWidths(b.w) && IsState(b.w, s)
    ensures Ready(b, s) && CsrsFit(b.w, s.csr)
  {
    hide Csrs.Get;
  }

  function Dirty(enabled: bool, m: int, sh: nat): bool {
    enabled && Field(m, sh) == 3
  }

  /** The two dirty flags a context was saved with decide how long its frame is. */
  function FpuPart(b: Build, m: int): int {
    if Dirty(b.fpu, m, FS_OFFSET) then b.FpuSize() else 0
  }

  function VpuPart(b: Build, m: int): int {
    if Dirty(b.vpu, m, VS_OFFSET) then b.VpuSize() else 0
  }

  // ----- the stages of portcontextSAVE_CONTEXT_INTERNAL -----

  function SaveIfDirty(sh: nat, block: Program): Program {
    [Csrr(T0, Mstatus)] + IfDirty(T0, sh, block)
  }

  /** The state in which a guarded save block starts. */
  function AtBlock(s: State, sh: nat): State
    requires Shaped(s)
  {
    Tested(s.(x := s.x[T0 := s.csr.mstatus]), T0, sh)
  }

  lemma AtBlockIs(b: Build, s: State, sh: nat)
    requires Ready(b, s)
    ensures var t := AtBlock(s, sh); Ready(b, t) && t == s.(x := t.x) && t.x[SP] == s.x[SP]
  {
  }

  lemma SaveIfDirtyRuns(b: Build, s: State, sh: nat, block: Program, t: State)
    requires Ready(b, s)
    requires if Field(s.csr.mstatus, sh) == 3 then Runs(b.w, block, AtBlock(s, sh), t)
             else Closed(block) && t == AtBlock(s, sh)
    ensures Runs(b.w, SaveIfDirty(sh, block), s, t)
  {
    assert s.csr.Get(Mstatus) == s.csr.mstatus && 0 <= s.csr.Get(Mstatus) < Cap(b.w.W);
    var s1 := s.(x := s.x[T0 := s.csr.mstatus]);
    assert s1.x[0] == 0 && s1.x[T0] == s.csr.mstatus && AtBlock(s, sh) == Tested(s1, T0, sh);
    hide Runs, Field, IfDirty, Closed, Tested, AtBlock, Csrs.Get, CsrsFit;
    CsrrRuns(b.w, T0, Mstatus, s);
    IfDirtyEffect(b.w, T0, sh, block, s1, t);
    RunsThen(b.w, [Csrr(T0, Mstatus)], IfDirty(T0, sh, block), s, s1, t);
  }

  lemma FpuStage(b: Build, s: State) returns (t: State)
    requires Ready(b, s) && FpuPart(b, s.csr.mstatus) <= s.x[SP] && s.x[SP] + 3 * b.w.W <= Cap(b.w.W) && b.fpu
    ensures Runs(b.w, SaveIfDirty(FS_OFFSET, SaveFpu(b)), s, t)
    ensures if Dirty(true, s.csr.mstatus, FS_OFFSET)
      then After(s, t, s.x[SP] - b.FpuSize(),
        Poke(s.mem, s.x[SP] - b.FpuSize() + 2 * b.w.W, FloatBlock(b, s.f, s.csr.fcsr)), s.csr)
      else After(s, t, s.x[SP], s.mem, s.csr)
  {
    hide Runs, Field, SaveFpu, FloatBlock, Poke, AtBlock, CsrsFit, Closed;
    AtBlockIs(b, s, FS_OFFSET);
    var s1 := AtBlock(s, FS_OFFSET);
    t := s1;
    if Field(s.csr.mstatus, FS_OFFSET) == 3 {
      FcsrFits(b, s1);
      SaveFpuEffect(b, s1);
      t := FloatsSaved(b, s1);
    } else {
      SaveFpuClosed(b, s);
    }
    SaveIfDirtyRuns(b, s, FS_OFFSET, SaveFpu(b), t);
  }

  /** Closedness does not depend on the stack pointer: take one with room. */
  lemma SaveFpuClosed(b: Build, s: State)
    requires Ready(b, s)
    ensures Closed(SaveFpu(b))
  {
    hide Runs, SaveFpu, Closed, CsrsFit;
    var roomy := s.(x := s.x[SP := 0x8000_0000]);
    FcsrFits(b, s);
    SaveFpuEffect(b, roomy);
    RunsClosed(b.w, SaveFpu(b), roomy, FloatsSaved(b, roomy));
  }

  lemma SaveVpuClosed(b: Build, s: State)
    requires Ready(b, s)
    ensures Closed(SaveVpu(b))
  {
    hide Runs, SaveVpu, Closed, CsrsFit;
    var roomy := s.(x := s.x[SP := 0x8000_0000]);
    SaveVpuEffect(b, roomy);
    RunsClosed(b.w, SaveVpu(b), roomy, VectorsSaved(b, roomy));
  }

  lemma FcsrFits(b: Build, s: State)
    requires Ready(b, s)
    ensures 0 <= s.csr.fcsr < Cap(b.w.W)
  {
    assert s.csr.Get(Fcsr) == s.csr.fcsr;
  }

  lemma RunsClosed(w: Widths, p: Program, s: State, t: State)
    requires Runs(w, p, s, t)
    ensures Closed(p)
  {
  }

  lemma VpuStage(b: Build, s: State) returns (t: State)
    requires Ready(b, s) && VpuPart(b, s.csr.mstatus) <= s.x[SP] && s.x[SP] + 3 * b.w.W <= Cap(b.w.W) && b.vpu
    ensures Runs(b.w, SaveIfDirty(VS_OFFSET, SaveVpu(b)), s, t)
    ensures if Dirty(true, s.csr.mstatus, VS_OFFSET)
      then After(s, t, s.x[SP] - b.VpuSize(), VectorMem(b, s, s.mem, s.x[SP] - b.VpuSize()), s.csr.(vstart := 0))
      else After(s, t, s.x[SP], s.mem, s.csr)
  {
    hide Runs, Field, SaveVpu, VectorMem, AtBlock, CsrsFit, Closed;
    AtBlockIs(b, s, VS_OFFSET);
    var s1 := AtBlock(s, VS_OFFSET);
    SameVectorMem(b, s, s1, s.mem, s.x[SP] - b.VpuSize());
    t := s1;
    if Field(s.csr.mstatus, VS_OFFSET) == 3 {
      SaveVpuEffect(b, s1);
      t := VectorsSaved(b, s1);
    } else {
      SaveVpuClosed(b, s);
    }
    SaveIfDirtyRuns(b, s, VS_OFFSET, SaveVpu(b), t);
  }

  /** The vector part depends on the vector registers and the CSRs alone. */
  lemma SameVectorMem(b: Build, s: State, t: State, mem: Memory, at: int)
    requires s.csr == t.csr && s.v == t.v
    ensures VectorMem(b, s, mem, at) == VectorMem(b, t, mem, at)
  {
    hide CsrBlock, Poke, From;
  }

  lemma CleanStage(b: Build, s: State, sh: nat, mask: int, clean: int) returns (t: State)
    requires Ready(b, s) && s.x[T0] == s.csr.mstatus && IsField(sh, mask, clean)
    ensures Runs(b.w, IfDirty(T0, sh, MarkClean(mask, clean)), s, t)
    ensures After(s, t, s.x[SP], s.mem, s.csr.(mstatus := Cleaned(s.csr.mstatus, sh))) && t.x[T0] == t.csr.mstatus
  {
    assert 0 <= s.csr.Get(Mstatus) < Cap(b.w.W);
    var s1 := Tested(s, T0, sh);
    if Field(s.x[T0], sh) == 3 {
      MarkCleanEffect(b.w, s1, sh, mask, clean);
      t := MarkedClean(s1, sh, clean);
    } else {
      t := s1;
      assert Closed(MarkClean(mask, clean));
    }
    hide Runs, Field, IfDirty, MarkClean, Closed, CsrsFit;
    IfDirtyEffect(b.w, T0, sh, MarkClean(mask, clean), s, t);
  }

  // ----- the whole of it -----

  // Where the stack pointer stands after each part.

  function IntsAt(b: Build, s: State): int
    requires Shaped(s)
  {
    s.x[SP] - b.ContextSize()
  }

  function FloatsAt(b: Build, s: State): int
    requires Shaped(s)
  {
    IntsAt(b, s) - FpuPart(b, s.csr.mstatus)
  }

  function FrameAt(b: Build, s: State): int
    requires Shaped(s)
  {
    FloatsAt(b, s) - VpuPart(b, s.csr.mstatus)
  }

  lemma FrameOrder(b: Build, s: State)
    requires Shaped(s)
    ensures FrameAt(b, s) + VpuPart(b, s.csr.mstatus) == FloatsAt(b, s)
    ensures FloatsAt(b, s) + FpuPart(b, s.csr.mstatus) == IntsAt(b, s)
    ensures IntsAt(b, s) + b.ContextSize() == s.x[SP]
    ensures FrameAt(b, s) <= FloatsAt(b, s) <= IntsAt(b, s)
  {
    hide Field;
  }

  // The stack after each part.

  function IntsMem(b: Build, s: State): Memory
    requires Shaped(s)
  {
    Poke(s.mem, IntsAt(b, s) + 2 * b.w.W, IntBlock(b, s.x, Word(s.mem, b.xCriticalNesting, b.w.W)))
  }

  function FloatsMem(b: Build, s: State): Memory
    requires Shaped(s)
  {
    if Dirty(b.fpu, s.csr.mstatus, FS_OFFSET)
    then Poke(IntsMem(b, s), FloatsAt(b, s) + 2 * b.w.W, FloatBlock(b, s.f, s.csr.fcsr))
    else IntsMem(b, s)
  }

  function PartsSaved(b: Build, s: State): Memory
    requires Shaped(s)
  {
    if Dirty(b.vpu, s.csr.mstatus, VS_OFFSET)
    then VectorMem(b, s, FloatsMem(b, s), FrameAt(b, s))
    else FloatsMem(b, s)
  }

  /** Room on the stack, and every variable the macros read lies outside the frame. */
  ghost predicate Fits(b: Build, s: State)
    requires Shaped(s)
  {
    var sp, lo := s.x[SP], FrameAt(b, s);
    && 0 <= lo && sp + 3 * b.w.W <= Cap(b.w.W)
    && Outside(b.xCriticalNesting, b.w.W, lo, sp)
    && Outside(b.pxCurrentTCB, b.w.W, lo, sp)
    && Outside(b.xISRStackTop, b.w.W, lo, sp)
    && Outside(Word(s.mem, b.pxCurrentTCB, b.w.W), b.w.W, lo, sp)
    && Outside(b.xISRStackTop, b.w.W, Word(s.mem, b.pxCurrentTCB, b.w.W), Word(s.mem, b.pxCurrentTCB, b.w.W) + b.w.W)
    && 0 <= Word(s.mem, b.pxCurrentTCB, b.w.W)
  }

  lemma IntStage(b: Build, s: State) returns (t: State)
    requires Ready(b, s) && Fits(b, s)
    ensures Runs(b.w, SaveInts(b), s, t) && Ready(b, t)
    ensures After(s, t, IntsAt(b, s), IntsMem(b, s), s.csr)
  {
    hide Runs, SaveInts, IntBlock, Poke, CsrsFit, Word, Field;
    SaveIntsEffect(b, s);
    t := IntsSaved(b, s);
  }

  lemma StackIsReady(b: Build, s: State, t: State, sp: int, mem: Memory, csr: Csrs)
    requires Ready(b, s) && After(s, t, sp, mem, csr) && CsrsFit(b.w, csr) && csr.vlenb == s.csr.vlenb
    ensures Ready(b, t)
  {
  }

  lemma MarkedStillFits(b: Build, c: Csrs, m: int)
    requires CsrsFit(b.w, c) && 0 <= m < Cap(b.w.W)
    ensures CsrsFit(b.w, c.(mstatus := m))
  {
    forall r: Csr ensures 0 <= c.(mstatus := m).Get(r) < Cap(b.w.W) {
      assert 0 <= c.Get(r) < Cap(b.w.W);
    }
  }

  /** The CSRs once the three parts are saved: storing the vector registers has reset vstart. */
  function PartsCsrs(b: Build, c: Csrs): Csrs {
    if Dirty(b.vpu, c.mstatus, VS_OFFSET) then c.(vstart := 0) else c
  }

  /** The CSRs after the whole save. */
  function SavedCsrs(b: Build, c: Csrs): Csrs {
    PartsCsrs(b, c).(mstatus := CleanedAll(b, c.mstatus))
  }

  lemma MstatusFits(b: Build, s: State)
    requires Ready(b, s)
    ensures 0 <= s.csr.mstatus < Cap(b.w.W) && 0 <= s.csr.mepc < Cap(b.w.W) && 0 <= s.csr.mcause < Cap(b.w.W)
  {
    assert 0 <= s.csr.Get(Mstatus) && 0 <= s.csr.Get(Mepc) && 0 <= s.csr.Get(Mcause);
  }

  function SaveThree(b: Build): Program {
    SaveInts(b)
    + When(b.fpu, SaveIfDirty(FS_OFFSET, SaveFpu(b)))
    + When(b.vpu, SaveIfDirty(VS_OFFSET, SaveVpu(b)))
  }

  /** The three parts one below the other. */
  lemma PartsStage(b: Build, s: State) returns (t: State)
    requires Ready(b, s) && Fits(b, s)
    ensures Runs(b.w, SaveThree(b), s, t)
    ensures After(s, t, FrameAt(b, s), PartsSaved(b, s), PartsCsrs(b, s.csr)) && Ready(b, t)
  {
    hide Runs, SaveInts, SaveIfDirty, SaveFpu, SaveVpu, IntBlock, FloatBlock, VectorMem, Poke, Field, CsrsFit, Word;
    CsrsStillFit(b.w, s.csr);
    MstatusFits(b, s);
    var s1 := IntStage(b, s);
    var s2 := s1;
    if b.fpu {
      s2 := FpuStage(b, s1);
      StackIsReady(b, s1, s2, s2.x[SP], s2.mem, s2.csr);
      RunsThen(b.w, SaveInts(b), SaveIfDirty(FS_OFFSET, SaveFpu(b)), s, s1, s2);
    } else {
      assert SaveInts(b) + [] == SaveInts(b);
    }
    t := s2;
    var p := SaveInts(b) + When(b.fpu, SaveIfDirty(FS_OFFSET, SaveFpu(b)));
    if b.vpu {
      t := VpuStage(b, s2);
      StackIsReady(b, s2, t, t.x[SP], t.mem, t.csr);
      SameVectorMem(b, s, s2, s2.mem, FrameAt(b, s));
      RunsThen(b.w, p, SaveIfDirty(VS_OFFSET, SaveVpu(b)), s, s2, t);
    } else {
      assert p + [] == p;
    }
  }

  /** The live mstatus after a save. */
  function CleanedAll(b: Build, m: int): int {
    var m1 := if b.fpu then Cleaned(m, FS_OFFSET) else m;
    if b.vpu then Cleaned(m1, VS_OFFSET) else m1
  }

  /** mstatus on the stack, in the word above the one kept for mepc. */
  lemma MstatusStage(b: Build, s: State) returns (t: State)
    requires Ready(b, s) && 0 <= s.x[SP] && s.x[SP] + 2 * b.w.W <= Cap(b.w.W)
    ensures Runs(b.w, [Csrr(T0, Mstatus), StoreX(T0, 1 * b.w.W, SP)], s, t) && Ready(b, t)
    ensures After(s, t, s.x[SP], Poke(s.mem, s.x[SP] + b.w.W, Encode(s.csr.mstatus, b.w.W)), s.csr)
    ensures t.x[T0] == t.csr.mstatus
  {
    MstatusFits(b, s);
    assert s.csr.Get(Mstatus) == s.csr.mstatus;
    hide Runs, Poke, Encode, CsrsFit, Csrs.Get;
    CsrToStack(b.w, Mstatus, 1 * b.w.W, s);
    t := s.(x := s.x[T0 := s.csr.mstatus], mem := Poke(s.mem, s.x[SP] + b.w.W, Encode(s.csr.mstatus, b.w.W)));
  }

  /** Both clean-markings touch only the live mstatus. */
  lemma CleanStages(b: Build, s: State, p: Program, s0: State) returns (t: State)
    requires Ready(b, s) && s.x[T0] == s.csr.mstatus && Runs(b.w, p, s0, s)
    ensures Runs(b.w, p + When(b.fpu, IfDirty(T0, FS_OFFSET, MarkClean(FS_MASK, FS_CLEAN)))
                        + When(b.vpu, IfDirty(T0, VS_OFFSET, MarkClean(VS_MASK, VS_CLEAN))), s0, t)
    ensures After(s, t, s.x[SP], s.mem, s.csr.(mstatus := CleanedAll(b, s.csr.mstatus))) && Ready(b, t)
  {
    hide Runs, IfDirty, MarkClean, Cleaned, CsrsFit;
    MstatusFits(b, s);
    var s1 := s;
    if b.fpu {
      s1 := CleanStage(b, s, FS_OFFSET, FS_MASK, FS_CLEAN);
      CleanedFits(b, s.csr.mstatus, FS_OFFSET);
      MarkedStillFits(b, s.csr, s1.csr.mstatus);
      StackIsReady(b, s, s1, s1.x[SP], s1.mem, s1.csr);
      RunsThen(b.w, p, IfDirty(T0, FS_OFFSET, MarkClean(FS_MASK, FS_CLEAN)), s0, s, s1);
    } else {
      assert p + [] == p;
    }
    var q := p + When(b.fpu, IfDirty(T0, FS_OFFSET, MarkClean(FS_MASK, FS_CLEAN)));
    t := s1;
    if b.vpu {
      t := CleanStage(b, s1, VS_OFFSET, VS_MASK, VS_CLEAN);
      MstatusFits(b, s1);
      CleanedFits(b, s1.csr.mstatus, VS_OFFSET);
      MarkedStillFits(b, s1.csr, t.csr.mstatus);
      StackIsReady(b, s1, t, t.x[SP], t.mem, t.csr);
      RunsThen(b.w, q, IfDirty(T0, VS_OFFSET, MarkClean(VS_MASK, VS_CLEAN)), s0, s1, t);
    } else {
      assert q + [] == q;
    }
  }

  lemma CleanedFits(b: Build, m: int, sh: nat)
    requires 0 <= m < Cap(b.w.W)
    ensures 0 <= Cleaned(m, sh) < Cap(b.w.W)
  {
    if Field(m, sh) == 3 {
      ShrAtLeast(m, sh);
    }
  }

  /** sp into the first word of the current task's control block. */
  lemma TcbStage(b: Build, s: State) returns (t: State)
    requires Ready(b, s) && 0 <= s.x[SP] < Cap(b.w.W)
    ensures Runs(b.w, [LoadSym(T0, b.pxCurrentTCB), StoreX(SP, 0, T0)], s, t) && Ready(b, t)
    ensures After(s, t, s.x[SP], Poke(s.mem, Word(s.mem, b.pxCurrentTCB, b.w.W), Encode(s.x[SP], b.w.W)), s.csr)
  {
    hide Runs, Poke, Encode, CsrsFit, Word;
    RunsTwo(b.w, LoadSym(T0, b.pxCurrentTCB), StoreX(SP, 0, T0), s);
    LoadSymStep(b.w, T0, b.pxCurrentTCB, s);
    var s1 := s.(x := s.x[T0 := Word(s.mem, b.pxCurrentTCB, b.w.W)]);
    StoreAtT0(b.w, s1);
    t := s1.(mem := Poke(s1.mem, s1.x[T0], Encode(s1.x[SP], b.w.W)));
  }

  lemma StoreAtT0(w: Widths, s: State)
    requires IsWidths(w) && Shaped(s) && exists m: Memory, a: int :: s.x[T0] == Word(m, a, w.W)
    ensures Step(w, StoreX(SP, 0, T0), s) == s.(mem := Poke(s.mem, s.x[T0], Encode(s.x[SP], w.W)))
  {
    hide Poke, Encode, Decode, Peek;
  }

  /** The memory portcontextSAVE_CONTEXT_INTERNAL leaves. */
  function InternalSaved(b: Build, s: State): Memory
    requires Shaped(s)
  {
    var sp := FrameAt(b, s);
    Poke(Poke(PartsSaved(b, s), sp + b.w.W, Encode(s.csr.mstatus, b.w.W)),
         Word(s.mem, b.pxCurrentTCB, b.w.W), Encode(sp, b.w.W))
  }

  /** Bytes outside the frame are as before until the control block is written. */
  lemma PartsStayInside(b: Build, s: State, a: int, n: nat)
    requires Ready(b, s) && 0 <= FrameAt(b, s)
    requires Outside(a, n, FrameAt(b, s), s.x[SP])
    ensures Peek(PartsSaved(b, s), a, n) == Peek(s.mem, a, n)
  {
    hide Poke, IntBlock, FloatBlock, VectorMem, Peek, Field, CsrsFit, Word;
    IntsStayInside(b, s, a, n);
    FloatsStayInside(b, s, a, n);
    if Dirty(b.vpu, s.csr.mstatus, VS_OFFSET) {
      VectorMemBeside(b, s, FloatsMem(b, s), FrameAt(b, s), a, n);
    }
  }

  lemma IntsStayInside(b: Build, s: State, a: int, n: nat)
    requires Ready(b, s) && Outside(a, n, IntsAt(b, s) + 2 * b.w.W, s.x[SP])
    ensures Peek(IntsMem(b, s), a, n) == Peek(s.mem, a, n)
  {
    hide Poke, IntBlock, Peek, CsrsFit, Word;
    IntBlockLength(b, s.x, Word(s.mem, b.xCriticalNesting, b.w.W));
    PeekBeside(s.mem, IntsAt(b, s) + 2 * b.w.W, IntBlock(b, s.x, Word(s.mem, b.xCriticalNesting, b.w.W)), a, n);
  }

  lemma FloatsStayInside(b: Build, s: State, a: int, n: nat)
    requires Ready(b, s) && Outside(a, n, FloatsAt(b, s) + 2 * b.w.W, s.x[SP])
    ensures Peek(FloatsMem(b, s), a, n) == Peek(IntsMem(b, s), a, n)
  {
    hide Poke, FloatBlock, Peek, CsrsFit, IntsMem, Field;
    if Dirty(b.fpu, s.csr.mstatus, FS_OFFSET) {
      FloatBlockLength(b, s.f, s.csr.fcsr);
      PeekBeside(IntsMem(b, s), FloatsAt(b, s) + 2 * b.w.W, FloatBlock(b, s.f, s.csr.fcsr), a, n);
    }
  }

  function SaveParts(b: Build): Program {
    SaveThree(b) + [Csrr(T0, Mstatus), StoreX(T0, 1 * b.w.W, SP)]
  }

  lemma SavePartsRuns(b: Build, s: State) returns (t: State)
    requires Ready(b, s) && Fits(b, s)
    ensures Runs(b.w, SaveParts(b), s, t) && Ready(b, t) && t.x[T0] == t.csr.mstatus
    ensures After(s, t, FrameAt(b, s),
      Poke(PartsSaved(b, s), FrameAt(b, s) + b.w.W, Encode(s.csr.mstatus, b.w.W)), PartsCsrs(b, s.csr))
  {
    hide Runs, PartsSaved, Poke, Encode, Field, CsrsFit, Word, Fits, FrameAt, SaveThree;
    FrameFits(b, s);
    var s1 := PartsStage(b, s);
    t := MstatusStage(b, s1);
    RunsThen(b.w, SaveThree(b), [Csrr(T0, Mstatus), StoreX(T0, 1 * b.w.W, SP)], s, s1, t);
  }

  lemma FrameFits(b: Build, s: State)
    requires IsWidths(b.w) && Shaped(s) && Fits(b, s)
    ensures 0 <= FrameAt(b, s) && FrameAt(b, s) + 2 * b.w.W <= Cap(b.w.W)
  {
    hide Field, Word;
  }

  lemma TcbVariableKept(b: Build, s: State)
    requires Ready(b, s) && Fits(b, s)
    ensures var mem := Poke(PartsSaved(b, s), FrameAt(b, s) + b.w.W, Encode(s.csr.mstatus, b.w.W));
      Word(mem, b.pxCurrentTCB, b.w.W) == Word(s.mem, b.pxCurrentTCB, b.w.W)
  {
    hide PartsSaved, Poke, Encode, Field, CsrsFit, Peek, Decode;
    PartsStayInside(b, s, b.pxCurrentTCB, b.w.W);
    PeekBeside(PartsSaved(b, s), FrameAt(b, s) + b.w.W, Encode(s.csr.mstatus, b.w.W), b.pxCurrentTCB, b.w.W);
  }

  function SaveAndMark(b: Build): Program {
    SaveParts(b) + When(b.fpu, IfDirty(T0, FS_OFFSET, MarkClean(FS_MASK, FS_CLEAN)))
                 + When(b.vpu, IfDirty(T0, VS_OFFSET, MarkClean(VS_MASK, VS_CLEAN)))
  }

  lemma SaveInternalIs(b: Build)
    ensures SaveInternal(b) == SaveAndMark(b) + [LoadSym(T0, b.pxCurrentTCB), StoreX(SP, 0, T0)]
  {
    hide IfDirty, MarkClean, SaveInts, SaveFpu, SaveVpu;
  }

  lemma SaveInternalRuns(b: Build, s: State) returns (t: State)
    requires Ready(b, s) && Fits(b, s)
    ensures Runs(b.w, SaveInternal(b), s, t) && Ready(b, t)
    ensures After(s, t, FrameAt(b, s), InternalSaved(b, s), SavedCsrs(b, s.csr))
  {
    hide Runs, PartsSaved, Poke, Encode, Field, CsrsFit, Peek, Word, SaveInternal, SaveParts, CleanedAll, FrameAt, Fits;
    hide IfDirty, MarkClean, When;
    SaveInternalIs(b);
    TcbVariableKept(b, s);
    FrameFits(b, s);
    var s2 := SavePartsRuns(b, s);
    var s3 := CleanStages(b, s2, SaveParts(b), s);
    t := TcbStage(b, s3);
    RunsThen(b.w, SaveAndMark(b), [LoadSym(T0, b.pxCurrentTCB), StoreX(SP, 0, T0)], s, s3, t);
  }
}
