/** The frame a save leaves on the task's stack. */
module Frames {
  import opened Hart
  import opened PortContext
  import opened ContextSteps
  import opened ContextSave
  import opened MarkingClean
  import opened SaveContext

  /** mem holds the whole context of s below s's stack pointer, with pc to resume at. */
  ghost predicate Frame(b: Build, mem: Memory, s: State, pc: int, nest: int)
    requires Shaped(s)
  {
    var w, at, m := b.w, FrameAt(b, s), s.csr.mstatus;
    && Peek(mem, at, w.W) == Encode(pc, w.W)
    && Peek(mem, at + w.W, w.W) == Encode(m, w.W)
    && (Dirty(b.vpu, m, VS_OFFSET) ==> Peek(mem, at + 2 * w.W, |VectorBlock(b, s)|) == VectorBlock(b, s))
    && (Dirty(b.fpu, m, FS_OFFSET) ==>
        Peek(mem, FloatsAt(b, s) + 2 * w.W, |FloatBlock(b, s.f, s.csr.fcsr)|) == FloatBlock(b, s.f, s.csr.fcsr))
    && Peek(mem, IntsAt(b, s) + 2 * w.W, |IntBlock(b, s.x, nest)|) == IntBlock(b, s.x, nest)
  }

  /** The memory after the whole save. */
  function Saved(b: Build, s: State, pc: int): Memory
    requires Shaped(s)
  {
    Poke(InternalSaved(b, s), FrameAt(b, s), Encode(pc, b.w.W))
  }

  /** The floating-point part stays clear of the integer part. It does not when a word is wider
      than a floating-point register, because fcsr is stored as a word. */
  predicate PartsDisjoint(b: Build, m: int) {
    b.w.W <= b.w.F || !Dirty(b.fpu, m, FS_OFFSET)
  }

  lemma PeekOtherCell(m: Memory, a: int, bs: seq<int>, c: int, n: nat)
    requires Outside(c, n, a, a + |bs|)
    ensures Peek(Poke(m, a, bs), c, n) == Peek(m, c, n)
  {
    PeekBeside(m, a, bs, c, n);
  }

  lemma IntsSurvive(b: Build, s: State, nest: int)
    requires Ready(b, s) && nest == Word(s.mem, b.xCriticalNesting, b.w.W) && PartsDisjoint(b, s.csr.mstatus)
    ensures Peek(PartsSaved(b, s), IntsAt(b, s) + 2 * b.w.W, |IntBlock(b, s.x, nest)|) == IntBlock(b, s.x, nest)
  {
    hide Poke, Peek, IntBlock, FloatBlock, VectorMem, Field, Word, CsrsFit;
    var at, bs := IntsAt(b, s) + 2 * b.w.W, IntBlock(b, s.x, nest);
    PeekPoked(s.mem, at, bs);
    FloatBlockLength(b, s.f, s.csr.fcsr);
    if Dirty(b.fpu, s.csr.mstatus, FS_OFFSET) {
      PeekOtherCell(IntsMem(b, s), FloatsAt(b, s) + 2 * b.w.W, FloatBlock(b, s.f, s.csr.fcsr), at, |bs|);
    }
    if Dirty(b.vpu, s.csr.mstatus, VS_OFFSET) {
      VectorMemBeside(b, s, FloatsMem(b, s), FrameAt(b, s), at, |bs|);
    }
  }

  lemma FloatsSurvive(b: Build, s: State)
    requires Ready(b, s) && Dirty(b.fpu, s.csr.mstatus, FS_OFFSET)
    ensures var bs := FloatBlock(b, s.f, s.csr.fcsr);
      Peek(PartsSaved(b, s), FloatsAt(b, s) + 2 * b.w.W, |bs|) == bs
  {
    hide Poke, Peek, FloatBlock, VectorMem, Field, IntsMem, CsrsFit;
    var at, bs := FloatsAt(b, s) + 2 * b.w.W, FloatBlock(b, s.f, s.csr.fcsr);
    PeekPoked(IntsMem(b, s), at, bs);
    if Dirty(b.vpu, s.csr.mstatus, VS_OFFSET) {
      VectorMemBeside(b, s, FloatsMem(b, s), FrameAt(b, s), at, |bs|);
    }
  }

  /** What the vector registers read as in the frame. */
  function FrameVector(b: Build, s: State): seq<int>
    requires Shaped(s)
  {
    SavedVector(b, s, s.mem, FrameAt(b, s))
  }

  /** The vector part, in memory the save has not touched before. */
  lemma VectorsSurvive(b: Build, s: State)
    requires Ready(b, s) && 0 <= FrameAt(b, s) && Dirty(b.vpu, s.csr.mstatus, VS_OFFSET)
    ensures Peek(PartsSaved(b, s), FrameAt(b, s) + 2 * b.w.W, b.VpuSize())
         == CsrBlock(b.w, s.csr.(vstart := 0)) + FrameVector(b, s)
  {
    hide Poke, Peek, VectorMem, Field, CsrsFit, CsrBlock, Tail, IntBlock, FloatBlock, Word;
    VectorMemHolds(b, s, FloatsMem(b, s), FrameAt(b, s));
    IntsStayInside(b, s, UpperAt(b, FrameAt(b, s)), 8 * b.w.vlen);
    FloatsStayInside(b, s, UpperAt(b, FrameAt(b, s)), 8 * b.w.vlen);
  }

  /** What a cell of the frame above its two lowest words holds after the last three stores. */
  lemma LastStores(b: Build, s: State, pc: int, a: int, n: nat)
    requires Ready(b, s) && Fits(b, s)
    requires FrameAt(b, s) + 2 * b.w.W <= a && a + n <= s.x[SP]
    ensures Peek(Saved(b, s, pc), a, n) == Peek(PartsSaved(b, s), a, n)
  {
    hide Poke, Peek, Field, PartsSaved, CsrsFit, Encode, Word;
    var w, at := b.w, FrameAt(b, s);
    var m1 := Poke(PartsSaved(b, s), at + w.W, Encode(s.csr.mstatus, w.W));
    PeekOtherCell(PartsSaved(b, s), at + w.W, Encode(s.csr.mstatus, w.W), a, n);
    PeekOtherCell(m1, Word(s.mem, b.pxCurrentTCB, w.W), Encode(at, w.W), a, n);
    PeekOtherCell(InternalSaved(b, s), at, Encode(pc, w.W), a, n);
  }

  lemma LowestWords(b: Build, s: State, pc: int)
    requires Ready(b, s) && Fits(b, s)
    ensures Peek(Saved(b, s, pc), FrameAt(b, s), b.w.W) == Encode(pc, b.w.W)
    ensures Peek(Saved(b, s, pc), FrameAt(b, s) + b.w.W, b.w.W) == Encode(s.csr.mstatus, b.w.W)
    ensures Peek(Saved(b, s, pc), Word(s.mem, b.pxCurrentTCB, b.w.W), b.w.W) == Encode(FrameAt(b, s), b.w.W)
  {
    hide Poke, Peek, Field, PartsSaved, CsrsFit, Encode, Word;
    var w, at, tcb := b.w, FrameAt(b, s), Word(s.mem, b.pxCurrentTCB, b.w.W);
    var m1 := Poke(PartsSaved(b, s), at + w.W, Encode(s.csr.mstatus, w.W));
    PeekPoked(PartsSaved(b, s), at + w.W, Encode(s.csr.mstatus, w.W));
    PeekOtherCell(m1, tcb, Encode(at, w.W), at + w.W, w.W);
    PeekPoked(m1, tcb, Encode(at, w.W));
    PeekOtherCell(InternalSaved(b, s), at, Encode(pc, w.W), at + w.W, w.W);
    PeekOtherCell(InternalSaved(b, s), at, Encode(pc, w.W), tcb, w.W);
    PeekPoked(InternalSaved(b, s), at, Encode(pc, w.W));
  }

  lemma FloatsInFrame(b: Build, s: State, pc: int)
    requires Ready(b, s) && Fits(b, s) && Dirty(b.fpu, s.csr.mstatus, FS_OFFSET)
    ensures var bs := FloatBlock(b, s.f, s.csr.fcsr);
      Peek(Saved(b, s, pc), FloatsAt(b, s) + 2 * b.w.W, |bs|) == bs
  {
    hide Poke, Peek, Field, PartsSaved, CsrsFit, FloatBlock, Saved, Fits;
    FloatBlockLength(b, s.f, s.csr.fcsr);
    FloatsSurvive(b, s);
    LastStores(b, s, pc, FloatsAt(b, s) + 2 * b.w.W, |FloatBlock(b, s.f, s.csr.fcsr)|);
  }

  lemma VectorsInFrame(b: Build, s: State, pc: int)
    requires Ready(b, s) && Fits(b, s) && Dirty(b.vpu, s.csr.mstatus, VS_OFFSET)
    ensures Peek(Saved(b, s, pc), FrameAt(b, s) + 2 * b.w.W, b.VpuSize())
         == CsrBlock(b.w, s.csr.(vstart := 0)) + FrameVector(b, s)
  {
    hide Poke, Peek, Field, PartsSaved, CsrsFit, CsrBlock, FrameVector, Saved, Word;
    VectorsSurvive(b, s);
    LastStores(b, s, pc, FrameAt(b, s) + 2 * b.w.W, b.VpuSize());
  }

  /** A save writes only the frame and the first word of the control block. */
  lemma SavedElsewhere(b: Build, s: State, pc: int, a: int, n: nat)
    requires Ready(b, s) && Fits(b, s)
    requires Outside(a, n, FrameAt(b, s), s.x[SP])
    requires Outside(a, n, Word(s.mem, b.pxCurrentTCB, b.w.W), Word(s.mem, b.pxCurrentTCB, b.w.W) + b.w.W)
    ensures Peek(Saved(b, s, pc), a, n) == Peek(s.mem, a, n)
  {
    hide Poke, Peek, Field, PartsSaved, CsrsFit, Encode, Word;
    var w, at, tcb := b.w, FrameAt(b, s), Word(s.mem, b.pxCurrentTCB, b.w.W);
    PartsStayInside(b, s, a, n);
    var m1 := Poke(PartsSaved(b, s), at + w.W, Encode(s.csr.mstatus, w.W));
    PeekOtherCell(PartsSaved(b, s), at + w.W, Encode(s.csr.mstatus, w.W), a, n);
    PeekOtherCell(m1, tcb, Encode(at, w.W), a, n);
    PeekOtherCell(InternalSaved(b, s), at, Encode(pc, w.W), a, n);
  }

  // ----- the two save macros -----

  /** What the kernel sees after a save: the context on the task's stack, the ISR stack in sp,
      the cause and the resume address in a0 and a1, and no dirty unit. */
  ghost predicate SavedState(b: Build, s: State, pc: int, t: State)
    requires Shaped(s)
  {
    && Ready(b, t)
    && t.mem == Saved(b, s, pc)
    && t.x[SP] == Word(s.mem, b.xISRStackTop, b.w.W) && t.x[A0] == s.csr.mcause && t.x[A1] == pc
    && t.f == s.f && t.v == s.v && t.csr == SavedCsrs(b, s.csr)
  }

  /** The address a task resumes at: an exception skips the instruction that raised it. */
  function ResumeAt(b: Build, s: State, exception: bool): int {
    if exception then Trunc(s.csr.mepc + 4, b.w.W) else s.csr.mepc
  }

  lemma ResumeIs(b: Build, s: State, exception: bool)
    requires IsWidths(b.w)
    ensures ResumeAt(b, s, exception) == if exception then (s.csr.mepc + 4) % Cap(b.w.W) else s.csr.mepc
  {
  }

  function SaveProgram(b: Build, exception: bool): Program {
    if exception then SaveException(b) else SaveInterrupt(b)
  }

  function Causes(exception: bool): Program {
    if exception then [Csrr(A0, Mcause), Csrr(A1, Mepc), Addi(A1, A1, 4)] else [Csrr(A0, Mcause), Csrr(A1, Mepc)]
  }

  function LastTwo(b: Build): Program {
    [StoreX(A1, 0, SP), LoadSym(SP, b.xISRStackTop)]
  }

  lemma CausesRun(b: Build, s: State, exception: bool) returns (t: State)
    requires Ready(b, s)
    ensures Runs(b.w, Causes(exception), s, t)
    ensures t == s.(x := s.x[A0 := s.csr.mcause][A1 := ResumeAt(b, s, exception)])
  {
    MstatusFits(b, s);
    assert s.csr.Get(Mcause) == s.csr.mcause && s.csr.Get(Mepc) == s.csr.mepc;
    hide CsrsFit, Csrs.Get;
    RunsTwo(b.w, Csrr(A0, Mcause), Csrr(A1, Mepc), s);
    CsrrStep(b.w, A0, Mcause, s);
    var s1 := s.(x := s.x[A0 := s.csr.mcause]);
    CsrrStep(b.w, A1, Mepc, s1);
    t := s1.(x := s1.x[A1 := s.csr.mepc]);
    if exception {
      AddFour(b.w, t);
      var u := t.(x := t.x[A1 := Trunc(s.csr.mepc + 4, b.w.W)]);
      hide Runs, Step, Trunc;
      RunsThen(b.w, [Csrr(A0, Mcause), Csrr(A1, Mepc)], [Addi(A1, A1, 4)], s, t, u);
      assert Causes(true) == [Csrr(A0, Mcause), Csrr(A1, Mepc)] + [Addi(A1, A1, 4)];
      t := u;
      assert t.x == s.x[A0 := s.csr.mcause][A1 := ResumeAt(b, s, exception)];
    }
  }

  lemma AddFour(w: Widths, s: State)
    requires IsWidths(w) && Shaped(s)
    ensures Runs(w, [Addi(A1, A1, 4)], s, s.(x := s.x[A1 := Trunc(s.x[A1] + 4, w.W)]))
  {
    RunsOne(w, Addi(A1, A1, 4), s);
    hide Runs;
  }

  lemma LastTwoRun(b: Build, s: State) returns (t: State)
    requires Ready(b, s) && 0 <= s.x[SP] < Cap(b.w.W)
    ensures Runs(b.w, LastTwo(b), s, t)
    ensures var mem := Poke(s.mem, s.x[SP], Encode(s.x[A1], b.w.W));
      t == s.(x := s.x[SP := Word(mem, b.xISRStackTop, b.w.W)], mem := mem)
  {
    hide Runs, Step, Poke, Encode, Word, CsrsFit;
    RunsTwo(b.w, StoreX(A1, 0, SP), LoadSym(SP, b.xISRStackTop), s);
    StoreXStep(b.w, A1, 0, s);
    var s1 := s.(mem := Poke(s.mem, s.x[SP], Encode(s.x[A1], b.w.W)));
    LoadSymStep(b.w, SP, b.xISRStackTop, s1);
    t := s1.(x := s1.x[SP := Word(s1.mem, b.xISRStackTop, b.w.W)]);
  }

  lemma SaveReaches(b: Build, s: State, exception: bool) returns (t: State)
    requires Ready(b, s) && Fits(b, s)
    ensures Runs(b.w, SaveProgram(b, exception), s, t)
    ensures SavedState(b, s, ResumeAt(b, s, exception), t)
  {
    hide Runs, Poke, Encode, Word, CsrsFit, InternalSaved, CleanedAll, SaveInternal, Causes, LastTwo;
    hide SaveProgram, Fits, FrameAt;
    SaveProgramIs(b, exception);
    FrameFits(b, s);
    IsrStackTopKept(b, s, ResumeAt(b, s, exception));
    var s1 := SaveInternalRuns(b, s);
    var s2 := CausesRun(b, s1, exception);
    RunsThen(b.w, SaveInternal(b), Causes(exception), s, s1, s2);
    StillReady(b, s1, s2);
    t := LastTwoRun(b, s2);
    RunsThen(b.w, SaveInternal(b) + Causes(exception), LastTwo(b), s, s2, t);
    StillReady(b, s2, t);
  }

  /** Both save macros: a task resumes behind the instruction that trapped, or at the one interrupted. */
  lemma SaveRuns(b: Build, s: State, exception: bool) returns (t: State)
    requires Ready(b, s) && Fits(b, s)
    ensures Runs(b.w, SaveProgram(b, exception), s, t)
    ensures SavedState(b, s, if exception then (s.csr.mepc + 4) % Cap(b.w.W) else s.csr.mepc, t)
  {
    ResumeIs(b, s, exception);
    t := SaveReaches(b, s, exception);
    hide SavedState, Runs;
  }

  lemma SaveProgramIs(b: Build, exception: bool)
    ensures SaveProgram(b, exception) == SaveInternal(b) + Causes(exception) + LastTwo(b)
  {
    hide SaveInternal;
  }

  lemma IsrStackTopKept(b: Build, s: State, pc: int)
    requires Ready(b, s) && Fits(b, s)
    ensures Word(Saved(b, s, pc), b.xISRStackTop, b.w.W) == Word(s.mem, b.xISRStackTop, b.w.W)
  {
    hide Peek, Decode, Saved, CsrsFit, Field, FrameAt;
    SavedElsewhere(b, s, pc, b.xISRStackTop, b.w.W);
  }

  lemma StillReady(b: Build, s: State, t: State)
    requires Ready(b, s) && Shaped(t) && t.x[0] == s.x[0] && t.csr == s.csr && t.v == s.v
    ensures Ready(b, t)
  {
    hide CsrsFit;
  }
}
