/** A restore after a save: which tasks come back as they were, and when. */
module Resuming {
  import opened Hart
  import opened PortContext
  import opened ContextSteps
  import opened ContextSave
  import opened MarkingClean
  import opened SaveContext
  import opened Frames
  import opened Restores

  function ResumedCsrs(b: Build, now: Csrs, then_: Csrs, pc: int): Csrs {
    var c := now.(mepc := pc, mstatus := then_.mstatus);
    var d := if Dirty(b.vpu, then_.mstatus, VS_OFFSET) then VectorCsrsFrom(c, then_).(vstart := then_.vstart) else c;
    if Dirty(b.fpu, then_.mstatus, FS_OFFSET) then d.(fcsr := then_.fcsr) else d
  }

  /** t is the task of s back on the hart: its integer registers and stack pointer, where to resume,
      its mstatus, its nesting count in the variable, and each unit that was dirty. */
  ghost predicate Resumed(b: Build, u: State, s: State, pc: int, nest: int, t: State)
    requires Shaped(u) && Shaped(s)
  {
    && Shaped(t) && t.x[0] == 0 && t.x[SP] == s.x[SP]
    && (forall r: Reg :: r == 1 || 5 <= r < (if b.rv32e then 16 else 32) ==> t.x[r] == s.x[r])
    && t.f == (if Dirty(b.fpu, s.csr.mstatus, FS_OFFSET) then s.f else u.f)
    && t.v == (if Dirty(b.vpu, s.csr.mstatus, VS_OFFSET) then s.v else u.v)
    && t.csr == ResumedCsrs(b, u.csr, s.csr, pc)
    && t.mem == Poke(u.mem, Word(u.mem, b.pxCriticalNesting, b.w.W), Encode(nest, b.w.W))
  }

  /** s with vstart reset, if the vector unit is restored. */
  function Cleared(b: Build, s: State): State {
    if Dirty(b.vpu, s.csr.mstatus, VS_OFFSET) then s.(csr := s.csr.(vstart := 0)) else s
  }

  /** The hart is in u and the current task's control block leads to a frame of s. */
  ghost predicate Resumable(b: Build, u: State, s: State, pc: int, nest: int) {
    && IsWidths(b.w) && IsState(b.w, s) && IsState(b.w, u)
    && 0 <= pc < Cap(b.w.W) && 0 <= nest < Cap(b.w.W)
    && 0 <= FrameAt(b, s) && s.x[SP] + 3 * b.w.W <= Cap(b.w.W)
    && Frame(b, u.mem, s, pc, nest)
    && Peek(u.mem, Word(u.mem, b.pxCurrentTCB, b.w.W), b.w.W) == Encode(FrameAt(b, s), b.w.W)
    && Outside(Word(u.mem, b.pxCriticalNesting, b.w.W), b.w.W, FrameAt(b, s), s.x[SP])
  }

  lemma IntBlockSplit(b: Build, m: Memory, a: int, x: seq<int>, nest: int)
    requires IsWidths(b.w) && |x| == 32 && Peek(m, a + 2 * b.w.W, |IntBlock(b, x, nest)|) == IntBlock(b, x, nest)
    ensures var bs := EncodeAll(Values(x, b.IntRegs()), b.w.W); Peek(m, a + 2 * b.w.W, |bs|) == bs
    ensures Peek(m, a + b.NestOffset(), b.w.W) == Encode(nest, b.w.W)
  {
    hide Peek, Encode, EncodeAll, Values, Build.IntRegs;
    IntBlockLength(b, x, nest);
    PeekFront(m, a + 2 * b.w.W, EncodeAll(Values(x, b.IntRegs()), b.w.W), Encode(nest, b.w.W));
  }

  // ----- the vector and float parts, with or without the unit -----

  lemma VpuBack(b: Build, p: Program, u0: State, u: State, s: State) returns (t: State)
    requires Runs(b.w, p, u0, u) && Restoring(b, u, s) && u.x[SP] + VpuPart(b, s.csr.mstatus) + 2 * b.w.W < Cap(b.w.W)
    requires Dirty(b.vpu, s.csr.mstatus, VS_OFFSET) ==>
      Peek(u.mem, u.x[SP] + 2 * b.w.W, |VectorBlock(b, s)|) == VectorBlock(b, s)
    ensures Runs(b.w, p + When(b.vpu, IfDirty(T3, VS_OFFSET, RestoreVpu(b))), u0, t)
    ensures if Dirty(b.vpu, s.csr.mstatus, VS_OFFSET)
      then Now(u, t, u.x[SP] + VpuPart(b, s.csr.mstatus), u.f, s.v, VectorCsrsFrom(u.csr, s.csr))
      else Now(u, t, u.x[SP] + VpuPart(b, s.csr.mstatus), u.f, u.v, u.csr)
  {
    hide Runs, Field, RestoreVpu, VectorBlock, Peek, CsrsFit, IfDirty;
    if b.vpu {
      t := RestoreVpuStage(b, u, s);
      RunsThen(b.w, p, IfDirty(T3, VS_OFFSET, RestoreVpu(b)), u0, u, t);
    } else {
      assert p + [] == p;
      t := u;
    }
  }

  lemma FpuBack(b: Build, p: Program, u0: State, u: State, s: State) returns (t: State)
    requires Runs(b.w, p, u0, u) && Restoring(b, u, s) && u.x[SP] + FpuPart(b, s.csr.mstatus) + 3 * b.w.W <= Cap(b.w.W)
    requires Dirty(b.fpu, s.csr.mstatus, FS_OFFSET) ==>
      Peek(u.mem, u.x[SP] + 2 * b.w.W, |FloatBlock(b, s.f, s.csr.fcsr)|) == FloatBlock(b, s.f, s.csr.fcsr)
    ensures Runs(b.w, p + When(b.fpu, IfDirty(T3, FS_OFFSET, RestoreFpu(b))), u0, t)
    ensures if Dirty(b.fpu, s.csr.mstatus, FS_OFFSET)
      then Now(u, t, u.x[SP] + FpuPart(b, s.csr.mstatus), s.f, u.v, u.csr.(fcsr := s.csr.fcsr))
      else Now(u, t, u.x[SP] + FpuPart(b, s.csr.mstatus), u.f, u.v, u.csr)
  {
    hide Runs, Field, RestoreFpu, FloatBlock, Peek, CsrsFit, IfDirty;
    if b.fpu {
      t := RestoreFpuStage(b, u, s);
      RunsThen(b.w, p, IfDirty(T3, FS_OFFSET, RestoreFpu(b)), u0, u, t);
    } else {
      assert p + [] == p;
      t := u;
    }
  }

  // ----- the whole restore -----

  function RestoreUnits(b: Build): Program {
    Enter(b)
    + When(b.vpu, IfDirty(T3, VS_OFFSET, RestoreVpu(b)))
    + When(b.fpu, IfDirty(T3, FS_OFFSET, RestoreFpu(b)))
  }

  /** Everything but the integer part: the stack pointer now stands at the integer part. */
  ghost predicate UnitsBack(b: Build, u: State, s: State, pc: int, t: State)
    requires Shaped(u) && Shaped(s)
  {
    && Shaped(t) && t.x[0] == 0 && t.x[SP] == IntsAt(b, s) && t.mem == u.mem
    && t.f == (if Dirty(b.fpu, s.csr.mstatus, FS_OFFSET) then s.f else u.f)
    && t.v == (if Dirty(b.vpu, s.csr.mstatus, VS_OFFSET) then s.v else u.v)
    && t.csr == ResumedCsrs(b, u.csr, Cleared(b, s).csr, pc)
  }

  lemma EnterFrame(b: Build, u: State, s: State, pc: int, nest: int) returns (t: State)
    requires Resumable(b, u, s, pc, nest)
    ensures Runs(b.w, Enter(b), u, t) && Restoring(b, t, s) && t.x[SP] == FrameAt(b, s)
    ensures t == u.(x := t.x, csr := u.csr.(mepc := pc, mstatus := s.csr.mstatus))
  {
    hide Runs, Enter, Peek, Encode, Word, FrameAt, FloatsAt, IntsAt, VectorBlock, FloatBlock, IntBlock, Csrs.Get, Dirty;
    FrameOrder(b, s);
    StateIsReady(b, s);
    MstatusInRange(b, s);
    t := EnterRuns(b, u, FrameAt(b, s), pc, s.csr.mstatus);
  }

  lemma UnitsRun(b: Build, u: State, s: State, pc: int, nest: int) returns (t: State)
    requires Resumable(b, u, s, pc, nest)
    ensures Runs(b.w, RestoreUnits(b), u, t) && UnitsBack(b, u, s, pc, t)
  {
    hide Runs, Enter, Peek, Encode, Word, FrameAt, FloatsAt, IntsAt, VectorBlock, FloatBlock, IntBlock, Csrs.Get, Field;
    hide RestoreVpu, RestoreFpu, IfDirty, When, CsrsFit, FpuPart, VpuPart;
    FrameOrder(b, s);
    var u1 := EnterFrame(b, u, s, pc, nest);
    var u2 := VpuBack(b, Enter(b), u, u1, s);
    t := FpuBack(b, Enter(b) + When(b.vpu, IfDirty(T3, VS_OFFSET, RestoreVpu(b))), u, u2, s);
  }

  lemma IntsRun(b: Build, u: State, s: State, nest: int) returns (t: State)
    requires IsWidths(b.w) && Shaped(u) && IsState(b.w, s) && 0 <= nest < Cap(b.w.W)
    requires u.x[SP] == IntsAt(b, s) && 0 <= u.x[SP] && s.x[SP] + 3 * b.w.W <= Cap(b.w.W)
    requires Peek(u.mem, u.x[SP] + 2 * b.w.W, |IntBlock(b, s.x, nest)|) == IntBlock(b, s.x, nest)
    requires Outside(Word(u.mem, b.pxCriticalNesting, b.w.W), b.w.W, IntsAt(b, s), s.x[SP])
    ensures Runs(b.w, RestoreNest(b) + RestoreInts(b), u, t)
    ensures Shaped(t) && t.x[0] == u.x[0] && t.x[SP] == s.x[SP]
    ensures forall r: Reg :: r in b.IntRegs() ==> t.x[r] == s.x[r]
    ensures t == u.(x := t.x, mem := Poke(u.mem, Word(u.mem, b.pxCriticalNesting, b.w.W), Encode(nest, b.w.W)))
  {
    hide Runs, RestoreNest, RestoreInts, Peek, Poke, Encode, Word, Csrs.Get, EncodeAll, Values, Build.IntRegs, IntBlock;
    var bs, cell := EncodeAll(Values(s.x, b.IntRegs()), b.w.W), Word(u.mem, b.pxCriticalNesting, b.w.W);
    IntBlockLength(b, s.x, nest);
    IntBlockSplit(b, u.mem, u.x[SP], s.x, nest);
    var u1 := RestoreNestRuns(b, u, nest);
    PeekOtherCell(u.mem, cell, Encode(nest, b.w.W), u.x[SP] + 2 * b.w.W, |bs|);
    t := RestoreIntsRuns(b, u1, s.x);
    RunsThen(b.w, RestoreNest(b), RestoreInts(b), u, u1, t);
  }

  lemma RestoreIs(b: Build)
    ensures Restore(b) == RestoreUnits(b) + (RestoreNest(b) + RestoreInts(b))
  {
    hide Loads, RestoreVpu, RestoreFpu, IfDirty, When, Build.IntRegs;
  }

  lemma RestoreRuns(b: Build, u: State, s: State, pc: int, nest: int) returns (t: State)
    requires Resumable(b, u, s, pc, nest)
    ensures Runs(b.w, Restore(b), u, t) && Resumed(b, u, Cleared(b, s), pc, nest, t)
  {
    hide Runs, RestoreNest, RestoreInts, RestoreUnits, Restore, Peek, Poke, Encode, Word, Csrs.Get, Build.IntRegs;
    hide IntBlock, FloatBlock, VectorBlock, FrameAt, FloatsAt, IntsAt, ResumedCsrs, Dirty;
    FrameOrder(b, s);
    var u1 := UnitsRun(b, u, s, pc, nest);
    t := IntsRun(b, u1, s, nest);
    IntRegsAre(b);
    RestoreIs(b);
    RunsThen(b.w, RestoreUnits(b), RestoreNest(b) + RestoreInts(b), u, u1, t);
  }
}
