/** A context switch on the machine itself, and exactly which contexts survive one. */
module Switching {
  import opened Arith
  import opened Hart
  import opened PortContext
  import opened ContextSteps
  import opened ContextSave
  import opened MarkingClean
  import opened SaveContext
  import opened Frames
  import opened Overlaps
  import opened Restores
  import opened Resuming
  import opened Tasks

  /** After a save neither unit reads dirty on the hart. */
  lemma NoUnitDirty(b: Build, m: int)
    requires 0 <= m < Cap(b.w.W)
    ensures !Dirty(b.fpu, CleanedAll(b, m), FS_OFFSET) && !Dirty(b.vpu, CleanedAll(b, m), VS_OFFSET)
  {
    hide Field, Cleaned;
    var m1 := if b.fpu then Cleaned(m, FS_OFFSET) else m;
    if b.fpu {
      CleanedFields(m, FS_OFFSET, VS_OFFSET);
      CleanedFits(b, m, FS_OFFSET);
    }
    if b.vpu {
      CleanedFields(m1, VS_OFFSET, FS_OFFSET);
    }
  }

  /** But the frame keeps the mstatus from before the marking: a restored task reads a unit dirty exactly when it
      did at its save, so its next save stores the unit again. */
  lemma DirtyAgain(b: Build, u: State, s: State, pc: int, nest: int, t: State)
    requires Shaped(u) && Shaped(s) && Resumed(b, u, s, pc, nest, t)
    ensures t.csr.mstatus == s.csr.mstatus
    ensures Dirty(b.fpu, t.csr.mstatus, FS_OFFSET) <==> Dirty(b.fpu, s.csr.mstatus, FS_OFFSET)
    ensures Dirty(b.vpu, t.csr.mstatus, VS_OFFSET) <==> Dirty(b.vpu, s.csr.mstatus, VS_OFFSET)
    ensures FrameAt(b, t) == FrameAt(b, s)
  {
    hide Field, Poke;
  }

  /** The floating-point part keeps clear of x1, or the half of x1 it runs into is zero. */
  predicate IntsSafe(b: Build, s: State)
    requires Shaped(s)
  {
    PartsDisjoint(b, s.csr.mstatus) || s.x[1] % 0x1_0000_0000 == 0
  }

  /** The vector unit is not saved, or no vector instruction was under way. */
  predicate VectorsSafe(b: Build, s: State) {
    !Dirty(b.vpu, s.csr.mstatus, VS_OFFSET) || s.csr.vstart == 0
  }

  /** A restored task is the one that was saved exactly when its floating-point part kept clear of x1, or
      the half of x1 it ran into was zero, and vstart was 0 if its vector registers were stored. */
  lemma ComesBackIff(b: Build, u: State, s: State, pc: int, nest: int, t: State)
    requires IsWidths(b.w) && IsState(b.w, s) && Shaped(u) && Resumed(b, u, AsSaved(b, s), pc, nest, t)
    ensures Resumed(b, u, s, pc, nest, t) <==> IntsSafe(b, s) && VectorsSafe(b, s)
  {
    hide Poke, Encode, Word, Csrs.Get, Field, FrameVector, High;
    assert t.x[1] == IntsAsSaved(b, s)[1];
    HighIff(s.x[1]);
    assert forall r: Reg :: r != 1 ==> IntsAsSaved(b, s)[r] == s.x[r];
    if VectorsSafe(b, s) {
      NothingSkipped(b, s);
    }
  }

  lemma NothingSkipped(b: Build, s: State)
    requires Shaped(s) && |s.v| == 32 * b.w.vlen && VectorsSafe(b, s)
    ensures AsSaved(b, s) == s.(x := IntsAsSaved(b, s))
  {
    hide Field, SavedVector, IntsAsSaved;
    SavedVectorIs(b, s, s.mem, FrameAt(b, s));
  }

  lemma HighIff(v: int)
    ensures High(v) == v <==> v % 0x1_0000_0000 == 0
  {
  }

  /** What a save with vstart not 0 keeps of the vector unit: vstart reads 0, and the bytes of v24 to v31
      below it are what the stack held before. */
  lemma VstartLoses(b: Build, s: State, k: nat)
    requires Shaped(s) && |s.v| == 32 * b.w.vlen && k < |s.v| && Dirty(b.vpu, s.csr.mstatus, VS_OFFSET)
    ensures AsSaved(b, s).csr.vstart == 0 && |AsSaved(b, s).v| == |s.v|
    ensures AsSaved(b, s).v[k] ==
      if 24 * b.w.vlen <= k < 24 * b.w.vlen + s.csr.vstart
      then Byte(s.mem, UpperAt(b, FrameAt(b, s)) + (k - 24 * b.w.vlen)) else s.v[k]
  {
    hide Field, FrameAt, Byte;
    SavedVectorIs(b, s, s.mem, FrameAt(b, s));
  }

  // ----- contexts that do not survive -----

  /** Eight-byte words and four-byte floating-point registers; one task with a stack of 4096 bytes. */
  const EXAMPLE: Layout := Layout(Build(Widths(8, 4, 0), false, true, false, 0, 8, 16, 24), [32], [4096], [8192])

  /** x1 is 1, sp is the top of the stack and FS reads dirty. */
  const EXAMPLE_STATE: State :=
    State(seq(32, r => if r == 1 then 1 else if r == 2 then 8192 else 0), seq(32, r => 0), [],
          Csrs(FS_MASK, 0, 0, 0, 0, 0, 0, 0, 0), map[0 := 32, 16 := 8])

  lemma ExampleIsState()
    ensures IsState(EXAMPLE.b.w, EXAMPLE_STATE)
  {
  }

  lemma OneTaskIsPrivate(l: Layout, a: int)
    requires |l.tcb| == |l.lo| == |l.hi| == 1 && a + l.b.w.W <= l.tcb[0] <= l.lo[0]
    ensures Private(l, a)
  {
  }

  lemma OneTaskIsSound(l: Layout)
    requires IsWidths(l.b.w) && |l.tcb| == |l.lo| == |l.hi| == 1
    requires l.b.pxCurrentTCB == 0 && l.b.xCriticalNesting == l.b.w.W
    requires l.b.pxCriticalNesting == 2 * l.b.w.W && l.b.xISRStackTop == 3 * l.b.w.W && l.tcb[0] == 4 * l.b.w.W
    requires l.tcb[0] + l.b.w.W <= l.lo[0] <= l.hi[0] && l.hi[0] + 3 * l.b.w.W <= Cap(l.b.w.W)
    ensures Sound(l)
  {
    hide Private;
    OneTaskIsPrivate(l, l.b.pxCurrentTCB);
    OneTaskIsPrivate(l, l.b.xCriticalNesting);
    OneTaskIsPrivate(l, l.b.pxCriticalNesting);
    OneTaskIsPrivate(l, l.b.xISRStackTop);
  }

  lemma ExampleIsSound()
    ensures Sound(EXAMPLE)
  {
    hide Sound;
    OneTaskIsSound(EXAMPLE);
  }

  lemma {:induction false} ThreeUp(sh: nat)
    ensures Shr(3 * Two(sh), sh) == 3
  {
    if sh > 0 {
      ThreeUp(sh - 1);
    }
  }

  lemma ExampleIsDirty()
    ensures Field(FS_MASK, FS_OFFSET) == 3
  {
    hide Shr, Two;
    TwoIs(FS_OFFSET);
    ThreeUp(FS_OFFSET);
  }

  lemma EncodeMore(v: int, n: nat)
    ensures Encode(v, n + 1) == [v % 256] + Encode(v / 256, n)
  {
  }

  lemma OneByte(v: int)
    requires 0 <= v < 256
    ensures Encode(v, 8) == [v] + seq(7, _ => 0)
  {
    hide Encode;
    EncodeMore(v, 7);
    ZeroBytes(7);
  }

  lemma OneByteWord(m: Memory, a: int, v: int)
    requires 0 <= v < 256 && Byte(m, a) == v && forall k :: a < k < a + 8 ==> Byte(m, k) == 0
    ensures Word(m, a, 8) == v
  {
    hide Encode, Decode, Byte, Trunc;
    OneByte(v);
    assert Peek(m, a, 8) == [v] + seq(7, _ => 0);
    WordOf(m, a, 8, v);
  }

  /** The machine in which that task runs is one the invariant allows, its stack has room, and its
      next save loses the lower half of x1. */
  lemma OverlapIsReached()
    ensures var m := Machine(EXAMPLE_STATE, Running(0), map[]);
      Inv(EXAMPLE, m) && HasRoom(EXAMPLE, m, 0)
      && !IntsSafe(EXAMPLE.b, m.hart) && VectorsSafe(EXAMPLE.b, m.hart)
  {
    hide Word, Field;
    ExampleIsState();
    ExampleIsSound();
    ExampleIsDirty();
    OneByteWord(EXAMPLE_STATE.mem, 0, 32);
    OneByteWord(EXAMPLE_STATE.mem, 16, 8);
    hide IsState, Sound;
  }

  /** Eight-byte words, sixteen-byte vector registers; the same stack. */
  const VECTOR_EXAMPLE: Layout := Layout(Build(Widths(8, 8, 16), false, false, true, 0, 8, 16, 24), [32], [4096], [8192])

  /** A trap in the middle of a vector instruction: vstart is 1 and VS reads dirty. */
  const VECTOR_STATE: State :=
    State(seq(32, r => if r == 2 then 8192 else 0), seq(32, r => 0), seq(512, k => 1),
          Csrs(VS_MASK, 0, 0, 0, 16, 1, 0, 0, 0), map[0 := 32, 16 := 8])

  lemma VectorExampleIsState()
    ensures IsState(VECTOR_EXAMPLE.b.w, VECTOR_STATE)
  {
  }

  lemma VectorExampleIsSound()
    ensures Sound(VECTOR_EXAMPLE)
  {
    hide Sound;
    OneTaskIsSound(VECTOR_EXAMPLE);
  }

  lemma VectorExampleIsDirty()
    ensures Field(VS_MASK, VS_OFFSET) == 3
  {
    hide Shr, Two;
    TwoIs(VS_OFFSET);
    ThreeUp(VS_OFFSET);
  }

  /** A machine the invariant allows, with room on the stack, whose running task loses its vstart and the
      first byte of v24 at its next save. */
  lemma VstartIsReached()
    ensures var m := Machine(VECTOR_STATE, Running(0), map[]);
      Inv(VECTOR_EXAMPLE, m) && HasRoom(VECTOR_EXAMPLE, m, 0)
      && IntsSafe(VECTOR_EXAMPLE.b, m.hart) && !VectorsSafe(VECTOR_EXAMPLE.b, m.hart)
      && AsSaved(VECTOR_EXAMPLE.b, m.hart).v[24 * 16] == 0 != m.hart.v[24 * 16]
  {
    hide Word, Field;
    VectorExampleIsState();
    VectorExampleIsSound();
    VectorExampleIsDirty();
    OneByteWord(VECTOR_STATE.mem, 0, 32);
    OneByteWord(VECTOR_STATE.mem, 16, 8);
    VstartLoses(VECTOR_EXAMPLE.b, VECTOR_STATE, 24 * 16);
    hide IsState, Sound, AsSaved;
  }

  // ----- the switch on the machine -----

  lemma SaveEnds(b: Build, s: State, exception: bool)
    requires Ready(b, s) && Fits(b, s)
    ensures Shaped(s)
    ensures SavedState(b, s, ResumeAt(b, s, exception), Exec(b.w, SaveProgram(b, exception), s))
    ensures ResumeAt(b, s, exception) == if exception then (s.csr.mepc + 4) % Cap(b.w.W) else s.csr.mepc
  {
    ResumeIs(b, s, exception);
    hide SavedState, SaveProgram, Fits, Exec, ResumeAt;
    var t := SaveReaches(b, s, exception);
  }

  /** A trap takes the running task off the hart. */
  method TakeOff(core: Core, b: Build, exception: bool)
    requires core.w == b.w && Ready(b, core.View()) && Fits(b, core.View())
    modifies core
    ensures var s, pc := old(core.View()), ResumeAt(b, old(core.View()), exception);
      pc == (if exception then (s.csr.mepc + 4) % Cap(b.w.W) else s.csr.mepc) && SavedState(b, s, pc, core.View())
  {
    hide SavedState, SaveProgram, Fits, Exec, ResumeAt, Cap;
    SaveEnds(b, core.View(), exception);
    hide Ready;
    core.Execute(SaveProgram(b, exception));
  }

  /** The task whose control block is selected goes back on the hart. */
  method PutBack(core: Core, b: Build, ghost s: State, ghost pc: int, ghost nest: int)
    requires core.w == b.w && Resumable(b, core.View(), s, pc, nest)
    modifies core
    ensures Resumed(b, old(core.View()), Cleared(b, s), pc, nest, core.View())
  {
    ghost var t := RestoreRuns(b, core.View(), s, pc, nest);
    core.Execute(Restore(b));
  }
}
