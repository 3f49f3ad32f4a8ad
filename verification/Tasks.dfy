/** Several tasks taking turns on one hart: every task that is restored comes back as it was saved. */
module Tasks {
  import opened Hart
  import opened PortContext
  import opened ContextSteps
  import opened ContextSave
  import opened MarkingClean
  import opened SaveContext
  import opened Frames
  import opened Overlaps
  import opened Restores
  import opened Resuming

  /** Where the linker and the kernel put things: task i has its stack at lo[i] up to hi[i] and the
      first word of its control block at tcb[i]. */
  datatype Layout = Layout(b: Build, tcb: seq<int>, lo: seq<int>, hi: seq<int>)
  {
    function Tasks(): nat {
      |tcb|
    }
  }

  predicate CellsApart(w: nat, a: int, c: int) {
    Outside(a, w, c, c + w)
  }

  /** A cell that no stack and no control block touches. */
  ghost predicate Private(l: Layout, a: int)
    requires |l.tcb| == |l.lo| == |l.hi|
  {
    && (forall i :: 0 <= i < l.Tasks() ==> Outside(a, l.b.w.W, l.lo[i], l.hi[i]))
    && (forall i :: 0 <= i < l.Tasks() ==> CellsApart(l.b.w.W, a, l.tcb[i]))
  }

  /** Stacks, control blocks and the four variables of the port are apart from each other. */
  ghost predicate Sound(l: Layout) {
    var w := l.b.w.W;
    && IsWidths(l.b.w) && |l.tcb| == |l.lo| == |l.hi|
    && (forall i :: 0 <= i < l.Tasks() ==> 0 <= l.tcb[i] < Cap(w) && 0 <= l.lo[i] <= l.hi[i] && l.hi[i] + 3 * w <= Cap(w))
    && (forall i, j :: 0 <= i < l.Tasks() && 0 <= j < l.Tasks() && i != j ==> l.hi[i] <= l.lo[j] || l.hi[j] <= l.lo[i])
    && (forall i, j :: 0 <= i < l.Tasks() && 0 <= j < l.Tasks() && i != j ==> CellsApart(w, l.tcb[i], l.tcb[j]))
    && (forall i, j :: 0 <= i < l.Tasks() && 0 <= j < l.Tasks() ==> Outside(l.tcb[i], w, l.lo[j], l.hi[j]))
    && Private(l, l.b.pxCurrentTCB) && Private(l, l.b.xCriticalNesting)
    && Private(l, l.b.pxCriticalNesting) && Private(l, l.b.xISRStackTop)
    && CellsApart(w, l.b.pxCurrentTCB, l.b.xCriticalNesting) && CellsApart(w, l.b.pxCriticalNesting, l.b.xCriticalNesting)
    && 0 <= l.b.xCriticalNesting < Cap(w)
  }

  /** What a task was when it was last taken off the hart. */
  datatype Suspended = Suspended(s: State, pc: int, nest: int)

  datatype Mode = Running(task: nat) | Kernel

  /** saved is a record of the past that no step of the hart looks at. */
  datatype Machine = Machine(hart: State, mode: Mode, saved: map<nat, Suspended>)

  // ----- the frames of the tasks that wait -----

  /** The two memories hold the same bytes from lo up to hi. */
  ghost predicate Agree(m: Memory, n: Memory, lo: int, hi: int) {
    forall a :: lo <= a < hi ==> Byte(m, a) == Byte(n, a)
  }

  lemma PeekAgree(m: Memory, n: Memory, lo: int, hi: int, a: int, k: nat)
    requires Agree(m, n, lo, hi) && lo <= a && a + k <= hi
    ensures Peek(m, a, k) == Peek(n, a, k)
  {
    var p, q := Peek(m, a, k), Peek(n, a, k);
    forall i | 0 <= i < k ensures p[i] == q[i] {
      assert Byte(m, a + i) == Byte(n, a + i);
    }
  }

  lemma WordAgree(m: Memory, n: Memory, a: int, w: nat)
    requires Agree(m, n, a, a + w)
    ensures Word(m, a, w) == Word(n, a, w)
  {
    hide Peek, Decode;
    PeekAgree(m, n, a, a + w, a, w);
  }

  lemma IntsAgree(b: Build, m: Memory, n: Memory, s: State, nest: int)
    requires IsWidths(b.w) && Shaped(s) && Agree(m, n, FrameAt(b, s), s.x[SP])
    ensures var a, k := IntsAt(b, s) + 2 * b.w.W, |IntBlock(b, s.x, nest)|; Peek(m, a, k) == Peek(n, a, k)
  {
    hide Agree, Peek, IntBlock, FrameAt, FloatsAt, IntsAt, Field;
    FrameOrder(b, s);
    IntBlockLength(b, s.x, nest);
    PeekAgree(m, n, FrameAt(b, s), s.x[SP], IntsAt(b, s) + 2 * b.w.W, |IntBlock(b, s.x, nest)|);
  }

  lemma FloatsAgree(b: Build, m: Memory, n: Memory, s: State)
    requires IsWidths(b.w) && Shaped(s) && Agree(m, n, FrameAt(b, s), s.x[SP]) && Dirty(b.fpu, s.csr.mstatus, FS_OFFSET)
    ensures var a, k := FloatsAt(b, s) + 2 * b.w.W, |FloatBlock(b, s.f, s.csr.fcsr)|; Peek(m, a, k) == Peek(n, a, k)
  {
    hide Agree, Peek, FloatBlock, FrameAt, FloatsAt, IntsAt, Field;
    FrameOrder(b, s);
    FloatBlockLength(b, s.f, s.csr.fcsr);
    PeekAgree(m, n, FrameAt(b, s), s.x[SP], FloatsAt(b, s) + 2 * b.w.W, |FloatBlock(b, s.f, s.csr.fcsr)|);
  }

  lemma VectorsAgree(b: Build, m: Memory, n: Memory, s: State)
    requires IsWidths(b.w) && Shaped(s) && |s.v| == 32 * b.w.vlen
    requires Agree(m, n, FrameAt(b, s), s.x[SP]) && Dirty(b.vpu, s.csr.mstatus, VS_OFFSET)
    ensures var a, k := FrameAt(b, s) + 2 * b.w.W, |VectorBlock(b, s)|; Peek(m, a, k) == Peek(n, a, k)
  {
    hide Agree, Peek, VectorBlock, FrameAt, FloatsAt, IntsAt, Field;
    FrameOrder(b, s);
    BlockLengths(b, s);
    PeekAgree(m, n, FrameAt(b, s), s.x[SP], FrameAt(b, s) + 2 * b.w.W, |VectorBlock(b, s)|);
  }

  lemma StateShape(b: Build, s: State)
    requires IsState(b.w, s)
    ensures Shaped(s) && |s.v| == 32 * b.w.vlen
  {
  }

  lemma LowestAgree(b: Build, m: Memory, n: Memory, s: State)
    requires IsWidths(b.w) && Shaped(s) && Agree(m, n, FrameAt(b, s), s.x[SP])
    ensures Peek(m, FrameAt(b, s), b.w.W) == Peek(n, FrameAt(b, s), b.w.W)
    ensures Peek(m, FrameAt(b, s) + b.w.W, b.w.W) == Peek(n, FrameAt(b, s) + b.w.W, b.w.W)
  {
    hide Agree, Peek, FrameAt, FloatsAt, IntsAt;
    FrameOrder(b, s);
    PeekAgree(m, n, FrameAt(b, s), s.x[SP], FrameAt(b, s), b.w.W);
    PeekAgree(m, n, FrameAt(b, s), s.x[SP], FrameAt(b, s) + b.w.W, b.w.W);
  }

  lemma FrameAgree(b: Build, m: Memory, n: Memory, s: State, pc: int, nest: int)
    requires IsWidths(b.w) && IsState(b.w, s) && Agree(m, n, FrameAt(b, s), s.x[SP]) && Frame(b, m, s, pc, nest)
    ensures Frame(b, n, s, pc, nest)
  {
    hide Agree, Peek, Encode, IntBlock, FloatBlock, VectorBlock, FrameAt, FloatsAt, IntsAt, Dirty, IsState;
    StateShape(b, s);
    LowestAgree(b, m, n, s);
    IntsAgree(b, m, n, s, nest);
    if Dirty(b.fpu, s.csr.mstatus, FS_OFFSET) {
      FloatsAgree(b, m, n, s);
    }
    if Dirty(b.vpu, s.csr.mstatus, VS_OFFSET) {
      VectorsAgree(b, m, n, s);
    }
  }

  /** Task i's stack and control block hold what it was suspended with. */
  ghost predicate Waiting(l: Layout, m: Memory, i: nat, k: Suspended)
    requires Sound(l)
  {
    && i < l.Tasks() && IsState(l.b.w, k.s)
    && l.lo[i] <= FrameAt(l.b, k.s) && k.s.x[SP] <= l.hi[i]
    && 0 <= k.pc < Cap(l.b.w.W) && 0 <= k.nest < Cap(l.b.w.W)
    && Frame(l.b, m, AsSaved(l.b, k.s), k.pc, k.nest)
    && Peek(m, l.tcb[i], l.b.w.W) == Encode(FrameAt(l.b, k.s), l.b.w.W)
  }

  /** A step that leaves a waiting task's stack and control block alone keeps it waiting. */
  lemma WaitingAgree(l: Layout, m: Memory, n: Memory, i: nat, k: Suspended)
    requires Sound(l) && Waiting(l, m, i, k)
    requires Agree(m, n, l.lo[i], l.hi[i]) && Agree(m, n, l.tcb[i], l.tcb[i] + l.b.w.W)
    ensures Waiting(l, n, i, k)
  {
    hide Peek, Encode, Frame, FrameAt, AsSaved, Csrs.Get;
    AsSavedIsState(l.b, k.s);
    assert IsWidths(l.b.w);
    hide Sound, IsState;
    assert Agree(m, n, FrameAt(l.b, k.s), k.s.x[SP]);
    FrameAgree(l.b, m, n, AsSaved(l.b, k.s), k.pc, k.nest);
    PeekAgree(m, n, l.tcb[i], l.tcb[i] + l.b.w.W, l.tcb[i], l.b.w.W);
  }

  // ----- the steps -----

  ghost predicate Placed(l: Layout, m: Machine) {
    && Sound(l) && IsState(l.b.w, m.hart)
    && Word(m.hart.mem, l.b.pxCriticalNesting, l.b.w.W) == l.b.xCriticalNesting
    && (m.mode.Running? ==> m.mode.task < l.Tasks() && m.mode.task !in m.saved
                            && Word(m.hart.mem, l.b.pxCurrentTCB, l.b.w.W) == l.tcb[m.mode.task])
  }

  ghost predicate AllWait(l: Layout, m: Machine)
    requires Sound(l)
  {
    forall i :: i in m.saved ==> Waiting(l, m.hart.mem, i, m.saved[i])
  }

  /** What holds whenever a step has ended. */
  ghost predicate Inv(l: Layout, m: Machine) {
    Placed(l, m) && AllWait(l, m)
  }

  // What Sound says, one piece at a time.

  lemma SoundTask(l: Layout, i: nat)
    requires Sound(l) && i < l.Tasks()
    ensures IsWidths(l.b.w) && |l.tcb| == |l.lo| == |l.hi|
    ensures 0 <= l.tcb[i] < Cap(l.b.w.W) && 0 <= l.lo[i] <= l.hi[i] && l.hi[i] + 3 * l.b.w.W <= Cap(l.b.w.W)
    ensures Outside(l.tcb[i], l.b.w.W, l.lo[i], l.hi[i])
  {
    hide Private;
  }

  lemma SoundPair(l: Layout, i: nat, j: nat)
    requires Sound(l) && i < l.Tasks() && j < l.Tasks() && i != j
    ensures l.hi[i] <= l.lo[j] || l.hi[j] <= l.lo[i]
    ensures Outside(l.tcb[i], l.b.w.W, l.tcb[j], l.tcb[j] + l.b.w.W)
    ensures Outside(l.tcb[i], l.b.w.W, l.lo[j], l.hi[j]) && Outside(l.tcb[j], l.b.w.W, l.lo[i], l.hi[i])
  {
    hide Private;
    assert CellsApart(l.b.w.W, l.tcb[i], l.tcb[j]);
  }

  /** The four variables stay clear of task i. */
  lemma SoundCell(l: Layout, a: int, i: nat)
    requires Sound(l) && i < l.Tasks()
    requires a == l.b.pxCurrentTCB || a == l.b.xCriticalNesting || a == l.b.pxCriticalNesting || a == l.b.xISRStackTop
    ensures Outside(a, l.b.w.W, l.lo[i], l.hi[i]) && Outside(a, l.b.w.W, l.tcb[i], l.tcb[i] + l.b.w.W)
  {
    assert Private(l, a);
    assert CellsApart(l.b.w.W, a, l.tcb[i]);
  }

  lemma SoundVariables(l: Layout)
    requires Sound(l)
    ensures IsWidths(l.b.w) && |l.tcb| == |l.lo| == |l.hi| && 0 <= l.b.xCriticalNesting < Cap(l.b.w.W)
    ensures Outside(l.b.pxCurrentTCB, l.b.w.W, l.b.xCriticalNesting, l.b.xCriticalNesting + l.b.w.W)
    ensures Outside(l.b.pxCriticalNesting, l.b.w.W, l.b.xCriticalNesting, l.b.xCriticalNesting + l.b.w.W)
  {
    hide Private;
  }

  lemma WaitsAt(l: Layout, m: Machine, i: nat)
    requires Inv(l, m) && i in m.saved
    ensures Waiting(l, m.hart.mem, i, m.saved[i]) && i < l.Tasks() && Shaped(m.saved[i].s)
  {
    hide Frame, Word, Sound, FrameAt, AsSaved, IsState;
    assert Waiting(l, m.hart.mem, i, m.saved[i]);
    StateShape(l.b, m.saved[i].s);
  }

  /** Neither a waiting task's stack nor any control block nor the pointer to the nesting variable changes. */
  ghost predicate LeavesWaiting(l: Layout, m: Machine, mem: Memory)
    requires Sound(l)
  {
    && (forall i :: i in m.saved && i < l.Tasks() ==> Agree(m.hart.mem, mem, l.lo[i], l.hi[i]))
    && (forall i :: 0 <= i < l.Tasks() ==> Agree(m.hart.mem, mem, l.tcb[i], l.tcb[i] + l.b.w.W))
    && Agree(m.hart.mem, mem, l.b.pxCriticalNesting, l.b.pxCriticalNesting + l.b.w.W)
  }

  datatype Event = Work | Save(task: nat, exception: bool) | Restored(task: nat)

  /** The running task or the kernel does anything at all with the registers and with memory that is
      not a waiting task's; only the kernel moves pxCurrentTCB. */
  ghost predicate WorkStep(l: Layout, m: Machine, n: Machine)
    requires Sound(l)
  {
    && n.mode == m.mode && n.saved == m.saved && IsState(l.b.w, n.hart) && LeavesWaiting(l, m, n.hart.mem)
    && (m.mode.Running? ==> Agree(m.hart.mem, n.hart.mem, l.b.pxCurrentTCB, l.b.pxCurrentTCB + l.b.w.W))
  }

  function SuspendedBy(b: Build, s: State, exception: bool): Suspended
    requires Shaped(s)
  {
    Suspended(s, ResumeAt(b, s, exception), Word(s.mem, b.xCriticalNesting, b.w.W))
  }

  /** The running task traps and its context is saved; its stack has room for the frame. */
  ghost predicate SaveStep(l: Layout, m: Machine, n: Machine, i: nat, exception: bool)
    requires Sound(l)
  {
    && m.mode == Running(i) && i < l.Tasks() && n.mode == Kernel && Shaped(m.hart)
    && l.lo[i] <= FrameAt(l.b, m.hart) && m.hart.x[SP] <= l.hi[i]
    && Runs(l.b.w, SaveProgram(l.b, exception), m.hart, n.hart)
    && n.saved == m.saved[i := SuspendedBy(l.b, m.hart, exception)]
  }

  /** The kernel resumes the waiting task whose control block it has selected. */
  ghost predicate RestoreStep(l: Layout, m: Machine, n: Machine, i: nat)
    requires Sound(l)
  {
    && m.mode == Kernel && i in m.saved && i < l.Tasks()
    && Word(m.hart.mem, l.b.pxCurrentTCB, l.b.w.W) == l.tcb[i]
    && Runs(l.b.w, Restore(l.b), m.hart, n.hart)
    && n.mode == Running(i) && n.saved == m.saved - {i}
  }

  ghost predicate Next(l: Layout, m: Machine, n: Machine, e: Event)
    requires Sound(l)
  {
    match e
    case Work => WorkStep(l, m, n)
    case Save(i, exception) => SaveStep(l, m, n, i, exception)
    case Restored(i) => RestoreStep(l, m, n, i)
  }

  lemma WorkKeepsInv(l: Layout, m: Machine, n: Machine)
    requires Inv(l, m) && WorkStep(l, m, n)
    ensures Inv(l, n)
  {
    hide Word, Agree, Waiting, IsState, Sound;
    WordAgree(m.hart.mem, n.hart.mem, l.b.pxCriticalNesting, l.b.w.W);
    if m.mode.Running? {
      WordAgree(m.hart.mem, n.hart.mem, l.b.pxCurrentTCB, l.b.w.W);
    }
    forall i | i in n.saved ensures Waiting(l, n.hart.mem, i, n.saved[i]) {
      WaitsAt(l, m, i);
      WaitingAgree(l, m.hart.mem, n.hart.mem, i, m.saved[i]);
    }
  }

  // ----- a save -----

  lemma AgreeIfPeeksDo(m: Memory, n: Memory, lo: int, hi: int)
    requires forall a :: lo <= a < hi ==> Peek(m, a, 1) == Peek(n, a, 1)
    ensures Agree(m, n, lo, hi)
  {
    forall a | lo <= a < hi ensures Byte(m, a) == Byte(n, a) {
      assert Peek(m, a, 1)[0] == Peek(n, a, 1)[0];
    }
  }

  /** A save leaves every byte outside its own frame and control block alone. */
  lemma SavedAgrees(b: Build, s: State, pc: int, lo: int, hi: int)
    requires Ready(b, s) && Fits(b, s)
    requires hi <= FrameAt(b, s) || s.x[SP] <= lo
    requires var tcb := Word(s.mem, b.pxCurrentTCB, b.w.W); hi <= tcb || tcb + b.w.W <= lo
    ensures Agree(s.mem, Saved(b, s, pc), lo, hi)
  {
    assert Shaped(s);
    hide Saved, Peek, Word, FrameAt, Ready, Fits;
    forall a | lo <= a < hi ensures Peek(s.mem, a, 1) == Peek(Saved(b, s, pc), a, 1) {
      SavedElsewhere(b, s, pc, a, 1);
    }
    AgreeIfPeeksDo(s.mem, Saved(b, s, pc), lo, hi);
  }

  /** The running task's stack has room for its frame. */
  ghost predicate HasRoom(l: Layout, m: Machine, i: nat) {
    && m.mode == Running(i) && i < |l.tcb| == |l.lo| == |l.hi| && Shaped(m.hart)
    && l.lo[i] <= FrameAt(l.b, m.hart) && m.hart.x[SP] <= l.hi[i]
  }

  lemma SaveFits(l: Layout, m: Machine, i: nat)
    requires Placed(l, m) && HasRoom(l, m, i)
    ensures Ready(l.b, m.hart) && Fits(l.b, m.hart) && Word(m.hart.mem, l.b.pxCurrentTCB, l.b.w.W) == l.tcb[i]
  {
    hide Word, FrameAt, IsState, Ready, Sound;
    SoundTask(l, i);
    SoundCell(l, l.b.pxCurrentTCB, i);
    SoundCell(l, l.b.xCriticalNesting, i);
    SoundCell(l, l.b.xISRStackTop, i);
    StateIsReady(l.b, m.hart);
  }

  lemma SaveRan(l: Layout, m: Machine, n: Machine, i: nat, exception: bool)
    requires Placed(l, m) && SaveStep(l, m, n, i, exception)
    ensures HasRoom(l, m, i) && Ready(l.b, m.hart) && Fits(l.b, m.hart) && IsState(l.b.w, n.hart)
    ensures n.hart.mem == Saved(l.b, m.hart, ResumeAt(l.b, m.hart, exception))
  {
    hide Word, FrameAt, IsState, Ready, Fits, Saved, SaveProgram, ResumeAt, Exec, Closed, Sound;
    SoundTask(l, i);
    SaveFits(l, m, i);
    ExecKeepsState(l.b.w, SaveProgram(l.b, exception), m.hart);
    var t := SaveReaches(l.b, m.hart, exception);
  }

  lemma ResumeAtFits(b: Build, s: State, exception: bool)
    requires Ready(b, s)
    ensures 0 <= ResumeAt(b, s, exception) < Cap(b.w.W)
  {
    MstatusFits(b, s);
    hide CsrsFit;
  }

  /** The task just saved waits with its own context. */
  lemma SavedWaits(l: Layout, m: Machine, i: nat, exception: bool)
    requires Placed(l, m) && HasRoom(l, m, i)
    ensures Waiting(l, Saved(l.b, m.hart, ResumeAt(l.b, m.hart, exception)), i, SuspendedBy(l.b, m.hart, exception))
  {
    hide Word, FrameAt, IsState, Ready, Fits, Saved, ResumeAt, Frame, Peek, Encode, Sound;
    var s, pc := m.hart, ResumeAt(l.b, m.hart, exception);
    SoundTask(l, i);
    SaveFits(l, m, i);
    ResumeAtFits(l.b, s, exception);
    WordFits(s.mem, l.b.xCriticalNesting, l.b.w.W);
    SavedIsFrame(l.b, s, pc);
    LowestWords(l.b, s, pc);
  }

  /** The pointer to the nesting variable survives a save. */
  lemma SaveKeepsPointer(l: Layout, m: Machine, i: nat, pc: int)
    requires Placed(l, m) && HasRoom(l, m, i)
    ensures Word(Saved(l.b, m.hart, pc), l.b.pxCriticalNesting, l.b.w.W) == l.b.xCriticalNesting
  {
    hide Word, FrameAt, IsState, Ready, Fits, Saved, Agree, Sound;
    SaveFits(l, m, i);
    SoundCell(l, l.b.pxCriticalNesting, i);
    SavedAgrees(l.b, m.hart, pc, l.b.pxCriticalNesting, l.b.pxCriticalNesting + l.b.w.W);
    WordAgree(m.hart.mem, Saved(l.b, m.hart, pc), l.b.pxCriticalNesting, l.b.w.W);
  }

  lemma SaveKeepsPlace(l: Layout, m: Machine, n: Machine, i: nat, exception: bool)
    requires Placed(l, m) && SaveStep(l, m, n, i, exception)
    ensures Placed(l, n)
  {
    hide Word, FrameAt, IsState, Ready, Fits, Saved, ResumeAt, Runs, SuspendedBy, Sound, HasRoom;
    SaveRan(l, m, n, i, exception);
    SaveKeepsPointer(l, m, i, ResumeAt(l.b, m.hart, exception));
  }

  lemma OtherStillWaits(l: Layout, m: Machine, i: nat, j: nat, pc: int)
    requires Inv(l, m) && HasRoom(l, m, i) && j in m.saved && j != i
    ensures Waiting(l, Saved(l.b, m.hart, pc), j, m.saved[j])
  {
    hide Word, FrameAt, Waiting, IsState, Ready, Fits, Saved, Agree, Sound, AllWait;
    WaitsAt(l, m, j);
    SaveFits(l, m, i);
    SoundTask(l, j);
    SoundPair(l, i, j);
    SavedAgrees(l.b, m.hart, pc, l.lo[j], l.hi[j]);
    SavedAgrees(l.b, m.hart, pc, l.tcb[j], l.tcb[j] + l.b.w.W);
    WaitingAgree(l, m.hart.mem, Saved(l.b, m.hart, pc), j, m.saved[j]);
  }

  lemma SaveKeepsInv(l: Layout, m: Machine, n: Machine, i: nat, exception: bool)
    requires Inv(l, m) && SaveStep(l, m, n, i, exception)
    ensures Inv(l, n)
  {
    hide Word, FrameAt, Waiting, IsState, Ready, Fits, Saved, ResumeAt, Runs, SuspendedBy, Sound;
    assert Sound(l);
    hide Placed;
    SaveRan(l, m, n, i, exception);
    SavedWaits(l, m, i, exception);
    SaveKeepsPlace(l, m, n, i, exception);
    forall j | j in n.saved ensures Waiting(l, n.hart.mem, j, n.saved[j]) {
      if j != i {
        OtherStillWaits(l, m, i, j, ResumeAt(l.b, m.hart, exception));
      }
    }
  }

  // ----- a restore -----

  lemma WaitingIsResumable(l: Layout, m: Machine, i: nat)
    requires Inv(l, m) && i in m.saved && i < l.Tasks() && Word(m.hart.mem, l.b.pxCurrentTCB, l.b.w.W) == l.tcb[i]
    ensures Shaped(m.saved[i].s)
    ensures var k := m.saved[i]; Resumable(l.b, m.hart, AsSaved(l.b, k.s), k.pc, k.nest)
  {
    hide Word, FrameAt, IsState, Frame, Peek, Encode, AsSaved, Sound, AllWait;
    WaitsAt(l, m, i);
    SoundTask(l, i);
    SoundCell(l, l.b.xCriticalNesting, i);
    AsSavedIsState(l.b, m.saved[i].s);
  }

  lemma PokeAgrees(m: Memory, a: int, bs: seq<int>, lo: int, hi: int)
    requires hi <= a || a + |bs| <= lo
    ensures Agree(m, Poke(m, a, bs), lo, hi)
  {
    forall c | lo <= c < hi ensures Byte(m, c) == Byte(Poke(m, a, bs), c) {
      PokedByte(m, a, bs, c);
    }
  }

  /** A save that stores the vector registers has already reset vstart in what it keeps. */
  lemma AsSavedIsCleared(b: Build, s: State)
    requires Shaped(s)
    ensures Cleared(b, AsSaved(b, s)) == AsSaved(b, s)
  {
    hide FrameVector, Field, High;
  }

  /** The task that is restored comes back with the context its last save kept. */
  lemma RestoreRan(l: Layout, m: Machine, n: Machine, i: nat)
    requires Inv(l, m) && RestoreStep(l, m, n, i)
    ensures IsState(l.b.w, n.hart)
    ensures var k := m.saved[i]; Shaped(k.s) && Resumed(l.b, m.hart, AsSaved(l.b, k.s), k.pc, k.nest, n.hart)
  {
    hide Word, FrameAt, IsState, AllWait, AsSaved, Cleared, Restore, Exec, Closed, Resumed, Sound;
    var k := m.saved[i];
    SoundTask(l, i);
    WaitingIsResumable(l, m, i);
    AsSavedIsCleared(l.b, k.s);
    ExecKeepsState(l.b.w, Restore(l.b), m.hart);
    hide Resumable;
    var t := RestoreRuns(l.b, m.hart, AsSaved(l.b, k.s), k.pc, k.nest);
  }

  /** A restore writes the nesting variable and nothing else. */
  lemma RestoreMemory(l: Layout, m: Machine, n: Machine, i: nat)
    requires Inv(l, m) && RestoreStep(l, m, n, i)
    ensures n.hart.mem == Poke(m.hart.mem, l.b.xCriticalNesting, Encode(m.saved[i].nest, l.b.w.W))
  {
    hide Word, FrameAt, IsState, AllWait, AsSaved, Runs, Sound, Poke, Encode, ResumedCsrs;
    RestoreRan(l, m, n, i);
  }

  lemma NestKeepsPointers(l: Layout, mem: Memory, bs: seq<int>)
    requires Sound(l) && |bs| == l.b.w.W
    ensures var n := Poke(mem, l.b.xCriticalNesting, bs);
      && Word(n, l.b.pxCriticalNesting, l.b.w.W) == Word(mem, l.b.pxCriticalNesting, l.b.w.W)
      && Word(n, l.b.pxCurrentTCB, l.b.w.W) == Word(mem, l.b.pxCurrentTCB, l.b.w.W)
  {
    hide Word, Agree, Poke, Sound;
    SoundVariables(l);
    var w, cell := l.b.w.W, l.b.xCriticalNesting;
    PokeAgrees(mem, cell, bs, l.b.pxCriticalNesting, l.b.pxCriticalNesting + w);
    PokeAgrees(mem, cell, bs, l.b.pxCurrentTCB, l.b.pxCurrentTCB + w);
    WordAgree(mem, Poke(mem, cell, bs), l.b.pxCriticalNesting, w);
    WordAgree(mem, Poke(mem, cell, bs), l.b.pxCurrentTCB, w);
  }

  lemma RestoreKeepsPlace(l: Layout, m: Machine, n: Machine, i: nat)
    requires Inv(l, m) && RestoreStep(l, m, n, i)
    ensures Placed(l, n)
  {
    hide Word, IsState, Runs, Poke, Encode, Sound, AllWait, Resumed;
    RestoreRan(l, m, n, i);
    RestoreMemory(l, m, n, i);
    NestKeepsPointers(l, m.hart.mem, Encode(m.saved[i].nest, l.b.w.W));
  }

  lemma NestKeepsWaiting(l: Layout, m: Machine, j: nat, bs: seq<int>)
    requires Inv(l, m) && j in m.saved && |bs| == l.b.w.W
    ensures Waiting(l, Poke(m.hart.mem, l.b.xCriticalNesting, bs), j, m.saved[j])
  {
    hide Word, Waiting, IsState, Agree, Poke, Sound, AllWait;
    WaitsAt(l, m, j);
    SoundTask(l, j);
    SoundCell(l, l.b.xCriticalNesting, j);
    PokeAgrees(m.hart.mem, l.b.xCriticalNesting, bs, l.lo[j], l.hi[j]);
    PokeAgrees(m.hart.mem, l.b.xCriticalNesting, bs, l.tcb[j], l.tcb[j] + l.b.w.W);
    WaitingAgree(l, m.hart.mem, Poke(m.hart.mem, l.b.xCriticalNesting, bs), j, m.saved[j]);
  }

  lemma RestoreKeepsInv(l: Layout, m: Machine, n: Machine, i: nat)
    requires Inv(l, m) && RestoreStep(l, m, n, i)
    ensures Inv(l, n)
  {
    hide Word, Waiting, Runs, Poke, Encode, Sound;
    assert Sound(l);
    hide Placed;
    RestoreKeepsPlace(l, m, n, i);
    RestoreMemory(l, m, n, i);
    forall j | j in n.saved ensures Waiting(l, n.hart.mem, j, n.saved[j]) {
      NestKeepsWaiting(l, m, j, Encode(m.saved[i].nest, l.b.w.W));
    }
  }

  // ----- runs -----

  ghost predicate Run(l: Layout, ms: seq<Machine>, es: seq<Event>)
    requires Sound(l)
  {
    |ms| == |es| + 1 && forall k :: 0 <= k < |es| ==> Next(l, ms[k], ms[k + 1], es[k])
  }

  lemma NextKeepsInv(l: Layout, m: Machine, n: Machine, e: Event)
    requires Inv(l, m) && Next(l, m, n, e)
    ensures Inv(l, n)
  {
    hide Inv, WorkStep, SaveStep, RestoreStep;
    match e
    case Work => WorkKeepsInv(l, m, n);
    case Save(i, exception) => SaveKeepsInv(l, m, n, i, exception);
    case Restored(i) => RestoreKeepsInv(l, m, n, i);
  }

  lemma {:induction false} RunKeepsInv(l: Layout, ms: seq<Machine>, es: seq<Event>, k: nat)
    requires Sound(l) && Run(l, ms, es) && Inv(l, ms[0]) && k < |ms|
    ensures Inv(l, ms[k])
  {
    hide Sound, Inv, Next;
    if k > 0 {
      RunKeepsInv(l, ms, es, k - 1);
      NextKeepsInv(l, ms[k - 1], ms[k], es[k - 1]);
    }
  }

  /** A task that is not restored stays off the hart with what it was saved with. */
  lemma {:induction false} StaysSaved(l: Layout, ms: seq<Machine>, es: seq<Event>,
                                     first: nat, last: nat, i: nat, k: Suspended)
    requires Sound(l) && Run(l, ms, es) && Inv(l, ms[0]) && first <= last < |ms|
    requires i in ms[first].saved && ms[first].saved[i] == k
    requires forall h :: first <= h < last ==> es[h] != Restored(i)
    ensures i in ms[last].saved && ms[last].saved[i] == k
    decreases last
  {
    hide Sound, Inv, Next;
    if first < last {
      StaysSaved(l, ms, es, first, last - 1, i, k);
      RunKeepsInv(l, ms, es, last - 1);
      SavedUntilRestored(l, ms[last - 1], ms[last], es[last - 1], i);
    }
  }

  lemma SavedUntilRestored(l: Layout, m: Machine, n: Machine, e: Event, i: nat)
    requires Inv(l, m) && Next(l, m, n, e) && i in m.saved && e != Restored(i)
    ensures i in n.saved && n.saved[i] == m.saved[i]
  {
    hide Sound, AllWait, LeavesWaiting, Runs, Word, IsState, SuspendedBy, FrameAt;
  }

  /** Whatever the other tasks and the kernel do in between, a task comes back from its next restore
      with the context of its last save. */
  lemma TaskComesBack(l: Layout, ms: seq<Machine>, es: seq<Event>, first: nat, last: nat, i: nat, exception: bool)
    requires Sound(l) && Run(l, ms, es) && Inv(l, ms[0]) && first < last < |es|
    requires es[first] == Save(i, exception) && es[last] == Restored(i)
    requires forall h :: first < h < last ==> es[h] != Restored(i)
    ensures Shaped(ms[first].hart) && Shaped(ms[last].hart)
    ensures var s, w := ms[first].hart, l.b.w.W;
      var pc := if exception then (s.csr.mepc + 4) % Cap(w) else s.csr.mepc;
      && Resumed(l.b, ms[last].hart, AsSaved(l.b, s), pc, Word(s.mem, l.b.xCriticalNesting, w), ms[last + 1].hart)
      && ms[last + 1].hart.csr.mepc == pc
  {
    hide Sound, Inv, Word, FrameAt, Resumed, AsSaved, Next, SaveStep, RestoreStep, SuspendedBy;
    RunKeepsInv(l, ms, es, last);
    assert Next(l, ms[first], ms[first + 1], es[first]);
    SaveIsNext(l, ms[first], ms[first + 1], i, exception);
    StaysSaved(l, ms, es, first + 1, last, i, SuspendedBy(l.b, ms[first].hart, exception));
    assert Next(l, ms[last], ms[last + 1], es[last]);
    RestoreIsNext(l, ms[last], ms[last + 1], i);
    RestoreRan(l, ms[last], ms[last + 1], i);
    InvShaped(l, ms[last]);
    AsSavedShaped(l.b, ms[first].hart);
    SuspendedIs(l, ms[first].hart, exception);
    var k := SuspendedBy(l.b, ms[first].hart, exception);
    ResumedPc(l.b, ms[last].hart, AsSaved(l.b, k.s), k.pc, k.nest, ms[last + 1].hart);
  }

  lemma AsSavedShaped(b: Build, s: State)
    requires Shaped(s)
    ensures Shaped(AsSaved(b, s))
  {
    SameLayout(b, s);
  }

  /** An exception skips the instruction that raised it; an interrupt does not. */
  lemma SuspendedIs(l: Layout, s: State, exception: bool)
    requires Sound(l) && Shaped(s)
    ensures SuspendedBy(l.b, s, exception) ==
      Suspended(s, if exception then (s.csr.mepc + 4) % Cap(l.b.w.W) else s.csr.mepc,
                Word(s.mem, l.b.xCriticalNesting, l.b.w.W))
  {
    ResumeIs(l.b, s, exception);
    hide Word, Private;
  }

  /** The resume address is what mepc holds when the task is back. */
  lemma ResumedPc(b: Build, u: State, s: State, pc: int, nest: int, t: State)
    requires Shaped(u) && Shaped(s) && Resumed(b, u, s, pc, nest, t)
    ensures t.csr.mepc == pc
  {
    hide Word, Poke, Field;
  }

  lemma SaveIsNext(l: Layout, m: Machine, n: Machine, i: nat, exception: bool)
    requires Sound(l) && Next(l, m, n, Save(i, exception))
    ensures Shaped(m.hart) && i in n.saved && n.saved[i] == SuspendedBy(l.b, m.hart, exception)
    ensures SuspendedBy(l.b, m.hart, exception).s == m.hart
  {
    hide Sound, FrameAt, Runs, Word;
  }

  lemma RestoreIsNext(l: Layout, m: Machine, n: Machine, i: nat)
    requires Sound(l) && Next(l, m, n, Restored(i))
    ensures RestoreStep(l, m, n, i)
  {
    hide Sound, RestoreStep;
  }

  lemma InvShaped(l: Layout, m: Machine)
    requires Inv(l, m)
    ensures Shaped(m.hart)
  {
    hide Sound, AllWait, Word;
    StateShape(l.b, m.hart);
  }
}
