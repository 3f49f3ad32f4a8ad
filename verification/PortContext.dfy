/** The FreeRTOS context save and restore macros, as the programs they expand to
    (sw/cv32e40p/freertos/RISC-V_cv32e40p/portContext.h). */
module PortContext {
  import opened Hart

  const SP: Reg := 2
  const T0: Reg := 5
  const T1: Reg := 6
  const T2: Reg := 7
  const A0: Reg := 10
  const A1: Reg := 11
  const T3: Reg := 28

  const FS_OFFSET: nat := 13
  const FS_MASK: nat := 0x6000
  const FS_CLEAN: nat := 0x4000
  const VS_OFFSET: nat := 9
  const VS_MASK: nat := 0x600
  const VS_CLEAN: nat := 0x400

  /** How the port is built, and where the linker put the variables the macros name. */
  datatype Build = Build(w: Widths, rv32e: bool, fpu: bool, vpu: bool,
                         pxCurrentTCB: int, xCriticalNesting: int, pxCriticalNesting: int, xISRStackTop: int)
  {
    /** portCRITICAL_NESTING_OFFSET, in bytes */
    function NestOffset(): int {
      if rv32e then 14 * w.W else 30 * w.W
    }

    /** portCONTEXT_SIZE */
    function ContextSize(): int {
      if rv32e then 15 * w.W else 31 * w.W
    }

    /** portFPU_CONTEXT_SIZE */
    function FpuSize(): int {
      33 * w.F
    }

    function VpuSize(): int {
      4 * w.W + 32 * w.vlen
    }

    /** The integer registers in the order the macros list them, from slot 2 on. */
    function IntRegs(): seq<Reg> {
      [1] + FromX5()
    }

    function FromX5(): seq<Reg> {
      if rv32e then [5, 6, 7, 8, 9, 10, 11, 12, 13, 14, 15]
      else [5, 6, 7, 8, 9, 10, 11, 12, 13, 14, 15,
            16, 17, 18, 19, 20, 21, 22, 23, 24, 25, 26, 27, 28, 29, 30, 31]
    }
  }

  /** f0 to f31. */
  function FloatRegs(): seq<Reg> {
    [0, 1, 2, 3, 4, 5, 6, 7, 8, 9, 10, 11, 12, 13, 14, 15,
     16, 17, 18, 19, 20, 21, 22, 23, 24, 25, 26, 27, 28, 29, 30, 31]
  }

  // ----- the programs -----

  function Stores(w: Widths, regs: seq<Reg>, off: int): Program {
    if regs == [] then [] else [StoreX(regs[0], off, SP)] + Stores(w, regs[1..], off + w.W)
  }

  function Loads(w: Widths, regs: seq<Reg>, off: int): Program {
    if regs == [] then [] else [LoadX(regs[0], off, SP)] + Loads(w, regs[1..], off + w.W)
  }

  function FloatStores(w: Widths, regs: seq<Reg>, off: int): Program {
    if regs == [] then [] else [StoreF(regs[0], off, SP)] + FloatStores(w, regs[1..], off + w.F)
  }

  function FloatLoads(w: Widths, regs: seq<Reg>, off: int): Program {
    if regs == [] then [] else [LoadF(regs[0], off, SP)] + FloatLoads(w, regs[1..], off + w.F)
  }

  /** `srl t1, reg, sh; andi t1, t1, 3; addi t2, x0, 3; bne t1, t2, past the block` */
  function IfDirty(reg: Reg, sh: nat, block: Program): Program {
    [Srli(T1, reg, sh), Andi(T1, T1, 3), Addi(T2, 0, 3)] + [Bne(T1, T2, |block|)] + block
  }

  /** portcontexSAVE_FPU_CONTEXT */
  function SaveFpu(b: Build): Program {
    [Addi(SP, SP, -b.FpuSize())]
    + FloatStores(b.w, FloatRegs(), 2 * b.w.W)
    + [Csrr(T0, Fcsr), StoreX(T0, 2 * b.w.W + 32 * b.w.F, SP)]
  }

  /** portcontextRESTORE_FPU_CONTEXT */
  function RestoreFpu(b: Build): Program {
    FloatLoads(b.w, FloatRegs(), 2 * b.w.W)
    + [LoadX(T0, 2 * b.w.W + 32 * b.w.F, SP), Csrw(Fcsr, T0), Addi(SP, SP, b.FpuSize())]
  }

  /** `add sp, sp, t0; vs8r.v vk, (sp)`, t0 holding minus eight vector lengths */
  function SaveGroup(k: nat): Program {
    [Add(SP, SP, T0), Vs8r(k, SP)]
  }

  function SaveVectors(): Program {
    [Csrr(T0, Vlenb), Slli(T0, T0, 3), Neg(T0, T0)]
    + (SaveGroup(24) + (SaveGroup(16) + (SaveGroup(8) + SaveGroup(0))))
  }

  function SaveVectorCsrs(b: Build): Program {
    [Addi(SP, SP, -4 * b.w.W)]
    + (([Csrr(T0, Vstart), StoreX(T0, 0 * b.w.W, SP)] + [Csrr(T0, Vcsr), StoreX(T0, 1 * b.w.W, SP)])
    + ([Csrr(T0, Vl), StoreX(T0, 2 * b.w.W, SP)] + [Csrr(T0, Vtype), StoreX(T0, 3 * b.w.W, SP)]))
  }

  /** portcontexSAVE_VPU_CONTEXT */
  function SaveVpu(b: Build): Program {
    ([Addi(SP, SP, 2 * b.w.W)] + SaveVectors()) + (SaveVectorCsrs(b) + [Addi(SP, SP, -2 * b.w.W)])
  }

  /** `vl8r.v vk, (sp); add sp, sp, t0`, t0 holding eight vector lengths */
  function RestoreGroup(k: nat): Program {
    [Vl8r(k, SP), Add(SP, SP, T0)]
  }

  function RestoreVectors(): Program {
    [Csrr(T0, Vlenb), Slli(T0, T0, 3)]
    + ((RestoreGroup(0) + RestoreGroup(8)) + (RestoreGroup(16) + RestoreGroup(24)))
  }

  function RestoreVectorCsrs(b: Build): Program {
    ([LoadX(T0, 0 * b.w.W, SP), Csrw(Vstart, T0)] + [LoadX(T0, 1 * b.w.W, SP), Csrw(Vcsr, T0)])
    + ([LoadX(T0, 2 * b.w.W, SP), LoadX(T1, 3 * b.w.W, SP)] + [Vsetvl(T0, T1)])
    + [Addi(SP, SP, 4 * b.w.W)]
  }

  /** portcontextRESTORE_VPU_CONTEXT */
  function RestoreVpu(b: Build): Program {
    ([Addi(SP, SP, 2 * b.w.W)] + RestoreVectorCsrs(b)) + (RestoreVectors() + [Addi(SP, SP, -2 * b.w.W)])
  }

  /** `li t1, ~mask; and t0, t0, t1; li t1, clean; or t0, t0, t1; csrw mstatus, t0` */
  function MarkClean(mask: int, clean: int): Program {
    [Li(T1, -1 - mask), And(T0, T0, T1)] + [Li(T1, clean), Or(T0, T0, T1)] + [Csrw(Mstatus, T0)]
  }

  function SaveInts(b: Build): Program {
    [Addi(SP, SP, -b.ContextSize())]
    + Stores(b.w, b.IntRegs(), 2 * b.w.W)
    + [LoadSym(T0, b.xCriticalNesting), StoreX(T0, b.NestOffset(), SP)]
  }

  function When(c: bool, p: Program): Program {
    if c then p else []
  }

  /** portcontextSAVE_CONTEXT_INTERNAL */
  function SaveInternal(b: Build): Program {
    SaveInts(b)
    + When(b.fpu, [Csrr(T0, Mstatus)] + IfDirty(T0, FS_OFFSET, SaveFpu(b)))
    + When(b.vpu, [Csrr(T0, Mstatus)] + IfDirty(T0, VS_OFFSET, SaveVpu(b)))
    + [Csrr(T0, Mstatus), StoreX(T0, 1 * b.w.W, SP)]
    + When(b.fpu, IfDirty(T0, FS_OFFSET, MarkClean(FS_MASK, FS_CLEAN)))
    + When(b.vpu, IfDirty(T0, VS_OFFSET, MarkClean(VS_MASK, VS_CLEAN)))
    + [LoadSym(T0, b.pxCurrentTCB), StoreX(SP, 0, T0)]
  }

  /** portcontextSAVE_EXCEPTION_CONTEXT */
  function SaveException(b: Build): Program {
    SaveInternal(b)
    + [Csrr(A0, Mcause), Csrr(A1, Mepc), Addi(A1, A1, 4)]
    + [StoreX(A1, 0, SP), LoadSym(SP, b.xISRStackTop)]
  }

  /** portcontextSAVE_INTERRUPT_CONTEXT */
  function SaveInterrupt(b: Build): Program {
    SaveInternal(b)
    + [Csrr(A0, Mcause), Csrr(A1, Mepc)]
    + [StoreX(A1, 0, SP), LoadSym(SP, b.xISRStackTop)]
  }

  /** portcontextRESTORE_CONTEXT, up to its mret */
  function Restore(b: Build): Program {
    [LoadSym(T1, b.pxCurrentTCB), LoadX(SP, 0, T1)]
    + [LoadX(T0, 0, SP), Csrw(Mepc, T0)]
    + [LoadX(T3, 1 * b.w.W, SP), Csrw(Mstatus, T3)]
    + When(b.vpu, IfDirty(T3, VS_OFFSET, RestoreVpu(b)))
    + When(b.fpu, IfDirty(T3, FS_OFFSET, RestoreFpu(b)))
    + [LoadX(T0, b.NestOffset(), SP)]
    + [LoadSym(T1, b.pxCriticalNesting), StoreX(T0, 0, T1)]
    + Loads(b.w, b.IntRegs(), 2 * b.w.W)
    + [Addi(SP, SP, b.ContextSize())]
  }
}
