/** The restore macro: the frame goes back into the registers. */
module Restores {
  import opened Hart
  import opened PortContext
  import opened ContextSteps
  import opened ContextSave
  import opened SaveContext
  import opened Frames

  /** t is s with a new stack pointer, floats, vectors and CSRs; besides, only t0 to t2 differ. */
  ghost predicate Now(s: State, t: State, sp: int, f: seq<int>, v: seq<int>, csr: Csrs) {
    && Shaped(s) && Shaped(t) && t.x[0] == s.x[0] == 0 && t.x[T3] == s.x[T3] && t.x[SP] == sp
    && t.mem == s.mem && t.f == f && t.v == v && t.csr == csr
  }

  // ----- pairs of instructions -----

  /** `load_x t0, off(sp); csrw r, t0` */
  lemma StackToCsr(w: Widths, rd: Reg, r: Csr, off: int, s: State, v: int)
    requires IsWidths(w) && Shaped(s) && 0 <= s.x[SP] + off < Cap(w.W) && rd != 0 && 0 <= v < Cap(w.W)
    requires Peek(s.mem, s.x[SP] + off, w.W) == Encode(v, w.W)
    ensures Runs(w, [LoadX(rd, off, SP), Csrw(r, rd)], s, s.(x := s.x[rd := v], csr := s.csr.Set(r, v)))
  {
    hide Runs, Peek, Encode, Csrs.Set;
    RunsTwo(w, LoadX(rd, off, SP), Csrw(r, rd), s);
    LoadXStep(w, rd, off, s, v);
  }

  // ----- the vector part -----

  lemma RestoreGroupEffect(w: Widths, k: nat, s: State)
    requires IsWidths(w) && Shaped(s) && s.csr.vstart == 0 && s.x[T0] == 8 * w.vlen
    requires 0 <= s.x[SP] && s.x[SP] + 8 * w.vlen < Cap(w.W)
    ensures Runs(w, RestoreGroup(k), s, s.(x := s.x[SP := s.x[SP] + 8 * w.vlen],
      v := WithGroup(s.v, k * w.vlen, Peek(s.mem, s.x[SP], 8 * w.vlen))))
  {
    hide Runs, Peek, WithGroup;
    RunsTwo(w, Vl8r(k, SP), Add(SP, SP, T0), s);
    Vl8rStep(w, k, s);
    AddForward(w, s.(v := WithGroup(s.v, k * w.vlen, Peek(s.mem, s.x[SP], 8 * w.vlen))));
    hide Step;
  }

  lemma Vl8rStep(w: Widths, k: nat, s: State)
    requires IsWidths(w) && Shaped(s) && s.csr.vstart == 0 && 0 <= s.x[SP] < Cap(w.W)
    ensures Step(w, Vl8r(k, SP), s) == s.(v := WithGroup(s.v, k * w.vlen, Peek(s.mem, s.x[SP], 8 * w.vlen)))
  {
    hide Peek, WithGroup;
  }

  lemma AddForward(w: Widths, s: State)
    requires IsWidths(w) && Shaped(s) && s.x[T0] == 8 * w.vlen && 0 <= s.x[SP] && s.x[SP] + 8 * w.vlen < Cap(w.W)
    ensures Step(w, Add(SP, SP, T0), s) == s.(x := s.x[SP := s.x[SP] + 8 * w.vlen])
  {
  }

  /** State after n bytes of v have been loaded from the stack. */
  function Loaded(w: Widths, s: State, v: seq<int>, n: nat): State
    requires Shaped(s) && n <= |v| == |s.v|
  {
    s.(x := s.x[SP := s.x[SP] + n], v := v[..n] + s.v[n..])
  }

  lemma LoadedNext(w: Widths, s: State, v: seq<int>, k: nat, n: nat)
    requires Shaped(s) && |v| == |s.v| && k + n <= |v|
    ensures var t := Loaded(w, s, v, k);
      t.x[SP] == s.x[SP] + k && t.x[T0] == s.x[T0] && t.mem == s.mem && t.csr == s.csr && Shaped(t)
      && t.(x := t.x[SP := t.x[SP] + n], v := WithGroup(t.v, k, v[k..k + n])) == Loaded(w, s, v, k + n)
  {
    hide WithGroup;
    var t := Loaded(w, s, v, k);
    GroupFits(s.v, v, k, n);
    assert t.x[SP := t.x[SP] + n] == Loaded(w, s, v, k + n).x;
  }

  lemma OneGroup(w: Widths, k: nat, s: State, v: seq<int>, at: nat)
    requires IsWidths(w) && Shaped(s) && |v| == |s.v| && at == k * w.vlen && at + 8 * w.vlen <= |v|
    requires s.csr.vstart == 0 && s.x[T0] == 8 * w.vlen && 0 <= s.x[SP] && s.x[SP] + |v| < Cap(w.W)
    requires Peek(s.mem, s.x[SP], |v|) == v
    ensures Runs(w, RestoreGroup(k), Loaded(w, s, v, at), Loaded(w, s, v, at + 8 * w.vlen))
  {
    hide Runs, Peek, WithGroup, RestoreGroup, Loaded;
    LoadedNext(w, s, v, at, 8 * w.vlen);
    PeekPart(s.mem, s.x[SP], at, 8 * w.vlen, v);
    RestoreGroupEffect(w, k, Loaded(w, s, v, at));
  }

  lemma PeekPart(m: Memory, a: int, k: nat, n: nat, v: seq<int>)
    requires k + n <= |v| && Peek(m, a, |v|) == v
    ensures Peek(m, a + k, n) == v[k..k + n]
  {
    var p := Peek(m, a + k, n);
    forall i | 0 <= i < n ensures p[i] == v[k..k + n][i] {
      assert Peek(m, a, |v|)[k + i] == v[k + i];
    }
  }

  lemma GroupFits(old_v: seq<int>, v: seq<int>, k: nat, n: nat)
    requires |v| == |old_v| && k + n <= |v|
    ensures WithGroup(v[..k] + old_v[k..], k, v[k..k + n]) == v[..k + n] + old_v[k + n..]
  {
  }

  lemma TwoGroups(w: Widths, k: nat, l: nat, s: State, v: seq<int>, at: nat)
    requires IsWidths(w) && Shaped(s) && |v| == |s.v| && at == k * w.vlen && at + 8 * w.vlen == l * w.vlen
    requires at + 16 * w.vlen <= |v|
    requires s.csr.vstart == 0 && s.x[T0] == 8 * w.vlen && 0 <= s.x[SP] && s.x[SP] + |v| < Cap(w.W)
    requires Peek(s.mem, s.x[SP], |v|) == v
    ensures Runs(w, RestoreGroup(k) + RestoreGroup(l), Loaded(w, s, v, at), Loaded(w, s, v, at + 16 * w.vlen))
  {
    hide Runs, Peek, RestoreGroup, Loaded;
    var n := 8 * w.vlen;
    OneGroup(w, k, s, v, at);
    OneGroup(w, l, s, v, at + n);
    RunsThen(w, RestoreGroup(k), RestoreGroup(l), Loaded(w, s, v, at), Loaded(w, s, v, at + n), Loaded(w, s, v, at + 2 * n));
  }

  lemma RestoreVectorsIs()
    ensures RestoreVectors() == [Csrr(T0, Vlenb), Slli(T0, T0, 3)]
      + ((RestoreGroup(0) + RestoreGroup(8)) + (RestoreGroup(16) + RestoreGroup(24)))
  {
    hide RestoreGroup;
  }

  lemma RestoreVectorsEffect(b: Build, s: State, v: seq<int>)
    requires IsWidths(b.w) && Shaped(s) && |v| == |s.v| == 32 * b.w.vlen && s.csr.vlenb == b.w.vlen && s.csr.vstart == 0
    requires 0 <= s.x[SP] && s.x[SP] + 32 * b.w.vlen < Cap(b.w.W)
    requires Peek(s.mem, s.x[SP], 32 * b.w.vlen) == v
    ensures Runs(b.w, RestoreVectors(), s, s.(x := s.x[T0 := 8 * b.w.vlen][SP := s.x[SP] + 32 * b.w.vlen], v := v))
  {
    hide Runs, Peek, RestoreGroup, RestoreVectors, Loaded;
    var w := b.w;
    var s0 := s.(x := s.x[T0 := 8 * w.vlen]);
    var half, all := Loaded(w, s0, v, 16 * w.vlen), Loaded(w, s0, v, 32 * w.vlen);
    LoadedEnds(w, s0, v);
    RestoreVectorsIs();
    ScaledVlenb(w, s);
    TwoGroups(w, 0, 8, s0, v, 0);
    TwoGroups(w, 16, 24, s0, v, 16 * w.vlen);
    RunsThen(w, RestoreGroup(0) + RestoreGroup(8), RestoreGroup(16) + RestoreGroup(24), s0, half, all);
    RunsThen(w, [Csrr(T0, Vlenb), Slli(T0, T0, 3)],
      (RestoreGroup(0) + RestoreGroup(8)) + (RestoreGroup(16) + RestoreGroup(24)), s, s0, all);
  }

  lemma LoadedEnds(w: Widths, s: State, v: seq<int>)
    requires Shaped(s) && |v| == |s.v|
    ensures Loaded(w, s, v, 0) == s && Loaded(w, s, v, |v|) == s.(x := s.x[SP := s.x[SP] + |v|], v := v)
  {
    assert s.x[SP := s.x[SP] + 0] == s.x && v[..0] + s.v[0..] == s.v && v[..|v|] + s.v[|v|..] == v;
  }

  /** The vector CSRs from the stack: a vsetvl with the saved vl and vtype brings those two back and
      resets vstart. */
  function CsrsRestored(w: Widths, s: State, c: Csrs): State
    requires Shaped(s)
  {
    s.(x := s.x[T0 := c.vl][T1 := c.vtype][SP := s.x[SP] + 4 * w.W],
       csr := VectorCsrsFrom(s.csr, c))
  }

  lemma CsrWords(w: Widths, m: Memory, a: int, c: Csrs)
    requires Peek(m, a, 4 * w.W) == CsrBlock(w, c)
    ensures Peek(m, a, w.W) == Encode(c.vstart, w.W) && Peek(m, a + w.W, w.W) == Encode(c.vcsr, w.W)
    ensures Peek(m, a + 2 * w.W, w.W) == Encode(c.vl, w.W) && Peek(m, a + 3 * w.W, w.W) == Encode(c.vtype, w.W)
  {
    hide Encode, Peek;
    var lo, hi := Encode(c.vstart, w.W) + Encode(c.vcsr, w.W), Encode(c.vl, w.W) + Encode(c.vtype, w.W);
    PeekFront(m, a, lo, hi);
    PeekFront(m, a, Encode(c.vstart, w.W), Encode(c.vcsr, w.W));
    PeekFront(m, a + 2 * w.W, Encode(c.vl, w.W), Encode(c.vtype, w.W));
  }

  /** `load_x t0, off(sp); load_x t1, off'(sp)` and the vsetvl. */
  lemma VsetvlEffect(w: Widths, s: State, vl: int, vtype: int)
    requires IsWidths(w) && Shaped(s) && 0 <= s.x[SP] && s.x[SP] + 4 * w.W < Cap(w.W)
    requires 0 <= vl < Cap(w.W) && 0 <= vtype < Cap(w.W)
    requires Peek(s.mem, s.x[SP] + 2 * w.W, w.W) == Encode(vl, w.W)
    requires Peek(s.mem, s.x[SP] + 3 * w.W, w.W) == Encode(vtype, w.W)
    ensures Runs(w, [LoadX(T0, 2 * w.W, SP), LoadX(T1, 3 * w.W, SP)] + [Vsetvl(T0, T1)], s,
      s.(x := s.x[T0 := vl][T1 := vtype], csr := s.csr.(vl := vl, vtype := vtype, vstart := 0)))
  {
    hide Runs, Peek, Encode;
    RunsTwo(w, LoadX(T0, 2 * w.W, SP), LoadX(T1, 3 * w.W, SP), s);
    LoadXStep(w, T0, 2 * w.W, s, vl);
    var s1 := s.(x := s.x[T0 := vl]);
    LoadXStep(w, T1, 3 * w.W, s1, vtype);
    var s2 := s1.(x := s1.x[T1 := vtype]);
    RunsOne(w, Vsetvl(T0, T1), s2);
    assert Step(w, Vsetvl(T0, T1), s2) == s2.(csr := s2.csr.(vl := vl, vtype := vtype, vstart := 0));
    hide Step;
    RunsThen(w, [LoadX(T0, 2 * w.W, SP), LoadX(T1, 3 * w.W, SP)], [Vsetvl(T0, T1)], s, s2,
      s2.(csr := s2.csr.(vl := vl, vtype := vtype, vstart := 0)));
  }

  /** vstart and vcsr are back. */
  function TwoRestored(s: State, c: Csrs): State
    requires Shaped(s)
  {
    s.(x := s.x[T0 := c.vcsr], csr := s.csr.(vstart := c.vstart, vcsr := c.vcsr))
  }

  lemma TwoRestoredEffect(b: Build, s: State, c: Csrs)
    requires IsWidths(b.w) && Shaped(s) && 0 <= s.x[SP] && s.x[SP] + 4 * b.w.W < Cap(b.w.W)
    requires CsrsFit(b.w, c) && Peek(s.mem, s.x[SP], 4 * b.w.W) == CsrBlock(b.w, c)
    ensures Runs(b.w, [LoadX(T0, 0 * b.w.W, SP), Csrw(Vstart, T0)] + [LoadX(T0, 1 * b.w.W, SP), Csrw(Vcsr, T0)],
                 s, TwoRestored(s, c))
  {
    hide Runs, Peek, Encode, Csrs.Set, CsrBlock, CsrsFit;
    var w := b.w;
    var p, q := [LoadX(T0, 0 * w.W, SP), Csrw(Vstart, T0)], [LoadX(T0, 1 * w.W, SP), Csrw(Vcsr, T0)];
    var s1 := s.(x := s.x[T0 := c.vstart], csr := s.csr.(vstart := c.vstart));
    SetVectorCsrs(s.csr, c);
    CsrWords(w, s.mem, s.x[SP], c);
    VectorCsrsFit(w, c);
    StackToCsr(w, T0, Vstart, 0 * w.W, s, c.vstart);
    StackToCsr(w, T0, Vcsr, 1 * w.W, s1, c.vcsr);
    assert s1.x[T0 := c.vcsr] == s.x[T0 := c.vcsr];
    RunsThen(w, p, q, s, s1, TwoRestored(s, c));
  }

  lemma SetVectorCsrs(d: Csrs, c: Csrs)
    ensures d.Set(Vstart, c.vstart) == d.(vstart := c.vstart)
    ensures d.(vstart := c.vstart).Set(Vcsr, c.vcsr) == d.(vstart := c.vstart, vcsr := c.vcsr)
  {
  }

  function RestoreFourCsrs(b: Build): Program {
    ([LoadX(T0, 0 * b.w.W, SP), Csrw(Vstart, T0)] + [LoadX(T0, 1 * b.w.W, SP), Csrw(Vcsr, T0)])
    + ([LoadX(T0, 2 * b.w.W, SP), LoadX(T1, 3 * b.w.W, SP)] + [Vsetvl(T0, T1)])
  }

  function FourRestored(s: State, c: Csrs): State
    requires Shaped(s)
  {
    s.(x := s.x[T0 := c.vl][T1 := c.vtype],
       csr := VectorCsrsFrom(s.csr, c))
  }

  lemma FourRestoredEffect(b: Build, s: State, c: Csrs)
    requires IsWidths(b.w) && Shaped(s) && 0 <= s.x[SP] && s.x[SP] + 4 * b.w.W < Cap(b.w.W)
    requires CsrsFit(b.w, c) && Peek(s.mem, s.x[SP], 4 * b.w.W) == CsrBlock(b.w, c)
    ensures Runs(b.w, RestoreFourCsrs(b), s, FourRestored(s, c))
  {
    hide Runs, Peek, Encode, CsrBlock, CsrsFit;
    var w, t := b.w, TwoRestored(s, c);
    CsrWords(w, s.mem, s.x[SP], c);
    VectorCsrsFit(w, c);
    TwoRestoredEffect(b, s, c);
    VsetvlEffect(w, t, c.vl, c.vtype);
    assert t.x[T0 := c.vl][T1 := c.vtype] == s.x[T0 := c.vl][T1 := c.vtype];
    RunsThen(w, [LoadX(T0, 0 * w.W, SP), Csrw(Vstart, T0)] + [LoadX(T0, 1 * w.W, SP), Csrw(Vcsr, T0)],
      [LoadX(T0, 2 * w.W, SP), LoadX(T1, 3 * w.W, SP)] + [Vsetvl(T0, T1)], s, t, FourRestored(s, c));
  }

  lemma RestoreVectorCsrsEffect(b: Build, s: State, c: Csrs)
    requires IsWidths(b.w) && Shaped(s) && 0 <= s.x[SP] && s.x[SP] + 4 * b.w.W < Cap(b.w.W)
    requires CsrsFit(b.w, c) && Peek(s.mem, s.x[SP], 4 * b.w.W) == CsrBlock(b.w, c)
    ensures Runs(b.w, RestoreVectorCsrs(b), s, CsrsRestored(b.w, s, c))
  {
    hide Runs, Peek, CsrBlock, CsrsFit, RestoreFourCsrs, RestoreVectorCsrs;
    var t := FourRestored(s, c);
    RestoreVectorCsrsIs(b);
    FourRestoredEffect(b, s, c);
    MoveSp(b.w, 4 * b.w.W, t);
    RunsThen(b.w, RestoreFourCsrs(b), [Addi(SP, SP, 4 * b.w.W)], s, t, CsrsRestored(b.w, s, c));
  }

  lemma RestoreVectorCsrsIs(b: Build)
    ensures RestoreVectorCsrs(b) == RestoreFourCsrs(b) + [Addi(SP, SP, 4 * b.w.W)]
  {
  }

  /** What a restore makes of the vector CSRs. */
  function VectorCsrsFrom(d: Csrs, c: Csrs): Csrs {
    d.(vstart := 0, vcsr := c.vcsr, vl := c.vl, vtype := c.vtype)
  }

  lemma VectorBlockSplit(b: Build, m: Memory, a: int, s: State)
    requires IsWidths(b.w) && |s.v| == 32 * b.w.vlen && Peek(m, a, |VectorBlock(b, s)|) == VectorBlock(b, s)
    ensures Peek(m, a, 4 * b.w.W) == CsrBlock(b.w, s.csr) && Peek(m, a + 4 * b.w.W, 32 * b.w.vlen) == s.v
  {
    hide Peek, CsrBlock;
    PeekFront(m, a, CsrBlock(b.w, s.csr), s.v);
  }

  /** The state after the vector part, t0 and t1 holding what the macro leaves there. */
  function VpuRestored(b: Build, s: State, c: Csrs, v: seq<int>): State
    requires Shaped(s)
  {
    s.(x := s.x[T0 := 8 * b.w.vlen][T1 := c.vtype][SP := s.x[SP] + b.VpuSize()], v := v, csr := VectorCsrsFrom(s.csr, c))
  }

  lemma RestoreVpuEffect(b: Build, s: State, k: State)
    requires IsWidths(b.w) && Shaped(s) && |k.v| == |s.v| == 32 * b.w.vlen && s.csr.vlenb == b.w.vlen && CsrsFit(b.w, k.csr)
    requires 0 <= s.x[SP] && s.x[SP] + b.VpuSize() + 2 * b.w.W < Cap(b.w.W)
    requires Peek(s.mem, s.x[SP] + 2 * b.w.W, |VectorBlock(b, k)|) == VectorBlock(b, k)
    ensures Runs(b.w, RestoreVpu(b), s, VpuRestored(b, s, k.csr, k.v))
  {
    hide Runs, Peek, CsrBlock, CsrsFit, VectorBlock, RestoreVpu, RestoreVectorCsrs, RestoreVectors;
    hide CsrsRestored, VpuRestored;
    var w := b.w;
    RestoreVpuIs(b);
    VectorBlockSplit(b, s.mem, s.x[SP] + 2 * w.W, k);
    MoveSp(w, 2 * w.W, s);
    var s1 := s.(x := s.x[SP := s.x[SP] + 2 * w.W]);
    RestoreVectorCsrsEffect(b, s1, k.csr);
    var s2 := CsrsRestored(w, s1, k.csr);
    VpuMiddle(b, s, k);
    RestoreVectorsEffect(b, s2, k.v);
    var s3 := s2.(x := s2.x[T0 := 8 * b.w.vlen][SP := s2.x[SP] + 32 * b.w.vlen], v := k.v);
    MoveSp(w, -2 * w.W, s3);
    RunsThen(w, [Addi(SP, SP, 2 * w.W)], RestoreVectorCsrs(b), s, s1, s2);
    RunsThen(w, RestoreVectors(), [Addi(SP, SP, -2 * w.W)], s2, s3, VpuRestored(b, s, k.csr, k.v));
    RunsThen(w, [Addi(SP, SP, 2 * w.W)] + RestoreVectorCsrs(b), RestoreVectors() + [Addi(SP, SP, -2 * w.W)],
             s, s2, VpuRestored(b, s, k.csr, k.v));
  }

  lemma VpuMiddle(b: Build, s: State, k: State)
    requires Shaped(s)
    ensures var s2 := CsrsRestored(b.w, s.(x := s.x[SP := s.x[SP] + 2 * b.w.W]), k.csr);
      var s3 := s2.(x := s2.x[T0 := 8 * b.w.vlen][SP := s2.x[SP] + 32 * b.w.vlen], v := k.v);
      Shaped(s2) && s2.x[SP] == s.x[SP] + 6 * b.w.W && s2.v == s.v && s2.mem == s.mem
      && s2.csr.vlenb == s.csr.vlenb && s2.csr.vstart == 0
      && s3.(x := s3.x[SP := s3.x[SP] - 2 * b.w.W]) == VpuRestored(b, s, k.csr, k.v)
  {
    var s2 := CsrsRestored(b.w, s.(x := s.x[SP := s.x[SP] + 2 * b.w.W]), k.csr);
    var s3 := s2.(x := s2.x[T0 := 8 * b.w.vlen][SP := s2.x[SP] + 32 * b.w.vlen], v := k.v);
    assert s3.x[SP := s3.x[SP] - 2 * b.w.W] == VpuRestored(b, s, k.csr, k.v).x;
  }

  lemma RestoreVpuIs(b: Build)
    ensures RestoreVpu(b) ==
      ([Addi(SP, SP, 2 * b.w.W)] + RestoreVectorCsrs(b)) + (RestoreVectors() + [Addi(SP, SP, -2 * b.w.W)])
  {
    hide RestoreVectorCsrs, RestoreVectors;
  }

  // ----- the floating-point part -----

  lemma AllFloats(x: seq<int>, y: seq<int>)
    requires |x| == |y| == 32
    ensures Merged(x, y, FloatRegs()) == y
  {
    forall r: Reg ensures r in FloatRegs() {
      assert FloatRegs()[r] == r;
    }
  }

  lemma FloatBlockSplit(b: Build, m: Memory, a: int, f: seq<int>, fcsr: int)
    requires IsWidths(b.w) && |f| == 32 && Peek(m, a, |FloatBlock(b, f, fcsr)|) == FloatBlock(b, f, fcsr)
    ensures var bs := EncodeAll(Values(f, FloatRegs()), b.w.F); Peek(m, a, |bs|) == bs
    ensures Peek(m, a + 32 * b.w.F, b.w.W) == Encode(fcsr, b.w.W)
  {
    hide Peek, Encode, EncodeAll, Values, FloatRegs;
    FloatBlockLength(b, f, fcsr);
    PeekFront(m, a, EncodeAll(Values(f, FloatRegs()), b.w.F), Encode(fcsr, b.w.W));
  }

  function FpuRestored(b: Build, s: State, f: seq<int>, fcsr: int): State
    requires Shaped(s) && |f| == 32
  {
    s.(x := s.x[T0 := fcsr][SP := s.x[SP] + b.FpuSize()], f := f, csr := s.csr.(fcsr := fcsr))
  }

  lemma RestoreFloatRegsEffect(b: Build, s: State, f: seq<int>)
    requires IsWidths(b.w) && Shaped(s) && |f| == 32 && (forall r :: 0 <= r < 32 ==> 0 <= f[r] < Cap(b.w.F))
    requires 0 <= s.x[SP] && s.x[SP] + 2 * b.w.W + 32 * b.w.F <= Cap(b.w.W)
    requires var bs := EncodeAll(Values(f, FloatRegs()), b.w.F); Peek(s.mem, s.x[SP] + 2 * b.w.W, |bs|) == bs
    ensures Runs(b.w, FloatLoads(b.w, FloatRegs(), 2 * b.w.W), s, s.(f := f))
  {
    hide Runs, Peek, EncodeAll, Values, FloatRegs, FloatLoads, Merged, FloatBlock;
    AllFloats(s.f, f);
    FloatBlockLength(b, f, 0);
    FloatLoadsEffect(b.w, FloatRegs(), 2 * b.w.W, s, f);
  }

  lemma RestoreFcsrEffect(b: Build, s: State, fcsr: int)
    requires IsWidths(b.w) && Shaped(s) && 0 <= fcsr < Cap(4)
    requires 0 <= s.x[SP] && s.x[SP] + b.FpuSize() + 3 * b.w.W <= Cap(b.w.W)
    requires Peek(s.mem, s.x[SP] + (2 * b.w.W + 32 * b.w.F), b.w.W) == Encode(fcsr, b.w.W)
    ensures Runs(b.w, [LoadX(T0, 2 * b.w.W + 32 * b.w.F, SP), Csrw(Fcsr, T0)] + [Addi(SP, SP, b.FpuSize())], s,
                 FpuRestored(b, s, s.f, fcsr))
  {
    hide Runs, Peek, Encode, Csrs.Set;
    var p := [LoadX(T0, 2 * b.w.W + 32 * b.w.F, SP), Csrw(Fcsr, T0)];
    StackToCsr(b.w, T0, Fcsr, 2 * b.w.W + 32 * b.w.F, s, fcsr);
    SetFcsr(s.csr, fcsr);
    var s1 := s.(x := s.x[T0 := fcsr], csr := s.csr.(fcsr := fcsr));
    MoveSp(b.w, b.FpuSize(), s1);
    RunsThen(b.w, p, [Addi(SP, SP, b.FpuSize())], s, s1, FpuRestored(b, s, s.f, fcsr));
  }

  lemma SetFcsr(c: Csrs, v: int)
    requires 0 <= v < Cap(4)
    ensures c.Set(Fcsr, v) == c.(fcsr := v)
  {
  }

  lemma RestoreFpuEffect(b: Build, s: State, f: seq<int>, fcsr: int)
    requires IsWidths(b.w) && Shaped(s) && |f| == 32 && (forall r :: 0 <= r < 32 ==> 0 <= f[r] < Cap(b.w.F))
    requires 0 <= fcsr < Cap(4) && 0 <= s.x[SP] && s.x[SP] + b.FpuSize() + 3 * b.w.W <= Cap(b.w.W)
    requires Peek(s.mem, s.x[SP] + 2 * b.w.W, |FloatBlock(b, f, fcsr)|) == FloatBlock(b, f, fcsr)
    ensures Runs(b.w, RestoreFpu(b), s, FpuRestored(b, s, f, fcsr))
  {
    hide Runs, Peek, Encode, EncodeAll, Values, FloatRegs, FloatLoads, FloatBlock, RestoreFpu;
    var w := b.w;
    RestoreFpuIs(b);
    FloatBlockSplit(b, s.mem, s.x[SP] + 2 * w.W, f, fcsr);
    RestoreFloatRegsEffect(b, s, f);
    RestoreFcsrEffect(b, s.(f := f), fcsr);
    RunsThen(w, FloatLoads(w, FloatRegs(), 2 * w.W),
      [LoadX(T0, 2 * w.W + 32 * w.F, SP), Csrw(Fcsr, T0)] + [Addi(SP, SP, b.FpuSize())],
      s, s.(f := f), FpuRestored(b, s, f, fcsr));
  }

  lemma RestoreFpuIs(b: Build)
    ensures RestoreFpu(b) == FloatLoads(b.w, FloatRegs(), 2 * b.w.W)
      + ([LoadX(T0, 2 * b.w.W + 32 * b.w.F, SP), Csrw(Fcsr, T0)] + [Addi(SP, SP, b.FpuSize())])
  {
    hide FloatLoads;
  }

  // ----- the guarded parts -----

  ghost predicate Straight(p: Program) {
    forall i :: 0 <= i < |p| ==> !p[i].Bne?
  }

  lemma {:induction false} FloatLoadsStraight(w: Widths, regs: seq<Reg>, off: int)
    ensures Straight(FloatLoads(w, regs, off))
    decreases |regs|
  {
    if regs != [] {
      FloatLoadsStraight(w, regs[1..], off + w.F);
    }
  }

  lemma RestoreClosed(b: Build)
    ensures Closed(RestoreVpu(b)) && Closed(RestoreFpu(b))
  {
    hide FloatLoads, FloatRegs;
    FloatLoadsStraight(b.w, FloatRegs(), 2 * b.w.W);
  }

  /** What a guarded restore starts from: t3 holds the saved mstatus. */
  ghost predicate Restoring(b: Build, u: State, s: State) {
    && IsWidths(b.w) && Shaped(u) && Shaped(s) && u.x[0] == 0 && 0 <= u.x[SP] && u.x[T3] == s.csr.mstatus
    && |s.v| == |u.v| == 32 * b.w.vlen && u.csr.vlenb == b.w.vlen && CsrsFit(b.w, s.csr) && s.csr.fcsr < Cap(4)
    && (forall r :: 0 <= r < 32 ==> 0 <= s.f[r] < Cap(b.w.F))
  }

  lemma TestedIs(u: State, sh: nat)
    requires Shaped(u)
    ensures var t := Tested(u, T3, sh);
      Shaped(t) && t == u.(x := t.x) && t.x[0] == u.x[0] && t.x[SP] == u.x[SP] && t.x[T3] == u.x[T3]
  {
    hide Field;
  }

  lemma RestoreVpuStage(b: Build, u: State, s: State) returns (t: State)
    requires Restoring(b, u, s) && b.vpu && u.x[SP] + VpuPart(b, s.csr.mstatus) + 2 * b.w.W < Cap(b.w.W)
    requires Dirty(true, s.csr.mstatus, VS_OFFSET) ==>
      Peek(u.mem, u.x[SP] + 2 * b.w.W, |VectorBlock(b, s)|) == VectorBlock(b, s)
    ensures Runs(b.w, IfDirty(T3, VS_OFFSET, RestoreVpu(b)), u, t)
    ensures if Dirty(true, s.csr.mstatus, VS_OFFSET)
      then Now(u, t, u.x[SP] + b.VpuSize(), u.f, s.v, VectorCsrsFrom(u.csr, s.csr))
      else Now(u, t, u.x[SP], u.f, u.v, u.csr)
  {
    hide Runs, Field, RestoreVpu, VectorBlock, Peek, Closed, Tested, CsrsFit, IfDirty;
    RestoreClosed(b);
    MstatusInRange(b, s);
    TestedIs(u, VS_OFFSET);
    t := Tested(u, T3, VS_OFFSET);
    if Field(s.csr.mstatus, VS_OFFSET) == 3 {
      RestoreVpuEffect(b, t, s);
      t := VpuRestored(b, t, s.csr, s.v);
    }
    IfDirtyEffect(b.w, T3, VS_OFFSET, RestoreVpu(b), u, t);
  }

  lemma RestoreFpuStage(b: Build, u: State, s: State) returns (t: State)
    requires Restoring(b, u, s) && b.fpu && u.x[SP] + FpuPart(b, s.csr.mstatus) + 3 * b.w.W <= Cap(b.w.W)
    requires Dirty(true, s.csr.mstatus, FS_OFFSET) ==>
      Peek(u.mem, u.x[SP] + 2 * b.w.W, |FloatBlock(b, s.f, s.csr.fcsr)|) == FloatBlock(b, s.f, s.csr.fcsr)
    ensures Runs(b.w, IfDirty(T3, FS_OFFSET, RestoreFpu(b)), u, t)
    ensures if Dirty(true, s.csr.mstatus, FS_OFFSET)
      then Now(u, t, u.x[SP] + b.FpuSize(), s.f, u.v, u.csr.(fcsr := s.csr.fcsr))
      else Now(u, t, u.x[SP], u.f, u.v, u.csr)
  {
    hide Runs, Field, RestoreFpu, FloatBlock, Peek, Closed, Tested, CsrsFit, IfDirty;
    RestoreClosed(b);
    MstatusInRange(b, s);
    TestedIs(u, FS_OFFSET);
    t := Tested(u, T3, FS_OFFSET);
    if Field(s.csr.mstatus, FS_OFFSET) == 3 {
      RestoreFpuEffect(b, t, s.f, s.csr.fcsr);
      t := FpuRestored(b, t, s.f, s.csr.fcsr);
    }
    IfDirtyEffect(b.w, T3, FS_OFFSET, RestoreFpu(b), u, t);
  }

  lemma MstatusInRange(b: Build, s: State)
    requires CsrsFit(b.w, s.csr)
    ensures 0 <= s.csr.mstatus < Cap(b.w.W) && 0 <= s.csr.fcsr < Cap(b.w.W)
  {
    assert 0 <= s.csr.Get(Mstatus) && 0 <= s.csr.Get(Fcsr);
  }

  // ----- the first and the last instructions -----

  lemma LoadAtT1(w: Widths, s: State, v: int)
    requires IsWidths(w) && Shaped(s) && 0 <= s.x[T1] < Cap(w.W) && 0 <= v < Cap(w.W)
    requires Peek(s.mem, s.x[T1], w.W) == Encode(v, w.W)
    ensures Step(w, LoadX(SP, 0, T1), s) == s.(x := s.x[SP := v])
  {
    hide Encode, Decode, Peek;
    DecodeRegister(v, w.W);
  }

  lemma StoreAtT1(w: Widths, s: State)
    requires IsWidths(w) && Shaped(s) && 0 <= s.x[T1] < Cap(w.W)
    ensures Step(w, StoreX(T0, 0, T1), s) == s.(mem := Poke(s.mem, s.x[T1], Encode(s.x[T0], w.W)))
  {
    hide Encode, Poke;
  }

  lemma WordFits(m: Memory, a: int, n: nat)
    requires n == 4 || n == 8
    ensures 0 <= Word(m, a, n) < Cap(n)
  {
    hide Decode, Peek;
  }

  lemma FindFrame(b: Build, u: State, at: int) returns (t: State)
    requires IsWidths(b.w) && Shaped(u) && 0 <= at < Cap(b.w.W)
    requires Peek(u.mem, Word(u.mem, b.pxCurrentTCB, b.w.W), b.w.W) == Encode(at, b.w.W)
    ensures Runs(b.w, [LoadSym(T1, b.pxCurrentTCB), LoadX(SP, 0, T1)], u, t)
    ensures t == u.(x := t.x) && Shaped(t) && t.x[0] == u.x[0] && t.x[SP] == at
  {
    hide Runs, Step, Peek, Encode, Word;
    WordFits(u.mem, b.pxCurrentTCB, b.w.W);
    RunsTwo(b.w, LoadSym(T1, b.pxCurrentTCB), LoadX(SP, 0, T1), u);
    LoadSymStep(b.w, T1, b.pxCurrentTCB, u);
    t := u.(x := u.x[T1 := Word(u.mem, b.pxCurrentTCB, b.w.W)]);
    LoadAtT1(b.w, t, at);
    t := t.(x := t.x[SP := at]);
  }

  function Enter(b: Build): Program {
    [LoadSym(T1, b.pxCurrentTCB), LoadX(SP, 0, T1)]
    + [LoadX(T0, 0, SP), Csrw(Mepc, T0)]
    + [LoadX(T3, 1 * b.w.W, SP), Csrw(Mstatus, T3)]
  }

  /** sp, mepc and mstatus come back first. */
  lemma EnterRuns(b: Build, u: State, at: int, pc: int, m: int) returns (t: State)
    requires IsWidths(b.w) && Shaped(u) && 0 <= at && at + 2 * b.w.W <= Cap(b.w.W)
    requires 0 <= pc < Cap(b.w.W) && 0 <= m < Cap(b.w.W)
    requires Peek(u.mem, Word(u.mem, b.pxCurrentTCB, b.w.W), b.w.W) == Encode(at, b.w.W)
    requires Peek(u.mem, at, b.w.W) == Encode(pc, b.w.W) && Peek(u.mem, at + b.w.W, b.w.W) == Encode(m, b.w.W)
    ensures Runs(b.w, Enter(b), u, t)
    ensures Shaped(t) && t.x[0] == u.x[0] && t.x[SP] == at && t.x[T3] == m
    ensures t == u.(x := t.x, csr := u.csr.(mepc := pc, mstatus := m))
  {
    hide Runs, Peek, Encode, Word, Csrs.Set;
    var w := b.w;
    var p, q, r := [LoadSym(T1, b.pxCurrentTCB), LoadX(SP, 0, T1)], [LoadX(T0, 0, SP), Csrw(Mepc, T0)],
      [LoadX(T3, 1 * w.W, SP), Csrw(Mstatus, T3)];
    var s1 := FindFrame(b, u, at);
    StackToCsr(w, T0, Mepc, 0, s1, pc);
    SetMepcMstatus(u.csr, pc, m);
    var s2 := s1.(x := s1.x[T0 := pc], csr := u.csr.(mepc := pc));
    StackToCsr(w, T3, Mstatus, 1 * w.W, s2, m);
    t := s2.(x := s2.x[T3 := m], csr := u.csr.(mepc := pc, mstatus := m));
    RunsThen(w, p, q, u, s1, s2);
    RunsThen(w, p + q, r, u, s2, t);
  }

  lemma SetMepcMstatus(c: Csrs, pc: int, m: int)
    ensures c.Set(Mepc, pc) == c.(mepc := pc)
    ensures c.(mepc := pc).Set(Mstatus, m) == c.(mepc := pc, mstatus := m)
  {
  }

  function RestoreNest(b: Build): Program {
    [LoadX(T0, b.NestOffset(), SP)] + [LoadSym(T1, b.pxCriticalNesting), StoreX(T0, 0, T1)]
  }

  lemma RestoreNestRuns(b: Build, s: State, nest: int) returns (t: State)
    requires IsWidths(b.w) && Shaped(s) && 0 <= s.x[SP] && s.x[SP] + b.ContextSize() <= Cap(b.w.W) && 0 <= nest < Cap(b.w.W)
    requires Peek(s.mem, s.x[SP] + b.NestOffset(), b.w.W) == Encode(nest, b.w.W)
    ensures Runs(b.w, RestoreNest(b), s, t)
    ensures Shaped(t) && t.x[0] == s.x[0] && t.x[SP] == s.x[SP]
    ensures t == s.(x := t.x, mem := Poke(s.mem, Word(s.mem, b.pxCriticalNesting, b.w.W), Encode(nest, b.w.W)))
  {
    hide Runs, Step, Peek, Encode, Poke, Word;
    var w := b.w;
    LoadXStep(w, T0, b.NestOffset(), s, nest);
    RunsOne(w, LoadX(T0, b.NestOffset(), SP), s);
    var s1 := s.(x := s.x[T0 := nest]);
    WordFits(s.mem, b.pxCriticalNesting, w.W);
    RunsTwo(w, LoadSym(T1, b.pxCriticalNesting), StoreX(T0, 0, T1), s1);
    LoadSymStep(w, T1, b.pxCriticalNesting, s1);
    var s2 := s1.(x := s1.x[T1 := Word(s.mem, b.pxCriticalNesting, w.W)]);
    StoreAtT1(w, s2);
    t := s2.(mem := Poke(s.mem, Word(s.mem, b.pxCriticalNesting, w.W), Encode(nest, w.W)));
    RunsThen(w, [LoadX(T0, b.NestOffset(), SP)], [LoadSym(T1, b.pxCriticalNesting), StoreX(T0, 0, T1)], s, s1, t);
  }

  function RestoreInts(b: Build): Program {
    Loads(b.w, b.IntRegs(), 2 * b.w.W) + [Addi(SP, SP, b.ContextSize())]
  }

  lemma RestoreIntsRuns(b: Build, s: State, y: seq<int>) returns (t: State)
    requires IsWidths(b.w) && Shaped(s) && 0 <= s.x[SP] && s.x[SP] + b.ContextSize() < Cap(b.w.W)
    requires |y| == 32 && (forall r :: 0 <= r < 32 ==> 0 <= y[r] < Cap(b.w.W))
    requires var bs := EncodeAll(Values(y, b.IntRegs()), b.w.W); Peek(s.mem, s.x[SP] + 2 * b.w.W, |bs|) == bs
    ensures Runs(b.w, RestoreInts(b), s, t)
    ensures Shaped(t) && t.x[0] == s.x[0] && t.x[SP] == s.x[SP] + b.ContextSize() && t == s.(x := t.x)
    ensures forall r: Reg :: r in b.IntRegs() ==> t.x[r] == y[r]
  {
    hide Runs, Peek, EncodeAll, Values, Loads, Build.IntRegs;
    var w := b.w;
    IntRegsAre(b);
    IntBlockLength(b, y, 0);
    LoadsEffect(w, b.IntRegs(), 2 * w.W, s, y);
    var s1 := s.(x := Merged(s.x, y, b.IntRegs()));
    MoveSp(w, b.ContextSize(), s1);
    t := s1.(x := s1.x[SP := s1.x[SP] + b.ContextSize()]);
    RunsThen(w, Loads(w, b.IntRegs(), 2 * w.W), [Addi(SP, SP, b.ContextSize())], s, s1, t);
  }
}
