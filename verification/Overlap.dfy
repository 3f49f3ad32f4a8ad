/** What a save loses. fcsr is stored as a word of W bytes into a slot of F bytes, so with W = 8 and
    F = 4 its upper half lands on x1. And the first vector store starts at vstart and resets it. */
module Overlaps {
  import opened Hart
  import opened PortContext
  import opened ContextSteps
  import opened ContextSave
  import opened MarkingClean
  import opened SaveContext
  import opened Frames

  function High(v: int): int {
    v / 0x1_0000_0000 * 0x1_0000_0000
  }

  /** The integer registers a save really keeps. */
  function IntsAsSaved(b: Build, s: State): (x: seq<int>)
    requires Shaped(s)
    ensures |x| == 32
  {
    if PartsDisjoint(b, s.csr.mstatus) then s.x else s.x[1 := High(s.x[1])]
  }

  /** The context a save really keeps. */
  function AsSaved(b: Build, s: State): State
    requires Shaped(s)
  {
    var t := s.(x := IntsAsSaved(b, s));
    if Dirty(b.vpu, s.csr.mstatus, VS_OFFSET) then t.(v := FrameVector(b, s), csr := s.csr.(vstart := 0)) else t
  }

  lemma AsSavedIsState(b: Build, s: State)
    requires IsWidths(b.w) && IsState(b.w, s)
    ensures IsState(b.w, AsSaved(b, s)) && AsSaved(b, s).x[SP] == s.x[SP]
    ensures FrameAt(b, AsSaved(b, s)) == FrameAt(b, s)
  {
    var u := AsSaved(b, s);
    SavedVectorIs(b, s, s.mem, FrameAt(b, s));
    hide Field, SavedVector;
    forall r: Csr ensures 0 <= u.csr.Get(r) < Cap(b.w.W) {
      assert 0 <= s.csr.Get(r) < Cap(b.w.W);
    }
    hide Csrs.Get;
  }

  lemma SameLayout(b: Build, s: State)
    requires Shaped(s)
    ensures var u := AsSaved(b, s);
      && Shaped(u) && u.x == IntsAsSaved(b, s) && u.csr.mstatus == s.csr.mstatus && u.csr.fcsr == s.csr.fcsr
      && u.f == s.f && u.mem == s.mem
      && FrameAt(b, u) == FrameAt(b, s) && FloatsAt(b, u) == FloatsAt(b, s) && IntsAt(b, u) == IntsAt(b, s)
  {
    hide Field, High, SavedVector;
  }

  lemma VectorAsSaved(b: Build, s: State)
    requires Shaped(s) && Dirty(b.vpu, s.csr.mstatus, VS_OFFSET)
    ensures VectorBlock(b, AsSaved(b, s)) == CsrBlock(b.w, s.csr.(vstart := 0)) + FrameVector(b, s)
  {
    hide Field, CsrBlock, SavedVector;
  }

  // ----- eight bytes are four and four -----

  lemma FourBytes(v: int, k: nat)
    ensures Encode(v, 4 + k) == Encode(v, 4) + Encode(v / 0x1_0000_0000, k)
  {
    var v1, v2, v3 := v / 256, v / 256 / 256, v / 256 / 256 / 256;
    assert v3 / 256 == v / 0x1_0000_0000;
    assert Encode(v3, 1 + k) == [v3 % 256] + Encode(v3 / 256, k) && Encode(v3, 1) == [v3 % 256] + Encode(v3 / 256, 0);
    assert Encode(v2, 2 + k) == [v2 % 256] + Encode(v3, 1 + k) && Encode(v2, 2) == [v2 % 256] + Encode(v3, 1);
    assert Encode(v1, 3 + k) == [v1 % 256] + Encode(v2, 2 + k) && Encode(v1, 3) == [v1 % 256] + Encode(v2, 2);
    assert Encode(v, 4 + k) == [v % 256] + Encode(v1, 3 + k) && Encode(v, 4) == [v % 256] + Encode(v1, 3);
  }

  lemma {:induction false} ZeroBytes(n: nat)
    ensures Encode(0, n) == seq(n, _ => 0)
  {
    if n > 0 {
      ZeroBytes(n - 1);
    }
  }

  /** The last four bytes of fcsr, stored as a word of eight, are zero. */
  lemma FcsrBytes(fcsr: int)
    requires 0 <= fcsr < Cap(4)
    ensures Encode(fcsr, 8) == Encode(fcsr, 4) + Encode(0, 4)
  {
    hide Encode;
    assert fcsr / 0x1_0000_0000 == 0;
    FourBytes(fcsr, 4);
  }

  lemma HighBytes(v: int)
    ensures Encode(v, 8) == Encode(v, 4) + Encode(v / 0x1_0000_0000, 4)
    ensures Encode(High(v), 8) == Encode(0, 4) + Encode(v / 0x1_0000_0000, 4)
  {
    hide Encode;
    FourBytes(v, 4);
    FourBytes(High(v), 4);
    assert High(v) / 0x1_0000_0000 == v / 0x1_0000_0000;
    LowBytesZero(v / 0x1_0000_0000);
  }

  lemma LowBytesZero(q: int)
    ensures Encode(q * 0x1_0000_0000, 4) == Encode(0, 4)
  {
    var v0, v1, v2, v3 := q * 0x1_0000_0000, q * 0x100_0000, q * 0x1_0000, q * 0x100;
    assert v0 / 256 == v1 && v1 / 256 == v2 && v2 / 256 == v3;
    assert v0 % 256 == 0 && v1 % 256 == 0 && v2 % 256 == 0 && v3 % 256 == 0;
    assert Encode(v3, 1) == [0] + Encode(q, 0) && Encode(0, 1) == [0] + Encode(0, 0);
    assert Encode(v2, 2) == [0] + Encode(v3, 1) && Encode(0, 2) == [0] + Encode(0, 1);
    assert Encode(v1, 3) == [0] + Encode(v2, 2) && Encode(0, 3) == [0] + Encode(0, 2);
    assert Encode(v0, 4) == [0] + Encode(v1, 3) && Encode(0, 4) == [0] + Encode(0, 3);
  }

  // ----- the integer part as it ends up -----

  /** A write that reaches k bytes into what was written above it. */
  lemma PokeOver(m: Memory, a: int, bs: seq<int>, lo: seq<int>, over: seq<int>, rest: seq<int>)
    requires |over| + |rest| == |bs| && rest == bs[|over|..]
    ensures Peek(Poke(Poke(m, a, bs), a - |lo|, lo + over), a, |bs|) == over + rest
  {
    var m1 := Poke(m, a, bs);
    var p := Peek(Poke(m1, a - |lo|, lo + over), a, |bs|);
    forall i | 0 <= i < |bs| ensures p[i] == (over + rest)[i] {
      PokedByte(m1, a - |lo|, lo + over, a + i);
      PokedByte(m, a, bs, a + i);
    }
  }

  /** The integer part as it is on the stack: x1 keeps only its upper half. */
  lemma IntBlockOf(b: Build, x: seq<int>, nest: int)
    requires |x| == 32 && b.w.W == 8
    ensures IntBlock(b, x, nest)[..4] == Encode(x[1], 4)
    ensures IntBlock(b, x[1 := High(x[1])], nest) == Encode(0, 4) + IntBlock(b, x, nest)[4..]
  {
    hide Encode, High, Build.IntRegs, EncodeAll, Values;
    HighBytes(x[1]);
    IntRegsAre(b);
    IntRegsFirst(b);
    var y, tail := x[1 := High(x[1])], b.IntRegs()[1..];
    BytesOfFirst(x, b.IntRegs(), 8);
    BytesOfFirst(y, b.IntRegs(), 8);
    ValuesAgree(x, y, tail);
  }

  lemma NotFromX5(b: Build)
    ensures 1 !in b.FromX5()
  {
  }

  lemma IntRegsFirst(b: Build)
    ensures b.IntRegs()[0] == 1
    ensures 1 !in b.IntRegs()[1..]
  {
    NotFromX5(b);
    hide Build.FromX5;
    assert b.IntRegs()[1..] == b.FromX5();
  }

  lemma FloatBlockEnd(b: Build, f: seq<int>, fcsr: int)
    requires |f| == 32 && IsWidths(b.w) && b.w.W == 8 && b.w.F == 4 && 0 <= fcsr < Cap(4)
    ensures FloatBlock(b, f, fcsr) == (EncodeAll(Values(f, FloatRegs()), 4) + Encode(fcsr, 4)) + Encode(0, 4)
    ensures |EncodeAll(Values(f, FloatRegs()), 4) + Encode(fcsr, 4)| == b.FpuSize()
  {
    hide Encode, EncodeAll, Values, FloatRegs;
    FcsrBytes(fcsr);
    FloatBlockLength(b, f, fcsr);
  }

  /** After the floating-point part is stored, the integer part reads as that of AsSaved. */
  lemma IntsOverwritten(b: Build, s: State, nest: int)
    requires IsWidths(b.w) && IsState(b.w, s) && nest == Word(s.mem, b.xCriticalNesting, b.w.W)
    requires !PartsDisjoint(b, s.csr.mstatus)
    ensures var bs := IntBlock(b, IntsAsSaved(b, s), nest);
      Peek(FloatsMem(b, s), IntsAt(b, s) + 2 * b.w.W, |bs|) == bs
  {
    hide Poke, Peek, IntBlock, FloatBlock, Encode, EncodeAll, Values, FloatRegs, Field, Word, Csrs.Get;
    var at, bs := IntsAt(b, s) + 2 * b.w.W, IntBlock(b, s.x, nest);
    var lo := EncodeAll(Values(s.f, FloatRegs()), 4) + Encode(s.csr.fcsr, 4);
    FloatBlockEnd(b, s.f, s.csr.fcsr);
    IntBlockOf(b, s.x, nest);
    IntBlockLength(b, s.x, nest);
    PokeOver(s.mem, at, bs, lo, Encode(0, 4), bs[4..]);
  }

  lemma IntsReadBack(b: Build, s: State, nest: int)
    requires IsWidths(b.w) && IsState(b.w, s) && nest == Word(s.mem, b.xCriticalNesting, b.w.W)
    ensures var bs := IntBlock(b, IntsAsSaved(b, s), nest);
      Peek(PartsSaved(b, s), IntsAt(b, s) + 2 * b.w.W, |bs|) == bs
  {
    hide Poke, Peek, IntBlock, VectorMem, Field, Word, Csrs.Get, High, FloatsMem;
    if PartsDisjoint(b, s.csr.mstatus) {
      IntsSurvive(b, s, nest);
    } else {
      var at, bs := IntsAt(b, s) + 2 * b.w.W, IntBlock(b, IntsAsSaved(b, s), nest);
      IntsOverwritten(b, s, nest);
      if Dirty(b.vpu, s.csr.mstatus, VS_OFFSET) {
        VectorMemBeside(b, s, FloatsMem(b, s), FrameAt(b, s), at, |bs|);
      }
    }
  }

  lemma IntsInFrame(b: Build, s: State, pc: int, nest: int)
    requires IsWidths(b.w) && IsState(b.w, s) && Fits(b, s) && nest == Word(s.mem, b.xCriticalNesting, b.w.W)
    ensures var bs := IntBlock(b, IntsAsSaved(b, s), nest);
      Peek(Saved(b, s, pc), IntsAt(b, s) + 2 * b.w.W, |bs|) == bs
  {
    hide Poke, Peek, Field, PartsSaved, Csrs.Get, IntBlock, Saved, Word, Fits, AsSaved, IntsAsSaved;
    StateIsReady(b, s);
    SameLayout(b, s);
    FrameOrder(b, s);
    hide FrameAt, IntsAt, FloatsAt;
    IntBlockLength(b, AsSaved(b, s).x, nest);
    IntsReadBack(b, s, nest);
    LastStores(b, s, pc, IntsAt(b, s) + 2 * b.w.W, |IntBlock(b, IntsAsSaved(b, s), nest)|);
  }

  /** After any save the context on the stack is AsSaved. */
  lemma SavedIsFrame(b: Build, s: State, pc: int)
    requires IsWidths(b.w) && IsState(b.w, s) && Fits(b, s)
    ensures Frame(b, Saved(b, s, pc), AsSaved(b, s), pc, Word(s.mem, b.xCriticalNesting, b.w.W))
  {
    hide Poke, Peek, Field, PartsSaved, Csrs.Get, Encode, IntBlock, FloatBlock, VectorBlock;
    hide Saved, Word, Fits, PartsDisjoint, High, IntsAsSaved, CsrBlock, FrameVector;
    StateIsReady(b, s);
    SameLayout(b, s);
    hide FrameAt, FloatsAt, IntsAt, AsSaved;
    LowestWords(b, s, pc);
    IntsInFrame(b, s, pc, Word(s.mem, b.xCriticalNesting, b.w.W));
    if Dirty(b.fpu, s.csr.mstatus, FS_OFFSET) {
      FloatsInFrame(b, s, pc);
    }
    if Dirty(b.vpu, s.csr.mstatus, VS_OFFSET) {
      VectorsInFrame(b, s, pc);
      VectorAsSaved(b, s);
      VectorPartLength(b, s);
    }
  }

  lemma VectorPartLength(b: Build, s: State)
    requires Ready(b, s)
    ensures |CsrBlock(b.w, s.csr.(vstart := 0)) + FrameVector(b, s)| == b.VpuSize()
  {
    hide CsrBlock, CsrsFit, SavedVector;
    SavedVectorIs(b, s, s.mem, FrameAt(b, s));
  }
}
