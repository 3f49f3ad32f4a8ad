/** The part of a RISC-V hart that a context switch touches, and the instructions it uses. */
module Hart {

  // ----- byte memory -----

  type Memory = map<int, int>

  function Byte(m: Memory, a: int): int {
    if a in m then m[a] else 0
  }

  function Peek(m: Memory, a: int, n: nat): (bs: seq<int>)
    ensures |bs| == n
  {
    seq<int>(n, i requires 0 <= i < n => Byte(m, a + i))
  }

  function Poke(m: Memory, a: int, bs: seq<int>): Memory
    decreases |bs|
  {
    if bs == [] then m else Poke(m[a := bs[0]], a + 1, bs[1..])
  }

  lemma {:induction false} PokedByte(m: Memory, a: int, bs: seq<int>, k: int)
    ensures Byte(Poke(m, a, bs), k) == if a <= k < a + |bs| then bs[k - a] else Byte(m, k)
    ensures k in Poke(m, a, bs) <==> k in m || a <= k < a + |bs|
    decreases |bs|
  {
    if bs != [] {
      PokedByte(m[a := bs[0]], a + 1, bs[1..], k);
    }
  }

  lemma PeekPoked(m: Memory, a: int, bs: seq<int>)
    ensures Peek(Poke(m, a, bs), a, |bs|) == bs
  {
    var p := Peek(Poke(m, a, bs), a, |bs|);
    forall i | 0 <= i < |bs| ensures p[i] == bs[i] {
      PokedByte(m, a, bs, a + i);
    }
  }

  lemma PeekBeside(m: Memory, a: int, bs: seq<int>, b: int, n: nat)
    requires b + n <= a || a + |bs| <= b
    ensures Peek(Poke(m, a, bs), b, n) == Peek(m, b, n)
  {
    var p, q := Peek(Poke(m, a, bs), b, n), Peek(m, b, n);
    forall i | 0 <= i < n ensures p[i] == q[i] {
      PokedByte(m, a, bs, b + i);
    }
  }

  lemma {:induction false} PokeAppend(m: Memory, a: int, bs: seq<int>, cs: seq<int>)
    ensures Poke(Poke(m, a, bs), a + |bs|, cs) == Poke(m, a, bs + cs)
    decreases |bs|
  {
    if bs == [] {
      assert bs + cs == cs;
    } else {
      assert (bs + cs)[1..] == bs[1..] + cs;
      PokeAppend(m[a := bs[0]], a + 1, bs[1..], cs);
    }
  }

  lemma PokePrepend(m: Memory, a: int, bs: seq<int>, cs: seq<int>)
    ensures Poke(Poke(m, a + |bs|, cs), a, bs) == Poke(m, a, bs + cs)
  {
    var l, r := Poke(Poke(m, a + |bs|, cs), a, bs), Poke(m, a, bs + cs);
    forall k ensures (k in l <==> k in r) && Byte(l, k) == Byte(r, k) {
      PokedByte(m, a + |bs|, cs, k);
      PokedByte(Poke(m, a + |bs|, cs), a, bs, k);
      PokedByte(m, a, bs + cs, k);
    }
    SameBytes(l, r);
  }

  lemma SameBytes(l: Memory, r: Memory)
    requires forall k :: (k in l <==> k in r) && Byte(l, k) == Byte(r, k)
    ensures l == r
  {
    forall k | k in l.Keys ensures k in r.Keys && l[k] == r[k] {
      assert k in l && Byte(l, k) == Byte(r, k);
    }
    forall k | k in r.Keys ensures k in l.Keys {
      assert k in r && Byte(l, k) == Byte(r, k);
    }
  }

  lemma PeekSplit(m: Memory, a: int, n: nat, k: nat)
    ensures Peek(m, a, n + k) == Peek(m, a, n) + Peek(m, a + n, k)
  {
  }

  // ----- little-endian values -----

  function Encode(v: int, n: nat): (bs: seq<int>)
    ensures |bs| == n
    decreases n
  {
    if n == 0 then [] else [v % 256] + Encode(v / 256, n - 1)
  }

  function Decode(bs: seq<int>): int {
    if bs == [] then 0 else bs[0] + 256 * Decode(bs[1..])
  }

  function Pow256(n: nat): int {
    if n == 0 then 1 else 256 * Pow256(n - 1)
  }

  lemma {:induction false} DecodeEncoded(v: int, n: nat)
    requires 0 <= v < Pow256(n)
    ensures Decode(Encode(v, n)) == v
    decreases n
  {
    if n > 0 {
      DecodeEncoded(v / 256, n - 1);
    }
  }

  function EncodeAll(vs: seq<int>, n: nat): seq<int> {
    if vs == [] then [] else Encode(vs[0], n) + EncodeAll(vs[1..], n)
  }

  /** k registers of n bytes. */
  function Bytes(k: int, n: nat): int {
    if n == 4 then 4 * k else 8 * k
  }

  lemma {:induction false} EncodeAllLength(vs: seq<int>, n: nat)
    requires n == 4 || n == 8
    ensures |EncodeAll(vs, n)| == Bytes(|vs|, n)
  {
    if vs != [] {
      EncodeAllLength(vs[1..], n);
    }
  }

  /** How many values a register of n bytes can hold. */
  function Cap(n: nat): int {
    if n == 4 then 0x1_0000_0000 else 0x1_0000_0000_0000_0000
  }

  lemma DecodeRegister(v: int, n: nat)
    requires (n == 4 || n == 8) && 0 <= v < Cap(n)
    ensures Decode(Encode(v, n)) == v
  {
    assert Pow256(4) == 256 * (256 * (256 * (256 * Pow256(0))));
    assert Pow256(8) == 256 * (256 * (256 * (256 * Pow256(4))));
    DecodeEncoded(v, n);
  }

  // ----- bitwise operations -----

  function BitAnd(a: int, b: int): int
    decreases a
  {
    if a <= 0 || b <= 0 then 0 else (if a % 2 == 1 && b % 2 == 1 then 1 else 0) + 2 * BitAnd(a / 2, b / 2)
  }

  function BitOr(a: int, b: int): int
    decreases a
  {
    if a <= 0 then b else if b <= 0 then a
    else (if a % 2 == 1 || b % 2 == 1 then 1 else 0) + 2 * BitOr(a / 2, b / 2)
  }

  // ----- the hart -----

  datatype Csr = Mstatus | Mepc | Mcause | Fcsr | Vlenb | Vstart | Vcsr | Vl | Vtype

  datatype Csrs = Csrs(mstatus: int, mepc: int, mcause: int, fcsr: int,
                       vlenb: int, vstart: int, vcsr: int, vl: int, vtype: int)
  {
    function Get(r: Csr): int {
      match r
      case Mstatus => mstatus
      case Mepc => mepc
      case Mcause => mcause
      case Fcsr => fcsr
      case Vlenb => vlenb
      case Vstart => vstart
      case Vcsr => vcsr
      case Vl => vl
      case Vtype => vtype
    }

    function Set(r: Csr, v: int): Csrs {
      match r
      case Mstatus => this.(mstatus := v)
      case Mepc => this.(mepc := v)
      case Mcause => this.(mcause := v)
      case Fcsr => this.(fcsr := Trunc(v, 4))
      case Vlenb => this
      case Vstart => this.(vstart := v)
      case Vcsr => this.(vcsr := v)
      case Vl => this.(vl := v)
      case Vtype => this.(vtype := v)
    }
  }

  /** W is portWORD_SIZE, F is portFPU_REG_SIZE, in bytes; vlen is vlenb. */
  datatype Widths = Widths(W: nat, F: nat, vlen: nat)

  /** A vector register has at most 65536 bits. */
  const MAX_VLENB: nat := 8192

  predicate IsWidths(w: Widths) {
    (w.W == 4 || w.W == 8) && (w.F == 4 || w.F == 8) && w.vlen <= MAX_VLENB
  }

  /** Integer registers, floating-point registers, the bytes of v0 to v31, CSRs, memory. */
  datatype State = State(x: seq<int>, f: seq<int>, v: seq<int>, csr: Csrs, mem: Memory)

  ghost predicate IsState(w: Widths, s: State) {
    && |s.x| == 32 && s.x[0] == 0 && (forall r :: 0 <= r < 32 ==> 0 <= s.x[r] < Cap(w.W))
    && |s.f| == 32 && (forall r :: 0 <= r < 32 ==> 0 <= s.f[r] < Cap(w.F))
    && |s.v| == 32 * w.vlen
    && s.csr.vlenb == w.vlen && 0 <= s.csr.fcsr < Cap(4)
    && forall c: Csr :: 0 <= s.csr.Get(c) < Cap(w.W)
  }

  type Reg = r: nat | r < 32

  datatype Instr =
    | Addi(rd: Reg, rs: Reg, imm: int)
    | Add(rd: Reg, rs1: Reg, rs2: Reg)
    | Neg(rd: Reg, rs: Reg)
    | Slli(rd: Reg, rs: Reg, sh: nat)
    | Srli(rd: Reg, rs: Reg, sh: nat)
    | Andi(rd: Reg, rs: Reg, mask: int)
    | And(rd: Reg, rs1: Reg, rs2: Reg)
    | Or(rd: Reg, rs1: Reg, rs2: Reg)
    | Li(rd: Reg, imm: int)
    | StoreX(rs2: Reg, off: int, base: Reg)
    | LoadX(rd: Reg, off: int, base: Reg)
    | LoadSym(rd: Reg, addr: int)
    | StoreF(fs: Reg, off: int, base: Reg)
    | LoadF(fd: Reg, off: int, base: Reg)
    | Csrr(rd: Reg, csr: Csr)
    | Csrw(csr: Csr, rs: Reg)
    | Vs8r(v: nat, base: Reg)
    | Vl8r(v: nat, base: Reg)
    | Vsetvl(rs1: Reg, rs2: Reg)
    | Bne(rs1: Reg, rs2: Reg, skip: nat)

  function Trunc(v: int, n: nat): int {
    if n == 4 then v % 0x1_0000_0000 else v % 0x1_0000_0000_0000_0000
  }

  function Shr(a: int, sh: nat): (q: int)
    ensures a >= 0 ==> 0 <= q <= a
    decreases sh
  {
    if sh == 0 then a else Shr(a / 2, sh - 1)
  }

  function Shl(a: int, sh: nat): int
    decreases sh
  {
    if sh == 0 then a else Shl(2 * a, sh - 1)
  }

  function SetX(w: Widths, s: State, rd: Reg, v: int): (s': State)
    requires |s.x| == 32
    ensures |s'.x| == 32
  {
    if rd == 0 then s else s.(x := s.x[rd := Trunc(v, w.W)])
  }

  function Addr(w: Widths, s: State, base: Reg, off: int): int
    requires |s.x| == 32
  {
    Trunc(s.x[base] + off, w.W)
  }

  /** v with bs at byte k; a group that does not fit leaves it alone. */
  function WithGroup(v: seq<int>, k: nat, bs: seq<int>): (r: seq<int>)
    ensures |r| == |v|
  {
    if k + |bs| <= |v| then v[..k] + bs + v[k + |bs|..] else v
  }

  function Group(v: seq<int>, k: nat, n: nat): (r: seq<int>)
  {
    if k + n <= |v| then v[k..k + n] else []
  }

  // A vector instruction starts at element vstart, here a byte, and resets vstart to 0 when it ends.

  /** m with the bytes of bs at a, but for the first `start` of them. */
  function From(m: Memory, a: int, bs: seq<int>, start: int): Memory {
    if start <= 0 then Poke(m, a, bs) else if start < |bs| then Poke(m, a + start, bs[start..]) else m
  }

  /** The first `start` elements of x, then those of y. */
  function Tail(x: seq<int>, y: seq<int>, start: int): seq<int> {
    if start <= 0 || |x| != |y| then y else if start < |y| then x[..start] + y[start..] else x
  }

  ghost predicate Shaped(s: State) {
    |s.x| == 32 && |s.f| == 32
  }

  /** One instruction; a branch by itself changes no register. */
  function Step(w: Widths, i: Instr, s: State): (s': State)
    requires Shaped(s)
    ensures Shaped(s')
  {
    match i
    case Addi(rd, rs, imm) => SetX(w, s, rd, s.x[rs] + imm)
    case Add(rd, rs1, rs2) => SetX(w, s, rd, s.x[rs1] + s.x[rs2])
    case Neg(rd, rs) => SetX(w, s, rd, -s.x[rs])
    case Slli(rd, rs, sh) => SetX(w, s, rd, Shl(s.x[rs], sh))
    case Srli(rd, rs, sh) => SetX(w, s, rd, Shr(s.x[rs], sh))
    case Andi(rd, rs, mask) => SetX(w, s, rd, BitAnd(s.x[rs], mask))
    case And(rd, rs1, rs2) => SetX(w, s, rd, BitAnd(s.x[rs1], s.x[rs2]))
    case Or(rd, rs1, rs2) => SetX(w, s, rd, BitOr(s.x[rs1], s.x[rs2]))
    case Li(rd, imm) => SetX(w, s, rd, imm)
    case StoreX(rs, off, base) => s.(mem := Poke(s.mem, Addr(w, s, base, off), Encode(s.x[rs], w.W)))
    case LoadX(rd, off, base) => SetX(w, s, rd, Decode(Peek(s.mem, Addr(w, s, base, off), w.W)))
    case LoadSym(rd, addr) => SetX(w, s, rd, Decode(Peek(s.mem, addr, w.W)))
    case StoreF(fs, off, base) => s.(mem := Poke(s.mem, Addr(w, s, base, off), Encode(s.f[fs], w.F)))
    case LoadF(fd, off, base) => s.(f := s.f[fd := Trunc(Decode(Peek(s.mem, Addr(w, s, base, off), w.F)), w.F)])
    case Csrr(rd, csr) => SetX(w, s, rd, s.csr.Get(csr))
    case Csrw(csr, rs) => s.(csr := s.csr.Set(csr, s.x[rs]))
    case Vs8r(v, base) =>
      s.(mem := From(s.mem, Addr(w, s, base, 0), Group(s.v, v * w.vlen, 8 * w.vlen), s.csr.vstart),
         csr := s.csr.(vstart := 0))
    case Vl8r(v, base) =>
      var old_, new_ := Group(s.v, v * w.vlen, 8 * w.vlen), Peek(s.mem, Addr(w, s, base, 0), 8 * w.vlen);
      s.(v := WithGroup(s.v, v * w.vlen, Tail(old_, new_, s.csr.vstart)), csr := s.csr.(vstart := 0))
    case Vsetvl(rs1, rs2) => s.(csr := s.csr.(vl := s.x[rs1], vtype := s.x[rs2], vstart := 0))
    case Bne(_, _, _) => s
  }

  type Program = seq<Instr>

  /** Run a program from its first instruction to its end; a taken branch skips forward. */
  function Exec(w: Widths, p: Program, s: State): (s': State)
    requires Shaped(s)
    ensures Shaped(s')
    decreases |p|
  {
    if p == [] then s
    else if p[0].Bne? && s.x[p[0].rs1] != s.x[p[0].rs2] then
      if p[0].skip < |p| then Exec(w, p[1 + p[0].skip..], s) else s
    else Exec(w, p[1..], Step(w, p[0], s))
  }

  /** Every branch lands inside the program or just after it. */
  ghost predicate Closed(p: Program) {
    forall i :: 0 <= i < |p| && p[i].Bne? ==> i + 1 + p[i].skip <= |p|
  }

  lemma {:induction false} ExecAppend(w: Widths, p: Program, q: Program, s: State)
    requires Shaped(s) && Closed(p)
    ensures Exec(w, p + q, s) == Exec(w, q, Exec(w, p, s))
    decreases |p|
  {
    hide Step;
    if p == [] {
      assert p + q == q;
    } else if p[0].Bne? && s.x[p[0].rs1] != s.x[p[0].rs2] {
      var k := 1 + p[0].skip;
      assert (p + q)[k..] == p[k..] + q;
      ExecAppend(w, p[k..], q, s);
    } else {
      assert (p + q)[1..] == p[1..] + q;
      ExecAppend(w, p[1..], q, Step(w, p[0], s));
    }
  }

  lemma ExecOne(w: Widths, i: Instr, s: State)
    requires Shaped(s) && !i.Bne?
    ensures Exec(w, [i], s) == Step(w, i, s)
  {
  }

  lemma ExecTwo(w: Widths, i: Instr, j: Instr, s: State)
    requires Shaped(s) && !i.Bne? && !j.Bne?
    ensures Exec(w, [i, j], s) == Step(w, j, Step(w, i, s))
  {
    assert [i, j] == [i] + [j];
    ExecAppend(w, [i], [j], s);
    ExecOne(w, i, s);
    ExecOne(w, j, Step(w, i, s));
  }

  lemma ExecThree(w: Widths, i: Instr, j: Instr, k: Instr, s: State)
    requires Shaped(s) && !i.Bne? && !j.Bne? && !k.Bne?
    ensures Exec(w, [i, j, k], s) == Step(w, k, Step(w, j, Step(w, i, s)))
  {
    assert [i, j, k] == [i, j] + [k];
    ExecAppend(w, [i, j], [k], s);
    ExecTwo(w, i, j, s);
    ExecOne(w, k, Step(w, j, Step(w, i, s)));
  }

  // ----- every register keeps to its width -----

  lemma SetXKeepsState(w: Widths, s: State, rd: Reg, v: int)
    requires IsWidths(w) && IsState(w, s)
    ensures IsState(w, SetX(w, s, rd, v))
  {
    hide Csrs.Get;
  }

  lemma SetCsrKeepsState(w: Widths, s: State, c: Csr, v: int)
    requires IsWidths(w) && IsState(w, s) && 0 <= v < Cap(w.W)
    ensures IsState(w, s.(csr := s.csr.Set(c, v)))
  {
    forall r: Csr ensures 0 <= s.csr.Set(c, v).Get(r) < Cap(w.W) {
      assert 0 <= s.csr.Get(r) < Cap(w.W);
    }
  }

  lemma VsetvlKeepsState(w: Widths, s: State, vl: int, vtype: int)
    requires IsWidths(w) && IsState(w, s) && 0 <= vl < Cap(w.W) && 0 <= vtype < Cap(w.W)
    ensures IsState(w, s.(csr := s.csr.(vl := vl, vtype := vtype, vstart := 0)))
  {
    forall r: Csr ensures 0 <= s.csr.(vl := vl, vtype := vtype, vstart := 0).Get(r) < Cap(w.W) {
      assert 0 <= s.csr.Get(r) < Cap(w.W);
    }
  }

  lemma SetFKeepsState(w: Widths, s: State, fd: Reg, v: int)
    requires IsWidths(w) && IsState(w, s)
    ensures IsState(w, s.(f := s.f[fd := Trunc(v, w.F)]))
  {
    hide Csrs.Get;
  }

  lemma SetMemoryKeepsState(w: Widths, s: State, m: Memory)
    requires IsState(w, s)
    ensures IsState(w, s.(mem := m))
  {
    hide Csrs.Get;
  }

  lemma VectorKeepsState(w: Widths, s: State, m: Memory, v: seq<int>)
    requires IsWidths(w) && IsState(w, s) && |v| == |s.v|
    ensures IsState(w, s.(mem := m, v := v, csr := s.csr.(vstart := 0)))
  {
    forall r: Csr ensures 0 <= s.csr.(vstart := 0).Get(r) < Cap(w.W) {
      assert 0 <= s.csr.Get(r) < Cap(w.W);
    }
  }

  /** The instructions that compute an integer register from integer registers. */
  predicate Computes(i: Instr) {
    i.Addi? || i.Add? || i.Neg? || i.Slli? || i.Srli? || i.Andi? || i.And? || i.Or? || i.Li?
  }

  lemma ComputeKeepsState(w: Widths, i: Instr, s: State)
    requires IsWidths(w) && IsState(w, s) && Computes(i)
    ensures IsState(w, Step(w, i, s))
  {
    assert Shaped(s);
    hide IsState, SetX, BitAnd, BitOr, Shl, Shr, Trunc;
    match i
    case Addi(rd, rs, imm) => SetXKeepsState(w, s, rd, s.x[rs] + imm);
    case Add(rd, rs1, rs2) => SetXKeepsState(w, s, rd, s.x[rs1] + s.x[rs2]);
    case Neg(rd, rs) => SetXKeepsState(w, s, rd, -s.x[rs]);
    case Slli(rd, rs, sh) => SetXKeepsState(w, s, rd, Shl(s.x[rs], sh));
    case Srli(rd, rs, sh) => SetXKeepsState(w, s, rd, Shr(s.x[rs], sh));
    case Andi(rd, rs, mask) => SetXKeepsState(w, s, rd, BitAnd(s.x[rs], mask));
    case And(rd, rs1, rs2) => SetXKeepsState(w, s, rd, BitAnd(s.x[rs1], s.x[rs2]));
    case Or(rd, rs1, rs2) => SetXKeepsState(w, s, rd, BitOr(s.x[rs1], s.x[rs2]));
    case Li(rd, imm) => SetXKeepsState(w, s, rd, imm);
  }

  /** The instructions that touch memory. */
  predicate Moves(i: Instr) {
    i.StoreX? || i.LoadX? || i.LoadSym? || i.StoreF? || i.LoadF? || i.Vs8r? || i.Vl8r?
  }

  lemma MoveKeepsState(w: Widths, i: Instr, s: State)
    requires IsWidths(w) && IsState(w, s) && Moves(i)
    ensures IsState(w, Step(w, i, s))
  {
    assert Shaped(s);
    hide IsState, SetX, Poke, Peek, Encode, Decode, Group, WithGroup, Trunc, Addr, From, Tail;
    match i
    case StoreX(_, _, _) => SetMemoryKeepsState(w, s, Step(w, i, s).mem);
    case StoreF(_, _, _) => SetMemoryKeepsState(w, s, Step(w, i, s).mem);
    case Vs8r(_, _) => VectorKeepsState(w, s, Step(w, i, s).mem, s.v);
    case Vl8r(_, _) => VectorKeepsState(w, s, s.mem, Step(w, i, s).v);
    case LoadX(rd, off, base) => SetXKeepsState(w, s, rd, Decode(Peek(s.mem, Addr(w, s, base, off), w.W)));
    case LoadSym(rd, addr) => SetXKeepsState(w, s, rd, Decode(Peek(s.mem, addr, w.W)));
    case LoadF(fd, off, base) => SetFKeepsState(w, s, fd, Decode(Peek(s.mem, Addr(w, s, base, off), w.F)));
  }

  lemma StepKeepsState(w: Widths, i: Instr, s: State)
    requires IsWidths(w) && IsState(w, s)
    ensures IsState(w, Step(w, i, s))
  {
    if Computes(i) {
      ComputeKeepsState(w, i, s);
    } else if Moves(i) {
      MoveKeepsState(w, i, s);
    } else {
      assert Shaped(s) && forall r: Reg :: 0 <= s.x[r] < Cap(w.W);
      hide IsState, SetX, Csrs.Get, Csrs.Set, Cap;
      match i
      case Csrr(rd, csr) => SetXKeepsState(w, s, rd, s.csr.Get(csr));
      case Csrw(csr, rs) => SetCsrKeepsState(w, s, csr, s.x[rs]);
      case Vsetvl(rs1, rs2) => VsetvlKeepsState(w, s, s.x[rs1], s.x[rs2]);
      case Bne(_, _, _) =>
    }
  }

  lemma {:induction false} ExecKeepsState(w: Widths, p: Program, s: State)
    requires IsWidths(w) && IsState(w, s)
    ensures IsState(w, Exec(w, p, s))
    decreases |p|
  {
    assert Shaped(s);
    hide Step, IsState;
    if p == [] {
    } else if p[0].Bne? && s.x[p[0].rs1] != s.x[p[0].rs2] {
      if p[0].skip < |p| {
        ExecKeepsState(w, p[1 + p[0].skip..], s);
      }
    } else {
      StepKeepsState(w, p[0], s);
      ExecKeepsState(w, p[1..], Step(w, p[0], s));
    }
  }

  /** The machine itself: the fields of the state, changed in place one instruction at a time. */
  class Core {
    const w: Widths
    var x: seq<int>
    var f: seq<int>
    var v: seq<int>
    var csr: Csrs
    var mem: Memory

    function View(): State
      reads this
    {
      State(x, f, v, csr, mem)
    }

    method SetState(s: State)
      modifies this
      ensures View() == s
    {
      x, f, v, csr, mem := s.x, s.f, s.v, s.csr, s.mem;
    }

    method Execute(p: Program)
      requires Shaped(View())
      modifies this
      ensures View() == Exec(w, p, old(View()))
    {
      var pc := 0;
      while pc < |p|
        invariant 0 <= pc <= |p| && Shaped(View())
        invariant Exec(w, p[pc..], View()) == Exec(w, p, old(View()))
        decreases |p| - pc
      {
        assert p[pc..][0] == p[pc] && p[pc..][1..] == p[pc + 1..];
        var i := p[pc];
        if i.Bne? && x[i.rs1] != x[i.rs2] {
          assert pc + 1 + i.skip <= |p| ==> p[pc..][1 + i.skip..] == p[pc + 1 + i.skip..];
          pc := if i.skip < |p| - pc then pc + 1 + i.skip else |p|;
        } else {
          SetState(Step(w, i, View()));
          pc := pc + 1;
        }
      }
    }
  }
}
