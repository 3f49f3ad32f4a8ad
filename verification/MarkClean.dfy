/** Marking a dirty status field clean in the live mstatus, bit by bit. */
module MarkingClean {
  import opened Arith
  import opened Hart
  import opened PortContext
  import opened ContextSteps
  import opened ContextSave

  function Ones(k: nat): (n: int)
    ensures n >= 0
  {
    if k == 0 then 0 else 1 + 2 * Ones(k - 1)
  }

  lemma AndOdd(m: int, r: int)
    requires m > 0 && r >= 0
    ensures BitAnd(m, 1 + 2 * r) == m % 2 + 2 * BitAnd(m / 2, r)
  {
    assert (1 + 2 * r) / 2 == r && (1 + 2 * r) % 2 == 1;
  }

  lemma {:induction false} AndOnes(m: int, k: nat)
    requires 0 <= m <= Ones(k)
    ensures BitAnd(m, Ones(k)) == m
    decreases k
  {
    if m > 0 {
      AndOdd(m, Ones(k - 1));
      AndOnes(m / 2, k - 1);
      hide BitAnd;
    }
  }

  /** Masking out a two-bit field that reads 3 and setting it to 2 takes one unit of it away. */
  lemma {:induction false} ClearAndSet(m: int, k: nat, sh: nat)
    requires 0 <= m <= Ones(k) && sh + 2 <= k && Shr(m, sh) % 4 == 3
    ensures 0 <= Ones(k) - 3 * Two(sh)
    ensures BitOr(BitAnd(m, Ones(k) - 3 * Two(sh)), 2 * Two(sh)) == m - Two(sh)
    decreases sh
  {
    hide BitAnd, BitOr;
    if sh == 0 {
      ClearAndSetLowest(m, k);
    } else {
      HalfOfOnes(m, k);
      ClearAndSet(m / 2, k - 1, sh - 1);
      var rest := Ones(k - 1) - 3 * Two(sh - 1);
      assert Ones(k) - 3 * Two(sh) == 1 + 2 * rest;
      AndDouble(m, rest);
      OrDouble(m % 2, BitAnd(m / 2, rest), 2 * Two(sh - 1));
    }
  }

  lemma HalfOfOnes(m: int, k: nat)
    requires 0 <= m <= Ones(k) && k > 0
    ensures 0 <= m / 2 <= Ones(k - 1)
  {
  }

  lemma ClearAndSetLowest(m: int, k: nat)
    requires 0 <= m <= Ones(k) && k >= 2 && m % 4 == 3
    ensures BitOr(BitAnd(m, Ones(k) - 3), 2) == m - 1
  {
    var q, ones := m / 4, Ones(k - 2);
    assert Ones(k) == 3 + 4 * ones && m == 4 * q + 3;
    AndOnes(q, k - 2);
    AndQuadruple(q, ones);
    OrTwo(q);
  }

  lemma AndEven(a: int, b: int)
    requires a >= 0 && b >= 0
    ensures BitAnd(2 * a + 1, 2 * b) == 2 * BitAnd(a, b)
  {
    assert (2 * a + 1) / 2 == a && (2 * b) / 2 == b;
  }

  lemma AndQuadruple(q: int, r: int)
    requires q >= 0 && r >= 0
    ensures BitAnd(4 * q + 3, 4 * r) == 4 * BitAnd(q, r)
  {
    hide BitAnd;
    AndEven(q, r);
    AndEven(2 * q + 1, 2 * r);
  }

  lemma AndDouble(m: int, r: int)
    requires m >= 0 && r >= 0
    ensures BitAnd(m, 1 + 2 * r) == m % 2 + 2 * BitAnd(m / 2, r) && BitAnd(m / 2, r) >= 0
  {
    AndNonNegative(m / 2, r);
    if m > 0 {
      hide BitAnd;
      AndOdd(m, r);
    }
  }

  lemma {:induction false} AndNonNegative(a: int, b: int)
    ensures BitAnd(a, b) >= 0
    decreases a
  {
    if a > 0 && b > 0 {
      AndNonNegative(a / 2, b / 2);
    }
  }

  lemma OrTwo(q: int)
    requires q >= 0
    ensures BitOr(4 * q, 2) == 4 * q + 2
  {
    if q > 0 {
      assert BitOr(4 * q, 2) == 2 * BitOr(2 * q, 1);
      assert BitOr(2 * q, 1) == 1 + 2 * BitOr(q, 0);
    }
  }

  lemma OrDouble(c: int, a: int, b: int)
    requires 0 <= c <= 1 && a >= 0 && b > 0
    ensures BitOr(c + 2 * a, 2 * b) == c + 2 * BitOr(a, b)
  {
  }

  lemma OnesOfRegister(n: nat)
    requires n == 4 || n == 8
    ensures Ones(8 * n) == Cap(n) - 1
  {
    hide Ones;
    NoOnes();
    EightMore(0);
    EightMore(8);
    EightMore(16);
    EightMore(24);
    EightMore(32);
    EightMore(40);
    EightMore(48);
    EightMore(56);
  }

  lemma NoOnes()
    ensures Ones(0) == 0
  {
  }

  lemma EightMore(k: nat)
    ensures Ones(k + 8) == 255 + 256 * Ones(k)
  {
    assert Ones(k + 4) == 1 + 2 * (1 + 2 * (1 + 2 * (1 + 2 * Ones(k)))) by {
      assert Ones(k + 2) == 1 + 2 * (1 + 2 * Ones(k));
    }
    assert Ones(k + 6) == 1 + 2 * (1 + 2 * Ones(k + 4));
  }

  lemma TwoIs(sh: nat)
    requires sh == FS_OFFSET || sh == VS_OFFSET
    ensures Two(sh) == if sh == FS_OFFSET then 0x2000 else 0x200
  {
    assert Two(4) == 16 by {
      assert Two(2) == 4;
    }
    assert Two(8) == 256 by {
      assert Two(6) == 64;
    }
    assert Two(9) == 512;
    assert Two(11) == 2048;
    assert Two(13) == 0x2000;
  }

  /** The live mstatus after MarkClean: the field goes from dirty to clean, nothing else changes. */
  function Cleaned(m: int, sh: nat): int {
    if Field(m, sh) == 3 then m - Two(sh) else m
  }

  predicate IsField(sh: nat, mask: int, clean: int) {
    (sh == FS_OFFSET && mask == FS_MASK && clean == FS_CLEAN) || (sh == VS_OFFSET && mask == VS_MASK && clean == VS_CLEAN)
  }

  lemma MaskedValue(n: nat, m: int, sh: nat, mask: int, clean: int)
    requires (n == 4 || n == 8) && 0 <= m < Cap(n) && Field(m, sh) == 3 && IsField(sh, mask, clean)
    ensures BitOr(BitAnd(m, Trunc(-1 - mask, n)), clean) == Cleaned(m, sh)
    ensures 0 <= BitAnd(m, Trunc(-1 - mask, n)) < Cap(n)
    ensures 0 <= Cleaned(m, sh) < Cap(n)
  {
    hide BitAnd, BitOr, Ones, Two, Shr;
    TwoIs(sh);
    OnesOfRegister(n);
    MaskIs(n, mask);
    ClearAndSet(m, 8 * n, sh);
    AndAtMost(m, Cap(n) - 1 - mask);
    ShrAtLeast(m, sh);
  }

  lemma MaskIs(n: nat, mask: int)
    requires (n == 4 || n == 8) && 0 <= mask < 0x1_0000
    ensures Trunc(-1 - mask, n) == Cap(n) - 1 - mask
  {
  }

  lemma {:induction false} AndAtMost(a: int, b: int)
    requires a >= 0
    ensures 0 <= BitAnd(a, b) <= a
    decreases a
  {
    if a > 0 && b > 0 {
      AndAtMost(a / 2, b / 2);
    }
  }

  lemma {:induction false} ShrAtLeast(m: int, sh: nat)
    requires m >= 0 && Shr(m, sh) >= 1
    ensures m >= Two(sh)
    decreases sh
  {
    if sh > 0 {
      ShrAtLeast(m / 2, sh - 1);
    }
  }

  function MarkedClean(s: State, sh: nat, clean: int): State
    requires Shaped(s)
  {
    var m := Cleaned(s.x[T0], sh);
    s.(x := s.x[T0 := m][T1 := clean], csr := s.csr.(mstatus := m))
  }

  lemma SetAgain(x: seq<int>, u: int, v: int, clean: int, m: int)
    requires |x| == 32
    ensures x[T1 := u][T0 := v][T1 := clean][T0 := m] == x[T0 := m][T1 := clean]
  {
  }

  lemma MarkCleanParts(mask: int, clean: int)
    ensures MarkClean(mask, clean) ==
      [Li(T1, -1 - mask), And(T0, T0, T1)] + [Li(T1, clean), Or(T0, T0, T1)] + [Csrw(Mstatus, T0)]
  {
  }

  lemma MarkCleanEffect(w: Widths, s: State, sh: nat, mask: int, clean: int)
    requires IsWidths(w) && Shaped(s) && 0 <= s.x[T0] < Cap(w.W)
    requires Field(s.x[T0], sh) == 3 && IsField(sh, mask, clean)
    ensures Runs(w, MarkClean(mask, clean), s, MarkedClean(s, sh, clean))
  {
    var m, mask1 := s.x[T0], Trunc(-1 - mask, w.W);
    MaskedValue(w.W, m, sh, mask, clean);
    hide BitAnd, BitOr, Cleaned, Field, Runs, MarkClean, Trunc, Step;
    var a := BitAnd(m, mask1);
    LiAnd(w, s, -1 - mask);
    var s1 := s.(x := s.x[T1 := mask1][T0 := a]);
    LiOr(w, s1, clean);
    var s2 := s1.(x := s1.x[T1 := clean][T0 := Cleaned(m, sh)]);
    CsrwRuns(w, Mstatus, T0, s2);
    var s3 := MarkedClean(s, sh, clean);
    SetAgain(s.x, mask1, a, clean, Cleaned(m, sh));
    MarkCleanRuns(w, mask, clean, s, s1, s2, s3);
  }

  lemma MarkCleanRuns(w: Widths, mask: int, clean: int, s: State, s1: State, s2: State, s3: State)
    requires Runs(w, [Li(T1, -1 - mask), And(T0, T0, T1)], s, s1) && Runs(w, [Li(T1, clean), Or(T0, T0, T1)], s1, s2)
    requires Runs(w, [Csrw(Mstatus, T0)], s2, s3)
    ensures Runs(w, MarkClean(mask, clean), s, s3)
  {
    MarkCleanParts(mask, clean);
    hide Runs, MarkClean;
    var p, q, r := [Li(T1, -1 - mask), And(T0, T0, T1)], [Li(T1, clean), Or(T0, T0, T1)], [Csrw(Mstatus, T0)];
    RunsThen(w, p, q, s, s1, s2);
    RunsThen(w, p + q, r, s, s2, s3);
  }

  lemma LiAnd(w: Widths, s: State, imm: int)
    requires IsWidths(w) && Shaped(s) && 0 <= BitAnd(s.x[T0], Trunc(imm, w.W)) < Cap(w.W)
    ensures Runs(w, [Li(T1, imm), And(T0, T0, T1)], s,
      s.(x := s.x[T1 := Trunc(imm, w.W)][T0 := BitAnd(s.x[T0], Trunc(imm, w.W))]))
  {
    hide Runs, BitAnd;
    RunsTwo(w, Li(T1, imm), And(T0, T0, T1), s);
  }

  lemma LiOr(w: Widths, s: State, imm: int)
    requires IsWidths(w) && Shaped(s) && 0 <= imm < Cap(w.W) && 0 <= BitOr(s.x[T0], imm) < Cap(w.W)
    ensures Runs(w, [Li(T1, imm), Or(T0, T0, T1)], s, s.(x := s.x[T1 := imm][T0 := BitOr(s.x[T0], imm)]))
  {
    hide Runs, BitOr;
    RunsTwo(w, Li(T1, imm), Or(T0, T0, T1), s);
  }

  lemma CsrwRuns(w: Widths, r: Csr, rs: Reg, s: State)
    requires Shaped(s)
    ensures Runs(w, [Csrw(r, rs)], s, s.(csr := s.csr.Set(r, s.x[rs])))
  {
    hide Runs;
    RunsOne(w, Csrw(r, rs), s);
  }

  // ----- what the marking does to the two fields -----

  lemma {:induction false} ShrLess(m: int, sh: nat)
    ensures Shr(m - Two(sh), sh) == Shr(m, sh) - 1
    decreases sh
  {
    if sh > 0 {
      assert (m - Two(sh)) / 2 == m / 2 - Two(sh - 1);
      ShrLess(m / 2, sh - 1);
    }
  }

  /** Four places further up a unit counts sixteen. */
  lemma {:induction false} ShrFarLess(m: int, sh: nat)
    ensures Shr(m - Two(sh + 4), sh) == Shr(m, sh) - 16
    decreases sh
  {
    if sh > 0 {
      assert (m - Two(sh + 4)) / 2 == m / 2 - Two(sh - 1 + 4);
      ShrFarLess(m / 2, sh - 1);
    } else {
      assert Two(4) == 16 by {
        assert Two(2) == 4;
      }
    }
  }

  lemma {:induction false} ShrOnwards(m: int, sh: nat, k: nat)
    ensures Shr(m, sh + k) == Shr(Shr(m, sh), k)
    decreases sh
  {
    if sh > 0 {
      ShrOnwards(m / 2, sh - 1, k);
    }
  }

  lemma FourOnwards(q: int)
    ensures Shr(q, 4) == q / 16
  {
    assert Shr(q, 4) == Shr(q / 2, 3) == Shr(q / 2 / 2, 2) == Shr(q / 2 / 2 / 2, 1) == Shr(q / 2 / 2 / 2 / 2, 0);
  }

  /** VS lies four places below FS. */
  lemma FsOfVs(m: int)
    ensures Field(m, FS_OFFSET) == Shr(m, VS_OFFSET) / 16 % 4
  {
    hide Shr;
    ShrOnwards(m, VS_OFFSET, 4);
    FourOnwards(Shr(m, VS_OFFSET));
  }

  lemma OneLess(q: int)
    requires q % 4 == 3
    ensures (q - 1) % 4 == 2 && (q - 1) / 16 == q / 16
  {
    var k := q / 4;
    assert q == 4 * k + 3;
  }

  lemma CleanedVs(m: int)
    requires Field(m, VS_OFFSET) == 3
    ensures Field(m - Two(VS_OFFSET), VS_OFFSET) == 2
    ensures Field(m - Two(VS_OFFSET), FS_OFFSET) == Field(m, FS_OFFSET)
  {
    hide Shr, Two;
    ShrLess(m, VS_OFFSET);
    FsOfVs(m);
    FsOfVs(m - Two(VS_OFFSET));
    OneLess(Shr(m, VS_OFFSET));
  }

  lemma CleanedFs(m: int)
    requires Field(m, FS_OFFSET) == 3
    ensures Field(m - Two(FS_OFFSET), FS_OFFSET) == 2
    ensures Field(m - Two(FS_OFFSET), VS_OFFSET) == Field(m, VS_OFFSET)
  {
    hide Shr, Two;
    ShrLess(m, FS_OFFSET);
    ShrFarLess(m, VS_OFFSET);
  }

  /** A marked field reads clean, and the other one reads as before. */
  lemma CleanedFields(m: int, sh: nat, other: nat)
    requires m >= 0 && (sh, other) in {(FS_OFFSET, VS_OFFSET), (VS_OFFSET, FS_OFFSET)}
    ensures Field(Cleaned(m, sh), sh) == if Field(m, sh) == 3 then 2 else Field(m, sh)
    ensures Field(Cleaned(m, sh), other) == Field(m, other)
  {
    hide Field, Two;
    if Field(m, sh) == 3 {
      if sh == FS_OFFSET {
        CleanedFs(m);
      } else {
        CleanedVs(m);
      }
    }
  }
}
