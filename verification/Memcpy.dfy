/** memcpy, word at a time: sw/common/memcpy.c, and the byte loop it refines. */
module Memcpy {
  import opened Words
  import Arith

  /** The byte that belongs at address k once n bytes have been copied. */
  function CopiedByte(m: seq<Byte>, dest: nat, src: nat, n: nat, k: nat): Byte
    requires dest + n <= |m| && src + n <= |m| && k < |m|
  {
    if dest <= k < dest + n then m[src + (k - dest)] else m[k]
  }

  /** What the C standard (ISO/IEC 9899:2011, section 7.24.2.1) asks of memcpy, as a relation
      between the memory before and the memory after. */
  ghost predicate IsCopy(m: seq<Byte>, r: seq<Byte>, dest: nat, src: nat, n: nat) {
    && |r| == |m| && dest + n <= |m| && src + n <= |m|
    && forall k :: 0 <= k < |m| ==> r[k] == CopiedByte(m, dest, src, n, k)
  }

  /** A copy of n bytes from src to dest in memory m; the ranges are disjoint and inside
      a 32-bit address space. */
  datatype Job = Job(m: seq<Byte>, dest: nat, src: nat, n: nat) {
    ghost predicate Valid() {
      && dest + n <= |m| && src + n <= |m|
      && |m| <= 0x1_0000_0000
      && (dest + n <= src || src + n <= dest)
    }

    /** Memory once the first i bytes have been moved, one at a time. */
    ghost function After(i: nat): (r: seq<Byte>)
      requires Valid() && i <= n
      ensures |r| == |m|
    {
      if i == 0 then m else After(i - 1)[dest + (i - 1) := m[src + (i - 1)]]
    }

    lemma {:induction false} AfterIsPartialCopy(i: nat)
      requires Valid() && i <= n
      ensures IsCopy(m, After(i), dest, src, i)
    {
      if i > 0 {
        AfterIsPartialCopy(i - 1);
      }
    }

    /** How many bytes are left when the destination pointer is at d. */
    ghost function Left(d: int): int {
      dest + n - d
    }

    /** The bytes still to come are the original ones, whatever has been moved so far. */
    lemma SourceUntouched(i: nat, a: int)
      requires Valid() && i <= n && src <= a < src + n
      ensures After(i)[a] == m[a]
    {
      AfterIsPartialCopy(i);
    }

    lemma AfterOneMore(i: nat, j: nat)
      requires Valid() && j == i + 1 && j <= n
      ensures After(j) == After(i)[dest + i := m[src + i]]
    {
    }

    /** Four single bytes moved one after the other. */
    lemma AfterFourMore(i: nat)
      requires Valid() && i + 4 <= n
      ensures After(i + 4) == After(i)[dest + i := m[src + i]][dest + i + 1 := m[src + i + 1]]
                                      [dest + i + 2 := m[src + i + 2]][dest + i + 3 := m[src + i + 3]]
    {
      hide After;
      AfterOneMore(i, i + 1);
      AfterOneMore(i + 1, i + 2);
      AfterOneMore(i + 2, i + 3);
      AfterOneMore(i + 3, i + 4);
    }

    lemma WordMoves(i: nat)
      requires Valid() && i + 4 <= n
      ensures WithWord(After(i), dest + i, WordAt(m, src + i)) == After(i + 4)
    {
      hide After, ByteOf, WordOf;
      var s := src + i;
      BytesOfWord(m[s], m[s + 1], m[s + 2], m[s + 3]);
      AfterFourMore(i);
    }
  }

  /** The pointers d and s have both advanced over the same bytes, which have been moved. */
  ghost predicate At(mem: array<Byte>, job: Job, d: int, s: int)
    reads mem
  {
    && job.Valid() && job.dest <= d <= job.dest + job.n
    && s - job.src == d - job.dest
    && mem[..] == job.After(d - job.dest)
  }

  /** `*d++ = *s++` */
  method CopyByte(mem: array<Byte>, d: int, s: int, ghost job: Job)
    requires At(mem, job, d, s) && job.Left(d) >= 1
    modifies mem
    ensures At(mem, job, d + 1, s + 1)
  {
    job.SourceUntouched(d - job.dest, s);
    mem[d] := mem[s];
  }

  method CopyFour(mem: array<Byte>, d: int, s: int, ghost job: Job)
    requires At(mem, job, d, s) && job.Left(d) >= 4
    modifies mem
    ensures At(mem, job, d + 4, s + 4)
  {
    hide At;
    CopyByte(mem, d, s, job);
    CopyByte(mem, d + 1, s + 1, job);
    CopyByte(mem, d + 2, s + 2, job);
    CopyByte(mem, d + 3, s + 3, job);
  }

  /** `*(u32 *)a` as a load: only naturally aligned, only inside the source range. */
  method LoadWord(mem: array<Byte>, a: int, ghost job: Job, ghost d: int, ghost s: int) returns (w: Word)
    requires At(mem, job, d, s)
    requires Aligned(a) && job.src <= a && a + 4 <= job.src + job.n
    ensures a + 4 <= |job.m| && w == WordAt(job.m, a)
  {
    forall k | a <= k < a + 4 ensures mem[k] == job.m[k] {
      job.SourceUntouched(d - job.dest, k);
      assert mem[k] == mem[..][k];
    }
    w := WordOf(mem[a], mem[a + 1], mem[a + 2], mem[a + 3]);
  }

  /** `*(u32 *)d = w` as a store: only naturally aligned, only inside the destination range. */
  method StoreWord(mem: array<Byte>, d: int, w: Word, ghost job: Job, ghost s: int)
    requires At(mem, job, d, s) && job.Left(d) >= 4
    requires Aligned(d) && w == WordAt(job.m, s)
    modifies mem
    ensures At(mem, job, d + 4, s + 4)
  {
    ghost var i := d - job.dest;
    mem[d], mem[d + 1], mem[d + 2], mem[d + 3] := ByteOf(w, 0), ByteOf(w, 1), ByteOf(w, 2), ByteOf(w, 3);
    assert mem[..] == WithWord(job.After(i), d, w);
    job.WordMoves(i);
  }

  method CopyWord(mem: array<Byte>, d: int, s: int, ghost job: Job)
    requires At(mem, job, d, s) && job.Left(d) >= 4
    requires Aligned(s) && Aligned(d)
    modifies mem
    ensures At(mem, job, d + 4, s + 4)
  {
    var w := LoadWord(mem, s, job, d, s);
    StoreWord(mem, d, w, job, s);
  }

  /** One load of a shift-merge loop and the store that uses it: `x = *(u32 *)a;
      *(u32 *)d = (w LS ls) | (x RS 32-ls)`, where w is the aligned word just below a. */
  method ShiftWord(mem: array<Byte>, d: int, ghost s: int, w: Word, a: int, ls: nat, ghost job: Job)
    returns (x: Word)
    requires At(mem, job, d, s) && job.Left(d) >= 4
    requires ls == 8 || ls == 16 || ls == 24
    requires Aligned(d) && Aligned(a) && a - 4 + ls / 8 == s
    requires job.src <= a - 4 && a + 4 <= job.src + job.n
    requires w == WordAt(job.m, a - 4)
    modifies mem
    ensures a + 4 <= |job.m| && x == WordAt(job.m, a)
    ensures At(mem, job, d + 4, s + 4)
  {
    x := LoadWord(mem, a, job, d, s);
    MergeOfAdjacent(job.m, a - 4, ls);
    StoreWord(mem, d, Merged(w, x, ls), job, s);
  }

  /** The body of a shift-merge loop: four words, with the last one read carried over. */
  method ShiftFour(mem: array<Byte>, d: int, ghost s: int, w0: Word, a: int, ls: nat, ghost job: Job)
    returns (w: Word)
    requires At(mem, job, d, s) && job.Left(d) >= 16
    requires ls == 8 || ls == 16 || ls == 24
    requires Aligned(d) && Aligned(a) && a - 4 + ls / 8 == s
    requires job.src <= a - 4 && a + 16 <= job.src + job.n
    requires w0 == WordAt(job.m, a - 4)
    modifies mem
    ensures a + 16 <= |job.m| && w == WordAt(job.m, a + 12)
    ensures At(mem, job, d + 16, s + 16)
  {
    hide At, Aligned;
    AlignedNext(a);
    AlignedNext(d);
    var x := ShiftWord(mem, d, s, w0, a, ls, job);
    w := ShiftWord(mem, d + 4, s + 4, x, a + 4, ls, job);
    x := ShiftWord(mem, d + 8, s + 8, w, a + 8, ls, job);
    w := ShiftWord(mem, d + 12, s + 12, x, a + 12, ls, job);
  }

  method CopyFourWords(mem: array<Byte>, d: int, s: int, ghost job: Job)
    requires At(mem, job, d, s) && job.Left(d) >= 16
    requires Aligned(s) && Aligned(d)
    modifies mem
    ensures At(mem, job, d + 16, s + 16)
  {
    hide At, Aligned;
    AlignedNext(s);
    AlignedNext(d);
    CopyWord(mem, d, s, job);
    CopyWord(mem, d + 4, s + 4, job);
    CopyWord(mem, d + 8, s + 8, job);
    CopyWord(mem, d + 12, s + 12, job);
  }

  predicate Bit(n: nat, p: nat)
    requires p > 0
  {
    n / p % 2 == 1
  }

  function BitValue(n: nat, p: nat): nat
    requires p > 0
  {
    if Bit(n, p) then p else 0
  }

  /** The bit at p is what the count loses when it is taken modulo p instead of modulo 2p. */
  lemma LowBits(n: nat, p: nat)
    requires p > 0
    ensures n % (2 * p) == n % p + BitValue(n, p)
  {
    Arith.Halve(n, p, n / (2 * p), n % (2 * p));
  }

  lemma SumOfBits(n: nat)
    requires n < 32
    ensures n == BitValue(n, 16) + BitValue(n, 8) + BitValue(n, 4) + BitValue(n, 2) + BitValue(n, 1)
  {
    hide Bit, BitValue;
    LowBits(n, 16);
    LowBits(n, 8);
    LowBits(n, 4);
    LowBits(n, 2);
    LowBits(n, 1);
  }

  lemma AtBounds(mem: array<Byte>, job: Job, d: int, s: int)
    requires At(mem, job, d, s)
    ensures job.src <= s && s + job.Left(d) == job.src + job.n && job.src + job.n <= |job.m|
  {
  }

  /** The tests for 2 and 1, which both tails end with. */
  method CopyLastThree(mem: array<Byte>, d0: int, s0: int, n: nat, ghost job: Job)
    requires At(mem, job, d0, s0)
    requires job.Left(d0) == (if Bit(n, 2) then 2 else 0) + if Bit(n, 1) then 1 else 0
    modifies mem
    ensures At(mem, job, job.dest + job.n, job.src + job.n)
  {
    hide At, Bit;
    AtBounds(mem, job, d0, s0);
    var d, s := d0, s0;
    if Bit(n, 2) {
      CopyByte(mem, d, s, job);
      CopyByte(mem, d + 1, s + 1, job);
      d, s := d + 2, s + 2;
    }
    if Bit(n, 1) {
      CopyByte(mem, d, s, job);
    }
  }

  /** The bit tests at the end move exactly the n bytes that are left, for any n < 32. */
  method CopyTail(mem: array<Byte>, d0: int, s0: int, n: nat, ghost job: Job)
    requires At(mem, job, d0, s0) && n == job.Left(d0) && n < 32
    modifies mem
    ensures At(mem, job, job.dest + job.n, job.src + job.n)
  {
    hide At, Bit;
    SumOfBits(n);
    var d, s := d0, s0;
    if Bit(n, 16) {
      CopyFour(mem, d, s, job);
      CopyFour(mem, d + 4, s + 4, job);
      CopyFour(mem, d + 8, s + 8, job);
      CopyFour(mem, d + 12, s + 12, job);
      d, s := d + 16, s + 16;
    }
    if Bit(n, 8) {
      CopyFour(mem, d, s, job);
      CopyFour(mem, d + 4, s + 4, job);
      d, s := d + 8, s + 8;
    }
    if Bit(n, 4) {
      CopyFour(mem, d, s, job);
      d, s := d + 4, s + 4;
    }
    CopyLastThree(mem, d, s, n, job);
  }

  /** Both pointers aligned: whole words, then the low bits of the count. */
  method CopyAligned(mem: array<Byte>, d0: int, s0: int, n0: nat, ghost job: Job)
    requires At(mem, job, d0, s0) && n0 == job.Left(d0)
    requires Aligned(d0) && (n0 == 0 || Aligned(s0))
    modifies mem
    ensures At(mem, job, job.dest + job.n, job.src + job.n)
  {
    hide At, Bit, Aligned;
    var d: int, s: int, n: nat := d0, s0, n0;
    while n >= 16
      invariant At(mem, job, d, s) && n == job.Left(d) && d + n == d0 + n0 && s + n == s0 + n0
      invariant Aligned(d) && (n == 0 || Aligned(s))
    {
      CopyFourWords(mem, d, s, job);
      AlignedNext(s);
      AlignedNext(d);
      s, d, n := s + 16, d + 16, n - 16;
    }
    CopyAlignedTail(mem, d, s, n, job);
  }

  method CopyAlignedTail(mem: array<Byte>, d0: int, s0: int, n: nat, ghost job: Job)
    requires At(mem, job, d0, s0) && n == job.Left(d0) && n < 16
    requires Aligned(d0) && (n == 0 || Aligned(s0))
    modifies mem
    ensures At(mem, job, job.dest + job.n, job.src + job.n)
  {
    hide At, Bit, Aligned;
    SumOfBits(n);
    var d, s := d0, s0;
    if Bit(n, 8) {
      AlignedNext(s);
      AlignedNext(d);
      CopyWord(mem, d, s, job);
      CopyWord(mem, d + 4, s + 4, job);
      d, s := d + 8, s + 8;
    }
    if Bit(n, 4) {
      CopyWord(mem, d, s, job);
      d, s := d + 4, s + 4;
    }
    CopyLastThree(mem, d, s, n, job);
  }

  /** The shift-merge loop of one switch case: `off` more source bytes complete the word that
      starts at s, so the loop needs that many bytes of read-ahead (17, 18 or 19 in all). */
  method ShiftLoop(mem: array<Byte>, d0: int, s0: int, n0: int, w0: Word, off: int, ghost job: Job)
    returns (d: int, s: int, n: int)
    requires At(mem, job, d0, s0) && n0 == job.Left(d0) && n0 >= off
    requires 1 <= off <= 3 && Aligned(d0) && Aligned(s0 + off) && job.src <= s0 + off - 4
    requires w0 == WordAt(job.m, s0 + off - 4)
    modifies mem
    ensures At(mem, job, d, s) && n == job.Left(d) && n < 16 + off
  {
    hide At, WordAt, Aligned;
    AtBounds(mem, job, d0, s0);
    d, s, n := d0, s0, n0;
    var w := w0;
    while n >= 16 + off
      invariant At(mem, job, d, s) && n == job.Left(d) && n >= off
      invariant Aligned(d) && Aligned(s + off) && s0 <= s && s + n == s0 + n0
      invariant w == WordAt(job.m, s + off - 4)
    {
      AlignedNext(s + off);
      AlignedNext(d);
      w := ShiftFour(mem, d, s, w, s + off, 32 - 8 * off, job);
      s, d, n := s + 16, d + 16, n - 16;
    }
  }

  // The switch on the destination's alignment. Each case first moves the bytes that align the
  // destination, keeping in w the aligned source word they came from.

  method ShiftCase1(mem: array<Byte>, d: int, s: int, n: int, ghost job: Job)
    returns (d': int, s': int, n': int)
    requires At(mem, job, d, s) && n == job.Left(d) && n >= 32
    requires Aligned(d + 3) && Aligned(s)
    modifies mem
    ensures At(mem, job, d', s') && n' == job.Left(d') && n' < 32
  {
    hide At, WordAt, Aligned;
    AtBounds(mem, job, d, s);
    AlignedNext(s);
    var w := LoadWord(mem, s, job, d, s);
    CopyByte(mem, d, s, job);
    CopyByte(mem, d + 1, s + 1, job);
    CopyByte(mem, d + 2, s + 2, job);
    d', s', n' := ShiftLoop(mem, d + 3, s + 3, n - 3, w, 1, job);
  }

  method ShiftCase2(mem: array<Byte>, d: int, s: int, n: int, ghost job: Job)
    returns (d': int, s': int, n': int)
    requires At(mem, job, d, s) && n == job.Left(d) && n >= 32
    requires Aligned(d + 2) && Aligned(s)
    modifies mem
    ensures At(mem, job, d', s') && n' == job.Left(d') && n' < 32
  {
    hide At, WordAt, Aligned;
    AtBounds(mem, job, d, s);
    AlignedNext(s);
    var w := LoadWord(mem, s, job, d, s);
    CopyByte(mem, d, s, job);
    CopyByte(mem, d + 1, s + 1, job);
    d', s', n' := ShiftLoop(mem, d + 2, s + 2, n - 2, w, 2, job);
  }

  method ShiftCase3(mem: array<Byte>, d: int, s: int, n: int, ghost job: Job)
    returns (d': int, s': int, n': int)
    requires At(mem, job, d, s) && n == job.Left(d) && n >= 32
    requires Aligned(d + 1) && Aligned(s)
    modifies mem
    ensures At(mem, job, d', s') && n' == job.Left(d') && n' < 32
  {
    hide At, WordAt, Aligned;
    AtBounds(mem, job, d, s);
    AlignedNext(s);
    var w := LoadWord(mem, s, job, d, s);
    CopyByte(mem, d, s, job);
    d', s', n' := ShiftLoop(mem, d + 1, s + 1, n - 1, w, 3, job);
  }

  method CopyUnaligned(mem: array<Byte>, d0: int, s0: int, n0: int, ghost job: Job)
    requires At(mem, job, d0, s0) && n0 == job.Left(d0)
    requires !Aligned(d0) && (n0 == 0 || Aligned(s0))
    modifies mem
    ensures At(mem, job, job.dest + job.n, job.src + job.n)
  {
    var d, s, n := d0, s0, n0;
    if n >= 32 {
      match d % 4
      case 1 => d, s, n := ShiftCase1(mem, d, s, n, job);
      case 2 => d, s, n := ShiftCase2(mem, d, s, n, job);
      case _ => d, s, n := ShiftCase3(mem, d, s, n, job);
    }
    CopyTail(mem, d, s, n, job);
  }

  lemma AtTheEnd(mem: array<Byte>, job: Job)
    requires At(mem, job, job.dest + job.n, job.src + job.n)
    ensures IsCopy(job.m, mem[..], job.dest, job.src, job.n)
  {
    job.AfterIsPartialCopy(job.n);
  }

  /** memcpy for every length, every alignment of either pointer and all contents. */
  method Memcpy(mem: array<Byte>, dest: nat, src: nat, n0: nat)
    requires mem.Length <= 0x1_0000_0000
    requires dest + n0 <= mem.Length && src + n0 <= mem.Length
    requires dest + n0 <= src || src + n0 <= dest
    modifies mem
    ensures IsCopy(old(mem[..]), mem[..], dest, src, n0)
  {
    ghost var job := Job(mem[..], dest, src, n0);
    var d: int, s: int, n: int := dest, src, n0;
    while !Aligned(s) && n > 0
      invariant At(mem, job, d, s) && n == job.Left(d)
      decreases n
    {
      CopyByte(mem, d, s, job);
      d, s, n := d + 1, s + 1, n - 1;
    }
    assert d + n == job.dest + job.n && s + n == job.src + job.n;
    hide At, IsCopy;
    if Aligned(d) {
      CopyAligned(mem, d, s, n, job);
    } else {
      CopyUnaligned(mem, d, s, n, job);
    }
    AtTheEnd(mem, job);
  }

  /** The loader's byte loop: the simple form. */
  method RsdMemcpy(mem: array<Byte>, dest: nat, src: nat, n: nat)
    requires mem.Length <= 0x1_0000_0000
    requires dest + n <= mem.Length && src + n <= mem.Length
    requires dest + n <= src || src + n <= dest
    modifies mem
    ensures IsCopy(old(mem[..]), mem[..], dest, src, n)
  {
    for i := 0 to n
      invariant IsCopy(old(mem[..]), mem[..], dest, src, i)
    {
      mem[dest + i] := mem[src + i];
    }
  }

  /** The two forms leave the same memory: a result that meets the relation is the only one. */
  lemma CopyIsUnique(m: seq<Byte>, r1: seq<Byte>, r2: seq<Byte>, dest: nat, src: nat, n: nat)
    requires IsCopy(m, r1, dest, src, n) && IsCopy(m, r2, dest, src, n)
    ensures r1 == r2
  {
    assert forall k :: 0 <= k < |r1| ==> r1[k] == r2[k];
  }
}
