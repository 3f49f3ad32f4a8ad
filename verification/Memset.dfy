/** memset with overlapping head and tail fills: sw/common/memset.c, and the byte loop it refines. */
module Memset {
  import opened Words

  /** What the C standard (ISO/IEC 9899:2011, section 7.24.6.1) asks of memset. */
  ghost predicate IsFill(m: seq<Byte>, r: seq<Byte>, dest: nat, b: Byte, n: nat) {
    && |r| == |m| && dest + n <= |m|
    && forall k :: 0 <= k < |m| ==> r[k] == if dest <= k < dest + n then b else m[k]
  }

  /** Filling n bytes at dest of memory m with b. */
  datatype Job = Job(m: seq<Byte>, dest: nat, n: nat, b: Byte)

  /** So far the job has written every byte below head and every byte from tail on,
      and nothing outside its range. */
  ghost predicate Painted(mem: array<Byte>, job: Job, head: int, tail: int)
    reads mem
  {
    && mem.Length == |job.m| && job.dest + job.n <= |job.m|
    && job.dest <= head && tail <= job.dest + job.n
    && (forall k :: 0 <= k < mem.Length && !(job.dest <= k < job.dest + job.n) ==> mem[k] == job.m[k])
    && (forall k :: job.dest <= k < job.dest + job.n && (k < head || tail <= k) ==> mem[k] == job.b)
  }

  /** Once head and tail meet, every byte of the range has been written. */
  lemma PaintedAll(mem: array<Byte>, job: Job, head: int, tail: int)
    requires Painted(mem, job, head, tail) && tail <= head
    ensures IsFill(job.m, mem[..], job.dest, job.b, job.n)
  {
  }

  // A store of width bytes at a extends the head if it starts inside it, and the tail if it
  // ends inside it; a store may do both.

  ghost function Head(head: int, a: int, width: int): int {
    if a <= head < a + width then a + width else head
  }

  ghost function Tail(tail: int, a: int, width: int): int {
    if a < tail <= a + width then a else tail
  }

  /** The range a store must stay in. */
  predicate InRange(job: Job, a: int, width: nat) {
    job.dest <= a && a + width <= job.dest + job.n
  }

  /** `s[a] = c` */
  method StoreByte(mem: array<Byte>, a: int, c: Byte, ghost job: Job, ghost head: int, ghost tail: int)
    returns (ghost head': int, ghost tail': int)
    requires Painted(mem, job, head, tail) && InRange(job, a, 1) && c == job.b
    modifies mem
    ensures head' == Head(head, a, 1) && tail' == Tail(tail, a, 1)
    ensures Painted(mem, job, head', tail')
  {
    head', tail' := Head(head, a, 1), Tail(tail, a, 1);
    mem[a] := c;
  }

  /** `*(u32 *)a = c32`: naturally aligned and inside the range. */
  method StoreWord(mem: array<Byte>, a: int, w: Word, ghost job: Job)
    requires mem.Length == |job.m| && job.dest + job.n <= |job.m|
    requires InRange(job, a, 4) && a % 4 == 0
    requires forall k :: 0 <= k < 4 ==> ByteOf(w, k) == job.b
    modifies mem
    ensures forall k :: 0 <= k < mem.Length ==> mem[k] == if a <= k < a + 4 then job.b else old(mem[k])
  {
    hide ByteOf;
    mem[a], mem[a + 1], mem[a + 2], mem[a + 3] := ByteOf(w, 0), ByteOf(w, 1), ByteOf(w, 2), ByteOf(w, 3);
  }

  // Adjacent word stores, grouped as the source groups them.

  method StoreOne(mem: array<Byte>, a: int, w: Word, ghost job: Job, ghost head: int, ghost tail: int)
    returns (ghost head': int, ghost tail': int)
    requires Painted(mem, job, head, tail) && InRange(job, a, 4) && a % 4 == 0
    requires forall k :: 0 <= k < 4 ==> ByteOf(w, k) == job.b
    modifies mem
    ensures head' == Head(head, a, 4) && tail' == Tail(tail, a, 4)
    ensures Painted(mem, job, head', tail')
  {
    hide ByteOf;
    head', tail' := Head(head, a, 4), Tail(tail, a, 4);
    StoreWord(mem, a, w, job);
  }

  method StoreTwo(mem: array<Byte>, a: int, w: Word, ghost job: Job, ghost head: int, ghost tail: int)
    returns (ghost head': int, ghost tail': int)
    requires Painted(mem, job, head, tail) && InRange(job, a, 8) && a % 4 == 0
    requires forall k :: 0 <= k < 4 ==> ByteOf(w, k) == job.b
    modifies mem
    ensures head' == Head(head, a, 8) && tail' == Tail(tail, a, 8)
    ensures Painted(mem, job, head', tail')
  {
    hide ByteOf;
    head', tail' := Head(head, a, 8), Tail(tail, a, 8);
    StoreWord(mem, a, w, job);
    StoreWord(mem, a + 4, w, job);
  }

  method StoreFour(mem: array<Byte>, a: int, w: Word, ghost job: Job, ghost head: int, ghost tail: int)
    returns (ghost head': int, ghost tail': int)
    requires Painted(mem, job, head, tail) && InRange(job, a, 16) && a % 4 == 0
    requires forall k :: 0 <= k < 4 ==> ByteOf(w, k) == job.b
    modifies mem
    ensures head' == Head(head, a, 16) && tail' == Tail(tail, a, 16)
    ensures Painted(mem, job, head', tail')
  {
    hide ByteOf;
    head', tail' := Head(head, a, 16), Tail(tail, a, 16);
    StoreWord(mem, a, w, job);
    StoreWord(mem, a + 4, w, job);
    StoreWord(mem, a + 8, w, job);
    StoreWord(mem, a + 12, w, job);
  }

  function ByteOfDouble(w: bv64, k: nat): Byte
    requires k < 8
  {
    if k < 4 then ByteOf((w & 0xFFFF_FFFF) as Word, k) else ByteOf((w >> 32) as Word, k - 4)
  }

  /** `*(u64 *)a = c64`: naturally aligned and inside the range. */
  method StoreDouble(mem: array<Byte>, a: int, w: bv64, ghost job: Job, ghost head: int, ghost tail: int)
    returns (ghost head': int, ghost tail': int)
    requires Painted(mem, job, head, tail) && InRange(job, a, 8) && a % 8 == 0
    requires forall k :: 0 <= k < 8 ==> ByteOfDouble(w, k) == job.b
    modifies mem
    ensures head' == Head(head, a, 8) && tail' == Tail(tail, a, 8)
    ensures Painted(mem, job, head', tail')
  {
    head', tail' := Head(head, a, 8), Tail(tail, a, 8);
    hide ByteOfDouble;
    mem[a], mem[a + 1], mem[a + 2], mem[a + 3] :=
      ByteOfDouble(w, 0), ByteOfDouble(w, 1), ByteOfDouble(w, 2), ByteOfDouble(w, 3);
    mem[a + 4], mem[a + 5], mem[a + 6], mem[a + 7] :=
      ByteOfDouble(w, 4), ByteOfDouble(w, 5), ByteOfDouble(w, 6), ByteOfDouble(w, 7);
  }

  /** `((u32)-1)/255 * (unsigned char)c` */
  function Spread(b: Byte): Word {
    0x0101_0101 * (b as Word)
  }

  /** `c32 | ((u64)c32 << 32)` */
  function Spread64(w: Word): bv64 {
    (w as bv64) | ((w as bv64) << 32)
  }

  lemma SpreadBytes(b: Byte)
    ensures forall k :: 0 <= k < 4 ==> ByteOf(Spread(b), k) == b
  {
    assert ByteOf(Spread(b), 0) == b;
    assert ByteOf(Spread(b), 1) == b;
    assert ByteOf(Spread(b), 2) == b;
    assert ByteOf(Spread(b), 3) == b;
  }

  lemma Spread64Bytes(b: Byte)
    ensures forall k :: 0 <= k < 8 ==> ByteOfDouble(Spread64(Spread(b)), k) == b
  {
    SpreadBytes(b);
    SpreadHalves(Spread(b));
  }

  lemma SpreadHalves(w: Word)
    ensures (Spread64(w) & 0xFFFF_FFFF) as Word == w && (Spread64(w) >> 32) as Word == w
  {
  }

  /** The first fill: byte stores at both ends until more than eight bytes are asked for. */
  method FillEnds(mem: array<Byte>, s: nat, b: Byte, n: nat, ghost job: Job)
    returns (done: bool, ghost head: int, ghost tail: int)
    requires Painted(mem, job, s, s + n) && s == job.dest && n == job.n && b == job.b
    modifies mem
    ensures Painted(mem, job, head, tail)
    ensures done <==> n <= 8
    ensures if done then tail <= head else head >= s + 4 && tail <= s + n - 4
  {
    done, head, tail := true, s, s + n;
    hide Painted;
    if n == 0 {
      return;
    }
    head, tail := StoreByte(mem, s, b, job, head, tail);
    head, tail := StoreByte(mem, s + n - 1, b, job, head, tail);
    if n <= 2 {
      return;
    }
    head, tail := StoreByte(mem, s + 1, b, job, head, tail);
    head, tail := StoreByte(mem, s + 2, b, job, head, tail);
    head, tail := StoreByte(mem, s + n - 2, b, job, head, tail);
    head, tail := StoreByte(mem, s + n - 3, b, job, head, tail);
    if n <= 6 {
      return;
    }
    head, tail := StoreByte(mem, s + 3, b, job, head, tail);
    head, tail := StoreByte(mem, s + n - 4, b, job, head, tail);
    if n <= 8 {
      return;
    }
    done := false;
  }

  /** The second fill, with s aligned and n a multiple of four: word stores at both ends, up to
      28 bytes each. */
  method FillEndWords(mem: array<Byte>, s: nat, c32: Word, n: nat, ghost job: Job, ghost head0: int, ghost tail0: int)
    returns (done: bool, ghost head: int, ghost tail: int)
    requires Painted(mem, job, head0, tail0) && s % 4 == 0 && n % 4 == 0 && n >= 4
    requires InRange(job, s, n) && s <= head0 && tail0 <= s + n
    requires forall k :: 0 <= k < 4 ==> ByteOf(c32, k) == job.b
    modifies mem
    ensures Painted(mem, job, head, tail)
    ensures done <==> n <= 24
    ensures if done then tail <= head else head >= s + 28 && tail <= s + n - 28
  {
    done, head, tail := true, head0, tail0;
    hide Painted, ByteOf;
    head, tail := StoreOne(mem, s, c32, job, head, tail);
    head, tail := StoreOne(mem, s + n - 4, c32, job, head, tail);
    if n <= 8 {
      return;
    }
    head, tail := StoreTwo(mem, s + 4, c32, job, head, tail);
    head, tail := StoreTwo(mem, s + n - 12, c32, job, head, tail);
    if n <= 24 {
      return;
    }
    head, tail := StoreFour(mem, s + 12, c32, job, head, tail);
    head, tail := StoreFour(mem, s + n - 28, c32, job, head, tail);
    done := false;
  }

  /** Whole 64-bit words from an 8-aligned address on; what is left is shorter than 32 bytes. */
  method FillDoubles(mem: array<Byte>, s0: nat, c64: bv64, n0: nat, ghost job: Job, ghost head0: int, ghost tail: int)
    returns (ghost head: int, ghost t: int)
    requires Painted(mem, job, head0, tail) && s0 % 8 == 0 && n0 % 4 == 0 && InRange(job, s0, n0)
    requires s0 <= head0 && tail <= s0 + n0 - 28
    requires forall k :: 0 <= k < 8 ==> ByteOfDouble(c64, k) == job.b
    modifies mem
    ensures Painted(mem, job, head, t) && t <= head
  {
    hide Painted, ByteOfDouble;
    var s: nat, n: nat := s0, n0;
    head, t := head0, tail;
    while n >= 32
      invariant s % 8 == 0 && n % 4 == 0 && s + n == s0 + n0 && s0 <= s
      invariant Painted(mem, job, head, t) && s <= head && t <= tail
    {
      head, t := StoreDouble(mem, s, c64, job, head, t);
      head, t := StoreDouble(mem, s + 8, c64, job, head, t);
      head, t := StoreDouble(mem, s + 16, c64, job, head, t);
      head, t := StoreDouble(mem, s + 24, c64, job, head, t);
      n, s := n - 32, s + 32;
    }
  }

  /** Skipping to the next 4-aligned address leaves the ends written so far reaching over the gap. */
  lemma SkipToAligned(s: nat, n: nat)
    requires n > 8
    ensures var k := if s % 4 == 0 then 0 else 4 - s % 4;
      k <= 3 && (s + k) % 4 == 0 && (n - k - (n - k) % 4) % 4 == 0 && n - k - 3 <= n - k - (n - k) % 4 <= n - k
  {
  }

  lemma FourInEight(s: nat)
    requires s % 4 == 0
    ensures s % 8 == 0 || s % 8 == 4
  {
  }

  lemma EightsMore(s: nat, r: nat, k: nat)
    requires s % 8 == r && (r, k) in {(0, 24), (4, 28)}
    ensures (s + k) % 8 == 0
  {
  }

  lemma FoursLess(n: nat, k: nat)
    requires n % 4 == 0 && k in {24, 28} && n > 24
    ensures (n - k) % 4 == 0 && k <= n
  {
  }

  lemma SkipToDoubleAligned(s: nat, n: nat)
    requires s % 4 == 0 && n % 4 == 0 && n > 24
    ensures var k := 24 + if s % 8 >= 4 then 4 else 0;
      k <= 28 && (s + k) % 8 == 0 && (n - k) % 4 == 0 && k <= n
  {
    FourInEight(s);
    var r := s % 8;
    var k := if r == 0 then 24 else 28;
    EightsMore(s, r, k);
    FoursLess(n, k);
  }

  /** The part behind the first two early returns. */
  method FillMiddle(mem: array<Byte>, s0: nat, b: Byte, n0: nat, ghost job: Job, ghost head0: int, ghost tail0: int)
    returns (ghost head: int, ghost tail: int)
    requires Painted(mem, job, head0, tail0) && s0 == job.dest && n0 == job.n > 8 && b == job.b
    requires head0 >= s0 + 4 && tail0 <= s0 + n0 - 4
    modifies mem
    ensures Painted(mem, job, head, tail) && tail <= head
  {
    hide Painted, ByteOf, ByteOfDouble, Spread, Spread64;
    SkipToAligned(s0, n0);
    var k := if s0 % 4 == 0 then 0 else 4 - s0 % 4;
    var s, n := s0 + k, n0 - k;
    n := n - n % 4;
    var c32 := Spread(b);
    SpreadBytes(b);
    var done;
    done, head, tail := FillEndWords(mem, s, c32, n, job, head0, tail0);
    if !done {
      head, tail := FillLong(mem, s, c32, n, job, head, tail);
    }
  }

  /** The part behind all of them: 64-bit words in the middle. */
  method FillLong(mem: array<Byte>, s0: nat, c32: Word, n0: nat, ghost job: Job, ghost head0: int, ghost tail0: int)
    returns (ghost head: int, ghost tail: int)
    requires Painted(mem, job, head0, tail0) && s0 % 4 == 0 && n0 % 4 == 0 && n0 > 24 && InRange(job, s0, n0)
    requires head0 >= s0 + 28 && tail0 <= s0 + n0 - 28 && c32 == Spread(job.b)
    modifies mem
    ensures Painted(mem, job, head, tail) && tail <= head
  {
    hide Painted, ByteOfDouble, Spread, Spread64;
    SkipToDoubleAligned(s0, n0);
    var k := 24 + if s0 % 8 >= 4 then 4 else 0;
    Spread64Bytes(job.b);
    head, tail := FillDoubles(mem, s0 + k, Spread64(c32), n0 - k, job, head0, tail0);
  }

  /** memset for every length, every alignment and every fill value. */
  method Memset(mem: array<Byte>, dest: nat, c: Word, n: nat)
    requires mem.Length <= 0x1_0000_0000 && dest + n <= mem.Length
    modifies mem
    ensures IsFill(old(mem[..]), mem[..], dest, (c & 0xFF) as Byte, n)
  {
    var b := (c & 0xFF) as Byte;
    ghost var job := Job(mem[..], dest, n, b);
    assert Painted(mem, job, dest, dest + n);
    hide Painted, IsFill;
    var done, head, tail := FillEnds(mem, dest, b, n, job);
    if !done {
      head, tail := FillMiddle(mem, dest, b, n, job, head, tail);
    }
    PaintedAll(mem, job, head, tail);
  }

  /** The loader's byte loop: the simple form. */
  method RsdMemset(mem: array<Byte>, dest: nat, c: Word, n: nat)
    requires dest + n <= mem.Length
    modifies mem
    ensures IsFill(old(mem[..]), mem[..], dest, (c & 0xFF) as Byte, n)
  {
    for i := 0 to n
      invariant IsFill(old(mem[..]), mem[..], dest, (c & 0xFF) as Byte, i)
    {
      mem[dest + i] := (c & 0xFF) as Byte;
    }
  }

  /** The two forms leave the same memory: a result that meets the relation is the only one. */
  lemma FillIsUnique(m: seq<Byte>, r1: seq<Byte>, r2: seq<Byte>, dest: nat, b: Byte, n: nat)
    requires IsFill(m, r1, dest, b, n) && IsFill(m, r2, dest, b, n)
    ensures r1 == r2
  {
    assert forall k :: 0 <= k < |r1| ==> r1[k] == r2[k];
  }
}
