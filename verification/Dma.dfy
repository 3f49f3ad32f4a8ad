/** What the two DMA ring drivers share: 32-bit pointers into a ring of `size` one-byte slots, of
    which size - 1 can be in use (sw/common/ringbuffer/mm2s_ringbuffer.c, s2mm_ringbuffer.c). */
module Dma {
  import opened Words
  import opened Cyclic

  const U32: nat := 0x1_0000_0000

  /** The value a pointer gets from `0 - 1`. */
  const STRAY: nat := U32 - 1

  /** `n - 1` in unsigned arithmetic. */
  function Decrement(n: nat): nat {
    if n == 0 then STRAY else n - 1
  }

  /** The sizes set_buffer accepts for pointers of up to three bytes. */
  predicate IsSize(size: nat) {
    2 <= size <= 0x100_0000
  }

  /** _level, in the unsigned arithmetic of the source. */
  function Level(headptr: nat, tailptr: nat, size: nat): nat {
    if headptr == tailptr then 0
    else if tailptr > headptr then (headptr + (size - tailptr) % U32) % U32
    else headptr - tailptr
  }

  /** _advance_head and _advance_tail for width 1. */
  function Advance(ptr: nat, size: nat): nat
    requires size > 0
  {
    var nxt := (ptr + 1) % U32;
    if nxt <= size - 1 then nxt else 0
  }

  /** Pointers hold a slot number, or the stray value a block copy can leave. */
  predicate IsPointer(ptr: nat, size: nat) {
    ptr < size || ptr == STRAY
  }

  /** What a pointer register of ptr_width bytes can count to, for one to four bytes. */
  predicate IsTop(top: nat) {
    top == 0x100 || top == 0x1_0000 || top == 0x100_0000 || top == U32
  }

  function Pow256(n: nat): nat {
    if n == 0 then 1 else 256 * Pow256(n - 1)
  }

  lemma Pow256Is()
    ensures Pow256(0) == 1 && Pow256(1) == 0x100 && Pow256(2) == 0x1_0000 && Pow256(3) == 0x100_0000
  {
    assert Pow256(1) == 256 * Pow256(0);
  }

  /** What such a register holds after a pointer has been written to it. */
  function Published(ptr: nat, top: nat): nat
    requires top > 0
  {
    ptr % top
  }

  /** Slot numbers are published as they are, and the stray value as the register's largest. */
  lemma PublishedIs(ptr: nat, size: nat, top: nat)
    requires IsTop(top) && size <= top && IsPointer(ptr, size)
    ensures Published(ptr, top) == if ptr < size then ptr else top - 1
    ensures STRAY == 0xFFFF_FFFF
  {
  }

  /** The slot a pointer stands for: the one before the slot the next advance selects. */
  function Slot(ptr: nat, size: nat): nat
    requires size > 0
  {
    if ptr < size then ptr else size - 1
  }

  lemma AdvanceIsNext(ptr: nat, size: nat)
    requires IsSize(size) && IsPointer(ptr, size)
    ensures Advance(ptr, size) == Next(Slot(ptr, size), size) < size
  {
  }

  /** The bytes between the two pointers: slots tail + 1 to head, cyclically. */
  function Unread(buf: seq<Byte>, headptr: nat, tailptr: nat): (q: seq<Byte>)
    requires headptr < |buf| && tailptr < |buf|
  {
    Slice(buf, Next(tailptr, |buf|), Next(headptr, |buf|))
  }

  /** On slot numbers, _level counts exactly those bytes. */
  lemma LevelCounts(buf: seq<Byte>, headptr: nat, tailptr: nat)
    requires IsSize(|buf|) && headptr < |buf| && tailptr < |buf|
    ensures Level(headptr, tailptr, |buf|) == |Unread(buf, headptr, tailptr)| < |buf|
  {
    SliceLength(buf, Next(tailptr, |buf|), Next(headptr, |buf|));
  }

  lemma NothingUnread(buf: seq<Byte>, tailptr: nat)
    requires IsSize(|buf|) && tailptr < |buf|
    ensures Unread(buf, tailptr, tailptr) == []
  {
  }

  /** From a stray head pointer, _level is wrong by everything above the ring. */
  lemma StrayHeadLevel(tailptr: nat, size: nat)
    requires IsSize(size) && tailptr < size
    ensures Level(STRAY, tailptr, size) == Level(size - 1, tailptr, size) + (STRAY - (size - 1))
  {
  }

  /** From a stray tail pointer, _level counts one whole ring too many, and two when nothing is unread. */
  lemma StrayTailLevel(headptr: nat, size: nat)
    requires IsSize(size) && headptr < size
    ensures Level(headptr, STRAY, size) ==
      if headptr < size - 1 then Level(headptr, size - 1, size) + size else 2 * size
    ensures Level(size - 1, size - 1, size) == 0
  {
  }

  /** When all but one slot are in use, the next slot is the tail's own. */
  lemma FullMeetsTail(headptr: nat, tailptr: nat, size: nat)
    requires IsSize(size) && headptr < size && tailptr < size && Level(headptr, tailptr, size) == size - 1
    ensures Advance(headptr, size) == tailptr
  {
  }

  lemma LevelOfSlots(headptr: nat, tailptr: nat, size: nat)
    requires IsSize(size) && headptr < size && tailptr < size
    ensures Level(headptr, tailptr, size) == if tailptr <= headptr then headptr - tailptr else headptr + size - tailptr
  {
  }

  /** A pointer stays between two others when the one behind it advances towards it. */
  lemma StillBetween(headptr: nat, middle: nat, tailptr: nat, size: nat)
    requires IsSize(size) && headptr < size && middle < size && tailptr < size && tailptr != middle
    requires Level(middle, tailptr, size) + Level(headptr, middle, size) == Level(headptr, tailptr, size)
    ensures var t := Advance(tailptr, size);
      && t < size
      && Level(middle, t, size) + Level(headptr, middle, size) == Level(headptr, t, size)
      && Level(headptr, tailptr, size) > 0
  {
    var t := Advance(tailptr, size);
    LevelOfSlots(middle, tailptr, size);
    LevelOfSlots(headptr, middle, size);
    LevelOfSlots(headptr, tailptr, size);
    LevelOfSlots(middle, t, size);
    LevelOfSlots(headptr, t, size);
    AdvanceIsNext(tailptr, size);
    hide Level, Advance;
  }

  lemma MiddleAdvances(headptr: nat, middle: nat, tailptr: nat, size: nat)
    requires IsSize(size) && headptr < size && middle < size && tailptr < size && middle != headptr
    requires Level(middle, tailptr, size) + Level(headptr, middle, size) == Level(headptr, tailptr, size)
    ensures var t := Advance(middle, size);
      && t < size
      && Level(headptr, t, size) == Level(headptr, middle, size) - 1
      && Level(t, tailptr, size) + Level(headptr, t, size) == Level(headptr, tailptr, size)
  {
    var t := Advance(middle, size);
    LevelOfSlots(middle, tailptr, size);
    LevelOfSlots(headptr, middle, size);
    LevelOfSlots(headptr, tailptr, size);
    LevelOfSlots(headptr, t, size);
    LevelOfSlots(t, tailptr, size);
    AdvanceIsNext(middle, size);
    hide Level, Advance;
  }

  // ----- moving bytes one slot at a time, as the dumb loops do -----

  datatype Filled = Filled(buf: seq<Byte>, headptr: nat)

  /** `_advance_head(dev); dev->buffer[dev->headptr] = data[i]` for each byte in turn. */
  function Fill(buf: seq<Byte>, headptr: nat, data: seq<Byte>): (f: Filled)
    requires IsSize(|buf|) && IsPointer(headptr, |buf|)
    ensures |f.buf| == |buf| && IsPointer(f.headptr, |buf|) && (data != [] ==> f.headptr < |buf|)
    decreases |data|
  {
    if data == [] then Filled(buf, headptr)
    else
      var n := |data| - 1;
      var f := Fill(buf, headptr, data[..n]);
      var h := Advance(f.headptr, |buf|);
      Filled(f.buf[h := data[n]], h)
  }

  /** A stray pointer and the last slot's own number select the same slots from then on. */
  lemma {:induction false} StrayFillsTheSame(buf: seq<Byte>, data: seq<Byte>)
    requires IsSize(|buf|) && data != []
    ensures Fill(buf, STRAY, data) == Fill(buf, |buf| - 1, data)
    decreases |data|
  {
    if |data| > 1 {
      StrayFillsTheSame(buf, data[..|data| - 1]);
    }
  }

  /** The slot a pointer stands for decides what a fill does. */
  lemma FillFromSlot(buf: seq<Byte>, headptr: nat, data: seq<Byte>)
    requires IsSize(|buf|) && IsPointer(headptr, |buf|) && data != []
    ensures Fill(buf, headptr, data) == Fill(buf, Slot(headptr, |buf|), data)
  {
    hide Fill;
    if headptr == STRAY {
      StrayFillsTheSame(buf, data);
    }
  }

  datatype Drained = Drained(data: seq<Byte>, tailptr: nat)

  /** `_advance_tail(dev); buffer[i] = dev->buffer[dev->tailptr]`, n times. */
  function Drain(buf: seq<Byte>, tailptr: nat, n: nat): (d: Drained)
    requires IsSize(|buf|) && IsPointer(tailptr, |buf|)
    ensures |d.data| == n && IsPointer(d.tailptr, |buf|) && (n > 0 ==> d.tailptr < |buf|)
  {
    if n == 0 then Drained([], tailptr)
    else
      var d := Drain(buf, tailptr, n - 1);
      var t := Advance(d.tailptr, |buf|);
      Drained(d.data + [buf[t]], t)
  }

  lemma {:induction false} StrayDrainsTheSame(buf: seq<Byte>, n: nat)
    requires IsSize(|buf|) && n > 0
    ensures Drain(buf, STRAY, n) == Drain(buf, |buf| - 1, n)
  {
    if n > 1 {
      StrayDrainsTheSame(buf, n - 1);
    }
  }

  lemma DrainFromSlot(buf: seq<Byte>, tailptr: nat, n: nat)
    requires IsSize(|buf|) && IsPointer(tailptr, |buf|) && n > 0
    ensures Drain(buf, tailptr, n) == Drain(buf, Slot(tailptr, |buf|), n)
  {
    hide Drain;
    if tailptr == STRAY {
      StrayDrainsTheSame(buf, n);
    }
  }

  /** Filling free slots appends to the unread bytes and overwrites none of them. */
  lemma {:induction false} FillAppends(buf: seq<Byte>, headptr: nat, tailptr: nat, data: seq<Byte>)
    requires IsSize(|buf|) && headptr < |buf| && tailptr < |buf|
    requires |Unread(buf, headptr, tailptr)| + |data| <= |buf| - 1
    ensures var f := Fill(buf, headptr, data);
      f.headptr < |buf| && Unread(f.buf, f.headptr, tailptr) == Unread(buf, headptr, tailptr) + data
    decreases |data|
  {
    if data == [] {
      assert Unread(buf, headptr, tailptr) + data == Unread(buf, headptr, tailptr);
    } else {
      var n := |data| - 1;
      FillAppends(buf, headptr, tailptr, data[..n]);
      var f := Fill(buf, headptr, data[..n]);
      AdvanceIsNext(f.headptr, |buf|);
      Append(f.buf, Next(tailptr, |buf|), Next(f.headptr, |buf|), data[n]);
      assert data == data[..n] + [data[n]];
    }
  }

  /** Filling one slot more than is free brings the head round to the tail: nothing is left to read. */
  lemma FillOneTooMany(buf: seq<Byte>, headptr: nat, tailptr: nat, data: seq<Byte>)
    requires IsSize(|buf|) && headptr < |buf| && tailptr < |buf|
    requires |Unread(buf, headptr, tailptr)| + |data| == |buf|
    ensures Fill(buf, headptr, data).headptr == tailptr
    ensures Unread(Fill(buf, headptr, data).buf, tailptr, tailptr) == []
  {
    var n := |data| - 1;
    FillAppends(buf, headptr, tailptr, data[..n]);
    var f := Fill(buf, headptr, data[..n]);
    hide Unread, Level, Advance;
    LevelCounts(f.buf, f.headptr, tailptr);
    FullMeetsTail(f.headptr, tailptr, |buf|);
    NothingUnread(Fill(buf, headptr, data).buf, tailptr);
  }

  /** Draining unread slots takes the oldest bytes, in order, and leaves the rest unread. */
  lemma {:induction false} DrainTakesOldest(buf: seq<Byte>, headptr: nat, tailptr: nat, n: nat)
    requires IsSize(|buf|) && headptr < |buf| && tailptr < |buf|
    requires n <= |Unread(buf, headptr, tailptr)|
    ensures var d := Drain(buf, tailptr, n);
      d.tailptr < |buf| && Unread(buf, headptr, tailptr) == d.data + Unread(buf, headptr, d.tailptr)
  {
    hide Slice;
    if n > 0 {
      DrainTakesOldest(buf, headptr, tailptr, n - 1);
      var d := Drain(buf, tailptr, n - 1);
      AdvanceIsNext(d.tailptr, |buf|);
      LevelCounts(buf, headptr, d.tailptr);
      Pop(buf, Next(d.tailptr, |buf|), Next(headptr, |buf|));
    }
  }

  // ----- the same moves as one or two block copies -----

  /** Where n > 0 slots from the next one on end. */
  function LastSlot(ptr: nat, n: nat, size: nat): int
    requires size > 0
  {
    var f := Advance(ptr, size);
    if f + n <= size then f + n - 1 else f + n - 1 - size
  }

  /** What a block copy of n bytes leaves in the pointer, when it started at ptr and the one-by-one
      copy leaves last: the same slot number unless the first memcpy was the whole copy. */
  function BlockPointer(ptr: nat, n: nat, last: nat, size: nat): nat
    requires size > 0
  {
    if n > 0 && n == size - Advance(ptr, size) then STRAY else last
  }

  /** A copy ends in the last slot exactly when it asks for all the slots up to the wrap, or for those
      and one more ring. */
  lemma EndsInLastSlotIff(ptr: nat, n: nat, size: nat)
    requires IsSize(size) && IsPointer(ptr, size) && 0 < n && Advance(ptr, size) + n <= 2 * size
    ensures LastSlot(ptr, n, size) == size - 1 <==> n == size - Advance(ptr, size) || n == 2 * size - Advance(ptr, size)
  {
  }

  /** How far slot k lies from slot f. */
  function Offset(f: nat, k: nat, size: nat): nat
    requires f < size && k < size
  {
    if k >= f then k - f else k + size - f
  }

  /** The buffer after `data` has been copied to the slots from f on, wrapping once. */
  function Placed(buf: seq<Byte>, f: nat, data: seq<Byte>): (r: seq<Byte>)
    requires f < |buf| && |data| <= |buf|
    ensures |r| == |buf|
    ensures forall k :: 0 <= k < |buf| ==>
      r[k] == if Offset(f, k, |buf|) < |data| then data[Offset(f, k, |buf|)] else buf[k]
  {
    seq(|buf|, k requires 0 <= k < |buf| =>
      if Offset(f, k, |buf|) < |data| then data[Offset(f, k, |buf|)] else buf[k])
  }

  /** The n bytes in the slots from f on, wrapping once. */
  function Picked(buf: seq<Byte>, f: nat, n: nat): (r: seq<Byte>)
    requires f < |buf| && n <= |buf|
    ensures |r| == n
    ensures forall i :: 0 <= i < n ==> r[i] == if f + i < |buf| then buf[f + i] else buf[f + i - |buf|]
  {
    seq(n, i requires 0 <= i < n => if f + i < |buf| then buf[f + i] else buf[f + i - |buf|])
  }

  lemma LastSlotGrows(ptr: nat, n: nat, size: nat)
    requires IsSize(size) && IsPointer(ptr, size) && n < size
    ensures var last := if n == 0 then ptr else LastSlot(ptr, n, size);
      IsPointer(last, size) && Advance(last, size) == LastSlot(ptr, n + 1, size)
  {
  }

  lemma {:induction false} FillIsBlock(buf: seq<Byte>, headptr: nat, data: seq<Byte>)
    requires IsSize(|buf|) && IsPointer(headptr, |buf|) && |data| <= |buf|
    ensures Advance(headptr, |buf|) < |buf|
    ensures Fill(buf, headptr, data).buf == Placed(buf, Advance(headptr, |buf|), data)
    ensures data != [] ==> Fill(buf, headptr, data).headptr == LastSlot(headptr, |data|, |buf|)
    decreases |data|
  {
    if data != [] {
      var n := |data| - 1;
      FillIsBlock(buf, headptr, data[..n]);
      LastSlotGrows(headptr, n, |buf|);
    }
  }

  lemma {:induction false} DrainIsBlock(buf: seq<Byte>, tailptr: nat, n: nat)
    requires IsSize(|buf|) && IsPointer(tailptr, |buf|) && n <= |buf|
    ensures Advance(tailptr, |buf|) < |buf|
    ensures Drain(buf, tailptr, n).data == Picked(buf, Advance(tailptr, |buf|), n)
    ensures n > 0 ==> Drain(buf, tailptr, n).tailptr == LastSlot(tailptr, n, |buf|)
  {
    if n > 0 {
      DrainIsBlock(buf, tailptr, n - 1);
      LastSlotGrows(tailptr, n - 1, |buf|);
    }
  }

  /** m with the bytes of x at d. */
  function Splice(m: seq<Byte>, d: nat, x: seq<Byte>): (r: seq<Byte>)
    requires d + |x| <= |m|
    ensures |r| == |m|
  {
    m[..d] + x + m[d + |x|..]
  }

  lemma SpliceNothing(m: seq<Byte>, d: nat, x: seq<Byte>)
    requires x == [] && d <= |m|
    ensures Splice(m, d, x) == m
  {
  }

  lemma SpliceOneMore(m: seq<Byte>, d: nat, x: seq<Byte>)
    requires x != [] && d + |x| <= |m|
    ensures Splice(m, d, x) == Splice(m, d, x[..|x| - 1])[d + |x| - 1 := x[|x| - 1]]
  {
  }

  /** memcpy between the ring and the caller's buffer, which are different objects. */
  method CopyBytes(dst: array<Byte>, d: nat, src: array<Byte>, s: nat, n: nat)
    requires dst != src && d + n <= dst.Length && s + n <= src.Length
    modifies dst
    ensures dst[..] == Splice(old(dst[..]), d, src[s..s + n])
  {
    hide Splice;
    ghost var m, x := dst[..], src[s..s + n];
    SpliceNothing(m, d, x[..0]);
    for i := 0 to n
      invariant dst[..] == Splice(m, d, x[..i])
    {
      SpliceOneMore(m, d, x[..i + 1]);
      assert x[..i + 1][..i] == x[..i];
      dst[d + i] := src[s + i];
    }
    assert x[..n] == x;
  }

  // ----- the two memcpys agree with the one-by-one loop, for up to two rings from slot 0 -----

  lemma {:induction false} FillSplit(buf: seq<Byte>, headptr: nat, a: seq<Byte>, b: seq<Byte>)
    requires IsSize(|buf|) && IsPointer(headptr, |buf|)
    ensures var f := Fill(buf, headptr, a); Fill(buf, headptr, a + b) == Fill(f.buf, f.headptr, b)
    decreases |b|
  {
    if b == [] {
      assert a + b == a;
    } else {
      assert (a + b)[..|a + b| - 1] == a + b[..|b| - 1];
      FillSplit(buf, headptr, a, b[..|b| - 1]);
    }
  }

  lemma FillMore(buf: seq<Byte>, headptr: nat, data: seq<Byte>, rest: seq<Byte>)
    requires IsSize(|buf|) && IsPointer(headptr, |buf|) && data != [] && rest == data[..|data| - 1]
    ensures var f := Fill(buf, headptr, rest); var h := Advance(f.headptr, |buf|);
      h < |buf| && Fill(buf, headptr, data) == Filled(f.buf[h := data[|data| - 1]], h)
  {
  }

  lemma {:induction false} FillStraight(buf: seq<Byte>, headptr: nat, data: seq<Byte>)
    requires IsSize(|buf|) && IsPointer(headptr, |buf|) && Advance(headptr, |buf|) + |data| <= |buf|
    ensures var f := Fill(buf, headptr, data);
      && f.buf == Splice(buf, Advance(headptr, |buf|), data)
      && (data != [] ==> f.headptr == Advance(headptr, |buf|) + |data| - 1)
    decreases |data|
  {
    hide Splice;
    hide Fill;
    if data == [] {
      FillNothing(buf, headptr, data);
      SpliceNothing(buf, Advance(headptr, |buf|), data);
    } else {
      var rest := data[..|data| - 1];
      FillStraight(buf, headptr, rest);
      FillMore(buf, headptr, data, rest);
      SpliceOneMore(buf, Advance(headptr, |buf|), data);
      if rest == [] {
        FillNothing(buf, headptr, rest);
      }
    }
  }

  lemma AfterLastSlot(size: nat)
    requires IsSize(size)
    ensures Advance(size - 1, size) == 0
  {
  }

  lemma FillFromLast(m: seq<Byte>, last: nat, y: seq<Byte>)
    requires IsSize(|m|) && last == |m| - 1 && |y| <= |m|
    ensures Fill(m, last, y).buf == Splice(m, 0, y)
    ensures Fill(m, last, y).headptr == if y == [] then last else |y| - 1
  {
    hide Splice, Fill, Advance;
    AfterLastSlot(|m|);
    FillStraight(m, last, y);
    if y == [] {
      FillNothing(m, last, y);
    }
  }

  /** Up to the end of the buffer, then from slot 0 on. */
  lemma FillBothParts(buf: seq<Byte>, headptr: nat, f: nat, x: seq<Byte>, y: seq<Byte>)
    requires IsSize(|buf|) && IsPointer(headptr, |buf|) && f == Advance(headptr, |buf|)
    requires f + |x| == |buf| && x != [] && |y| <= |buf|
    ensures Fill(buf, headptr, x + y).buf == Splice(Splice(buf, f, x), 0, y)
    ensures Fill(buf, headptr, x + y).headptr == if y == [] then |buf| - 1 else |y| - 1
  {
    hide Splice, Fill, Advance, IsPointer;
    var p := Fill(buf, headptr, x);
    FillSplit(buf, headptr, x, y);
    FillStraight(buf, headptr, x);
    FillFromLast(p.buf, p.headptr, y);
  }

  lemma FillTwoParts(buf: seq<Byte>, headptr: nat, data: seq<Byte>)
    requires IsSize(|buf|) && IsPointer(headptr, |buf|) && Advance(headptr, |buf|) < |buf|
    requires |buf| <= Advance(headptr, |buf|) + |data| <= 2 * |buf|
    ensures var f, c := Fill(buf, headptr, data), |buf| - Advance(headptr, |buf|);
      && f.buf == Splice(Splice(buf, Advance(headptr, |buf|), data[..c]), 0, data[c..])
      && f.headptr == if |data| == c then |buf| - 1 else |data| - c - 1
  {
    hide Splice, Fill, Advance, IsPointer;
    var c := |buf| - Advance(headptr, |buf|);
    FillBothParts(buf, headptr, Advance(headptr, |buf|), data[..c], data[c..]);
    assert data[..c] + data[c..] == data;
  }

  lemma FillNothing(buf: seq<Byte>, headptr: nat, data: seq<Byte>)
    requires IsSize(|buf|) && IsPointer(headptr, |buf|) && data == []
    ensures Fill(buf, headptr, data) == Filled(buf, headptr)
  {
  }

  /** Where the one-by-one copy ends. */
  lemma FillEndsAt(buf: seq<Byte>, headptr: nat, data: seq<Byte>)
    requires IsSize(|buf|) && IsPointer(headptr, |buf|) && data != [] && Advance(headptr, |buf|) + |data| <= 2 * |buf|
    ensures Fill(buf, headptr, data).headptr == LastSlot(headptr, |data|, |buf|)
  {
    hide Fill, Splice;
    if Advance(headptr, |buf|) + |data| <= |buf| {
      FillStraight(buf, headptr, data);
    } else {
      FillTwoParts(buf, headptr, data);
    }
  }

  /** The two copies of a block put, where headptr is the pointer before the advance to slot f. They
      leave the bytes of the one-by-one loop, and its pointer but for one count. */
  method BlockIn(ring: array<Byte>, ghost headptr: nat, f: nat, data: array<Byte>, count: nat) returns (ptr: nat)
    requires ring != data && IsSize(ring.Length) && IsPointer(headptr, ring.Length) && f == Advance(headptr, ring.Length)
    requires 0 < count <= data.Length && f + count <= 2 * ring.Length && f < ring.Length
    modifies ring
    ensures ring[..] == Fill(old(ring[..]), headptr, data[..count]).buf
    ensures ptr == BlockPointer(headptr, count, Fill(old(ring[..]), headptr, data[..count]).headptr, ring.Length)
  {
    hide Splice, Fill, Advance;
    ghost var m, bytes := ring[..], data[..count];
    var c: nat := 0;
    ptr := f;
    if count >= ring.Length - ptr {
      c := ring.Length - ptr;
      CopyBytes(ring, ptr, data, 0, c);
      assert data[0..c] == bytes[..c];
      ptr := 0;
      FillTwoParts(m, headptr, bytes);
    } else {
      FillStraight(m, headptr, bytes);
    }
    assert data[c..c + (count - c)] == bytes[c..];
    CopyBytes(ring, ptr, data, c, count - c);
    ptr := Decrement(ptr + (count - c));
  }

  lemma DrainMore(buf: seq<Byte>, tailptr: nat, k: nat, n: nat)
    requires IsSize(|buf|) && IsPointer(tailptr, |buf|) && n == k + 1
    ensures var d := Drain(buf, tailptr, k); var t := Advance(d.tailptr, |buf|);
      t < |buf| && Drain(buf, tailptr, n) == Drained(d.data + [buf[t]], t)
  {
  }

  lemma {:induction false} DrainSplit(buf: seq<Byte>, tailptr: nat, m: nat, n: nat, all: nat)
    requires IsSize(|buf|) && IsPointer(tailptr, |buf|) && all == m + n
    ensures var d := Drain(buf, tailptr, m);
      var e := Drain(buf, d.tailptr, n);
      Drain(buf, tailptr, all) == Drained(d.data + e.data, e.tailptr)
    decreases n
  {
    hide Drain, Advance;
    var d := Drain(buf, tailptr, m);
    if n == 0 {
      DrainNothing(buf, d.tailptr);
      assert d.data + [] == d.data;
    } else {
      DrainSplit(buf, tailptr, m, n - 1, all - 1);
      DrainMore(buf, tailptr, all - 1, all);
      DrainMore(buf, d.tailptr, n - 1, n);
    }
  }

  lemma SliceOneMore(m: seq<Byte>, f: nat, n: nat)
    requires n > 0 && f + n <= |m|
    ensures m[f..f + n] == m[f..f + (n - 1)] + [m[f + n - 1]]
  {
  }

  lemma {:induction false} DrainStraight(buf: seq<Byte>, tailptr: nat, n: nat)
    requires IsSize(|buf|) && IsPointer(tailptr, |buf|) && Advance(tailptr, |buf|) + n <= |buf|
    ensures var d, f := Drain(buf, tailptr, n), Advance(tailptr, |buf|);
      d.data == buf[f..f + n] && (n > 0 ==> d.tailptr == f + n - 1)
  {
    hide Drain;
    if n > 0 {
      DrainStraight(buf, tailptr, n - 1);
      DrainMore(buf, tailptr, n - 1, n);
      SliceOneMore(buf, Advance(tailptr, |buf|), n);
      if n == 1 {
        DrainNothing(buf, tailptr);
      }
    } else {
      DrainNothing(buf, tailptr);
    }
  }

  lemma DrainTwoParts(buf: seq<Byte>, tailptr: nat, n: nat)
    requires IsSize(|buf|) && IsPointer(tailptr, |buf|) && Advance(tailptr, |buf|) < |buf|
    requires |buf| <= Advance(tailptr, |buf|) + n <= 2 * |buf|
    ensures var d, c := Drain(buf, tailptr, n), |buf| - Advance(tailptr, |buf|);
      && d.data == buf[Advance(tailptr, |buf|)..] + buf[0..n - c]
      && d.tailptr == if n == c then |buf| - 1 else n - c - 1
  {
    hide Drain, Advance;
    var c := |buf| - Advance(tailptr, |buf|);
    DrainSplit(buf, tailptr, c, n - c, n);
    DrainStraight(buf, tailptr, c);
    AfterLastSlot(|buf|);
    DrainStraight(buf, |buf| - 1, n - c);
    if n == c {
      DrainNothing(buf, |buf| - 1);
    }
  }

  lemma DrainNothing(buf: seq<Byte>, tailptr: nat)
    requires IsSize(|buf|) && IsPointer(tailptr, |buf|)
    ensures Drain(buf, tailptr, 0) == Drained([], tailptr)
  {
  }

  /** The two copies of a block get, likewise. */
  method BlockOut(ring: array<Byte>, ghost tailptr: nat, f: nat, data: array<Byte>, count: nat) returns (ptr: nat)
    requires ring != data && IsSize(ring.Length) && IsPointer(tailptr, ring.Length) && f == Advance(tailptr, ring.Length)
    requires 0 < count <= data.Length && f + count <= 2 * ring.Length && f < ring.Length
    modifies data
    ensures data[..] == Drain(ring[..], tailptr, count).data + old(data[count..])
    ensures ptr == BlockPointer(tailptr, count, Drain(ring[..], tailptr, count).tailptr, ring.Length)
  {
    hide Drain, Advance, Splice;
    ghost var m, was := ring[..], data[..];
    var c: nat := 0;
    ptr := f;
    if count >= ring.Length - ptr {
      c := ring.Length - ptr;
      CopyBytes(data, 0, ring, ptr, c);
      ptr := 0;
      DrainTwoParts(m, tailptr, count);
      SplicedTwice(was, ring[f..f + c], ring[0..0 + (count - c)], c, count);
    } else {
      DrainStraight(m, tailptr, count);
      SplicedOnce(was, ring[f..f + (count - c)], count);
    }
    CopyBytes(data, c, ring, ptr, count - c);
    ptr := Decrement(ptr + (count - c));
  }

  /** A copy to the front, then one right behind it. */
  lemma SplicedTwice(m: seq<Byte>, x: seq<Byte>, y: seq<Byte>, c: nat, n: nat)
    requires |x| == c <= n == c + |y| && n <= |m|
    ensures Splice(Splice(m, 0, x), c, y) == (x + y) + m[n..]
  {
  }

  lemma SplicedOnce(m: seq<Byte>, x: seq<Byte>, n: nat)
    requires |x| == n <= |m|
    ensures Splice(m, 0, x) == x + m[n..]
  {
  }
}
