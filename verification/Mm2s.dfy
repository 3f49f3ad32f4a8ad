/** The mm2s driver: software produces, hardware consumes (sw/common/ringbuffer/mm2s_ringbuffer.c). */
module Mm2s {
  import opened Words
  import opened Dma
  import Cyclic

  const INT_MAX: nat := 0x7FFF_FFFF

  /** The driver's fields that change, with the two pointer registers, which count up to top. */
  datatype Dev = Dev(buf: seq<Byte>, headptr: nat, tailptr: nat, HEADPTR: nat, TAILPTR: nat, top: nat)

  ghost predicate IsDev(d: Dev) {
    var n := |d.buf|;
    && IsSize(n) && IsTop(d.top) && n <= d.top
    && IsPointer(d.headptr, n) && (d.HEADPTR < n || d.HEADPTR == d.top - 1) && d.tailptr < n && d.TAILPTR < n
  }

  function Room(d: Dev, tailptr: nat): nat {
    (|d.buf| - Level(d.headptr, tailptr, |d.buf|)) % U32
  }

  datatype Grant = Grant(count: nat, tailptr: nat)

  /** _roomfor: the cached tail first, then the register. */
  function RoomFor(d: Dev, cnt: nat): Grant {
    if Room(d, d.tailptr) >= cnt then Grant(cnt, d.tailptr)
    else if Room(d, d.TAILPTR) >= cnt then Grant(cnt, d.TAILPTR)
    else Grant(Room(d, d.TAILPTR), d.TAILPTR)
  }

  /** A 32-bit word returned as an int. */
  function ToInt(v: nat): int {
    if v < 0x8000_0000 then v else v - U32
  }

  lemma BackToUnsigned(v: nat)
    requires v < U32
    ensures ToInt(v) % U32 == v
  {
  }

  lemma LevelIsWord(d: Dev, t: nat)
    requires IsDev(d) && t < |d.buf|
    ensures Level(d.headptr, t, |d.buf|) < U32
  {
  }

  /** mm2s_ringbuffer_free, had it been called now. */
  function Free(d: Dev): int {
    |d.buf| - 1 - ToInt(Level(d.headptr, d.TAILPTR, |d.buf|))
  }

  /** What put_dumb does with data. */
  function Put(d: Dev, data: seq<Byte>): (d': Dev)
    requires IsDev(d)
    ensures IsDev(d')
  {
    var g := RoomFor(d, |data|);
    var f := Fill(d.buf, d.headptr, data[..g.count]);
    d.(buf := f.buf, headptr := f.headptr, tailptr := g.tailptr)
  }

  /** What put_dumb or the block put does: they differ in the pointer they leave. */
  function PutBy(d: Dev, data: seq<Byte>, block: bool): (d': Dev)
    requires IsDev(d)
    ensures IsDev(d')
  {
    var p := Put(d, data);
    if block then p.(headptr := BlockPointer(d.headptr, RoomFor(d, |data|).count, p.headptr, |d.buf|)) else p
  }

  /** The bytes the hardware has not taken. */
  function Pending(d: Dev): seq<Byte>
    requires IsDev(d)
  {
    Unread(d.buf, Slot(d.headptr, |d.buf|), d.TAILPTR)
  }

  /** The slots that hold nothing unread, less the one that is never used. */
  function FreeSlots(d: Dev): int
    requires IsDev(d)
  {
    |d.buf| - 1 - |Pending(d)|
  }

  // ----- what the driver computes, and what it should -----

  lemma RoomIs(d: Dev, t: nat)
    requires IsDev(d) && t < |d.buf|
    ensures Room(d, t) == |d.buf| - Level(Slot(d.headptr, |d.buf|), t, |d.buf|) + if d.headptr == STRAY then |d.buf| else 0
    ensures 1 <= Room(d, t) <= if d.headptr == STRAY then 2 * |d.buf| else |d.buf|
  {
    LevelOfSlots(Slot(d.headptr, |d.buf|), t, |d.buf|);
  }

  /** `free` is right from a head inside the ring, and a whole ring too large from a stray one. */
  lemma FreeIs(d: Dev)
    requires IsDev(d)
    ensures 0 <= FreeSlots(d) < |d.buf|
    ensures Free(d) == FreeSlots(d) + if d.headptr == STRAY then |d.buf| else 0
    ensures Room(d, d.TAILPTR) == Free(d) + 1
  {
    RoomIs(d, d.TAILPTR);
    LevelCounts(d.buf, Slot(d.headptr, |d.buf|), d.TAILPTR);
    LevelOfSlots(Slot(d.headptr, |d.buf|), d.TAILPTR, |d.buf|);
    hide Unread, Room;
  }

  /** What `_roomfor` grants: all that is asked for if it fits behind the cached tail or the register's,
      else one byte more than `free`. */
  lemma GrantIs(d: Dev, cnt: nat)
    requires IsDev(d)
    ensures RoomFor(d, cnt).count == if cnt <= Room(d, d.tailptr) || cnt <= Free(d) + 1 then cnt else Free(d) + 1
  {
    FreeIs(d);
    hide Room, Free, FreeSlots;
  }

  /** A grant fits the ring from a head inside it, and two rings from slot 0 on otherwise. */
  lemma GrantFits(d: Dev, cnt: nat)
    requires IsDev(d)
    ensures d.headptr < |d.buf| ==> RoomFor(d, cnt).count <= |d.buf|
    ensures Advance(d.headptr, |d.buf|) + RoomFor(d, cnt).count <= 2 * |d.buf|
    ensures Advance(d.headptr, |d.buf|) < |d.buf|
  {
    RoomIs(d, d.tailptr);
    RoomIs(d, d.TAILPTR);
    hide Room;
  }

  /** After a block put that ended in the last slot, the driver believes it has a whole ring more
      room than after the same put done one by one. */
  lemma StrayHeadOvergrants(d: Dev, t: nat)
    requires IsDev(d) && t < |d.buf|
    ensures Room(d.(headptr := STRAY), t) == Room(d.(headptr := |d.buf| - 1), t) + |d.buf|
  {
  }

  // ----- what a put does to the queue -----

  /** The pointer a block put leaves stands for the slot of the one-by-one put. */
  lemma BlockSameSlot(d: Dev, data: seq<Byte>)
    requires IsDev(d)
    ensures Slot(PutBy(d, data, true).headptr, |d.buf|) == Slot(Put(d, data).headptr, |d.buf|)
  {
    var count := RoomFor(d, |data|).count;
    GrantFits(d, |data|);
    if count > 0 && count == |d.buf| - Advance(d.headptr, |d.buf|) {
      FillEndsAt(d.buf, d.headptr, data[..count]);
    }
    hide Fill, Room, Advance;
  }

  lemma PutFills(d: Dev, data: seq<Byte>, block: bool)
    requires IsDev(d)
    ensures var g, d' := RoomFor(d, |data|), PutBy(d, data, block);
      var f := Fill(d.buf, Slot(d.headptr, |d.buf|), data[..g.count]);
      && d' == d.(buf := f.buf, headptr := d'.headptr, tailptr := g.tailptr)
      && Slot(d'.headptr, |d.buf|) == f.headptr
  {
    BlockSameSlot(d, data);
    var part := data[..RoomFor(d, |data|).count];
    hide Fill, RoomFor;
    if part == [] {
      FillNothing(d.buf, d.headptr, part);
      FillNothing(d.buf, Slot(d.headptr, |d.buf|), part);
    } else {
      FillFromSlot(d.buf, d.headptr, part);
    }
  }

  /** A put of at most as many bytes as are truly free takes all of them, whatever tail the driver has
      cached and whatever pointer a block put has left, and appends exactly them. */
  lemma PutWithinFree(d: Dev, data: seq<Byte>, block: bool)
    requires IsDev(d) && |data| <= FreeSlots(d)
    ensures RoomFor(d, |data|).count == |data|
    ensures Pending(PutBy(d, data, block)) == Pending(d) + data
    ensures FreeSlots(PutBy(d, data, block)) == FreeSlots(d) - |data|
  {
    hide Unread, Fill, Room, RoomFor, Free;
    FreeIs(d);
    GrantIs(d, |data|);
    assert data[..|data|] == data;
    PutFills(d, data, block);
    FillAppends(d.buf, Slot(d.headptr, |d.buf|), d.TAILPTR, data);
  }

  /** A put is an append exactly when it asks for no more than is truly free, whatever the cached tail
      and the pointer. */
  lemma PutAppendsIff(d: Dev, data: seq<Byte>, block: bool)
    requires IsDev(d)
    ensures var count := RoomFor(d, |data|).count;
      && (|data| > FreeSlots(d) ==> count > FreeSlots(d))
      && (Pending(PutBy(d, data, block)) == Pending(d) + data[..count] <==> |data| <= FreeSlots(d))
  {
    hide Unread, Fill, Room, RoomFor, Free, PutBy;
    FreeIs(d);
    GrantIs(d, |data|);
    if |data| <= FreeSlots(d) {
      PutWithinFree(d, data, block);
      assert data[..|data|] == data;
    } else {
      PutKeepsSize(d, data, block);
      FreeIs(PutBy(d, data, block));
    }
  }

  lemma PutKeepsSize(d: Dev, data: seq<Byte>, block: bool)
    requires IsDev(d)
    ensures |PutBy(d, data, block).buf| == |d.buf|
  {
    hide Fill, RoomFor;
  }

  /** What a larger put leaves, from any pointer and cached tail: everything unread before is gone. Its first
      FreeSlots + 1 bytes bring the head onto the tail, and so does each further ring; only the bytes
      behind those are pending. */
  lemma PutOverruns(d: Dev, data: seq<Byte>, block: bool)
    requires IsDev(d) && |data| > FreeSlots(d)
    ensures var count, rest := RoomFor(d, |data|).count, RoomFor(d, |data|).count - (FreeSlots(d) + 1);
      && 0 <= rest < 2 * |d.buf| && count <= |data|
      && Pending(PutBy(d, data, block)) == data[count - (if rest < |d.buf| then rest else rest - |d.buf|)..count]
  {
    hide Unread, Fill, Room, RoomFor, Free, PutBy, IsDev;
    OverrunCounts(d, data);
    var count, lost := RoomFor(d, |data|).count, FreeSlots(d) + 1;
    var h, a, rest := Slot(d.headptr, |d.buf|), data[..lost], data[lost..count];
    assert data[..count] == a + rest;
    PutFills(d, data, block);
    FillSplit(d.buf, h, a, rest);
    FillOneTooMany(d.buf, h, d.TAILPTR, a);
    FillFromEmpty(Fill(d.buf, h, a).buf, d.TAILPTR, rest);
  }

  lemma OverrunCounts(d: Dev, data: seq<Byte>)
    requires IsDev(d) && |data| > FreeSlots(d)
    ensures var count, lost := RoomFor(d, |data|).count, FreeSlots(d) + 1;
      && 0 < lost <= count <= |data| && count - lost < 2 * |d.buf|
      && Slot(d.headptr, |d.buf|) < |d.buf| && d.TAILPTR < |d.buf| && IsSize(|d.buf|)
      && |Unread(d.buf, Slot(d.headptr, |d.buf|), d.TAILPTR)| + lost == |d.buf|
  {
    hide Unread, Room, RoomFor, Free;
    FreeIs(d);
    GrantIs(d, |data|);
    GrantFits(d, |data|);
  }

  /** What is pending after up to two rings have been written into an empty one. */
  lemma FillFromEmpty(buf: seq<Byte>, tailptr: nat, data: seq<Byte>)
    requires IsSize(|buf|) && tailptr < |buf| && |data| < 2 * |buf|
    ensures var f := Fill(buf, tailptr, data);
      && f.headptr < |buf|
      && Unread(f.buf, f.headptr, tailptr) == data[if |data| < |buf| then 0 else |buf|..]
  {
    hide Fill, Unread;
    NothingUnread(buf, tailptr);
    if |data| < |buf| {
      FillAppends(buf, tailptr, tailptr, data);
      assert [] + data == data == data[0..];
    } else {
      var a, b := data[..|buf|], data[|buf|..];
      assert data == a + b;
      FillSplit(buf, tailptr, a, b);
      FillOneTooMany(buf, tailptr, tailptr, a);
      var f := Fill(buf, tailptr, a);
      FillAppends(f.buf, tailptr, tailptr, b);
      assert [] + b == b;
    }
  }

  /** A request beyond `free` that does not fit behind the cached tail either is granted one byte more than
      `free`, and then nothing is left to read, from any pointer. */
  lemma OneTooMany(d: Dev, data: seq<Byte>, block: bool)
    requires IsDev(d) && |data| > Free(d)
    requires d.tailptr == d.TAILPTR || Room(d, d.tailptr) < |data|
    ensures RoomFor(d, |data|).count == Free(d) + 1
    ensures Pending(PutBy(d, data, block)) == []
  {
    hide Unread, Fill, Room, RoomFor, Free, PutBy;
    FreeIs(d);
    GrantIs(d, |data|);
    PutOverruns(d, data, block);
  }

  /** From a stray head, a request that only `free` allows is granted in full: what was unread is gone, and
      so are the first FreeSlots + 1 bytes of the request. */
  lemma BelievingFree(d: Dev, data: seq<Byte>, block: bool)
    requires IsDev(d) && FreeSlots(d) < |data| <= Free(d)
    ensures d.headptr == STRAY && RoomFor(d, |data|).count == |data|
    ensures Pending(PutBy(d, data, block)) == data[FreeSlots(d) + 1..]
  {
    hide Unread, Fill, Room, RoomFor, Free, PutBy;
    FreeIs(d);
    GrantIs(d, |data|);
    PutOverruns(d, data, block);
  }

  // ----- any run of puts, commits, level readings and hardware reads -----

  datatype Event = Putting(data: seq<Byte>, block: bool) | Commit | ReadLevel | HardwareTakes

  /** The driver with every byte put and every byte the hardware has taken. */
  datatype System = System(d: Dev, put: seq<Byte>, got: seq<Byte>)

  /** The client asks for what it likes; the hardware reads until its tail is the committed head. */
  function Do(s: System, e: Event): (s': System)
    requires IsDev(s.d)
    ensures IsDev(s'.d)
  {
    PublishedIs(s.d.headptr, |s.d.buf|, s.d.top);
    match e
    case Putting(data, block) =>
      System(PutBy(s.d, data, block), s.put + data[..RoomFor(s.d, |data|).count], s.got)
    case Commit => s.(d := s.d.(HEADPTR := Published(s.d.headptr, s.d.top)))
    case ReadLevel => s.(d := s.d.(tailptr := s.d.TAILPTR))
    case HardwareTakes =>
      if s.d.TAILPTR == s.d.HEADPTR then s
      else
        var t := Advance(s.d.TAILPTR, |s.d.buf|);
        System(s.d.(TAILPTR := t), s.put, s.got + [s.d.buf[t]])
  }

  function Run(s: System, events: seq<Event>): (s': System)
    requires IsDev(s.d)
    ensures IsDev(s'.d)
    decreases |events|
  {
    if events == [] then s else Run(Do(s, events[0]), events[1..])
  }

  /** Everything put has been taken in order or is still to be read. */
  ghost predicate Fifo(s: System) {
    IsDev(s.d) && s.put == s.got + Pending(s.d)
  }

  /** And the committed head lies between tail and head. */
  ghost predicate Inv(s: System) {
    var d, n := s.d, |s.d.buf|;
    && Fifo(s) && d.HEADPTR < n
    && Level(d.HEADPTR, d.TAILPTR, n) + Level(Slot(d.headptr, n), d.HEADPTR, n) == Level(Slot(d.headptr, n), d.TAILPTR, n)
  }

  /** A put asks for no more than is truly free; a commit publishes a slot number, as every commit does
      when the ring has as many slots as the register counts. */
  predicate Fine(s: System, e: Event)
    requires IsDev(s.d)
  {
    match e
    case Putting(data, _) => |data| <= FreeSlots(s.d)
    case Commit => s.d.headptr < |s.d.buf| || |s.d.buf| == s.d.top
    case ReadLevel => true
    case HardwareTakes => true
  }

  predicate AllFine(s: System, events: seq<Event>)
    requires IsDev(s.d)
    decreases |events|
  {
    events != [] ==> Fine(s, events[0]) && AllFine(Do(s, events[0]), events[1..])
  }

  /** Filling moves the head away from a pointer behind it by as much as was filled. */
  lemma FillMovesHead(buf: seq<Byte>, head: nat, t: nat, data: seq<Byte>)
    requires IsSize(|buf|) && head < |buf| && t < |buf| && Level(head, t, |buf|) + |data| <= |buf| - 1
    ensures var f := Fill(buf, head, data);
      f.headptr < |buf| && Level(f.headptr, t, |buf|) == Level(head, t, |buf|) + |data|
  {
    hide Level, Unread, Fill;
    LevelCounts(buf, head, t);
    FillAppends(buf, head, t, data);
    var f := Fill(buf, head, data);
    LevelCounts(f.buf, f.headptr, t);
  }

  lemma PutKeepsInv(s: System, data: seq<Byte>, block: bool)
    requires Inv(s) && |data| <= FreeSlots(s.d)
    ensures Inv(Do(s, Putting(data, block)))
  {
    hide Level, Unread, Fill, PutBy, RoomFor, Slot;
    var d, n, h := s.d, |s.d.buf|, Slot(s.d.headptr, |s.d.buf|);
    SlotIsSlot(d.headptr, n);
    PutWithinFree(d, data, block);
    PutFills(d, data, block);
    assert data[..|data|] == data;
    LevelCounts(d.buf, h, d.TAILPTR);
    FillMovesHead(d.buf, h, d.HEADPTR, data);
    FillMovesHead(d.buf, h, d.TAILPTR, data);
    assert s.put + data == s.got + (Pending(d) + data);
  }

  lemma SlotIsSlot(ptr: nat, size: nat)
    requires IsSize(size)
    ensures Slot(ptr, size) < size && (ptr < size ==> Slot(ptr, size) == ptr)
  {
  }

  lemma OldestIsNext(buf: seq<Byte>, headptr: nat, tailptr: nat)
    requires IsSize(|buf|) && headptr < |buf| && tailptr < |buf| && Level(headptr, tailptr, |buf|) > 0
    ensures var t := Advance(tailptr, |buf|);
      t < |buf| && Unread(buf, headptr, tailptr) == [buf[t]] + Unread(buf, headptr, t)
  {
    LevelCounts(buf, headptr, tailptr);
    hide Unread, Advance, Level, Drain;
    DrainTakesOldest(buf, headptr, tailptr, 1);
    DrainNothing(buf, tailptr);
    DrainMore(buf, tailptr, 0, 1);
  }

  lemma TakeKeepsInv(s: System)
    requires Inv(s)
    ensures Inv(Do(s, HardwareTakes))
  {
    hide Level, Unread, Advance, Slot;
    var d, h := s.d, Slot(s.d.headptr, |s.d.buf|);
    SlotIsSlot(d.headptr, |d.buf|);
    if d.TAILPTR != d.HEADPTR {
      var t := Advance(d.TAILPTR, |d.buf|);
      StillBetween(h, d.HEADPTR, d.TAILPTR, |d.buf|);
      OldestIsNext(d.buf, h, d.TAILPTR);
      assert s.put == (s.got + [d.buf[t]]) + Unread(d.buf, h, t);
    }
  }

  lemma CommitKeepsInv(s: System)
    requires Inv(s) && Fine(s, Commit)
    ensures Inv(Do(s, Commit))
  {
    var h := Slot(s.d.headptr, |s.d.buf|);
    PublishedIs(s.d.headptr, |s.d.buf|, s.d.top);
    LevelOfSlots(h, h, |s.d.buf|);
    hide Unread, Level;
  }

  lemma StepKeepsInv(s: System, e: Event)
    requires Inv(s) && Fine(s, e)
    ensures Inv(Do(s, e))
  {
    match e
    case Putting(data, block) => PutKeepsInv(s, data, block);
    case Commit => CommitKeepsInv(s);
    case ReadLevel =>
    case HardwareTakes => TakeKeepsInv(s);
  }

  lemma {:induction false} RunKeepsInv(s: System, events: seq<Event>)
    requires Inv(s) && AllFine(s, events)
    ensures Inv(Run(s, events))
    decreases |events|
  {
    assert IsDev(s.d);
    hide Inv, Do, Fine;
    if events != [] {
      StepKeepsInv(s, events[0]);
      RunKeepsInv(Do(s, events[0]), events[1..]);
    }
  }

  lemma EmptyIsInv(d: Dev)
    requires IsDev(d) && d.headptr == d.tailptr == d.HEADPTR == d.TAILPTR
    ensures Inv(System(d, [], []))
  {
    NothingUnread(d.buf, d.TAILPTR);
  }

  /** From an empty ring, over any run of block and one-by-one puts within what is truly free, commits that
      publish slot numbers, level readings and hardware reads: what the hardware has read followed by what is
      pending is exactly what was put, and the level between the slots is the difference. */
  lemma RingIsFifo(d: Dev, events: seq<Event>)
    requires IsDev(d) && d.headptr == d.tailptr == d.HEADPTR == d.TAILPTR && AllFine(System(d, [], []), events)
    ensures var s := Run(System(d, [], []), events);
      && s.put == s.got + Pending(s.d)
      && Level(Slot(s.d.headptr, |s.d.buf|), s.d.TAILPTR, |s.d.buf|) == |s.put| - |s.got|
  {
    EmptyIsInv(d);
    RunKeepsInv(System(d, [], []), events);
    var s := Run(System(d, [], []), events);
    LevelCounts(s.d.buf, Slot(s.d.headptr, |s.d.buf|), s.d.TAILPTR);
    hide Run, AllFine;
  }

  // ----- clients that ask the driver -----

  /** A client that asks for at most what `free` says, and block-puts only when the copy does not end
      exactly in the last slot. */
  predicate Careful(s: System, e: Event)
    requires IsDev(s.d)
  {
    e.Putting? ==>
      |e.data| <= Free(s.d)
      && (e.block ==> RoomFor(s.d, |e.data|).count != |s.d.buf| - Advance(s.d.headptr, |s.d.buf|))
  }

  predicate AllCareful(s: System, events: seq<Event>)
    requires IsDev(s.d)
    decreases |events|
  {
    events != [] ==> Careful(s, events[0]) && AllCareful(Do(s, events[0]), events[1..])
  }

  lemma PutLeavesSlot(d: Dev, data: seq<Byte>)
    requires IsDev(d) && d.headptr < |d.buf|
    ensures Put(d, data).headptr < |d.buf|
  {
    var part := data[..RoomFor(d, |data|).count];
    hide RoomFor, Fill;
    if part == [] {
      FillNothing(d.buf, d.headptr, part);
    }
  }

  lemma CarefulStep(s: System, e: Event)
    requires IsDev(s.d) && s.d.headptr < |s.d.buf| && Careful(s, e)
    ensures Fine(s, e) && Do(s, e).d.headptr < |Do(s, e).d.buf|
  {
    hide Room, Fill, Unread, Advance, RoomFor, Put;
    FreeIs(s.d);
    hide Free;
    if e.Putting? {
      PutLeavesSlot(s.d, e.data);
      PutKeepsSize(s.d, e.data, e.block);
    }
  }

  /** Such a client never sees a stray pointer, so everything it does is fine: the ring is a FIFO for it. */
  lemma {:induction false} CarefulIsFine(s: System, events: seq<Event>)
    requires IsDev(s.d) && s.d.headptr < |s.d.buf| && AllCareful(s, events)
    ensures AllFine(s, events)
    decreases |events|
  {
    hide Do, Fine, Careful;
    if events != [] {
      CarefulStep(s, events[0]);
      CarefulIsFine(Do(s, events[0]), events[1..]);
    }
  }

  /** A client that asks `free` after a block put to the last slot can lose everything: an empty ring is
      filled with one block put, `free` then says that a whole ring is free though nothing is, and one
      more byte within it leaves nothing to read. */
  lemma ObeyingFreeLosesBytes(d: Dev, data: seq<Byte>, b: Byte)
    requires IsDev(d) && d.headptr == d.tailptr == d.HEADPTR == d.TAILPTR == 0 && |data| == |d.buf| - 1
    ensures |data| <= Free(d)
    ensures var d1 := PutBy(d, data, true);
      && d1.headptr == STRAY && Pending(d1) == data && FreeSlots(d1) == 0 && Free(d1) == |d.buf|
      && Pending(Put(d1, [b])) == []
  {
    NothingUnread(d.buf, 0);
    FreeIs(d);
    PutWithinFree(d, data, true);
    var d1 := PutBy(d, data, true);
    assert Pending(d) + data == data;
    hide Fill, Unread, Room;
    FreeIs(d1);
    GrantIs(d1, 1);
    PutFills(d, data, true);
    PutFills(d1, [b], false);
    assert [b][..1] == [b];
    FillOneTooMany(d1.buf, |d1.buf| - 1, 0, [b]);
  }

  // ----- exactly which runs stay a FIFO -----

  function Takes(n: nat): seq<Event> {
    seq(n, _ => HardwareTakes)
  }

  /** However far the hardware reads on, everything comes out in order. */
  ghost predicate FifoAfter(s: System)
    requires IsDev(s.d)
  {
    forall n: nat :: Fifo(Run(s, Takes(n)))
  }

  /** And this at every moment of the run. */
  ghost predicate FifoThroughout(s: System, events: seq<Event>)
    requires IsDev(s.d)
    decreases |events|
  {
    FifoAfter(s) && (events != [] ==> FifoThroughout(Do(s, events[0]), events[1..]))
  }

  lemma {:induction false} TakesAreFine(s: System, n: nat)
    requires IsDev(s.d)
    ensures AllFine(s, Takes(n))
    decreases n
  {
    hide Do;
    if n > 0 {
      assert Takes(n)[1..] == Takes(n - 1);
      TakesAreFine(Do(s, HardwareTakes), n - 1);
    }
  }

  lemma InvIsFifoAfter(s: System)
    requires Inv(s)
    ensures FifoAfter(s)
  {
    assert IsDev(s.d);
    forall n: nat ensures Fifo(Run(s, Takes(n))) {
      TakesAreFine(s, n);
      RunKeepsInv(s, Takes(n));
    }
  }

  /** A head that is no slot number is never met: the hardware reads on. */
  lemma {:induction false} StrayCommitRunsOn(s: System, n: nat)
    requires IsDev(s.d) && s.d.HEADPTR >= |s.d.buf|
    ensures |Run(s, Takes(n)).got| == |s.got| + n && |Run(s, Takes(n)).put| == |s.put|
    decreases n
  {
    hide Fill, Unread;
    if n > 0 {
      assert Takes(n)[1..] == Takes(n - 1);
      StrayCommitRunsOn(Do(s, HardwareTakes), n - 1);
    }
  }

  lemma NotFineBreaks(s: System, e: Event)
    requires Inv(s) && !Fine(s, e)
    ensures !FifoAfter(Do(s, e))
  {
    hide Unread, Fill, Level, Room;
    var s' := Do(s, e);
    if e.Putting? {
      PutAppendsIff(s.d, e.data, e.block);
      PutKeepsSize(s.d, e.data, e.block);
      FreeIs(s'.d);
      TooLong(s, s');
      assert Run(s', Takes(0)) == s';
      assert !Fifo(Run(s', Takes(0)));
    } else {
      PublishedIs(s.d.headptr, |s.d.buf|, s.d.top);
      assert e == Commit && s'.d.HEADPTR == s.d.top - 1;
      var n := |s'.put| + 1;
      StrayCommitRunsOn(s', n);
      assert !Fifo(Run(s', Takes(n)));
    }
  }

  lemma TooLong(s: System, s': System)
    requires IsDev(s'.d) && s'.got == s.got && |s'.put| > |s.got| + |s'.d.buf| - 1 && |Pending(s'.d)| <= |s'.d.buf| - 1
    ensures !Fifo(s')
  {
    hide Unread;
  }

  /** For every run, with any requests: the ring stays a FIFO however far the hardware reads, if and only
      if every put asks for no more than is truly free and no commit publishes the pointer that a block
      copy into the last slot leaves, unless the register's largest value is the last slot. */
  lemma FifoIff(d: Dev, events: seq<Event>)
    requires IsDev(d) && d.headptr == d.tailptr == d.HEADPTR == d.TAILPTR
    ensures FifoThroughout(System(d, [], []), events) <==> AllFine(System(d, [], []), events)
  {
    EmptyIsInv(d);
    ThroughoutIff(System(d, [], []), events);
  }

  lemma {:induction false} ThroughoutIff(s: System, events: seq<Event>)
    requires Inv(s)
    ensures FifoThroughout(s, events) <==> AllFine(s, events)
    decreases |events|
  {
    assert IsDev(s.d);
    hide Inv, Do, Fine, FifoAfter;
    InvIsFifoAfter(s);
    if events != [] {
      if Fine(s, events[0]) {
        StepKeepsInv(s, events[0]);
        ThroughoutIff(Do(s, events[0]), events[1..]);
      } else {
        NotFineBreaks(s, events[0]);
      }
    }
  }

  /** struct mm2s_ringbuffer and the registers the driver uses, for width 1. */
  class Ringbuffer {
    const ptr_width: nat
    var buffer: array?<Byte>
    var buffer_size: nat
    var capacity: nat
    const width: nat := 1
    var headptr: nat
    var tailptr: nat
    var HEADPTR: nat
    var TAILPTR: nat

    /** Once a buffer is set, the fields are those of a device. */
    ghost predicate Valid()
      reads this, buffer
    {
      buffer != null ==>
        && buffer.Length == buffer_size && capacity == buffer_size - width
        && 1 <= ptr_width <= 3 && IsDev(View())
    }

    ghost function View(): Dev
      requires buffer != null
      reads this, buffer
    {
      Dev(buffer[..], headptr, tailptr, HEADPTR, TAILPTR, Pow256(ptr_width))
    }

    /** A client with a buffer of n bytes, of which the driver reads the first n. */
    ghost predicate Accepts(data: array?<Byte>, n: nat)
      reads this
    {
      data != null && n <= data.Length && n <= INT_MAX && data != buffer
    }

    constructor (ptr_width: nat, head: nat, tail: nat)
      ensures Valid() && buffer == null && headptr == HEADPTR == head && tailptr == TAILPTR == tail
    {
      this.ptr_width := ptr_width;
      buffer, buffer_size, capacity := null, 0, 0;
      headptr, tailptr, HEADPTR, TAILPTR := head, tail, head, tail;
    }

    method SetBuffer(data: array?<Byte>) returns (r: int)
      requires ptr_width <= 3
      modifies `buffer, `buffer_size, `capacity
      ensures var limit := if ptr_width == 0 then 1 else if ptr_width == 1 then 0x100
                           else if ptr_width == 2 then 0x1_0000 else 0x100_0000;
        r == if data != null && 2 <= data.Length <= limit then 0 else -1
      ensures if r == 0 then buffer == data && buffer_size == data.Length && capacity == data.Length - 1
              else buffer == old(buffer) && buffer_size == old(buffer_size) && capacity == old(capacity)
      ensures r == 0 && headptr < data.Length && tailptr < data.Length && HEADPTR < data.Length && TAILPTR < data.Length
              ==> Valid()
    {
      Pow256Is();
      if data == null {
        return -1;
      }
      if data.Length <= width {
        return -1;
      }
      if data.Length - width > Pow256(ptr_width) - 1 {
        return -1;
      }
      buffer, buffer_size, capacity := data, data.Length, data.Length - width;
      r := 0;
    }

    method AdvanceHead()
      requires Valid() && buffer != null
      modifies `headptr
      ensures headptr == Advance(old(headptr), buffer.Length)
    {
      var nxt := (headptr + width) % U32;
      headptr := if nxt <= capacity then nxt else 0;
    }

    /** mm2s_ringbuffer_level */
    method ReadLevel() returns (r: int)
      requires Valid() && buffer != null
      modifies `tailptr
      ensures Valid() && View() == old(View()).(tailptr := old(TAILPTR))
      ensures r == ToInt(Level(headptr, tailptr, buffer.Length))
      ensures if headptr == STRAY then r == -1 - tailptr else r == |Pending(View())|
    {
      tailptr := TAILPTR;
      LevelCounts(buffer[..], Slot(headptr, buffer.Length), tailptr);
      r := ToInt(Level(headptr, tailptr, buffer_size));
    }

    /** mm2s_ringbuffer_free: on slot numbers, exactly the bytes a put may ask for. */
    method ReadFree() returns (r: int)
      requires Valid() && buffer != null
      modifies `tailptr
      ensures Valid() && View() == old(View()).(tailptr := old(TAILPTR))
      ensures r == Free(View())
      ensures r == FreeSlots(View()) + if headptr == STRAY then buffer.Length else 0
    {
      FreeIs(View().(tailptr := TAILPTR));
      var level := ReadLevel();
      r := capacity - level;
    }

    method Commit()
      requires Valid() && buffer != null
      modifies `HEADPTR
      ensures Valid() && View() == old(View()).(HEADPTR := Published(old(headptr), Pow256(ptr_width)))
    {
      PublishedIs(headptr, buffer.Length, Pow256(ptr_width));
      HEADPTR := Published(headptr, Pow256(ptr_width));
    }

    /** _roomfor */
    method Reserve(cnt: nat) returns (count: nat)
      requires Valid() && buffer != null
      modifies `tailptr
      ensures Valid() && count == RoomFor(old(View()), cnt).count
      ensures View() == old(View()).(tailptr := RoomFor(old(View()), cnt).tailptr)
    {
      hide Level, ToInt;
      LevelIsWord(View(), TAILPTR);
      BackToUnsigned(Level(headptr, TAILPTR, buffer_size));
      var lvl := Level(headptr, tailptr, buffer_size);
      var fre := (buffer_size - lvl) % U32;
      if fre >= cnt {
        return cnt;
      }
      var level := ReadLevel();
      lvl := level % U32;  // back to unsigned
      fre := (buffer_size - lvl) % U32;
      if fre >= cnt {
        return cnt;
      }
      return fre;
    }

    method PutDumb(data: array?<Byte>, n: nat) returns (r: int)
      requires Valid() && (data == null || Accepts(data, n))
      modifies `headptr, `tailptr, buffer
      ensures Valid() && buffer == old(buffer)
      ensures buffer == null || data == null || n == 0 ==> r == -1 && (buffer != null ==> View() == old(View()))
      ensures buffer != null && data != null && n > 0 ==>
        r == RoomFor(old(View()), n).count && View() == Put(old(View()), data[..n])
    {
      if buffer == null || data == null || n < width {
        return -1;
      }
      ghost var d := View();
      var count := Reserve(n);
      var i := 0;
      hide Fill, Advance, RoomFor, Pow256, IsTop, IsSize;
      FillNothing(d.buf, d.headptr, data[..0]);
      ghost var f := Fill(d.buf, d.headptr, data[..0]);
      while i < count
        invariant 0 <= i <= count && buffer == old(buffer) && data[..] == old(data[..])
        invariant Valid() && f == Fill(d.buf, d.headptr, data[..i])
        invariant View() == d.(buf := f.buf, headptr := f.headptr, tailptr := RoomFor(d, n).tailptr)
      {
        FillMore(d.buf, d.headptr, data[..i + 1], data[..i]);
        AdvanceHead();
        buffer[headptr] := data[i];
        i := i + 1;
        f := Fill(d.buf, d.headptr, data[..i]);
      }
      assert data[..n][..count] == data[..count];
      r := count;
    }

    /** The block form: the same count, bytes and cached tail; the head pointer too, unless the first
        memcpy was the whole copy. */
    method PutBlock(data: array?<Byte>, n: nat) returns (r: int)
      requires Valid() && (data == null || Accepts(data, n))
      modifies `headptr, `tailptr, buffer
      ensures Valid() && buffer == old(buffer)
      ensures buffer == null || data == null || n == 0 ==> r == -1 && (buffer != null ==> View() == old(View()))
      ensures buffer != null && data != null && n > 0 ==>
        r == RoomFor(old(View()), n).count && View() == PutBy(old(View()), data[..n], true)
    {
      if buffer == null || data == null || n < width {
        return -1;
      }
      ghost var d := View();
      var count := Reserve(n);
      if count == 0 {
        assert data[..n][..0] == [];
        return 0;
      }
      GrantFits(d, n);
      assert data[..n][..count] == data[..count];
      AdvanceHead();
      hide Fill;
      headptr := BlockIn(buffer, d.headptr, headptr, data, count);
      r := count;
    }
  }}
