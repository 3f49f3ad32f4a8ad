/** The s2mm driver: hardware produces, software consumes (sw/common/ringbuffer/s2mm_ringbuffer.c). */
module S2mm {
  import opened Words
  import opened Dma
  import Cyclic

  const INT_MAX: nat := 0x7FFF_FFFF

  /** The driver's fields that change, with the two pointer registers, which count up to top. */
  datatype Dev = Dev(buf: seq<Byte>, headptr: nat, tailptr: nat, HEADPTR: nat, TAILPTR: nat, top: nat)

  ghost predicate IsDev(d: Dev) {
    var n := |d.buf|;
    && IsSize(n) && IsTop(d.top) && n <= d.top
    && d.headptr < n && d.HEADPTR < n && IsPointer(d.tailptr, n) && (d.TAILPTR < n || d.TAILPTR == d.top - 1)
  }

  /** How many bytes a get into a buffer of n bytes takes. */
  function CountFor(d: Dev, n: nat): nat {
    var level := Level(d.HEADPTR, d.tailptr, |d.buf|);
    if level < n then level else n
  }

  datatype Got = Got(data: seq<Byte>, d: Dev)

  /** What get_dumb does. */
  function Get(d: Dev, n: nat): (g: Got)
    requires IsDev(d)
    ensures IsDev(g.d) && |g.data| == CountFor(d, n)
  {
    var r := Drain(d.buf, d.tailptr, CountFor(d, n));
    Got(r.data, d.(headptr := d.HEADPTR, tailptr := r.tailptr))
  }

  /** What get_dumb or the block get does: they differ in the pointer they leave. */
  function GetBy(d: Dev, n: nat, block: bool): (g: Got)
    requires IsDev(d)
    ensures IsDev(g.d) && |g.data| == CountFor(d, n)
  {
    var g := Get(d, n);
    if block then g.(d := g.d.(tailptr := BlockPointer(d.tailptr, CountFor(d, n), g.d.tailptr, |d.buf|))) else g
  }

  /** The bytes the software has not taken. */
  function Pending(d: Dev): seq<Byte>
    requires IsDev(d)
  {
    Unread(d.buf, d.HEADPTR, Slot(d.tailptr, |d.buf|))
  }

  // ----- what the driver computes, and what it should -----

  /** The level the driver computes is right from a tail inside the ring. From a stray one it is a whole
      ring too large, and two rings when nothing is unread. */
  lemma LevelIs(d: Dev)
    requires IsDev(d)
    ensures |Pending(d)| < |d.buf|
    ensures Level(d.HEADPTR, d.tailptr, |d.buf|) == |Pending(d)| +
      if d.tailptr != STRAY then 0 else if Pending(d) == [] then 2 * |d.buf| else |d.buf|
  {
    LevelCounts(d.buf, d.HEADPTR, Slot(d.tailptr, |d.buf|));
    StrayTailLevel(d.HEADPTR, |d.buf|);
    LevelOfSlots(d.HEADPTR, |d.buf| - 1, |d.buf|);
    hide Unread, Level;
  }

  /** What a get takes fits the ring from a tail inside it, and two rings from slot 0 on otherwise. */
  lemma CountFits(d: Dev, n: nat)
    requires IsDev(d)
    ensures d.tailptr < |d.buf| ==> CountFor(d, n) < |d.buf|
    ensures Advance(d.tailptr, |d.buf|) + CountFor(d, n) <= 2 * |d.buf|
    ensures Advance(d.tailptr, |d.buf|) < |d.buf|
  {
    LevelIs(d);
    hide Unread, Level;
  }

  /** After a block get that ended in the last slot, the driver believes a whole ring more has arrived than
      after the same get done one by one, and two whole rings if nothing has. */
  lemma StrayTailOvercounts(d: Dev)
    requires IsDev(d)
    ensures var was := Pending(d.(tailptr := |d.buf| - 1));
      Level(d.HEADPTR, STRAY, |d.buf|) == |was| + if was == [] then 2 * |d.buf| else |d.buf|
  {
    LevelIs(d.(tailptr := STRAY));
    hide Unread, Level;
  }

  // ----- what a get does to the queue -----

  /** The pointer a block get leaves stands for the slot of the one-by-one get. */
  lemma GetDrains(d: Dev, n: nat, block: bool)
    requires IsDev(d)
    ensures var g, r := GetBy(d, n, block), Drain(d.buf, Slot(d.tailptr, |d.buf|), CountFor(d, n));
      && g.data == r.data && g.d == d.(headptr := d.HEADPTR, tailptr := g.d.tailptr)
      && Slot(g.d.tailptr, |d.buf|) == r.tailptr
  {
    var count := CountFor(d, n);
    CountFits(d, n);
    hide Drain, CountFor;
    if count == 0 {
      DrainNothing(d.buf, d.tailptr);
      DrainNothing(d.buf, Slot(d.tailptr, |d.buf|));
    } else {
      DrainFromSlot(d.buf, d.tailptr, count);
      if count == |d.buf| - Advance(d.tailptr, |d.buf|) {
        DrainStraight(d.buf, d.tailptr, count);
      }
    }
    hide Advance;
  }

  /** How many bytes a get should take. */
  function Wanted(d: Dev, n: nat): nat
    requires IsDev(d)
  {
    if |Pending(d)| < n then |Pending(d)| else n
  }

  /** A get takes the oldest bytes, as many as there are or fit, from a tail inside the ring; from a stray
      tail only when it asks for no more than there are. */
  lemma GetTakesOldest(d: Dev, n: nat, block: bool)
    requires IsDev(d) && (d.tailptr < |d.buf| || n <= |Pending(d)|)
    ensures var g := GetBy(d, n, block);
      |g.data| == Wanted(d, n) && Pending(d) == g.data + Pending(g.d)
  {
    hide Unread, Drain, Level;
    LevelIs(d);
    GetDrains(d, n, block);
    DrainTakesOldest(d.buf, d.HEADPTR, Slot(d.tailptr, |d.buf|), CountFor(d, n));
  }

  /** And otherwise it takes more than there are. */
  lemma GetTakesTooMany(d: Dev, n: nat, block: bool)
    requires IsDev(d) && d.tailptr == STRAY && n > |Pending(d)|
    ensures |GetBy(d, n, block).data| > |Pending(d)|
  {
    hide Unread, Drain, Level;
    LevelIs(d);
  }

  // ----- any run of hardware writes, gets and commits -----

  datatype Event = HardwareWrites(b: Byte) | Getting(n: nat, block: bool) | Commit

  /** The driver with every byte the hardware produced and every byte a get returned. */
  datatype System = System(d: Dev, produced: seq<Byte>, returned: seq<Byte>)

  /** The hardware writes only into slots the software has given back; a register that holds no slot
      number stands for the last slot. */
  function Do(s: System, e: Event): (s': System)
    requires IsDev(s.d)
    ensures IsDev(s'.d)
  {
    PublishedIs(s.d.tailptr, |s.d.buf|, s.d.top);
    match e
    case HardwareWrites(b) =>
      if Level(s.d.HEADPTR, Slot(s.d.TAILPTR, |s.d.buf|), |s.d.buf|) >= |s.d.buf| - 1 then s
      else
        var h := Advance(s.d.HEADPTR, |s.d.buf|);
        System(s.d.(buf := s.d.buf[h := b], HEADPTR := h), s.produced + [b], s.returned)
    case Getting(n, block) => System(GetBy(s.d, n, block).d, s.produced, s.returned + GetBy(s.d, n, block).data)
    case Commit => s.(d := s.d.(TAILPTR := Published(s.d.tailptr, s.d.top)))
  }

  function Run(s: System, events: seq<Event>): (s': System)
    requires IsDev(s.d)
    ensures IsDev(s'.d)
    decreases |events|
  {
    if events == [] then s else Run(Do(s, events[0]), events[1..])
  }

  /** Everything produced has been returned in order or is still to be taken. */
  ghost predicate Fifo(s: System) {
    IsDev(s.d) && s.produced == s.returned + Pending(s.d)
  }

  /** And the software's tail lies between the committed tail and the head. */
  ghost predicate Inv(s: System) {
    var d, n := s.d, |s.d.buf|;
    && Fifo(s)
    && Level(Slot(d.tailptr, n), Slot(d.TAILPTR, n), n) + Level(d.HEADPTR, Slot(d.tailptr, n), n)
       == Level(d.HEADPTR, Slot(d.TAILPTR, n), n)
  }

  /** A get asks for no more than there is, unless the tail is a slot number. */
  predicate Fine(s: System, e: Event)
    requires IsDev(s.d)
  {
    e.Getting? ==> s.d.tailptr < |s.d.buf| || e.n <= |Pending(s.d)|
  }

  predicate AllFine(s: System, events: seq<Event>)
    requires IsDev(s.d)
    decreases |events|
  {
    events != [] ==> Fine(s, events[0]) && AllFine(Do(s, events[0]), events[1..])
  }

  lemma SlotIsSlot(ptr: nat, size: nat)
    requires IsSize(size)
    ensures Slot(ptr, size) < size && (ptr < size ==> Slot(ptr, size) == ptr)
  {
  }

  lemma WriteKeepsInv(s: System, b: Byte)
    requires Inv(s)
    ensures Inv(Do(s, HardwareWrites(b)))
  {
    var d, n := s.d, |s.d.buf|;
    var t, back := Slot(d.tailptr, n), Slot(d.TAILPTR, n);
    SlotIsSlot(d.tailptr, n);
    SlotIsSlot(d.TAILPTR, n);
    if Level(d.HEADPTR, back, n) < n - 1 {
      LevelCounts(d.buf, d.HEADPTR, t);
      LevelCounts(d.buf, d.HEADPTR, back);
      FillOne(d.buf, d.HEADPTR, b);
      hide Level, Unread, Fill, Advance;
      FillAppends(d.buf, d.HEADPTR, t, [b]);
      FillAppends(d.buf, d.HEADPTR, back, [b]);
      var d' := Do(s, HardwareWrites(b)).d;
      LevelCounts(d'.buf, d'.HEADPTR, t);
      LevelCounts(d'.buf, d'.HEADPTR, back);
      assert s.produced + [b] == s.returned + (Pending(d) + [b]);
    }
  }

  lemma FillOne(buf: seq<Byte>, headptr: nat, b: Byte)
    requires IsSize(|buf|) && IsPointer(headptr, |buf|)
    ensures var h := Advance(headptr, |buf|);
      h < |buf| && Fill(buf, headptr, [b]) == Filled(buf[h := b], h)
  {
    assert Fill(buf, headptr, []) == Filled(buf, headptr);
  }

  lemma GetKeepsInv(s: System, n: nat, block: bool)
    requires Inv(s) && Fine(s, Getting(n, block))
    ensures Inv(Do(s, Getting(n, block)))
  {
    hide Level, Unread, Drain, CountFor, Slot, GetBy;
    var d, size := s.d, |s.d.buf|;
    var g, t := GetBy(d, n, block), Slot(d.tailptr, size);
    SlotIsSlot(d.tailptr, size);
    SlotIsSlot(d.TAILPTR, size);
    GetTakesOldest(d, n, block);
    GetDrains(d, n, block);
    LevelCounts(d.buf, d.HEADPTR, t);
    DrainMovesTail(d.buf, d.HEADPTR, t, Slot(d.TAILPTR, size), |g.data|);
    assert s.returned + (g.data + Pending(g.d)) == (s.returned + g.data) + Pending(g.d);
  }

  /** Draining moves the tail away from a pointer behind it by as much as towards the head. */
  lemma {:induction false} DrainMovesTail(buf: seq<Byte>, headptr: nat, tailptr: nat, behind: nat, n: nat)
    requires IsSize(|buf|) && headptr < |buf| && tailptr < |buf| && behind < |buf|
    requires n <= Level(headptr, tailptr, |buf|)
    requires Level(tailptr, behind, |buf|) + Level(headptr, tailptr, |buf|) == Level(headptr, behind, |buf|)
    ensures var t := Drain(buf, tailptr, n).tailptr;
      && t < |buf|
      && Level(headptr, t, |buf|) == Level(headptr, tailptr, |buf|) - n
      && Level(t, behind, |buf|) + Level(headptr, t, |buf|) == Level(headptr, behind, |buf|)
  {
    if n > 0 {
      DrainMovesTail(buf, headptr, tailptr, behind, n - 1);
      var t := Drain(buf, tailptr, n - 1).tailptr;
      MiddleAdvances(headptr, t, behind, |buf|);
    }
  }

  lemma CommitKeepsInv(s: System)
    requires Inv(s)
    ensures Inv(Do(s, Commit))
  {
    var t := Slot(s.d.tailptr, |s.d.buf|);
    SlotIsSlot(s.d.tailptr, |s.d.buf|);
    PublishedIs(s.d.tailptr, |s.d.buf|, s.d.top);
    assert Slot(Published(s.d.tailptr, s.d.top), |s.d.buf|) == t;
    LevelOfSlots(t, t, |s.d.buf|);
    hide Level, Unread, Slot;
  }

  lemma StepKeepsInv(s: System, e: Event)
    requires Inv(s) && Fine(s, e)
    ensures Inv(Do(s, e))
  {
    match e
    case HardwareWrites(b) => WriteKeepsInv(s, b);
    case Getting(n, block) => GetKeepsInv(s, n, block);
    case Commit => CommitKeepsInv(s);
  }

  lemma {:induction false} RunKeepsInv(s: System, events: seq<Event>)
    requires Inv(s) && AllFine(s, events)
    ensures Inv(Run(s, events))
    decreases |events|
  {
    assert IsDev(s.d);
    hide Inv, Do, Fine;
    if events != [] {
      StepKeepsInv(s, events[0]);
      RunKeepsInv(Do(s, events[0]), events[1..]);
    }
  }

  lemma EmptyIsInv(d: Dev)
    requires IsDev(d) && d.headptr == d.tailptr == d.HEADPTR == d.TAILPTR
    ensures Inv(System(d, [], []))
  {
    NothingUnread(d.buf, d.TAILPTR);
  }

  /** From an empty ring, over any run of hardware writes, block and one-by-one gets and commits in which
      no get from a stray tail asks for more than there is: the bytes returned followed by those pending
      are exactly the bytes produced, and bytes returned plus the level between the slots are bytes produced. */
  lemma RingIsFifo(d: Dev, events: seq<Event>)
    requires IsDev(d) && d.headptr == d.tailptr == d.HEADPTR == d.TAILPTR && AllFine(System(d, [], []), events)
    ensures var s := Run(System(d, [], []), events);
      && s.produced == s.returned + Pending(s.d)
      && |s.returned| + Level(s.d.HEADPTR, Slot(s.d.tailptr, |s.d.buf|), |s.d.buf|) == |s.produced|
  {
    EmptyIsInv(d);
    RunKeepsInv(System(d, [], []), events);
    var s := Run(System(d, [], []), events);
    LevelCounts(s.d.buf, s.d.HEADPTR, Slot(s.d.tailptr, |s.d.buf|));
    hide Run, AllFine;
  }

  /** No get is ever wrong for a client that gets byte by byte, or whose block gets never end in the last slot. */
  predicate Careful(s: System, e: Event)
    requires IsDev(s.d)
  {
    e.Getting? && e.block ==> CountFor(s.d, e.n) != |s.d.buf| - Advance(s.d.tailptr, |s.d.buf|)
  }

  predicate AllCareful(s: System, events: seq<Event>)
    requires IsDev(s.d)
    decreases |events|
  {
    events != [] ==> Careful(s, events[0]) && AllCareful(Do(s, events[0]), events[1..])
  }

  lemma CarefulStep(s: System, e: Event)
    requires IsDev(s.d) && s.d.tailptr < |s.d.buf| && Careful(s, e)
    ensures Fine(s, e) && Do(s, e).d.tailptr < |Do(s, e).d.buf|
  {
    hide Unread, Advance, Level;
    if e.Getting? && CountFor(s.d, e.n) == 0 {
      DrainNothing(s.d.buf, s.d.tailptr);
    }
    hide Drain;
  }

  lemma {:induction false} CarefulIsFine(s: System, events: seq<Event>)
    requires IsDev(s.d) && s.d.tailptr < |s.d.buf| && AllCareful(s, events)
    ensures AllFine(s, events)
    decreases |events|
  {
    hide Do, Fine, Careful;
    if events != [] {
      CarefulStep(s, events[0]);
      CarefulIsFine(Do(s, events[0]), events[1..]);
    }
  }

  // ----- exactly which runs stay a FIFO -----

  /** Everything comes out in order at every moment of the run. */
  ghost predicate FifoThroughout(s: System, events: seq<Event>)
    requires IsDev(s.d)
    decreases |events|
  {
    Fifo(s) && (events != [] ==> FifoThroughout(Do(s, events[0]), events[1..]))
  }

  lemma NotFineBreaks(s: System, e: Event)
    requires Inv(s) && !Fine(s, e)
    ensures !Fifo(Do(s, e))
  {
    hide Unread, Drain, Level;
    GetTakesTooMany(s.d, e.n, e.block);
    hide GetBy;
  }

  lemma {:induction false} ThroughoutIff(s: System, events: seq<Event>)
    requires Inv(s)
    ensures FifoThroughout(s, events) <==> AllFine(s, events)
    decreases |events|
  {
    assert Fifo(s);
    hide Inv, Do, Fine, Fifo;
    if events != [] {
      if Fine(s, events[0]) {
        StepKeepsInv(s, events[0]);
        ThroughoutIff(Do(s, events[0]), events[1..]);
      } else {
        NotFineBreaks(s, events[0]);
      }
    }
  }

  /** For every run, with any requests: the bytes returned stay a prefix of the bytes produced if and only
      if no get asks for more than there is while the tail is what a block copy into the last slot leaves. */
  lemma FifoIff(d: Dev, events: seq<Event>)
    requires IsDev(d) && d.headptr == d.tailptr == d.HEADPTR == d.TAILPTR
    ensures FifoThroughout(System(d, [], []), events) <==> AllFine(System(d, [], []), events)
  {
    EmptyIsInv(d);
    ThroughoutIff(System(d, [], []), events);
  }

  // ----- an empty ring that reads as two full ones -----

  /** The hardware has written all of data into an empty ring. */
  lemma {:induction false} WritesFill(d: Dev, data: seq<Byte>) returns (events: seq<Event>)
    requires IsDev(d) && d.headptr == d.tailptr == d.HEADPTR == d.TAILPTR == 0 && |data| <= |d.buf| - 1
    ensures var s := Run(System(d, [], []), events);
      Inv(s) && s == System(d.(buf := s.d.buf, HEADPTR := |data|), data, []) && |s.d.buf| == |d.buf|
    decreases |data|
  {
    if data == [] {
      events := [];
      EmptyIsInv(d);
    } else {
      var n := |data| - 1;
      events := WritesFill(d, data[..n]);
      var s := Run(System(d, [], []), events);
      RunOneMore(System(d, [], []), events, HardwareWrites(data[n]));
      StepKeepsInv(s, HardwareWrites(data[n]));
      hide Run, Inv;
      assert data[..n] + [data[n]] == data;
      events := events + [HardwareWrites(data[n])];
    }
  }

  lemma {:induction false} RunOneMore(s: System, events: seq<Event>, e: Event)
    requires IsDev(s.d)
    ensures Run(s, events + [e]) == Do(Run(s, events), e)
    decreases |events|
  {
    hide Do;
    if events == [] {
      assert events + [e] == [e];
    } else {
      assert (events + [e])[1..] == events[1..] + [e];
      RunOneMore(Do(s, events[0]), events[1..], e);
    }
  }

  /** A block get of everything up to the last slot leaves a stray tail, and a level of two rings. */
  lemma LastSlotDrained(d: Dev)
    requires IsDev(d) && d.tailptr == 0 && d.HEADPTR == |d.buf| - 1
    ensures var g := GetBy(d, |Pending(d)|, true);
      && g.data == Pending(d) && Pending(g.d) == [] && g.d.tailptr == STRAY && |g.d.buf| == |d.buf|
      && Level(g.d.HEADPTR, g.d.tailptr, |g.d.buf|) == 2 * |d.buf|
  {
    LevelIs(d);
    GetTakesOldest(d, |Pending(d)|, true);
    var g := GetBy(d, |Pending(d)|, true);
    hide Unread, Drain;
    assert Pending(g.d) == [] && g.data + [] == g.data;
    LevelIs(g.d);
  }

  lemma LevelIsTaken(d: Dev)
    requires IsDev(d)
    ensures forall n: nat :: n <= Level(d.HEADPTR, d.tailptr, |d.buf|) ==> |Get(d, n).data| == n
  {
  }

  /** A ring filled to its last slot and drained with one block get: all of it comes back and nothing is
      left, but the level then reads twice the size of the ring, so the next get returns old bytes. */
  lemma EmptyReadsTwoRings(d: Dev, data: seq<Byte>) returns (events: seq<Event>)
    requires IsDev(d) && d.headptr == d.tailptr == d.HEADPTR == d.TAILPTR == 0 && |data| == |d.buf| - 1
    ensures var s := Run(System(d, [], []), events);
      && s.produced == s.returned == data && Pending(s.d) == [] && s.d.tailptr == STRAY
      && Level(s.d.HEADPTR, s.d.tailptr, |s.d.buf|) == 2 * |s.d.buf|
      && forall n: nat :: n <= 2 * |s.d.buf| ==> |Get(s.d, n).data| == n
  {
    hide Run, Level, Get, GetBy, Pending;
    events := WritesFill(d, data);
    var s := Run(System(d, [], []), events);
    var e := Getting(|data|, true);
    RunOneMore(System(d, [], []), events, e);
    assert [] + Pending(s.d) == Pending(s.d) == data;
    LastSlotDrained(s.d);
    assert [] + GetBy(s.d, |data|, true).data == data;
    LevelIsTaken(Do(s, e).d);
    events := events + [e];
  }

  /** struct s2mm_ringbuffer and the registers the driver uses, for width 1. */
  class Ringbuffer {
    const ptr_width: nat
    var buffer: array?<Byte>
    var buffer_size: nat
    var capacity: nat
    const width: nat := 1
    var headptr: nat
    var tailptr: nat
    var HEADPTR: nat
    var TAILPTR: nat

    ghost predicate Valid()
      reads this, buffer
    {
      buffer != null ==>
        && buffer.Length == buffer_size && capacity == buffer_size - width
        && 1 <= ptr_width <= 3 && IsDev(View())
    }

    ghost function View(): Dev
      requires buffer != null
      reads this, buffer
    {
      Dev(buffer[..], headptr, tailptr, HEADPTR, TAILPTR, Pow256(ptr_width))
    }

    ghost predicate Accepts(data: array?<Byte>, n: nat)
      reads this
    {
      data != null && n <= data.Length && n <= INT_MAX && data != buffer
    }

    method AdvanceTail()
      requires Valid() && buffer != null
      modifies `tailptr
      ensures tailptr == Advance(old(tailptr), buffer.Length)
    {
      var nxt := (tailptr + width) % U32;
      tailptr := if nxt <= capacity then nxt else 0;
    }

    /** s2mm_ringbuffer_level */
    method ReadLevel() returns (r: nat)
      requires Valid() && buffer != null
      modifies `headptr
      ensures Valid() && View() == old(View()).(headptr := old(HEADPTR))
      ensures r == Level(old(HEADPTR), tailptr, buffer.Length)
    {
      headptr := HEADPTR;
      r := Level(headptr, tailptr, buffer_size);
    }

    method CommitTail()
      requires Valid() && buffer != null
      modifies `TAILPTR
      ensures Valid() && View() == old(View()).(TAILPTR := Published(old(tailptr), Pow256(ptr_width)))
    {
      PublishedIs(tailptr, buffer.Length, Pow256(ptr_width));
      TAILPTR := Published(tailptr, Pow256(ptr_width));
    }

    method GetDumb(data: array?<Byte>, n: nat) returns (r: int)
      requires Valid() && (data == null || Accepts(data, n))
      modifies `headptr, `tailptr, data
      ensures Valid() && buffer == old(buffer)
      ensures buffer == null || data == null || n == 0 ==>
        r == -1 && (buffer != null ==> View() == old(View())) && (data != null ==> data[..] == old(data[..]))
      ensures buffer != null && data != null && n > 0 ==>
        var g := Get(old(View()), n);
        r == |g.data| && data[..r] == g.data && data[r..] == old(data[..])[r..] && View() == g.d
    {
      if buffer == null || data == null || n < width {
        return -1;
      }
      ghost var d, was := View(), data[..];
      var level := ReadLevel();
      var count := if level < n then level else n;
      var i := 0;
      hide Drain, Level, Advance, Pow256;
      DrainNothing(d.buf, d.tailptr);
      ghost var g := Drain(d.buf, d.tailptr, 0);
      while i < count
        invariant 0 <= i <= count && buffer == old(buffer)
        invariant Valid() && g == Drain(d.buf, d.tailptr, i)
        invariant View() == d.(headptr := d.HEADPTR, tailptr := g.tailptr)
        invariant data[..i] == g.data && data[i..] == was[i..]
      {
        DrainMore(d.buf, d.tailptr, i, i + 1);
        AdvanceTail();
        data[i] := buffer[tailptr];
        i := i + 1;
        g := Drain(d.buf, d.tailptr, i);
      }
      r := i;
    }

    /** The block form: the same count and bytes; the tail pointer too, unless the first memcpy was the
        whole copy. */
    method GetBlock(data: array?<Byte>, n: nat) returns (r: int)
      requires Valid() && (data == null || Accepts(data, n))
      modifies `headptr, `tailptr, data
      ensures Valid() && buffer == old(buffer)
      ensures buffer == null || data == null || n == 0 ==>
        r == -1 && (buffer != null ==> View() == old(View())) && (data != null ==> data[..] == old(data[..]))
      ensures buffer != null && data != null && n > 0 ==>
        var g := GetBy(old(View()), n, true);
        r == |g.data| && data[..r] == g.data && data[r..] == old(data[..])[r..] && View() == g.d
    {
      if buffer == null || data == null || n < width {
        return -1;
      }
      ghost var d := View();
      var level := ReadLevel();
      var count := if level < n then level else n;
      if count == 0 {
        return 0;
      }
      CountFits(d, n);
      AdvanceTail();
      hide Drain;
      tailptr := BlockOut(buffer, d.tailptr, tailptr, data, count);
      r := count;
    }
  }
}
