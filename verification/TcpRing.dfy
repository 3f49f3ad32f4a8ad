/** The byte ring between the socket thread and the simulation thread
    (tb/common/jtagdpi/tcp_server.c), one shared-memory access at a time. */
module TcpRing {

  const N: nat := 1024  // BUFSIZE_BYTE
  const U32: nat := 0x1_0000_0000

  /** Where the producing thread is inside tcp_buffer_put_byte. The full test reads rptr twice. */
  datatype Producer =
    | PIdle
    | PTest(dat: char)    // about to compare wptr with rptr
    | PAhead(dat: char)   // saw wptr >= rptr, about to form wptr - rptr
    | PBehind(dat: char)  // saw wptr < rptr, about to form rptr - wptr
    | PFree(dat: char)    // was told "not full"
    | PStored(dat: char)  // the byte is in its slot
    | PAdvanced(dat: char, slot: nat)  // wptr has moved on, the byte is still to be stored
    | PWrapping           // wptr has been incremented, `%=` is still to come

  /** Where the consuming thread is inside tcp_buffer_get_byte. */
  datatype Consumer =
    | CIdle
    | CFound              // was told "not empty"
    | CLoaded(dat: char)  // has read the slot
    | CAdvanced(slot: nat)  // rptr has moved on, the slot is still to be read
    | CWrapping           // rptr has been incremented, `%=` is still to come

  /** What the other thread can see: a pointer between `ptr++` and `ptr %= N` (split), and a pointer that
      has moved on before its slot has been stored or read (first). The language orders the increment
      in `buf[ptr++]` neither before nor after the access. */
  datatype Visibility = Visibility(wptrSplit: bool, rptrSplit: bool, wptrFirst: bool, rptrFirst: bool)

  /** The shared ring, the two program counters, and every byte put and taken so far. */
  datatype Ring = Ring(buf: seq<char>, rptr: nat, wptr: nat, p: Producer, c: Consumer,
                       put: seq<char>, taken: seq<char>)

  datatype Step = PutCall(dat: char) | Compare | Subtract | Store | AdvanceW | WrapW
                | GetCall | Load | AdvanceR | WrapR

  function Init(buf: seq<char>): Ring
    requires |buf| == N
  {
    Ring(buf, 0, 0, PIdle, CIdle, [], [])
  }

  /** Unsigned 32-bit difference. */
  function Minus(a: nat, b: nat): nat {
    (a - b) % U32
  }

  /** wptr moves on: from here the other thread counts the byte in. */
  function PublishW(v: Visibility, r: Ring, d: char): Ring {
    r.(wptr := if v.wptrSplit then r.wptr + 1 else (r.wptr + 1) % N, put := r.put + [d])
  }

  /** rptr moves on: from here the other thread counts the slot as free. */
  function PublishR(v: Visibility, r: Ring): Ring {
    r.(rptr := if v.rptrSplit then r.rptr + 1 else (r.rptr + 1) % N)
  }

  /** One step of one thread; a step the thread is not ready for changes nothing. */
  function Do(v: Visibility, r: Ring, s: Step): (r': Ring)
    requires |r.buf| == N
    ensures |r'.buf| == N
  {
    match (s, r.p, r.c)
    case (PutCall(d), PIdle, _) => r.(p := PTest(d))
    case (Compare, PTest(d), _) => r.(p := if r.wptr >= r.rptr then PAhead(d) else PBehind(d))
    case (Subtract, PAhead(d), _) => r.(p := if Minus(r.wptr, r.rptr) == N - 1 then PTest(d) else PFree(d))
    case (Subtract, PBehind(d), _) => r.(p := if Minus(r.rptr, r.wptr) == 1 then PTest(d) else PFree(d))
    case (Store, PFree(d), _) =>
      if r.wptr < N && !v.wptrFirst then r.(buf := r.buf[r.wptr := d], p := PStored(d)) else r
    case (AdvanceW, PStored(d), _) =>
      PublishW(v, r, d).(p := if v.wptrSplit then PWrapping else PIdle)
    case (AdvanceW, PFree(d), _) =>
      if v.wptrFirst then PublishW(v, r, d).(p := PAdvanced(d, r.wptr)) else r
    case (Store, PAdvanced(d, k), _) =>
      if k < N then r.(buf := r.buf[k := d], p := if v.wptrSplit then PWrapping else PIdle) else r
    case (WrapW, PWrapping, _) => r.(wptr := r.wptr % N, p := PIdle)
    case (GetCall, _, CIdle) => if r.wptr == r.rptr then r else r.(c := CFound)
    case (Load, _, CFound) => if r.rptr < N && !v.rptrFirst then r.(c := CLoaded(r.buf[r.rptr])) else r
    case (AdvanceR, _, CLoaded(d)) =>
      PublishR(v, r).(c := if v.rptrSplit then CWrapping else CIdle, taken := r.taken + [d])
    case (AdvanceR, _, CFound) => if v.rptrFirst then PublishR(v, r).(c := CAdvanced(r.rptr)) else r
    case (Load, _, CAdvanced(k)) =>
      if k < N then r.(c := if v.rptrSplit then CWrapping else CIdle, taken := r.taken + [r.buf[k]]) else r
    case (WrapR, _, CWrapping) => r.(rptr := r.rptr % N, c := CIdle)
    case _ => r
  }

  /** Any schedule of the two threads. */
  function Run(v: Visibility, r: Ring, steps: seq<Step>): (r': Ring)
    requires |r.buf| == N
    ensures |r'.buf| == N
    decreases |steps|
  {
    if steps == [] then r else Run(v, Do(v, r, steps[0]), steps[1..])
  }

  /** The bytes taken are the first of the bytes put, in order. */
  ghost predicate Fifo(r: Ring) {
    r.taken <= r.put
  }

  /** How many slots the consumer has given back: one more than it has read, if it moves rptr first. */
  function Given(r: Ring): nat {
    |r.taken| + if r.c.CAdvanced? then 1 else 0
  }

  /** The bytes in slots that have not been given back. */
  ghost function Queue(r: Ring): seq<char>
    requires Given(r) <= |r.put|
  {
    r.put[Given(r)..]
  }

  ghost predicate Inv(r: Ring) {
    && |r.buf| == N && Fifo(r)
    && Given(r) <= |r.put| && |r.put| - Given(r) <= N - 1
    && r.wptr == |r.put| % N && r.rptr == Given(r) % N
    && (forall i :: |r.taken| <= i < |r.put| ==> SlotHolds(r, i))
    && (match r.p
        case PAhead(_) => r.rptr <= r.wptr
        case PBehind(_) => r.wptr < N - 1
        case PFree(_) => |r.put| - Given(r) < N - 1
        case PStored(d) => |r.put| - Given(r) < N - 1 && r.buf[r.wptr] == d
        case PAdvanced(_, _) => false
        case PWrapping => false
        case _ => true)
    && (match r.c
        case CFound => |r.taken| < |r.put|
        case CLoaded(d) => |r.taken| < |r.put| && d == r.put[|r.taken|]
        case CAdvanced(k) => k == |r.taken| % N
        case CWrapping => false
        case CIdle => true)
  }

  /** Byte i of everything put sits in slot i mod N. */
  ghost predicate SlotHolds(r: Ring, i: nat)
    requires |r.buf| == N && i < |r.put|
  {
    r.buf[i % N] == r.put[i]
  }

  /** Two positions less than N apart use different slots. */
  lemma SlotsDiffer(i: nat, j: nat)
    requires i < j < i + N
    ensures i % N != j % N
  {
  }

  /** The pointers alone tell how many bytes are in flight. */
  lemma PointersCount(r: Ring)
    requires Inv(r)
    ensures |r.put| - Given(r) == if r.wptr >= r.rptr then r.wptr - r.rptr else r.wptr + N - r.rptr
  {
  }

  /** Both pointers are published whole, and wptr only after the store. */
  predicate Orderly(v: Visibility) {
    !v.wptrSplit && !v.rptrSplit && !v.wptrFirst
  }

  lemma StoreKeepsInv(v: Visibility, r: Ring)
    requires Inv(r) && Orderly(v) && r.p.PFree?
    ensures Inv(Do(v, r, Store))
  {
    var r' := Do(v, r, Store);
    forall i | |r.taken| <= i < |r.put| ensures SlotHolds(r', i) {
      assert SlotHolds(r, i);
      SlotsDiffer(i, |r.put|);
    }
  }

  lemma AdvanceWIs(v: Visibility, r: Ring)
    requires |r.buf| == N && Orderly(v) && r.p.PStored?
    ensures Do(v, r, AdvanceW) == r.(wptr := (r.wptr + 1) % N, p := PIdle, put := r.put + [r.p.dat])
  {
  }

  lemma NextSlot(k: nat)
    ensures (k % N + 1) % N == (k + 1) % N
  {
  }

  lemma AdvanceWKeepsInv(v: Visibility, r: Ring)
    requires Inv(r) && Orderly(v) && r.p.PStored?
    ensures Inv(Do(v, r, AdvanceW))
  {
    hide Do;
    AdvanceWIs(v, r);
    NextSlot(|r.put|);
    var r' := Do(v, r, AdvanceW);
    forall i | |r'.taken| <= i < |r'.put| ensures SlotHolds(r', i) {
      if i < |r.put| {
        assert SlotHolds(r, i);
      }
    }
  }

  lemma AdvanceRIs(v: Visibility, r: Ring)
    requires |r.buf| == N && Orderly(v) && Removes(v, r, AdvanceR)
    ensures Do(v, r, AdvanceR) ==
      if r.c.CLoaded? then r.(rptr := (r.rptr + 1) % N, c := CIdle, taken := r.taken + [r.c.dat])
      else r.(rptr := (r.rptr + 1) % N, c := CAdvanced(r.rptr))
  {
  }

  lemma AdvanceRKeepsInv(v: Visibility, r: Ring)
    requires Inv(r) && Orderly(v) && Removes(v, r, AdvanceR)
    ensures Inv(Do(v, r, AdvanceR))
  {
    hide Do;
    AdvanceRIs(v, r);
    NextSlot(|r.taken|);
    PointersCount(r);
    var r' := Do(v, r, AdvanceR);
    forall i | |r'.taken| <= i < |r'.put| ensures SlotHolds(r', i) {
      assert SlotHolds(r, i);
    }
  }

  /** The late read of a slot that has been given back: no put has reached it. */
  lemma LateLoadKeepsInv(v: Visibility, r: Ring)
    requires Inv(r) && Orderly(v) && r.c.CAdvanced?
    ensures Inv(Do(v, r, Load)) && Do(v, r, Load).taken == r.taken + [r.put[|r.taken|]]
  {
    var r' := Do(v, r, Load);
    assert SlotHolds(r, |r.taken|);
    forall i | |r'.taken| <= i < |r'.put| ensures SlotHolds(r', i) {
      assert SlotHolds(r, i);
    }
  }

  /** Steps that only move a program counter. */
  lemma TestKeepsInv(v: Visibility, r: Ring, s: Step)
    requires Inv(r) && Orderly(v) && !s.Store? && !s.AdvanceW? && !s.AdvanceR? && (s.Load? ==> !r.c.CAdvanced?)
    ensures Inv(Do(v, r, s))
  {
    var r' := Do(v, r, s);
    PointersCount(r);
    if s.Load? && r.c.CFound? {
      assert SlotHolds(r, |r.taken|);
    }
    forall i | |r'.taken| <= i < |r'.put| ensures SlotHolds(r', i) {
      assert SlotHolds(r, i);
    }
  }

  lemma StepKeepsInv(v: Visibility, r: Ring, s: Step)
    requires Inv(r) && Orderly(v)
    ensures Inv(Do(v, r, s))
  {
    assert |r.buf| == N && !r.p.PAdvanced?;
    hide Inv;
    if s.Store? && r.p.PFree? {
      StoreKeepsInv(v, r);
    } else if s.AdvanceW? && r.p.PStored? {
      AdvanceWKeepsInv(v, r);
    } else if Removes(v, r, s) {
      AdvanceRKeepsInv(v, r);
    } else if s.Load? && r.c.CAdvanced? {
      LateLoadKeepsInv(v, r);
    } else if s.Store? || s.AdvanceW? || s.AdvanceR? {
      assert Do(v, r, s) == r;
    } else {
      TestKeepsInv(v, r, s);
    }
  }

  lemma {:induction false} RunKeepsInv(v: Visibility, r: Ring, steps: seq<Step>)
    requires Inv(r) && Orderly(v)
    ensures Inv(Run(v, r, steps))
    decreases |steps|
  {
    hide Inv, Do;
    assert |r.buf| == N by { InvSize(r); }
    if steps != [] {
      StepKeepsInv(v, r, steps[0]);
      RunKeepsInv(v, Do(v, r, steps[0]), steps[1..]);
    }
  }

  lemma InvSize(r: Ring)
    requires Inv(r)
    ensures |r.buf| == N
  {
  }

  // ----- which publications break the queue -----

  /** Fifo holds in every schedule, whatever malloc left in the buffer. */
  ghost predicate FifoAlways(v: Visibility) {
    forall buf: seq<char>, steps: seq<Step> :: |buf| == N ==> Fifo(Run(v, Init(buf), steps))
  }

  lemma {:induction false} RunAppend(v: Visibility, r: Ring, s: seq<Step>, t: seq<Step>)
    requires |r.buf| == N
    ensures Run(v, r, s + t) == Run(v, Run(v, r, s), t)
    decreases |s|
  {
    if s == [] {
      assert s + t == t;
    } else {
      assert (s + t)[1..] == s[1..] + t;
      RunAppend(v, Do(v, r, s[0]), s[1..], t);
    }
  }

  /** A state some schedule reaches. */
  ghost predicate Reachable(v: Visibility, r: Ring) {
    exists buf: seq<char>, steps: seq<Step> :: |buf| == N && r == Run(v, Init(buf), steps)
  }

  lemma OneMore(v: Visibility, r: Ring, s: Step)
    requires Reachable(v, r)
    ensures |r.buf| == N && Reachable(v, Do(v, r, s))
  {
    var buf: seq<char>, steps: seq<Step> :| |buf| == N && r == Run(v, Init(buf), steps);
    RunAppend(v, Init(buf), steps, [s]);
    assert Run(v, r, [s]) == Do(v, r, s);
  }

  lemma More(v: Visibility, r: Ring, s: Step) returns (r': Ring)
    requires Reachable(v, r)
    ensures |r.buf| == N && r' == Do(v, r, s) && Reachable(v, r')
  {
    OneMore(v, r, s);
    r' := Do(v, r, s);
  }

  /** The first put has moved wptr and not stored its byte, and a get has found it. */
  lemma EarlyIsReached(v: Visibility) returns (r: Ring)
    requires v.wptrFirst
    ensures Reachable(v, r) && r.rptr == 0 && r.c == CFound && |r.buf| == N && r.buf[0] == 'x'
    ensures r.put == ['y'] && r.taken == []
  {
    r := BlankIsReached(v);
    hide Reachable;
    r := More(v, r, PutCall('y'));
    r := More(v, r, Compare);
    r := More(v, r, Subtract);
    r := More(v, r, AdvanceW);
    r := More(v, r, GetCall);
  }

  lemma BlankIsReached(v: Visibility) returns (r: Ring)
    ensures Reachable(v, r) && Even(r, 0) && |r.buf| == N && r.buf[0] == 'x'
  {
    var buf := seq(N, _ => 'x');
    assert Run(v, Init(buf), []) == Init(buf);
    r := Init(buf);
  }

  /** A wptr seen before its byte is stored makes the consumer take what the slot held before. */
  lemma EarlyWptrBreaksFifo(v: Visibility)
    requires v.wptrFirst
    ensures !FifoAlways(v)
  {
    var r := EarlyIsReached(v);
    hide Reachable;
    r := TakeFound(v, r);
    assert r.taken[0] == 'x' != r.put[0];
    UnsafeIsReached(v, r);
  }

  /** The rest of a get that found a byte, in either order. */
  lemma TakeFound(v: Visibility, r: Ring) returns (r': Ring)
    requires Reachable(v, r) && r.c == CFound && r.rptr < N
    ensures |r.buf| == N && Reachable(v, r')
    ensures r' == r.(rptr := if v.rptrSplit then r.rptr + 1 else (r.rptr + 1) % N,
                     c := if v.rptrSplit then CWrapping else CIdle, taken := r.taken + [r.buf[r.rptr]])
  {
    hide Reachable;
    r' := r;
    if v.rptrFirst {
      r' := More(v, r', AdvanceR);
      r' := More(v, r', Load);
    } else {
      r' := More(v, r', Load);
      r' := More(v, r', AdvanceR);
    }
  }

  /** The full test of a put that is not refused. */
  lemma TestOne(v: Visibility, r: Ring, d: char) returns (r': Ring)
    requires Reachable(v, r) && r.p == PIdle && r.wptr < N - 1
    requires r.rptr <= N && r.rptr != r.wptr + 1
    ensures |r.buf| == N && Reachable(v, r') && r' == r.(p := PFree(d))
  {
    hide Reachable;
    r' := More(v, r, PutCall(d));
    r' := More(v, r', Compare);
    r' := More(v, r', Subtract);
  }

  /** A whole put that is not refused and does not wrap. */
  lemma PutOne(v: Visibility, r: Ring, d: char) returns (r': Ring)
    requires Reachable(v, r) && !v.wptrFirst && r.p == PIdle && r.wptr < N - 1
    requires r.rptr <= N && r.rptr != r.wptr + 1
    ensures |r.buf| == N && Reachable(v, r')
    ensures r' == r.(buf := r.buf[r.wptr := d], wptr := r.wptr + 1, put := r.put + [d])
  {
    hide Reachable;
    r' := TestOne(v, r, d);
    r' := More(v, r', Store);
    r' := More(v, r', AdvanceW);
    r' := More(v, r', WrapW);
  }

  /** A whole get that finds a byte and does not wrap. */
  lemma TakeOne(v: Visibility, r: Ring) returns (r': Ring)
    requires Reachable(v, r) && r.c == CIdle && r.rptr < N - 1 && r.wptr != r.rptr
    ensures |r.buf| == N && Reachable(v, r')
    ensures r' == r.(rptr := r.rptr + 1, taken := r.taken + [r.buf[r.rptr]])
  {
    hide Reachable;
    r' := More(v, r, GetCall);
    r' := TakeFound(v, r');
    r' := More(v, r', WrapR);
  }

  /** k bytes have been put and taken, one at a time. */
  ghost predicate Even(r: Ring, k: nat) {
    r.rptr == r.wptr == k == |r.put| == |r.taken| && r.p == PIdle && r.c == CIdle
  }

  lemma {:induction false} EvenIsReached(v: Visibility, k: nat) returns (r: Ring)
    requires k < N && !v.wptrFirst
    ensures Reachable(v, r) && Even(r, k)
  {
    if k == 0 {
      r := BlankIsReached(v);
    } else {
      r := EvenIsReached(v, k - 1);
      r := PutOne(v, r, 'x');
      r := TakeOne(v, r);
    }
  }

  /** The put that fills the last slot, caught between `wptr++` and `wptr %= N`. */
  lemma WptrSeenUnwrapped(v: Visibility) returns (r: Ring)
    requires v.wptrSplit && !v.wptrFirst
    ensures Reachable(v, r) && r.wptr == N && r.rptr == N - 1 && r.c == CIdle
    ensures |r.put| == N && |r.taken| == N - 1
  {
    r := EvenIsReached(v, N - 1);
    hide Reachable;
    r := More(v, r, PutCall('x'));
    r := More(v, r, Compare);
    r := More(v, r, Subtract);
    r := More(v, r, Store);
    r := More(v, r, AdvanceW);
  }

  /** A visible wptr of 1024 makes the consumer take a byte that was never put. */
  lemma VisibleWptrBreaksFifo(v: Visibility)
    requires v.wptrSplit && !v.wptrFirst
    ensures !FifoAlways(v)
  {
    var r := WptrSeenUnwrapped(v);
    hide Reachable;
    r := More(v, r, GetCall);
    r := TakeFound(v, r);
    r := More(v, r, WrapR);
    assert r.rptr == 0 && r.c == CIdle && |r.taken| == N == |r.put| == r.wptr;
    r := More(v, r, GetCall);
    r := TakeFound(v, r);
    UnsafeIsReached(v, r);
  }

  /** With rptr paused at 1024, k more bytes are put from slot 0 on. */
  lemma {:induction false} FillIsReached(v: Visibility, k: nat) returns (r: Ring)
    requires k < N && v.rptrSplit && !v.wptrSplit && !v.wptrFirst
    ensures Reachable(v, r) && r.rptr == N && r.wptr == k && r.p == PIdle && r.c == CWrapping
    ensures |r.put| == N + k && |r.taken| == N && (k > 0 ==> r.put[N] == 'x')
  {
    hide Reachable;
    if k == 0 {
      r := EvenIsReached(v, N - 1);
      r := More(v, r, PutCall('x'));
      r := More(v, r, Compare);
      r := More(v, r, Subtract);
      r := More(v, r, Store);
      r := More(v, r, AdvanceW);
      r := More(v, r, GetCall);
      r := TakeFound(v, r);
    } else {
      r := FillIsReached(v, k - 1);
      r := PutOne(v, r, 'x');
    }
  }

  /** A full ring, its put half-way through the test, and rptr about to fall from 1024 to 0. */
  lemma FullIsReached(v: Visibility) returns (r: Ring)
    requires v.rptrSplit && !v.wptrSplit && !v.wptrFirst
    ensures Reachable(v, r) && r.rptr == 0 && r.wptr == N - 1 && r.p == PBehind('x') && r.c == CIdle
    ensures |r.put| == N + N - 1 && |r.taken| == N && r.put[N] == 'x'
  {
    r := FillIsReached(v, N - 1);
    hide Reachable;
    r := More(v, r, PutCall('x'));
    r := More(v, r, Compare);
    r := More(v, r, WrapR);
  }

  /** A visible rptr of 1024 makes the full test, which reads rptr twice, miss a full ring; the next byte
      overwrites the oldest one and is taken in its place. */
  lemma VisibleRptrBreaksFifo(v: Visibility)
    requires v.rptrSplit && !v.wptrSplit && !v.wptrFirst
    ensures !FifoAlways(v)
  {
    var r := FullIsReached(v);
    hide Reachable;
    r := More(v, r, Subtract);
    r := More(v, r, Store);
    r := More(v, r, AdvanceW);
    assert r.wptr == r.rptr == 0 && |r.put| - |r.taken| == N && r.put[N] == 'x';
    r := PutOne(v, r, 'y');
    r := TakeOne(v, r);
    assert r.put[N] == 'x' && r.taken[N] == 'y';
    UnsafeIsReached(v, r);
  }

  lemma UnsafeIsReached(v: Visibility, r: Ring)
    requires Reachable(v, r) && !Fifo(r)
    ensures !FifoAlways(v)
  {
  }

  /** The ring is a FIFO in every schedule exactly when neither pointer is ever seen unwrapped and wptr
      is never seen before its byte. Moving rptr before the slot is read is harmless: the slot that is
      never used keeps the producer away from it. */
  lemma FifoIffPointersAtomic(v: Visibility)
    ensures FifoAlways(v) <==> !v.wptrSplit && !v.rptrSplit && !v.wptrFirst
  {
    if v.wptrFirst {
      EarlyWptrBreaksFifo(v);
    } else if v.wptrSplit {
      VisibleWptrBreaksFifo(v);
    } else if v.rptrSplit {
      VisibleRptrBreaksFifo(v);
    } else {
      forall buf: seq<char>, steps: seq<Step> | |buf| == N ensures Fifo(Run(v, Init(buf), steps)) {
        RunKeepsInv(v, Init(buf), steps);
      }
    }
  }

  // ----- what the rest of the program may rely on -----

  /** The step by which the consumer gives a slot back. */
  predicate Removes(v: Visibility, r: Ring, s: Step) {
    s.AdvanceR? && (r.c.CLoaded? || (r.c.CFound? && v.rptrFirst))
  }

  /** In every reachable state an answer still holds when the thread that asked for it acts:
      "not full" leaves room for the byte, "not empty" leaves a byte, and that byte is the
      oldest one, even when its slot has been given back before it is read; and an "empty" answer
      is only given when every byte put has been taken. */
  lemma AnswersHold(v: Visibility, buf: seq<char>, steps: seq<Step>)
    requires |buf| == N && Orderly(v)
    ensures var r := Run(v, Init(buf), steps);
      && Fifo(r) && Given(r) <= |r.put| && |Queue(r)| <= 1023
      && (r.p.PFree? || r.p.PStored? ==> |Queue(r)| < N - 1)
      && (r.c.CFound? ==> Queue(r) != [])
      && (r.c.CLoaded? ==> Queue(r) != [] && r.c.dat == Queue(r)[0])
      && (r.c.CAdvanced? ==> Do(v, r, Load).taken == r.taken + [r.put[|r.taken|]])
      && (r.c == CIdle ==> (Do(v, r, GetCall).c == CIdle <==> Queue(r) == []))
  {
    RunKeepsInv(v, Init(buf), steps);
    var r := Run(v, Init(buf), steps);
    PointersCount(r);
    if r.c.CAdvanced? {
      LateLoadKeepsInv(v, r);
    }
  }

  /** The ring refines a bounded queue: each step of either thread appends one byte to a queue
      with room, removes the oldest byte, or leaves the queue alone. */
  lemma StepIsQueueStep(v: Visibility, r: Ring, s: Step)
    requires Inv(r) && Orderly(v)
    ensures var r' := Do(v, r, s);
      && Inv(r')
      && if s.AdvanceW? && r.p.PStored? then |Queue(r)| < N - 1 && Queue(r') == Queue(r) + [r.p.dat]
         else if Removes(v, r, s) then Queue(r) == [r.put[|r.taken|]] + Queue(r')
         else Queue(r') == Queue(r)
  {
    StepKeepsInv(v, r, s);
    if s.AdvanceW? && r.p.PStored? {
      AdvanceWIs(v, r);
      hide Do, Inv;
      AppendedBehind(r.put, r.p.dat, Given(r));
    } else if Removes(v, r, s) {
      AdvanceRIs(v, r);
      hide Do, Inv;
      FirstOf(r.put, Given(r));
    } else {
      OthersKeepQueue(v, r, s);
    }
  }

  lemma AppendedBehind(put: seq<char>, d: char, k: nat)
    requires k <= |put|
    ensures (put + [d])[k..] == put[k..] + [d]
  {
  }

  lemma FirstOf(put: seq<char>, k: nat)
    requires k < |put|
    ensures put[k..] == [put[k]] + put[k + 1..]
  {
  }

  /** No other step puts a byte or gives a slot back; a late load only notes a slot given back before. */
  lemma OthersKeepQueue(v: Visibility, r: Ring, s: Step)
    requires Inv(r) && Orderly(v) && !(s.AdvanceW? && r.p.PStored?) && !Removes(v, r, s)
    ensures Do(v, r, s).put == r.put && Given(Do(v, r, s)) == Given(r)
  {
  }
}
