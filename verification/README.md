# Proofs for RISCV Sim

This project models six parts of the RISCV Sim repository and proves what they are for:

| part | files here |
|---|---|
| word-at-a-time `memcpy`, `memset`, `strlen` | Words, Arith, Memcpy, Memset, Strlen |
| the JTAG-over-TCP bridge: two byte rings shared by two threads, the remote-bitbang interpreter, the whole bridge | TcpRing, Cyclic, TcpBuffer, Jtag, Bridge |
| the DMA ring-buffer drivers, mm2s and s2mm | Dma, Mm2s, S2mm |
| the FreeRTOS context save and restore macros, and tasks taking turns on one hart | Hart, PortContext, ContextSteps, ContextSave, MarkClean, SaveContext, Frame, Overlap, Restore, Slots, Resume, Tasks, Switch |
| the CoreMark printf | EeNumber, EeAddress, EePrintf |
| the Dhrystone main loop | Dhrystone |

`dafny verify dfyconfig.toml` checks everything.

## How each part is modelled

**Library routines.** Memory is one byte array whose index is the address. Every 32- and 64-bit access goes
through a helper method whose precondition asks for natural alignment and for the caller's own range, so
that no access strays is part of what is verified. The results are stated as relations between the old and
the new bytes (`IsCopy`, `IsFill`, `IsLength`), after sections 7.24.2.1, 7.24.6.1 and 7.24.6.3 of
ISO/IEC 9899:2011. The loader's byte loops meet the same relations, and each relation has one solution, so
the fast forms and the simple forms leave the same memory. `strlen` may read the rest of the word that holds
the terminator; its precondition says that this word exists.

**Bridge.** `TcpRing` interleaves the two threads at the level of single shared-memory accesses (the full test
reads `rptr` twice) under sequentially consistent memory. C orders the increments in `buf[wptr++]` and
`buf[rptr++]` neither before nor after the access to the slot, so both orders are in the model. `Bridge` treats
each ring as the bounded queue that `TcpRing` shows it to be and interleaves a client, the socket thread and the
simulation thread. A method cannot wait for the other thread, so the loops that spin on a full ring are methods for
one turn (`PutByte`), and a tick whose response finds no room says so and is taken up again by `Resume`.

**DMA rings.** `Fill` and `Drain` are what one byte after another does; the methods of the two `Ringbuffer`
classes are proved against them, the block copies included. `PutBy` and `GetBy` are what either form of put and
get does to the driver's fields. The hardware is an environment step: for mm2s it reads until its tail is the
committed head, for s2mm it writes into any slot given back. A pointer register counts up to 256^ptr_width, as
the 16-bit fields of sw/common/ringbuffer/ringbuffer_explode.h do for a width of two (the lemmas allow one to four
bytes); a tail register that holds no slot number stands for the last slot. The AXI stream is one byte wide, as in
sw/view_ringbuffer.gtkw, and pointers are one to three bytes wide.

**Context switch.** The macros are written out as programs of an instruction type with a small-step meaning
over 32 integer registers, 32 floating-point registers, the bytes of v0 to v31, CSRs and byte memory. `W` is
portWORD_SIZE and `F` is portFPU_REG_SIZE, each 4 or 8, and vlenb is arbitrary up to 8192. Branches are real:
a dirty test skips its block. `vs8r.v`, `vl8r.v` and `vsetvl` start at element vstart and leave vstart 0, after
section 3.7 of the RISC-V "V" Vector Extension, version 1.0. `Tasks` is a machine of any number of tasks with
disjoint stacks; between traps a task or the kernel may do anything that leaves the stacks and control blocks of
waiting tasks alone. `AtSlots` spells out where in the frame each part stands. The register test for "dirty" is
section 3.1.6.6 of the RISC-V Privileged Architecture, version 20211203.

**printf.** Output is the text written so far; `tmp` is a real array of 66. Integers wrap around at 32 bits,
as `long` and `int` do on these cores. `flt` is a parameter. The methods are proved against functions, and also
against relations that do not mention them: `IsField` and `IsPadded` for fields, `IsDirective` for what a directive
says character by character, `IsConversion` and `IsOutput` for what is printed. Each relation has one solution.

**Dhrystone.** Globals are fields, records are heap objects, arrays are arrays. A by-reference parameter is an
out-parameter that the caller assigns.

## What turned out false, and exactly when it holds

- The ring is a FIFO only if neither pointer is ever seen between `ptr++` and `ptr %= N`, and `wptr` is not seen
  before its byte is stored. A visible `wptr` of 1024 makes the consumer take a byte nobody put. A visible `rptr` of
  1024 also breaks it: the full test reads `rptr` twice, and when it falls from 1024 to 0 in between, a full ring
  looks free. A `wptr` moved before the store makes the consumer take what the slot held before. An `rptr` moved
  before its slot is read does no harm: the slot that is never used keeps the producer away.
  `FifoIffPointersAtomic` is the equivalence; everything else about the bridge rests on such publication.
- The two threads can block each other for ever exactly when the client may have 1024 or more unanswered
  reads (`DeadlockFreeIff`). This is the condition the FIXME at tb/common/jtagdpi/tcp_server.c:25 hints at.
- portFPU_CONTEXT_SIZE counts fcsr as one floating-point register, but fcsr is stored as a word. With 8-byte
  words and 4-byte floating-point registers the upper half of that word lands on the saved x1. A task whose FPU
  was dirty then loses the lower half of its x1 (`OverlapIsReached` gives the state).
- The vector registers are stored before vstart is read. A trap in the middle of a vector instruction leaves vstart
  above 0; the first store then skips that many bytes of v24 and up and resets vstart, so the bytes and vstart itself
  are lost (`VstartLoses`; `VstartIsReached` gives the state). A task comes back as it was if and only if neither
  happens: its floating-point part keeps clear of x1 or the lower half of x1 is zero, and its vector unit is not
  dirty or vstart is 0 (`ComesBackIff`).
- `_roomfor` measures against `buffer_size`, not `capacity`, and looks at the cached tail first. A request is
  granted in full when it fits behind either tail by that measure, and else cut to one byte more than is free
  (`GrantIs`). So a put is an append if and only if it asks for no more bytes than are truly free (`PutAppendsIff`).
  A larger one loses everything unread, and its own first bytes as well: `PutOverruns` says which bytes are pending
  afterwards, for any cached tail and pointer. When it exceeds `free` and the cached tail is fresh, or does not fit
  behind that tail either, it is granted one byte more than `free` and the ring reads empty afterwards (`OneTooMany`).
- A block copy whose length is that of the first memcpy leaves the pointer at 2^32-1. The next advance selects the same
  slot as from the last slot's own number, but levels and rooms read from such a pointer are wrong. The sender's level
  is then -1 - tail and `free` says one ring more than is free, so that a client which obeys `free` can lose every
  unread byte (`ObeyingFreeLosesBytes`, and `BelievingFree` in general). The receiver's level is a ring too high, and two rings when nothing is unread;
  an empty ring that reads as two full ones is reached by one block get (`EmptyReadsTwoRings`). The two `FifoIff`
  say exactly which runs of puts or gets, block or not, stay a FIFO: a sender must not ask for more than is truly
  free nor commit such a pointer, unless the ring is as large as the register counts, whose largest value then is
  the last slot; a receiver must not ask for more than there is while its tail is such a pointer.
- The comment at sw/common/dhrystone/dhry_1.c:344 says Proc_2's argument becomes 4; the code makes it 5, as the
  final print expects.
- The restore macro uses t3, which is x28, also when built for RV32E, where that register does not exist. The model
  keeps 32 registers in that build and follows the macro.

## Model

| member | source | states |
|---|---|---|
| Words.MergeOfAdjacent | sw/common/memcpy.c:64-70 | shifting and or-ing two adjacent aligned little-endian words gives the unaligned word between them |
| Words.StoreOfLoad | sw/common/memcpy.c:32-35 | a word load followed by a word store moves four bytes in order and touches no other |
| Memcpy.Memcpy | sw/common/memcpy.c:10-129 | for every length, both alignments and all contents the destination holds the old source bytes and every other byte is unchanged |
| Memcpy.CopyAligned | sw/common/memcpy.c:30-53 | with both pointers aligned, words and then the low bits of the count move all that is left |
| Memcpy.CopyUnaligned | sw/common/memcpy.c:55-124 | with an unaligned destination, the switch, its shift-merge loops and the tail move all that is left |
| Memcpy.ShiftLoop | sw/common/memcpy.c:62-71 | one loop for the three cases: w stays the last aligned source word read, and the read-ahead guards of 17, 18 and 19 keep every load in the source |
| Memcpy.ShiftCase1 | sw/common/memcpy.c:56-72 | the bytes moved first align the destination and w is the word they came from |
| Memcpy.ShiftCase2 | sw/common/memcpy.c:73-88 | the same for a destination two bytes short of alignment |
| Memcpy.ShiftCase3 | sw/common/memcpy.c:89-104 | the same for a destination one byte short of alignment |
| Memcpy.CopyTail | sw/common/memcpy.c:105-123 | the five bit tests move exactly the remaining count |
| Memcpy.SumOfBits | sw/common/memcpy.c:105-123 | any count below 32 is the sum of the bits tested |
| Memcpy.LoadWord | sw/common/memcpy.c:57-57 | a word load is aligned and inside the source, and sees original bytes |
| Memcpy.StoreWord | sw/common/memcpy.c:64-64 | a word store is aligned and inside the destination |
| Memcpy.RsdMemcpy | sw/rsd/baremetal/load.c:29-37 | the loader's byte loop meets the same relation |
| Memcpy.CopyIsUnique | sw/rsd/baremetal/load.c:29-37 | that relation determines the memory, so the fast form refines the byte loop |
| Memset.Memset | sw/common/memset.c:9-95 | for every length, alignment and fill value exactly the n bytes are set to the low byte of c |
| Memset.FillEnds | sw/common/memset.c:18-29 | the byte fills from both ends cover everything at each early return, and four bytes at each end otherwise |
| Memset.FillEndWords | sw/common/memset.c:53-68 | the word fills from both ends cover everything up to 24 bytes, and 28 bytes at each end otherwise |
| Memset.FillDoubles | sw/common/memset.c:83-88 | the 64-bit loop closes the gap between the two ends |
| Memset.SpreadBytes | sw/common/memset.c:45-45 | multiplying the fill byte by 0x01010101 gives a word of four copies |
| Memset.Spread64Bytes | sw/common/memset.c:82-82 | two such words side by side are eight copies |
| Memset.StoreDouble | sw/common/memset.c:84-87 | a 64-bit store is 8-aligned and inside the range |
| Memset.RsdMemset | sw/rsd/baremetal/load.c:39-45 | the loader's byte loop meets the same relation |
| Memset.FillIsUnique | sw/rsd/baremetal/load.c:39-45 | that relation determines the memory, so the fast form refines the byte loop |
| Strlen.HasZeroIsExact | sw/common/strlen.c:11-13 | HASZERO is nonzero exactly when one of the four bytes is zero |
| Strlen.Strlen | sw/common/strlen.c:15-27 | the result is the least index that holds zero, for every alignment, and no word behind the terminator's is read |
| Strlen.LengthIsUnique | sw/common/strlen.c:15-27 | there is only one such index |
| TcpRing.RunKeepsInv | tb/common/jtagdpi/tcp_server.c:50-80 | in every schedule of the two threads, with the load before or after rptr moves, each byte in flight sits in its own slot and both program counters are justified |
| TcpRing.AnswersHold | tb/common/jtagdpi/tcp_server.c:50-80 | in every reachable state "not full" and "not empty" still hold when the asker acts, at most 1023 slots are in use, and the byte taken is the oldest, even when its slot is given back before it is read |
| TcpRing.StepIsQueueStep | tb/common/jtagdpi/tcp_server.c:62-80 | each step of either thread appends to, removes from, or leaves alone one bounded queue |
| TcpRing.FifoIffPointersAtomic | tb/common/jtagdpi/tcp_server.c:66-67 | the ring is a FIFO in every schedule if and only if neither pointer is ever seen unwrapped and wptr never before its byte is stored |
| TcpRing.VisibleWptrBreaksFifo | tb/common/jtagdpi/tcp_server.c:66-67 | a visible wptr of 1024 lets the consumer take a byte that was never put |
| TcpRing.VisibleRptrBreaksFifo | tb/common/jtagdpi/tcp_server.c:50-56 | a visible rptr of 1024 lets the producer overfill the ring, and a byte is taken in place of the oldest one |
| TcpRing.EarlyWptrBreaksFifo | tb/common/jtagdpi/tcp_server.c:66-66 | a wptr that moves before the store lets the consumer take what the slot held before |
| TcpRing.LateLoadKeepsInv | tb/common/jtagdpi/tcp_server.c:77-77 | a slot read after rptr has moved past it still holds the oldest byte: no put has reached it |
| TcpBuffer.TcpBuf.IsFull | tb/common/jtagdpi/tcp_server.c:50-56 | full means 1023 bytes queued |
| TcpBuffer.TcpBuf.IsEmpty | tb/common/jtagdpi/tcp_server.c:58-60 | empty means none |
| TcpBuffer.TcpBuf.PutByte | tb/common/jtagdpi/tcp_server.c:62-71 | one turn of the loop: appends its byte to the queue when fewer than 1023 are queued, and else changes nothing |
| TcpBuffer.TcpBuf.GetByte | tb/common/jtagdpi/tcp_server.c:73-80 | takes the oldest byte, or says there is none and changes nothing |
| Jtag.EachReadIsAnswered | tb/common/jtagdpi/jtagdpi.c:94-115 | there is one response per read command, and the i-th is '0' or '1' as the tdo sampled on the tick that consumed the i-th read |
| Jtag.LastCommandDecides | tb/common/jtagdpi/jtagdpi.c:83-93 | after any commands the outputs encode the last write and the last reset command |
| Jtag.NoCommandYet | tb/common/jtagdpi/jtagdpi.c:45-58 | before any write command tck, tms and tdi are 0, before any reset command trst_n is 0 and srst_n is 1 |
| Jtag.CommandsAre | tb/common/jtagdpi/jtagdpi.c:83-109 | which bytes are writes, resets and reads, and which end the program |
| Jtag.UnsupportedIsIgnored | tb/common/jtagdpi/jtagdpi.c:104-109 | a command outside the protocol changes no signal before the exit |
| Jtag.JtagDpi.Interpret | tb/common/jtagdpi/jtagdpi.c:82-121 | one command moves the signals as the fold does, answers exactly R, and exits exactly on a byte outside the protocol |
| Jtag.JtagDpi.Tick | tb/common/jtagdpi/jtagdpi.c:186-210 | a tick consumes at most one command and drives the fold of everything consumed; to a read it queues '0' or '1' as tdo is, or keeps that in hand exactly when the queue holds 1023; a byte outside the protocol ends the program |
| Jtag.JtagDpi.Resume | tb/common/jtagdpi/tcp_server.c:62-71 | a tick that waited queues its response once there is room and then returns the same outputs |
| Bridge.RunKeepsInv | tb/common/jtagdpi/tcp_server.c:359-370 | in every run commands and responses are conserved between client, queues, hands and simulation, and unanswered reads stay within the limit |
| Bridge.BytesArriveInOrder | tb/common/jtagdpi/tcp_server.c:359-370 | what the simulation consumed is a prefix of what the client sent, and what the client got is a prefix of the responses |
| Bridge.SimNeverWaits | tb/common/jtagdpi/tcp_server.c:420-422 | with at most 1023 unanswered reads the simulation thread never finds buf_out full |
| Bridge.SocketWaitEnds | tb/common/jtagdpi/tcp_server.c:361-363 | and then a socket thread that finds buf_in full has room after the simulation's next turn and tick |
| Bridge.DeadlockIsForEver | tb/common/jtagdpi/tcp_server.c:62-71 | once both threads spin on full rings, no schedule moves another byte |
| Bridge.DeadlockIsReached | tb/common/jtagdpi/tcp_server.c:25-26 | a client allowed 1024 unanswered reads can drive the bridge into that state |
| Bridge.DeadlockFreeIff | tb/common/jtagdpi/tcp_server.c:25-26 | no deadlock is reachable if and only if the client never has more than 1023 unanswered reads |
| Dma.LevelCounts | sw/common/ringbuffer/mm2s_ringbuffer.c:23-34 | for pointers inside the ring `_level` counts the unread slots |
| Dma.FillAppends | sw/common/ringbuffer/mm2s_ringbuffer.c:215-221 | writing no more than is free appends exactly the data and overwrites no unread slot |
| Dma.FillOneTooMany | sw/common/ringbuffer/mm2s_ringbuffer.c:40-58 | one byte more brings the head onto the tail and everything unread is lost |
| Dma.DrainTakesOldest | sw/common/ringbuffer/s2mm_ringbuffer.c:261-267 | reading takes the oldest bytes in order |
| Dma.FillIsBlock | sw/common/ringbuffer/mm2s_ringbuffer.c:293-303 | byte-by-byte writing equals one cyclic block write and ends in its last slot |
| Dma.DrainIsBlock | sw/common/ringbuffer/s2mm_ringbuffer.c:326-333 | byte-by-byte reading equals one cyclic block read |
| Dma.BlockIn | sw/common/ringbuffer/mm2s_ringbuffer.c:297-303 | for every pointer and every count the driver can grant, up to two rings from slot 0, the two copies leave the bytes of the one-by-one loop and its pointer, but 2^32-1 when the first memcpy was the whole copy |
| Dma.BlockOut | sw/common/ringbuffer/s2mm_ringbuffer.c:327-333 | the same for reading, and the rest of the destination stays |
| Dma.EndsInLastSlotIff | sw/common/ringbuffer/mm2s_ringbuffer.c:297-303 | a copy ends in the last slot exactly when it is as long as the first memcpy, or one ring longer |
| Dma.FillTwoParts | sw/common/ringbuffer/mm2s_ringbuffer.c:297-303 | writing one by one across the wrap equals one copy up to the end and one from slot 0, the second up to a whole ring |
| Dma.DrainTwoParts | sw/common/ringbuffer/s2mm_ringbuffer.c:327-333 | reading one by one across the wrap yields the bytes up to the end and then those from slot 0 |
| Dma.StrayFillsTheSame | sw/common/ringbuffer/mm2s_ringbuffer.c:35-39 | after a head of 2^32-1 the next bytes go where they would have gone |
| Dma.StrayDrainsTheSame | sw/common/ringbuffer/s2mm_ringbuffer.c:187-191 | after a tail of 2^32-1 the next bytes come from where they would have come |
| Dma.StrayHeadLevel | sw/common/ringbuffer/mm2s_ringbuffer.c:23-34 | but such a head reads a level too high by all of the difference |
| Dma.StrayTailLevel | sw/common/ringbuffer/s2mm_ringbuffer.c:22-33 | and such a tail reads a level too high by the size of the ring, and twice the size when nothing is unread |
| Mm2s.PutWithinFree | sw/common/ringbuffer/mm2s_ringbuffer.c:40-58 | a put of either form of at most as many bytes as are truly free takes all of them, however old the cached tail and from any pointer, and appends exactly them |
| Mm2s.PutAppendsIff | sw/common/ringbuffer/mm2s_ringbuffer.c:40-58 | for any cached tail and any pointer, a put is an append of what it was granted if and only if it asks for no more than is truly free |
| Mm2s.GrantIs | sw/common/ringbuffer/mm2s_ringbuffer.c:40-58 | the exact grant: everything asked for that fits behind the cached tail or the register, else one byte more than `free` |
| Mm2s.OneTooMany | sw/common/ringbuffer/mm2s_ringbuffer.c:40-58 | from any pointer, a request beyond `free`, with a fresh cached tail or too large for it, is granted one byte more than `free` and leaves nothing to read |
| Mm2s.PutOverruns | sw/common/ringbuffer/mm2s_ringbuffer.c:40-58 | exactly which bytes are pending after a put of more than is truly free, for any cached tail, pointer and form: the last ones of the grant, behind what brings the head onto the tail |
| Mm2s.BelievingFree | sw/common/ringbuffer/mm2s_ringbuffer.c:262-306 | from a head of 2^32-1 a request between the true and the reported free count is granted in full and loses what was unread and its own first bytes |
| Mm2s.FreeIs | sw/common/ringbuffer/mm2s_ringbuffer.c:262-268 | `free` is the number of free slots from a head inside the ring, and one ring more from a head of 2^32-1 |
| Mm2s.RingIsFifo | sw/common/ringbuffer/mm2s_ringbuffer.c:197-306 | over any run of block and one-by-one puts within what is free, commits that publish slot numbers, level readings and hardware reads, the bytes put are the bytes read followed by the unread slots |
| Mm2s.FifoIff | sw/common/ringbuffer/mm2s_ringbuffer.c:197-306 | over every run with any requests and every register width, the ring stays a FIFO however far the hardware reads if and only if each put asks for no more than is truly free and no commit publishes a head of 2^32-1, unless the ring has as many slots as the register counts |
| Mm2s.CarefulIsFine | sw/common/ringbuffer/mm2s_ringbuffer.c:197-306 | a client that asks for at most `free` and makes no block put end exactly in the last slot meets that condition |
| Mm2s.ObeyingFreeLosesBytes | sw/common/ringbuffer/mm2s_ringbuffer.c:262-306 | a client that obeys `free` after a block put into the last slot loses every unread byte |
| Mm2s.GrantFits | sw/common/ringbuffer/mm2s_ringbuffer.c:40-58 | a grant is at most the ring from a pointer inside it, and never reaches beyond two rings counted from slot 0, so the copies stay in the buffer |
| Mm2s.StrayHeadOvergrants | sw/common/ringbuffer/mm2s_ringbuffer.c:40-58 | from a head of 2^32-1 the room computed is too large by the ring's size |
| Mm2s.Ringbuffer.SetBuffer | sw/common/ringbuffer/mm2s_ringbuffer.c:104-133 | a buffer is taken exactly when it has at least two bytes and at most 256, 65536 or 2^24 for pointers of one, two or three bytes, whatever the pointers; the device is sound when they lie inside it |
| Mm2s.Ringbuffer.AdvanceHead | sw/common/ringbuffer/mm2s_ringbuffer.c:35-39 | the head moves to the next slot |
| Mm2s.Ringbuffer.Reserve | sw/common/ringbuffer/mm2s_ringbuffer.c:40-58 | the count granted from the cached tail, or from the register when that is not enough |
| Mm2s.Ringbuffer.ReadLevel | sw/common/ringbuffer/mm2s_ringbuffer.c:233-240 | the level against the hardware's tail, which is cached, as an int: the number of unread bytes, and -1 - tail from a head of 2^32-1 |
| Mm2s.Ringbuffer.ReadFree | sw/common/ringbuffer/mm2s_ringbuffer.c:262-268 | the number of free slots, and one ring more from a head of 2^32-1 |
| Mm2s.Ringbuffer.Commit | sw/common/ringbuffer/mm2s_ringbuffer.c:223-232 | the head becomes visible to the hardware in as many bytes as the register has, nothing else changes |
| Mm2s.Ringbuffer.PutDumb | sw/common/ringbuffer/mm2s_ringbuffer.c:197-222 | refuses without a buffer or data, else writes the granted prefix byte by byte and returns its length |
| Mm2s.Ringbuffer.PutBlock | sw/common/ringbuffer/mm2s_ringbuffer.c:270-306 | agrees with PutDumb on bytes, result, cached tail and next slot, for every pointer and grant; the stored head differs only when the first memcpy was the whole copy |
| S2mm.GetTakesOldest | sw/common/ringbuffer/s2mm_ringbuffer.c:258-333 | a get of either form returns the oldest bytes, as many as there are or fit, from a tail inside the ring; from a tail of 2^32-1 when it asks for no more than there are |
| S2mm.RingIsFifo | sw/common/ringbuffer/s2mm_ringbuffer.c:240-336 | over any run of hardware writes into slots given back, block and one-by-one gets and commits of any tail in which no get from a tail of 2^32-1 asks for more than there is, bytes returned followed by unread ones are the bytes produced, and returned plus level is produced |
| S2mm.FifoIff | sw/common/ringbuffer/s2mm_ringbuffer.c:240-336 | over every run with any requests, the bytes returned stay a prefix of the bytes produced if and only if no get asks for more than there is from a tail of 2^32-1 |
| S2mm.CarefulIsFine | sw/common/ringbuffer/s2mm_ringbuffer.c:240-336 | a client whose block gets never end exactly in the last slot meets that condition |
| S2mm.StrayTailOvercounts | sw/common/ringbuffer/s2mm_ringbuffer.c:22-33 | from a tail of 2^32-1 the level counts the whole ring once too often, and twice when nothing is unread, for every HEADPTR |
| S2mm.EmptyReadsTwoRings | sw/common/ringbuffer/s2mm_ringbuffer.c:300-336 | one block get reaches an empty ring whose level reads two rings, and the next get returns that many old bytes |
| S2mm.Ringbuffer.AdvanceTail | sw/common/ringbuffer/s2mm_ringbuffer.c:187-191 | the tail moves to the next slot |
| S2mm.Ringbuffer.ReadLevel | sw/common/ringbuffer/s2mm_ringbuffer.c:279-286 | the level against the hardware's head, which is cached |
| S2mm.Ringbuffer.CommitTail | sw/common/ringbuffer/s2mm_ringbuffer.c:269-278 | the tail becomes visible to the hardware in as many bytes as the register has, nothing else changes |
| S2mm.Ringbuffer.GetDumb | sw/common/ringbuffer/s2mm_ringbuffer.c:240-268 | refuses without a buffer or room, else fills the front of the caller's buffer with the oldest bytes and leaves its rest alone |
| S2mm.Ringbuffer.GetBlock | sw/common/ringbuffer/s2mm_ringbuffer.c:300-336 | agrees with GetDumb on bytes, result and next slot, for every pointer and count; the stored tail differs only when the first memcpy was the whole copy |
| Hart.ExecAppend | sw/cv32e40p/freertos/RISC-V_cv32e40p/portContext.h:273-388 | a macro after a macro runs as their concatenation, branches included |
| Hart.Core.Execute | sw/cv32e40p/freertos/RISC-V_cv32e40p/portContext.h:273-465 | the machine, changed in place, ends in the state the small-step meaning gives |
| ContextSteps.IfDirtyEffect | sw/cv32e40p/freertos/RISC-V_cv32e40p/portContext.h:310-317 | a guarded block runs exactly when the two-bit field reads 3 |
| ContextSave.SaveIntsEffect | sw/cv32e40p/freertos/RISC-V_cv32e40p/portContext.h:274-307 | x1, x5 and up and the nesting count fill the integer part of the frame |
| ContextSave.SaveFpuEffect | sw/cv32e40p/freertos/RISC-V_cv32e40p/portContext.h:127-164 | f0 to f31 and fcsr go below it |
| ContextSave.SaveVpuEffect | sw/cv32e40p/freertos/RISC-V_cv32e40p/portContext.h:207-238 | the vector CSRs and v0 to v31, in order, go below those, for any vlenb; the bytes of v24 and up below vstart are skipped, and vstart is reset before it is read |
| MarkingClean.MarkCleanEffect | sw/cv32e40p/freertos/RISC-V_cv32e40p/portContext.h:336-364 | the mask and the or take a dirty field to clean and change no other bit |
| MarkingClean.CleanedFields | sw/cv32e40p/freertos/RISC-V_cv32e40p/portContext.h:336-364 | a marked field reads clean and the other unit's field is untouched |
| Switching.NoUnitDirty | sw/cv32e40p/freertos/RISC-V_cv32e40p/portContext.h:336-364 | after a save neither unit reads dirty on the hart |
| Switching.DirtyAgain | sw/cv32e40p/freertos/RISC-V_cv32e40p/portContext.h:391-465 | a restored task reads each unit dirty exactly when it did at its save, so its next save stores the same units |
| SaveContext.SaveInternalRuns | sw/cv32e40p/freertos/RISC-V_cv32e40p/portContext.h:273-369 | the whole save for all four dirty combinations: stack pointer, memory, live mstatus and the reset of vstart, everything else kept |
| Frames.SaveRuns | sw/cv32e40p/freertos/RISC-V_cv32e40p/portContext.h:372-388 | both save macros: the resume address, mepc plus 4 modulo the word size for an exception and mepc for an interrupt, is on the stack and in a1, and the kernel has cause and ISR stack |
| FrameSlots.SaveFillsSlots | sw/cv32e40p/freertos/RISC-V_cv32e40p/portContext.h:60-103 | after a save every part of the context is in the word the layout gives it, the control block points at the lowest one, and mstatus has each dirty field taken from 3 to 2 |
| FrameSlots.FrameIsAtSlots | sw/cv32e40p/freertos/RISC-V_cv32e40p/portContext.h:127-307 | a frame is that layout: resume address, mstatus, vector part, floating-point part, x1, x5 and up, nesting count |
| Frames.SavedElsewhere | sw/cv32e40p/freertos/RISC-V_cv32e40p/portContext.h:273-388 | a save changes no byte outside its frame and the first word of the control block |
| Overlaps.SavedIsFrame | sw/cv32e40p/freertos/RISC-V_cv32e40p/portContext.h:94-95 | after any save every part of the context is on the stack unharmed, but for the half of x1 that fcsr can run into and the vector bytes below vstart |
| Restores.RestoreVpuEffect | sw/cv32e40p/freertos/RISC-V_cv32e40p/portContext.h:241-270 | gives back the vector CSRs but vstart, which ends as 0, and v0 to v31, whatever vstart was, and moves sp by exactly what the save did |
| Restores.RestoreFpuEffect | sw/cv32e40p/freertos/RISC-V_cv32e40p/portContext.h:167-204 | gives back f0 to f31 and fcsr and moves sp by exactly what the save did |
| Resuming.RestoreRuns | sw/cv32e40p/freertos/RISC-V_cv32e40p/portContext.h:391-465 | from a frame the restore gives back sp, x1, x5 to x31, mepc, mstatus, the nesting count and each dirty unit, with vstart 0 for a dirty vector unit, and changes no other memory |
| Tasks.RunKeepsInv | sw/cv32e40p/freertos/RISC-V_cv32e40p/portASM.S:296-378 | over any run of work, saves and restores every waiting task's frame and control block stay intact |
| Tasks.TaskComesBack | sw/cv32e40p/freertos/RISC-V_cv32e40p/portContext.h:273-465 | whatever other tasks and the kernel do in between, a task's next restore brings back the context its last save kept, with mepc plus 4 for an exception and mepc for an interrupt |
| Switching.ComesBackIff | sw/cv32e40p/freertos/RISC-V_cv32e40p/portContext.h:161-238 | that context is the one it had if and only if the floating-point part kept clear of x1 or the lower half of x1 was zero, and the vector unit was not dirty or vstart was 0 |
| Switching.OverlapIsReached | sw/cv32e40p/freertos/RISC-V_cv32e40p/portContext.h:92-95 | a concrete sound layout and running task for which it is not |
| Switching.VstartLoses | sw/cv32e40p/freertos/RISC-V_cv32e40p/portContext.h:207-238 | what a save with vstart above 0 keeps: vstart reads 0, and the bytes of v24 and up below it are what the stack held before |
| Switching.VstartIsReached | sw/cv32e40p/freertos/RISC-V_cv32e40p/portContext.h:217-227 | a concrete sound layout and running task that loses vstart and the first byte of v24 |
| Switching.TakeOff | sw/cv32e40p/freertos/RISC-V_cv32e40p/portContext.h:372-388 | the save macros run on the machine in place, to the state SaveRuns describes, with the resume address in a1 |
| Switching.PutBack | sw/cv32e40p/freertos/RISC-V_cv32e40p/portContext.h:391-465 | the restore macro run on the machine in place, to the state RestoreRuns describes |
| EeNumber.Number | sw/common/coremark/barebones/ee_printf.c:53-141 | refuses a base outside 2 to 36, else writes the field the number, the width, the precision and the flags determine |
| EeNumber.FormattedIsField | sw/common/coremark/barebones/ee_printf.c:69-138 | spaces to one side, the sign and the prefix the flags ask for, zeros up to the precision or the width, then the digits of the value without leading zeros, in one case |
| EeNumber.FieldIsUnique | sw/common/coremark/barebones/ee_printf.c:69-138 | there is one such field |
| EeNumber.FieldReadsBack | sw/common/coremark/barebones/ee_printf.c:69-138 | read back over spaces, sign and prefix the field is the number again, for every number, base and flags; a minus appears exactly when the sign is printed and the number negative, a plus exactly where the flags ask for it |
| EeNumber.PaddingShows | sw/common/coremark/barebones/ee_printf.c:113-138 | padding stands at the back only with the left flag, at the front only without it, and nowhere when zeros pad |
| EeNumber.LettersShow | sw/common/coremark/barebones/ee_printf.c:56-129 | in base 16 the letters are in the case asked for, and an x appears exactly with the prefix |
| EeNumber.DigitLoop | sw/common/coremark/barebones/ee_printf.c:103-107 | tmp holds the numeral's digits backwards, at most 32 of its 66 places |
| EeNumber.FieldLength | sw/common/coremark/barebones/ee_printf.c:69-138 | the field has exactly max(width, sign + prefix + max(digits, precision)) characters, and digits is between 1 and 32 |
| EeNumber.BodyValue | sw/common/coremark/barebones/ee_printf.c:97-136 | in every base and case the digit block evaluates to the unsigned value printed |
| EeNumber.CanonicalIsNumeral | sw/common/coremark/barebones/ee_printf.c:97-107 | the digits printed are the only ones without leading zeros that stand for the value |
| EeNumber.NoLeadingZero | sw/common/coremark/barebones/ee_printf.c:97-107 | the digit text starts with a zero exactly when the value is zero |
| EeNumber.SkipAtoi | sw/common/coremark/barebones/ee_printf.c:44-51 | returns the value of the run of digits, modulo 2^32, and stops right behind it |
| EeNumber.PrintThenParse | sw/common/coremark/barebones/ee_printf.c:44-141 | for 0 <= n < 2^31 and any zero-padded width or precision, parsing the printed text gives n and stops behind its last digit |
| EeAddress.Eaddr | sw/common/coremark/barebones/ee_printf.c:143-170 | six octets as two hexadecimal digits each with colons at every third place, in a field padded on the side asked for |
| EeAddress.ColonsReadBack | sw/common/coremark/barebones/ee_printf.c:153-159 | that text reads back as the octets and is three characters an octet less one |
| EeAddress.Iaddr | sw/common/coremark/barebones/ee_printf.c:172-215 | four octets in decimal without leading zeros with dots between them, in a field padded on the side asked for |
| EeAddress.DottedReadBack | sw/common/coremark/barebones/ee_printf.c:179-204 | that text, read run by run with the decimal parser, gives the octets |
| EePrintf.Scan | sw/common/coremark/barebones/ee_printf.c:485-545 | the scan of a directive moves forward and stops at the terminator at the latest; a precision is never below -1 |
| EePrintf.ScanIsDirective | sw/common/coremark/barebones/ee_printf.c:485-545 | flags, width, precision, qualifier and next argument are what the characters of the directive say, each part as long as it can be |
| EePrintf.DirectiveIsUnique | sw/common/coremark/barebones/ee_printf.c:485-545 | and a directive says one thing |
| EePrintf.ReadFlags | sw/common/coremark/barebones/ee_printf.c:486-506 | the goto loop ends, behind the last flag character |
| EePrintf.StrnLen | sw/common/coremark/barebones/ee_printf.c:35-42 | the string up to the precision, all of it when the precision is -1 |
| EePrintf.Convert | sw/common/coremark/barebones/ee_printf.c:550-656 | each conversion prints its argument as its character and the flags say |
| EePrintf.ConvertedIs | sw/common/coremark/barebones/ee_printf.c:550-656 | d, i and u print a field in base 10, o in base 8, x, X and p in base 16, c its character, s its string up to the precision, a and A an address, anything else itself behind a percent sign |
| EePrintf.NumbersReadBack | sw/common/coremark/barebones/ee_printf.c:593-656 | read back in base 10, 8 or 16 the text is the argument, signed for d and i |
| EePrintf.FlagsShow | sw/common/coremark/barebones/ee_printf.c:486-506 | what a minus, a zero, a plus, a space and a hash among the flags do to an integer, and the case of the letters for x and X |
| EePrintf.Sprintf | sw/common/coremark/barebones/ee_printf.c:461-661 | terminates on every format, never reads past the terminator, and prints what the format means, step-back included |
| EePrintf.OutputIs | sw/common/coremark/barebones/ee_printf.c:477-657 | the output is plain characters and the texts of the directives in their order, each with its own argument |
| EePrintf.OutputIsUnique | sw/common/coremark/barebones/ee_printf.c:477-657 | and the format and the arguments determine it |
| EePrintf.WidthIsMet | sw/common/coremark/barebones/ee_printf.c:552-656 | every conversion but the float pads its text to the width asked for and never cuts it |
| EePrintf.LiteralIsCopied | sw/common/coremark/barebones/ee_printf.c:477-483 | a format without a percent sign is copied |
| EePrintf.CutShortPrintsPercent | sw/common/coremark/barebones/ee_printf.c:639-646 | a directive cut short by the end of the format prints one percent sign and ends the output |
| EePrintf.OutputAppend | sw/common/coremark/barebones/ee_printf.c:477-657 | two formats in a row print what each prints, the second going on with the arguments left, unless the first ends inside a directive |
| EePrintf.DecimalReadsBack | sw/common/coremark/barebones/ee_printf.c:44-51 | what "%d" prints for a nonnegative int, the parser reads back |
| Dhrystone.Dhrystones | sw/common/dhrystone/dhry_1.c:96-267 | for every N of at least 1 with N + 10 below 2^31 the program ends with every variable as it says it should be: both records field by field, every cell of both arrays by its number |
| Dhrystone.OneRun | sw/common/dhrystone/dhry_1.c:155-199 | one run takes the state after k runs to the state after k + 1 and leaves the locals at their final values |
| Dhrystone.FirstBeforeSecond | sw/common/dhrystone/dhry_1.c:163-166 | the first string does not compare greater than the second, and the letters Func_2 compares differ |
| Dhrystone.GreaterIff | sw/common/dhrystone/dhry_2.c:155-173 | strcmp decides by the first place where the two strings differ |
| Dhrystone.Globals.Proc1 | sw/common/dhrystone/dhry_1.c:307-338 | every field of the record, its successor and the global record on both branches, however the three coincide |
| Dhrystone.Globals.Proc2 | sw/common/dhrystone/dhry_1.c:341-361 | its loop ends when the first global letter is A, with nine more than its argument less Int_Glob |
| Dhrystone.Globals.Proc3 | sw/common/dhrystone/dhry_1.c:364-376 | yields the global record's successor and overwrites its number |
| Dhrystone.Globals.Proc6 | sw/common/dhrystone/dhry_2.c:30-61 | the value its switch settles on, for every enumeration value |
| Dhrystone.Globals.Proc8 | sw/common/dhrystone/dhry_2.c:84-106 | the three cells of the first array and the four of the second that change, with their values, for every pair of arguments in range; every other cell stays |
| Dhrystone.Globals.Func1 | sw/common/dhrystone/dhry_2.c:109-132 | says whether two letters differ, and remembers a letter when they do not |
| Dhrystone.Globals.Func2 | sw/common/dhrystone/dhry_2.c:135-174 | ends when the two letters differ, and then is strcmp's verdict |

## Left out

- Sockets, select, accept, file descriptors and thread creation: the bridge keeps only the byte movement, as environment steps.
- The client disconnect of the `Q` command: the command is legal and changes no signal, closing the connection is not modelled.
- JTAGDPI_DEBUG output and the text printed on a protocol violation.
- Weak memory and compiler reordering in the bridge: shared accesses happen one at a time, in program order where C gives one.
- Register probing, interrupts, start, stop, pause, thresholds and flush in the ring drivers: single register accesses.
- Stream widths other than one byte in the ring drivers: the code mixes byte counts with width-sized advances there.
- The hardware side of the ring registers: what it does with a register that holds no slot number is not in the drivers; the sender's hardware reads on, the receiver's takes it as the last slot. The RTL is not part of this model.
- Mm2s.Ringbuffer.SetBuffer: pointer widths above three bytes, where the shift in the source is undefined in C.
- Null device pointers in the ring drivers: the receiver of a method is never null.
- portasmSAVE_ADDITIONAL_REGISTERS and portasmRESTORE_ADDITIONAL_REGISTERS: empty in this port.
- mret, trap entry, and x3 and x4, which the macros neither save nor change.
- vsetvl sets vl and vtype to its operands, as it does for values a vsetvl has produced before; vstart holds any value written to it, mstatus, mepc and vcsr likewise, and fcsr its lowest 32 bits.
- pxPortInitialiseStack: a new task enters `Tasks` as one that already waits with a frame.
- The biriscv and ibex copies of portContext.h: the same text.
- The unrolled register lists of the save and restore macros are generated from one list of registers; the slots they use are spelled out in ContextSave.
- Memcpy.ShiftLoop: one method stands for the three loops of the source, which differ in one shift amount.
- Memset.Memset: the branch without GNU C, which is the loader's byte loop again.
- EeNumber.Number: width and precision are unbounded integers, so a width near the ends of int does not wrap around; bounds of the caller's output buffer are not modelled.
- `flt`, `parse_float`, `decimal_point`, `cropzeros`: floating point; their text is a parameter of EePrintf.Sprintf.
- The `ee_printf` wrapper and the UART.
- Reading more arguments than were passed, or with another type: undefined in C; EePrintf.Sprintf takes an argument for every index.
- Timing and the printed report of Dhrystone; the other variants of its record; a malloc that fails.
