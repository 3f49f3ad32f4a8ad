/** The remote-bitbang command interpreter (tb/common/jtagdpi/jtagdpi.c). */
module Jtag {
  import opened TcpRing
  import opened TcpBuffer
  import Cyclic

  type Bit = n: nat | n < 2

  /** The outputs driven into the simulation. */
  datatype Signals = Signals(tck: Bit, tms: Bit, tdi: Bit, trst_n: Bit, srst_n: Bit)

  /** The "dongle unplugged" state. */
  const UNPLUGGED := Signals(0, 0, 0, 0, 1)

  predicate IsWrite(c: char) { '0' <= c <= '7' }
  predicate IsReset(c: char) { 'r' <= c <= 'u' }
  predicate IsRead(c: char) { c == 'R' }

  /** Every other byte makes update_jtag_signals call exit(1). */
  predicate Legal(c: char) {
    IsWrite(c) || IsReset(c) || IsRead(c) || c == 'B' || c == 'b' || c == 'Q'
  }

  function BitOf(n: nat, p: nat): Bit
    requires p > 0
  {
    n / p % 2
  }

  function Exec(s: Signals, c: char): Signals {
    if IsWrite(c) then
      var v := c as int - '0' as int;
      s.(tdi := BitOf(v, 1), tms := BitOf(v, 2), tck := BitOf(v, 4))
    else if IsReset(c) then
      var v := c as int - 'r' as int;
      s.(srst_n := 1 - BitOf(v, 1), trst_n := 1 - BitOf(v, 2))
    else
      s
  }

  function Reply(tdo: Bit): char {
    ('0' as int + tdo) as char
  }

  /** A consumed command, with the tdo sampled on the tick that consumed it. */
  datatype Event = Event(cmd: char, tdo: Bit)

  function Fold(log: seq<Event>): Signals {
    if log == [] then UNPLUGGED else Exec(Fold(log[..|log| - 1]), log[|log| - 1].cmd)
  }

  function Replies(log: seq<Event>): seq<char> {
    if log == [] then []
    else
      var e := log[|log| - 1];
      Replies(log[..|log| - 1]) + if IsRead(e.cmd) then [Reply(e.tdo)] else []
  }

  /** How many of the commands ask for an answer. */
  function Reads(s: seq<char>): nat {
    if s == [] then 0 else Reads(s[..|s| - 1]) + if IsRead(s[|s| - 1]) then 1 else 0
  }

  function Commands(log: seq<Event>): (s: seq<char>)
    ensures |s| == |log| && forall i :: 0 <= i < |log| ==> s[i] == log[i].cmd
  {
    seq(|log|, i requires 0 <= i < |log| => log[i].cmd)
  }

  lemma LogGrows(log: seq<Event>, e: Event)
    ensures Fold(log + [e]) == Exec(Fold(log), e.cmd)
    ensures Replies(log + [e]) == Replies(log) + if IsRead(e.cmd) then [Reply(e.tdo)] else []
    ensures Commands(log + [e]) == Commands(log) + [e.cmd]
  {
    assert (log + [e])[..|log|] == log;
  }

  lemma UnsupportedIsIgnored(s: Signals, c: char)
    ensures Legal(c) || Exec(s, c) == s
  {
  }

  /** The bytes of the protocol; every other one ends the program. */
  lemma CommandsAre(c: char)
    ensures IsWrite(c) <==> c in "01234567"
    ensures IsReset(c) <==> c in "rstu"
    ensures IsRead(c) <==> c == 'R'
    ensures Legal(c) <==> c in "01234567rstuRBbQ"
  {
  }

  /** Every 'R' gets exactly one answer, '0' or '1' as the tdo sampled when it was consumed, and the
      answers come in the order of the commands. */
  lemma {:induction false} EachReadIsAnswered(log: seq<Event>, k: nat)
    requires k < |log| && log[k].cmd == 'R'
    ensures Reads(Commands(log[..k])) < |Replies(log)| == Reads(Commands(log))
    ensures Replies(log)[Reads(Commands(log[..k]))] == if log[k].tdo == 0 then '0' else '1'
    decreases |log|
  {
    var n := |log| - 1;
    assert Commands(log)[..n] == Commands(log[..n]);
    RepliesCount(log);
    if k < n {
      EachReadIsAnswered(log[..n], k);
      assert log[..n][..k] == log[..k];
    } else {
      RepliesCount(log[..n]);
    }
  }

  lemma {:induction false} RepliesCount(log: seq<Event>)
    ensures |Replies(log)| == Reads(Commands(log))
  {
    if log != [] {
      var n := |log| - 1;
      assert Commands(log)[..n] == Commands(log[..n]);
      RepliesCount(log[..n]);
    }
  }

  /** Before any write command tck, tms and tdi are 0; before any reset command trst_n is 0 and srst_n is 1. */
  lemma {:induction false} NoCommandYet(log: seq<Event>)
    ensures (forall j :: 0 <= j < |log| ==> log[j].cmd !in "01234567") ==>
      Fold(log).tck == 0 && Fold(log).tms == 0 && Fold(log).tdi == 0
    ensures (forall j :: 0 <= j < |log| ==> log[j].cmd !in "rstu") ==> Fold(log).trst_n == 0 && Fold(log).srst_n == 1
  {
    if log != [] {
      NoCommandYet(log[..|log| - 1]);
      CommandsAre(log[|log| - 1].cmd);
      hide IsWrite, IsReset;
    }
  }

  /** tck, tms and tdi carry the last write command, srst_n and trst_n the last reset command;
      nothing before it and no other command matters. */
  lemma {:induction false} LastCommandDecides(log: seq<Event>, k: nat)
    requires k < |log|
    ensures IsWrite(log[k].cmd) && (forall j :: k < j < |log| ==> !IsWrite(log[j].cmd)) ==>
      var v := log[k].cmd as int - '0' as int;
      v == 4 * Fold(log).tck + 2 * Fold(log).tms + Fold(log).tdi
    ensures IsReset(log[k].cmd) && (forall j :: k < j < |log| ==> !IsReset(log[j].cmd)) ==>
      var v := log[k].cmd as int - 'r' as int;
      v == 2 * (1 - Fold(log).trst_n) + (1 - Fold(log).srst_n)
    decreases |log|
  {
    if k < |log| - 1 {
      LastCommandDecides(log[..|log| - 1], k);
    }
  }

  /** struct jtagdpi_ctx, with the rings of its socket. */
  class JtagDpi {
    const bufIn: TcpBuf
    const bufOut: TcpBuf
    var tck: Bit
    var tms: Bit
    var tdi: Bit
    var tdo: Bit
    var trst_n: Bit
    var srst_n: Bit
    var hand: seq<char>           // the response tcp_server_write has not got rid of yet
    ghost var log: seq<Event>     // commands consumed so far
    ghost var queued: seq<char>   // response bytes ever queued

    ghost function Outputs(): Signals
      reads this
    {
      Signals(tck, tms, tdi, trst_n, srst_n)
    }

    ghost predicate Valid()
      reads this, bufIn, bufOut
    {
      && bufIn != bufOut && bufIn.buf != bufOut.buf && bufIn.Valid() && bufOut.Valid()
      && Outputs() == Fold(log) && queued + hand == Replies(log) && |hand| <= 1
    }

    constructor (bufIn: TcpBuf, bufOut: TcpBuf)
      requires bufIn != bufOut && bufIn.buf != bufOut.buf && bufIn.Valid() && bufOut.Valid()
      ensures Valid() && log == [] && hand == [] && this.bufIn == bufIn && this.bufOut == bufOut
    {
      this.bufIn, this.bufOut := bufIn, bufOut;
      tck, tms, tdi, tdo, trst_n, srst_n := 0, 0, 0, 0, 0, 1;
      hand, log, queued := [], [], [];
    }

    /** The command byte's effect on the signals, and whether it is supported at all. */
    method Interpret(cmd: char) returns (respond: bool, exited: bool)
      modifies `tck, `tms, `tdi, `srst_n, `trst_n
      ensures Outputs() == Exec(old(Outputs()), cmd)
      ensures respond == (cmd == 'R') && exited == (cmd !in "01234567rstuRBbQ") && !(respond && exited)
    {
      CommandsAre(cmd);
      respond, exited := false, false;
      if '0' <= cmd <= '7' {
        var bits := cmd as int - '0' as int;
        tdi, tms, tck := BitOf(bits, 1), BitOf(bits, 2), BitOf(bits, 4);
      } else if 'r' <= cmd <= 'u' {
        var bits := cmd as int - 'r' as int;
        srst_n, trst_n := 1 - BitOf(bits, 1), 1 - BitOf(bits, 2);
      } else if cmd == 'R' {
        respond := true;
      } else if cmd != 'B' && cmd != 'b' && cmd != 'Q' {
        exited := true;
      }
    }

    /** One turn of tcp_server_write with the response in hand. */
    method Write() returns (done: bool)
      requires |hand| == 1 && bufOut.Valid()
      modifies `hand, `queued, bufOut, bufOut.buf
      ensures bufOut.Valid() && (done <==> |old(bufOut.Contents())| < 1023)
      ensures hand == if done then [] else old(hand)
      ensures queued == old(queued) + if done then old(hand) else []
      ensures bufOut.Contents() == old(bufOut.Contents()) + if done then old(hand) else []
    {
      done := bufOut.PutByte(hand[0]);
      if done {
        queued, hand := queued + hand, [];
      }
    }

    /** One call of jtagdpi_tick, up to its return or to a response that finds bufOut full (`waits`).
        An unsupported byte ends the program (`exited`). */
    method Tick(tdo: Bit) returns (exited: bool, waits: bool, out: Signals)
      requires Valid() && hand == []
      modifies this, bufIn, bufOut, bufOut.buf
      ensures Valid() && out == Fold(log)
      ensures exited <==> old(bufIn.Contents()) != [] && old(bufIn.Contents())[0] !in "01234567rstuRBbQ"
      ensures waits <==>
        old(bufIn.Contents()) != [] && old(bufIn.Contents())[0] == 'R' && |old(bufOut.Contents())| == 1023
      ensures bufIn.Contents() == if old(bufIn.Contents()) == [] then [] else old(bufIn.Contents())[1..]
      ensures log == old(log) + if old(bufIn.Contents()) == [] || exited then [] else [Event(old(bufIn.Contents())[0], tdo)]
      ensures var inq := old(bufIn.Contents());
        var answer := if inq != [] && inq[0] == 'R' then [if tdo == 0 then '0' else '1'] else [];
        && hand == (if waits then answer else [])
        && queued == old(queued) + (if waits then [] else answer)
        && bufOut.Contents() == old(bufOut.Contents()) + (if waits then [] else answer)
    {
      hide Fold, Exec, Replies, Legal, IsRead;
      RoomBounds(bufOut);
      hide TcpBuf.Contents;
      exited, waits := false, false;
      this.tdo := tdo;
      var found, cmd := bufIn.GetByte();
      if found {
        assert cmd == old(bufIn.Contents())[0];
        CommandsAre(cmd);
        UnsupportedIsIgnored(Outputs(), cmd);
        LogGrows(log, Event(cmd, tdo));
        var respond;
        respond, exited := Interpret(cmd);
        if respond {
          hand := [('0' as int + this.tdo) as char];
          var done := Write();
          waits := !done;
        }
        if !exited {
          log := log + [Event(cmd, tdo)];
        }
      }
      out := Signals(tck, tms, tdi, trst_n, srst_n);
    }

    /** The next turn of a tick that waits: the response goes into bufOut once there is room, and then
        the tick returns its outputs. */
    method Resume() returns (waits: bool, out: Signals)
      requires Valid() && |hand| == 1
      modifies `hand, `queued, bufOut, bufOut.buf
      ensures Valid() && out == Fold(log)
      ensures waits <==> |old(bufOut.Contents())| == 1023
      ensures hand == if waits then old(hand) else []
      ensures bufOut.Contents() == old(bufOut.Contents()) + if waits then [] else old(hand)
      ensures queued == old(queued) + if waits then [] else old(hand)
    {
      RoomBounds(bufOut);
      hide TcpBuf.Contents, Fold, Replies;
      var done := Write();
      waits := !done;
      out := Signals(tck, tms, tdi, trst_n, srst_n);
    }
  }

  lemma RoomBounds(b: TcpBuf)
    requires b.Valid()
    ensures |b.Contents()| <= N - 1
  {
    Cyclic.SliceLength(b.buf[..], b.rptr, b.wptr);
  }
}
