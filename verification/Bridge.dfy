/** The whole bridge: a client, the socket thread, the simulation thread and the two rings between
    them (tb/common/jtagdpi/tcp_server.c, jtagdpi.c). Each ring is the bounded queue that module
    TcpRing shows it to be. */
module Bridge {
  import opened TcpRing
  import opened Jtag

  /** Where the socket thread is in the loop of server_create. */
  datatype Sock =
    | STop            // about to look at the sockets
    | SRead           // about to read a byte from the client
    | SPut(b: char)   // in tcp_buffer_put_byte(buf_in, b)
    | SWrite          // about to take a byte from buf_out
    | SSend(b: char)  // in put_byte, sending b to the client

  /** Where the simulation thread is. */
  datatype Sim =
    | TIdle           // between ticks
    | TWrite(b: char) // in tcp_server_write(b)
    | TExited

  datatype Bridge = Bridge(
    net: seq<char>,        // sent by the client, not yet read by the socket thread
    inq: seq<char>, outq: seq<char>,
    sock: Sock, sim: Sim,
    log: seq<Event>,       // commands the simulation has consumed
    sent: seq<char>,       // everything the client ever sent
    delivered: seq<char>)  // everything the client ever received

  const INIT := Bridge([], [], [], STop, TIdle, [], [], [])

  datatype Step = Send(c: char) | SockTurn(ready: bool) | Tick(tdo: Bit) | SimTurn

  /** Answers the client is still waiting for, as the client can count them. */
  function Unanswered(b: Bridge): int {
    Reads(b.sent) - |b.delivered|
  }

  /** One step. The client only sends supported commands, and a read command only while fewer than
      `limit` are unanswered. A thread whose ring is full stays where it is. */
  function Do(limit: nat, b: Bridge, s: Step): Bridge {
    match s
    case Send(c) =>
      if Legal(c) && (IsRead(c) ==> Unanswered(b) < limit)
      then b.(net := b.net + [c], sent := b.sent + [c])
      else b
    case SockTurn(ready) => (
      match b.sock
      case STop => b.(sock := if ready then SRead else SWrite)
      case SRead => if b.net == [] then b.(sock := SWrite) else b.(sock := SPut(b.net[0]), net := b.net[1..])
      case SPut(c) => if |b.inq| < N - 1 then b.(inq := b.inq + [c], sock := SRead) else b
      case SWrite => if b.outq == [] then b.(sock := STop) else b.(sock := SSend(b.outq[0]), outq := b.outq[1..])
      case SSend(c) => b.(delivered := b.delivered + [c], sock := SWrite)
    )
    case Tick(tdo) =>
      if b.sim != TIdle || b.inq == [] then b
      else
        var c := b.inq[0];
        var b' := b.(inq := b.inq[1..]);
        if !Legal(c) then b'.(sim := TExited)
        else b'.(log := b.log + [Event(c, tdo)], sim := if IsRead(c) then TWrite(Reply(tdo)) else TIdle)
    case SimTurn =>
      if b.sim.TWrite? && |b.outq| < N - 1 then b.(outq := b.outq + [b.sim.b], sim := TIdle) else b
  }

  /** Any interleaving of the client and the two threads. */
  function Run(limit: nat, b: Bridge, steps: seq<Step>): Bridge
    decreases |steps|
  {
    if steps == [] then b else Run(limit, Do(limit, b, steps[0]), steps[1..])
  }

  // ----- no byte is lost, duplicated or reordered -----

  function InHand(b: Bridge): seq<char> {
    if b.sock.SPut? then [b.sock.b] else []
  }

  function OutHand(b: Bridge): seq<char> {
    if b.sock.SSend? then [b.sock.b] else []
  }

  function SimHand(b: Bridge): seq<char> {
    if b.sim.TWrite? then [b.sim.b] else []
  }

  ghost predicate AllLegal(s: seq<char>) {
    forall i :: 0 <= i < |s| ==> Legal(s[i])
  }

  ghost predicate Inv(limit: nat, b: Bridge) {
    && b.sent == Commands(b.log) + b.inq + InHand(b) + b.net
    && Replies(b.log) == b.delivered + OutHand(b) + b.outq + SimHand(b)
    && AllLegal(b.sent) && b.sim != TExited
    && Unanswered(b) <= limit
  }

  lemma {:induction false} ReadsOfAppend(s: seq<char>, t: seq<char>)
    ensures Reads(s + t) == Reads(s) + Reads(t)
    decreases |t|
  {
    if t == [] {
      assert s + t == s;
    } else {
      var n := |t| - 1;
      assert (s + t)[..|s + t| - 1] == s + t[..n];
      ReadsOfAppend(s, t[..n]);
    }
  }

  lemma SendKeepsInv(limit: nat, b: Bridge, c: char)
    requires Inv(limit, b)
    ensures Inv(limit, Do(limit, b, Send(c)))
  {
    var b' := Do(limit, b, Send(c));
    if b' != b {
      ReadsOfAppend(b.sent, [c]);
      assert Reads([c]) == Reads([]) + if IsRead(c) then 1 else 0;
      assert b'.sent == Commands(b.log) + b.inq + InHand(b) + (b.net + [c]);
    }
  }

  /** Moving the first element of one queue to the end of the one before it. */
  lemma Shift<T>(a: seq<T>, q: seq<T>, rest: seq<T>)
    requires q != []
    ensures a + q + rest == (a + [q[0]]) + q[1..] + rest
  {
    assert q == [q[0]] + q[1..];
  }

  /** The socket thread takes a byte from the network, or from buf_out. */
  lemma SockTakesKeepsInv(limit: nat, b: Bridge)
    requires Inv(limit, b) && ((b.sock.SRead? && b.net != []) || (b.sock.SWrite? && b.outq != []))
    ensures Inv(limit, Do(limit, b, SockTurn(true)))
  {
    hide Reads, Replies, Commands, Legal;
    if b.sock.SRead? {
      Shift(Commands(b.log) + b.inq + [], b.net, []);
    } else {
      Shift(b.delivered + [], b.outq, SimHand(b));
    }
  }

  lemma SockTurnKeepsInv(limit: nat, b: Bridge, ready: bool)
    requires Inv(limit, b)
    ensures Inv(limit, Do(limit, b, SockTurn(ready)))
  {
    hide Reads, Replies, Commands, Legal;
    if (b.sock.SRead? && b.net != []) || (b.sock.SWrite? && b.outq != []) {
      SockTakesKeepsInv(limit, b);
    }
  }

  lemma TickKeepsInv(limit: nat, b: Bridge, tdo: Bit)
    requires Inv(limit, b)
    ensures Inv(limit, Do(limit, b, Tick(tdo)))
  {
    if b.sim == TIdle && b.inq != [] {
      var c := b.inq[0];
      assert b.sent[|b.log|] == c;
      LogGrows(b.log, Event(c, tdo));
      hide Reads, Replies, Commands, Legal;
      TickMovesOne(b.sent, Commands(b.log), b.inq, InHand(b), b.net);
    }
  }

  lemma TickMovesOne(s: seq<char>, a: seq<char>, q: seq<char>, h: seq<char>, n: seq<char>)
    requires q != [] && s == a + q + h + n
    ensures s == (a + [q[0]]) + q[1..] + h + n
  {
    Shift(a, q, h);
  }

  lemma SimTurnKeepsInv(limit: nat, b: Bridge)
    requires Inv(limit, b)
    ensures Inv(limit, Do(limit, b, SimTurn))
  {
  }

  lemma StepKeepsInv(limit: nat, b: Bridge, s: Step)
    requires Inv(limit, b)
    ensures Inv(limit, Do(limit, b, s))
  {
    hide Inv, Do;
    match s
    case Send(c) => SendKeepsInv(limit, b, c);
    case SockTurn(ready) => SockTurnKeepsInv(limit, b, ready);
    case Tick(tdo) => TickKeepsInv(limit, b, tdo);
    case SimTurn => SimTurnKeepsInv(limit, b);
  }

  lemma {:induction false} RunKeepsInv(limit: nat, b: Bridge, steps: seq<Step>)
    requires Inv(limit, b)
    ensures Inv(limit, Run(limit, b, steps))
    decreases |steps|
  {
    hide Inv, Do;
    if steps != [] {
      StepKeepsInv(limit, b, steps[0]);
      RunKeepsInv(limit, Do(limit, b, steps[0]), steps[1..]);
    }
  }

  /** Over any run: the commands consumed are the first ones the client sent, in order, and what
      the client received are the first answers to them, in order. */
  lemma BytesArriveInOrder(limit: nat, steps: seq<Step>)
    ensures var b := Run(limit, INIT, steps);
      Commands(b.log) <= b.sent && b.delivered <= Replies(b.log)
  {
    RunKeepsInv(limit, INIT, steps);
  }

  // ----- when the two threads can block each other -----

  ghost predicate SimSpins(b: Bridge) {
    b.sim.TWrite? && |b.outq| >= N - 1
  }

  ghost predicate SockSpins(b: Bridge) {
    b.sock.SPut? && |b.inq| >= N - 1
  }

  ghost predicate Deadlocked(b: Bridge) {
    SimSpins(b) && SockSpins(b)
  }

  /** A deadlock is for ever: whatever is tried, nothing more is consumed or delivered. */
  lemma {:induction false} DeadlockIsForEver(limit: nat, b: Bridge, steps: seq<Step>)
    requires Deadlocked(b)
    ensures var b' := Run(limit, b, steps);
      Deadlocked(b') && b'.log == b.log && b'.delivered == b.delivered
    decreases |steps|
  {
    if steps != [] {
      DeadlockIsForEver(limit, Do(limit, b, steps[0]), steps[1..]);
    }
  }

  /** The answers queued, in hand or on their way never outnumber those the client waits for. */
  lemma OutputIsBounded(limit: nat, b: Bridge)
    requires Inv(limit, b)
    ensures |OutHand(b)| + |b.outq| + |SimHand(b)| <= limit
  {
    RepliesCount(b.log);
    var rest := b.inq + InHand(b) + b.net;
    assert b.sent == Commands(b.log) + rest;
    ReadsOfAppend(Commands(b.log), rest);
  }

  /** With at most 1023 unanswered reads the simulation never finds buf_out full. */
  lemma {:induction false} SimNeverWaits(limit: nat, steps: seq<Step>)
    requires limit <= N - 1
    ensures !SimSpins(Run(limit, INIT, steps))
  {
    RunKeepsInv(limit, INIT, steps);
    OutputIsBounded(limit, Run(limit, INIT, steps));
  }

  lemma WaitEnds(limit: nat, b: Bridge, tdo: Bit)
    requires SockSpins(b) && |b.inq| <= N - 1 && !SimSpins(b) && b.sim != TExited
    ensures !SockSpins(Do(limit, Do(limit, b, SimTurn), Tick(tdo)))
  {
    hide Legal, Reply, IsRead;
    var c := Do(limit, b, SimTurn);
    assert c.sim == TIdle && c.inq == b.inq && c.sock == b.sock;
  }

  /** And then a socket thread that finds buf_in full gets room as soon as the simulation has
      finished the answer it may be writing and ticked once more. */
  lemma SocketWaitEnds(limit: nat, steps: seq<Step>, tdo: Bit)
    requires limit <= N - 1
    ensures var b := Run(limit, INIT, steps);
      SockSpins(b) ==> !SockSpins(Do(limit, Do(limit, b, SimTurn), Tick(tdo)))
  {
    hide Do, SimSpins;
    RunKeepsInv(limit, INIT, steps);
    SimNeverWaits(limit, steps);
    InputIsBounded(limit, INIT, steps);
    var b := Run(limit, INIT, steps);
    hide Run;
    if SockSpins(b) {
      WaitEnds(limit, b, tdo);
    }
  }

  lemma {:induction false} InputIsBounded(limit: nat, b: Bridge, steps: seq<Step>)
    requires |b.inq| <= N - 1
    ensures |Run(limit, b, steps).inq| <= N - 1
    decreases |steps|
  {
    if steps != [] {
      InputIsBounded(limit, Do(limit, b, steps[0]), steps[1..]);
    }
  }

  // ----- the run that does block them -----

  ghost predicate Reachable(limit: nat, b: Bridge) {
    exists steps: seq<Step> :: b == Run(limit, INIT, steps)
  }

  lemma {:induction false} RunAppend(limit: nat, b: Bridge, s: seq<Step>, t: seq<Step>)
    ensures Run(limit, b, s + t) == Run(limit, Run(limit, b, s), t)
    decreases |s|
  {
    hide Do;
    if s == [] {
      assert s + t == t;
    } else {
      assert (s + t)[1..] == s[1..] + t;
      RunAppend(limit, Do(limit, b, s[0]), s[1..], t);
    }
  }

  lemma More(limit: nat, b: Bridge, s: Step) returns (b': Bridge)
    requires Reachable(limit, b)
    ensures b' == Do(limit, b, s) && Reachable(limit, b')
  {
    hide Do;
    var steps: seq<Step> :| b == Run(limit, INIT, steps);
    RunAppend(limit, INIT, steps, [s]);
    assert Run(limit, b, [s]) == Do(limit, b, s);
    b' := Do(limit, b, s);
  }

  /** k read commands followed by j commands that need no answer. */
  function Burst(k: nat, j: nat): seq<char> {
    seq(k, _ => 'R') + seq(j, _ => 'B')
  }

  lemma BurstShape(k: nat, j: nat)
    ensures k > 0 ==> Burst(k, j)[0] == 'R' && Burst(k, j)[1..] == Burst(k - 1, j)
    ensures k == 0 && j > 0 ==> Burst(k, j)[0] == 'B' && Burst(k, j)[1..] == Burst(k, j - 1)
    ensures Burst(k, 0) + ['R'] == Burst(k + 1, 0)
    ensures Burst(k, j) + ['B'] == Burst(k, j + 1)
  {
  }

  /** The client sends N reads and then N other commands while the bridge is idle. */
  lemma {:induction false} BurstIsSent(limit: nat, k: nat, j: nat) returns (b: Bridge)
    requires N <= limit && k <= N && (j > 0 ==> k == N)
    ensures Reachable(limit, b)
    ensures b == Bridge(Burst(k, j), [], [], STop, TIdle, [], Burst(k, j), []) && Reads(b.sent) == k
    decreases k + j
  {
    assert Run(limit, INIT, []) == INIT && Reachable(limit, INIT);
    hide Reachable;
    if j > 0 {
      b := BurstIsSent(limit, k, j - 1);
      BurstShape(k, j - 1);
      ReadsOfAppend(b.sent, ['B']);
      b := More(limit, b, Send('B'));
    } else if k > 0 {
      b := BurstIsSent(limit, k - 1, 0);
      BurstShape(k - 1, 0);
      ReadsOfAppend(b.sent, ['R']);
      b := More(limit, b, Send('R'));
    } else {
      b := INIT;
    }
  }

  /** The socket thread keeps reading and the simulation keeps answering: buf_out fills up. */
  lemma {:induction false} OutputFills(limit: nat, k: nat) returns (b: Bridge)
    requires N <= limit && k < N
    ensures Reachable(limit, b)
    ensures b.net == Burst(N - k, N) && b.inq == [] && |b.outq| == k && b.sock == SRead && b.sim == TIdle
  {
    hide Reachable;
    if k == 0 {
      b := BurstIsSent(limit, N, N);
      b := More(limit, b, SockTurn(true));
    } else {
      b := OutputFills(limit, k - 1);
      BurstShape(N - (k - 1), N);
      b := More(limit, b, SockTurn(true));
      b := More(limit, b, SockTurn(true));
      b := More(limit, b, Tick(0));
      b := More(limit, b, SimTurn);
    }
  }

  /** One more read leaves the simulation waiting, and the rest of the burst fills buf_in. */
  lemma {:induction false} InputFills(limit: nat, k: nat) returns (b: Bridge)
    requires N <= limit && k < N
    ensures Reachable(limit, b)
    ensures b.net == Burst(0, N - k) && |b.inq| == k && b.sock == SRead && SimSpins(b)
  {
    hide Reachable;
    if k == 0 {
      b := OutputFills(limit, N - 1);
      BurstShape(1, N);
      b := More(limit, b, SockTurn(true));
      b := More(limit, b, SockTurn(true));
      b := More(limit, b, Tick(0));
    } else {
      b := InputFills(limit, k - 1);
      BurstShape(0, N - (k - 1));
      b := More(limit, b, SockTurn(true));
      b := More(limit, b, SockTurn(true));
    }
  }

  lemma DeadlockIsReached(limit: nat) returns (b: Bridge)
    requires N <= limit
    ensures Reachable(limit, b) && Deadlocked(b)
  {
    b := InputFills(limit, N - 1);
    BurstShape(0, 1);
    b := More(limit, b, SockTurn(true));
  }

  ghost predicate DeadlockFree(limit: nat) {
    forall b :: Reachable(limit, b) ==> !Deadlocked(b)
  }

  /** The two threads can block each other exactly when the client may have 1024 or more reads
      unanswered. */
  lemma DeadlockFreeIff(limit: nat)
    ensures DeadlockFree(limit) <==> limit <= 1023
  {
    if limit <= N - 1 {
      forall b | Reachable(limit, b) ensures !Deadlocked(b) {
        var steps: seq<Step> :| b == Run(limit, INIT, steps);
        SimNeverWaits(limit, steps);
      }
    } else {
      var b := DeadlockIsReached(limit);
    }
  }
}
