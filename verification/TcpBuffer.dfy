/** struct tcp_buf and its operations as one thread runs them (tb/common/jtagdpi/tcp_server.c). */
module TcpBuffer {
  import opened TcpRing
  import Cyclic

  class TcpBuf {
    var rptr: nat
    var wptr: nat
    const buf: array<char>

    ghost predicate Valid()
      reads this
    {
      buf.Length == N && rptr < N && wptr < N
    }

    /** The bytes put and not yet taken, oldest first. */
    ghost function Contents(): (s: seq<char>)
      requires Valid()
      reads this, buf
    {
      Cyclic.Slice(buf[..], rptr, wptr)
    }

    constructor ()
      ensures Valid() && fresh(this) && fresh(buf) && Contents() == []
    {
      rptr, wptr := 0, 0;
      buf := new char[N];
    }

    method IsFull() returns (full: bool)
      requires Valid()
      ensures full <==> |Contents()| == 1023
    {
      Cyclic.SliceLength(buf[..], rptr, wptr);
      if wptr >= rptr {
        full := Minus(wptr, rptr) == N - 1;
      } else {
        full := Minus(rptr, wptr) == 1;
      }
    }

    method IsEmpty() returns (empty: bool)
      requires Valid()
      ensures empty <==> Contents() == []
    {
      Cyclic.SliceLength(buf[..], rptr, wptr);
      empty := wptr == rptr;
    }

    /** One turn of the loop in tcp_buffer_put_byte: the byte goes in, or the ring is full and nothing
        changes. Only the other thread can make room, so a turn on a full ring is tried again later. */
    method PutByte(dat: char) returns (done: bool)
      requires Valid()
      modifies `wptr, buf
      ensures Valid() && (done <==> |old(Contents())| < 1023)
      ensures Contents() == old(Contents()) + if done then [dat] else []
    {
      done := false;
      var full := IsFull();
      if !full {
        Cyclic.SliceLength(buf[..], rptr, wptr);
        Cyclic.Append(buf[..], rptr, wptr, dat);
        buf[wptr] := dat;
        wptr := (wptr + 1) % N;
        done := true;
      }
    }

    method GetByte() returns (found: bool, dat: char)
      requires Valid()
      modifies `rptr
      ensures Valid()
      ensures found <==> old(Contents()) != []
      ensures if found then old(Contents()) == [dat] + Contents() else Contents() == old(Contents())
    {
      dat := 0 as char;
      var empty := IsEmpty();
      if empty {
        return false, dat;
      }
      Cyclic.Pop(buf[..], rptr, wptr);
      dat := buf[rptr];
      rptr := (rptr + 1) % N;
      found := true;
    }
  }
}
