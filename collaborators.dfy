/**
 * The collaborators a limited connection talks to: the wrapped connection
 * (net.Conn or N.PacketConn) and the token buckets of its limiter
 * (rate.Limiter). They are not modelled from the inside. Every call made to
 * them is recorded as an event of a trace, and what a call answers is
 * decided by an oracle that may look at the whole trace so far, so that the
 * properties proved hold for every behaviour of the collaborators.
 */
module Collaborators {
  import opened Basics

  newtype byte = x: int | 0 <= x < 256

  /** The peer address of a datagram (M.Socksaddr). */
  datatype Addr = Addr(host: string, port: nat)

  /** The zero Socksaddr, returned when no read took place. */
  const NoAddr := Addr("", 0)

  /** An error value of a collaborator; the wrappers pass it on unchanged. */
  datatype Error = Error(reason: string)

  /** Which token bucket of a limiter a wait is made on. */
  datatype Direction = Download | Upload

  datatype Call =
    | SetDeadline(timeout: int)                   // conn.SetDeadline(now + timeout)
    | Read(size: nat)                             // conn.Read(p) with len(p) == size
    | Write(chunk: seq<byte>)                     // conn.Write(chunk)
    | ReadPacket                                  // conn.ReadPacket(buffer)
    | WritePacket(payload: seq<byte>, dest: Addr) // conn.WritePacket(buffer, dest)
    | WaitN(dir: Direction, k: nat)               // bucket.WaitN(ctx, k)

  /**
   * The answer to a call: a byte count (bytes read or written, or the
   * buffer length after ReadPacket), the source address of ReadPacket, and
   * the error, if any.
   */
  datatype Reply = Reply(n: nat, addr: Addr, err: Option<Error>)

  datatype Event = Event(call: Call, reply: Reply)

  type History = seq<Event>

  type Oracle = (History, Call) -> Reply

  /**
   * The event recorded when call c is made after history h. A reader or
   * writer never reports more bytes than the buffer it was handed (the
   * io.Reader and io.Writer contracts), so such counts are cut down.
   */
  function Clamp(c: Call, r: Reply): Reply {
    if c.Read? && r.n > c.size then r.(n := c.size)
    else if c.Write? && r.n > |c.chunk| then r.(n := |c.chunk|)
    else r
  }
  function Ask(o: Oracle, h: History, c: Call): (e: Event)
  {
    Event(c, Clamp(c, o(h, c)))
  }

  /** The world below one wrapper: its upstream connection and its buckets. */
  class Env {
    var trace: History
    const oracle: Oracle

    constructor (oracle: Oracle)
      ensures trace == [] && this.oracle == oracle
    {
      trace := [];
      this.oracle := oracle;
    }

    method Perform(c: Call) returns (r: Reply)
      modifies this
      ensures Event(c, r) == Ask(oracle, old(trace), c)
      ensures trace == old(trace) + [Event(c, r)]
    {
      var e := Ask(oracle, trace, c);
      trace := trace + [e];
      r := e.reply;
    }
  }
}
