/**
 * limiter/limiter.go: a limiter (two optional token buckets and an idle
 * timeout) and the stream and datagram connection wrappers that refresh the
 * deadline and pace reads and writes against it.
 *
 * Each wrapper method is tied to a function that computes, from the limiter,
 * the collaborators' oracle and the trace so far, the value the method
 * returns, the error and the events it adds to the trace. The lemmas at the
 * end state what those functions guarantee for every oracle.
 */
module Pacing {
  import opened Basics
  import opened Collaborators

  type Positive = x: nat | x >= 1 witness 1

  /** The parameters of one token bucket: its refill rate and its burst. */
  datatype Bucket = Bucket(rate: nat, burst: Positive)

  /** The `limiter` struct: what newLimiter builds, immutable afterwards. */
  class Limiter {
    const download: Option<Bucket>
    const upload: Option<Bucket>
    const timeout: int

    /** The limiter is the one newLimiter(d, u, t) builds. */
    ghost predicate Built(d: nat, u: nat, t: int) {
      && download == (if d > 0 then Some(Bucket(d, d)) else None)
      && upload == (if u > 0 then Some(Bucket(u, u)) else None)
      && timeout == t
    }

    /** newLimiter: a bucket exists for a direction iff its rate is positive. */
    constructor (download: nat, upload: nat, timeout: int)
      ensures this.download.Some? <==> download > 0
      ensures this.download.Some? ==> this.download.value.rate == download && this.download.value.burst == download
      ensures this.upload.Some? <==> upload > 0
      ensures this.upload.Some? ==> this.upload.value.rate == upload && this.upload.value.burst == upload
      ensures this.timeout == timeout
      ensures Built(download, upload, timeout)
    {
      this.download := if download > 0 then Some(Bucket(download, download)) else None;
      this.upload := if upload > 0 then Some(Bucket(upload, upload)) else None;
      this.timeout := timeout;
    }
  }

  /** What a wrapped operation returns, and the events it caused. */
  datatype Io<T> = Io(value: T, err: Option<Error>, events: History)

  // ---------------------------------------------------------------------
  // Specification functions, one per wrapper method.
  // ---------------------------------------------------------------------

  /** The deadline refresh every wrapped operation starts with. */
  function Refresh(l: Limiter?, o: Oracle, h: History): (pre: History)
    ensures |pre| <= 1
    ensures |pre| == 1 <==> l != null && l.timeout > 0
    ensures |pre| == 1 ==> pre[0].call == SetDeadline(l.timeout) && pre[0] == Ask(o, h, pre[0].call)
  {
    if l != null && l.timeout > 0 then [Ask(o, h, SetDeadline(l.timeout))] else []
  }

  /** The deadline refresh failed, so the operation stops. */
  predicate Aborted(pre: History) {
    |pre| == 1 && pre[0].reply.err.Some?
  }

  function PassRead(o: Oracle, h: History, size: nat): Io<nat> {
    var e := Ask(o, h, Read(size));
    Io(e.reply.n, e.reply.err, [e])
  }

  function PassWrite(o: Oracle, h: History, p: seq<byte>): Io<nat> {
    var e := Ask(o, h, Write(p));
    Io(e.reply.n, e.reply.err, [e])
  }

  /** connWithLimiter.Read on a buffer of length size. */
  function ConnRead(l: Limiter?, o: Oracle, h: History, size: nat): Io<nat> {
    var pre := Refresh(l, o, h);
    if Aborted(pre) then Io(0, pre[0].reply.err, pre)
    else
      var r := if l != null && l.upload.Some? then ConnReadWithLimiter(l, o, h + pre, size)
               else PassRead(o, h + pre, size);
      r.(events := pre + r.events)
  }

  /** connWithLimiter.readWithLimiter. */
  function ConnReadWithLimiter(l: Limiter?, o: Oracle, h: History, size: nat): Io<nat> {
    if l == null || l.upload.None? then PassRead(o, h, size)
    else
      var b := l.upload.value.burst;
      var e := Ask(o, h, Read(if b < size then b else size));
      if e.reply.err.Some? then Io(e.reply.n, e.reply.err, [e])
      else
        var w := Ask(o, h + [e], WaitN(Upload, e.reply.n));
        Io(e.reply.n, w.reply.err, [e, w])
  }

  /** connWithLimiter.Write of the bytes p. */
  function ConnWrite(l: Limiter?, o: Oracle, h: History, p: seq<byte>): Io<nat> {
    var pre := Refresh(l, o, h);
    if Aborted(pre) then Io(0, pre[0].reply.err, pre)
    else
      var r := if l != null && l.download.Some? then ConnWriteWithLimiter(l.download.value.burst, o, h + pre, p)
               else PassWrite(o, h + pre, p);
      r.(events := pre + r.events)
  }

  /** connWithLimiter.writeWithLimiter with download burst b. */
  function ConnWriteWithLimiter(b: Positive, o: Oracle, h: History, p: seq<byte>): Io<nat> {
    WriteLoop(b, o, h, p, 0)
  }

  /**
   * The loop of writeWithLimiter, from a state in which n bytes have been
   * written, p is still to be written and h is the trace so far. The events
   * of the result are those the rest of the loop adds.
   */
  function WriteLoop(b: Positive, o: Oracle, h: History, p: seq<byte>, n: nat): (r: Io<nat>)
    ensures n <= r.value
    ensures r.events == [] <==> |p| == 0
    decreases |p|
  {
    if |p| == 0 then Io(n, None, [])
    else
      var end := if b < |p| then b else |p|;
      var w := Ask(o, h, WaitN(Download, end));
      if w.reply.err.Some? then Io(n, w.reply.err, [w])
      else
        var e := Ask(o, h + [w], Write(p[..end]));
        if e.reply.err.Some? then Io(n + e.reply.n, e.reply.err, [w, e])
        else
          var r := WriteLoop(b, o, h + [w, e], p[end..], n + e.reply.n);
          r.(events := [w, e] + r.events)
  }

  /** One step of the loop, as WriteLoop unfolds it. */
  lemma WriteLoopStep(b: Positive, o: Oracle, h: History, p: seq<byte>, n: nat, w: Event, e: Event)
    requires |p| > 0 && w == Ask(o, h, WaitN(Download, Min(b, |p|)))
    requires w.reply.err.None? ==> e == Ask(o, h + [w], Write(p[..Min(b, |p|)]))
    ensures var r := WriteLoop(b, o, h, p, n);
            var r' := WriteLoop(b, o, h + [w, e], p[Min(b, |p|)..], n + e.reply.n);
            && (w.reply.err.Some? ==> r.events == [w] && r.value == n && r.err == w.reply.err)
            && (w.reply.err.None? && e.reply.err.Some? ==>
                  r.events == [w, e] && r.value == n + e.reply.n && r.err == e.reply.err)
            && (w.reply.err.None? && e.reply.err.None? ==>
                  r.events == [w, e] + r'.events && r.value == r'.value && r.err == r'.err)
  {
  }

  /** Resuming the write loop at trace h with p still to send and n written gives the
      call's whole result, whose events extend the trace h0 it started from. */
  predicate WriteResumes(b: Positive, o: Oracle, h: History, p: seq<byte>, n: nat, h0: History, whole: Io<nat>) {
    var r := WriteLoop(b, o, h, p, n);
    whole.value == r.value && whole.err == r.err && h0 + whole.events == h + r.events
  }

  /** A round of the loop that fails ends it with the invariant's result. */
  lemma WriteLoopStop(b: Positive, o: Oracle, h: History, p: seq<byte>, n: nat, w: Event, e: Event,
                      h0: History, whole: Io<nat>)
    requires |p| > 0 && w == Ask(o, h, WaitN(Download, Min(b, |p|)))
    requires w.reply.err.None? ==> e == Ask(o, h + [w], Write(p[..Min(b, |p|)])) && e.reply.err.Some?
    requires WriteResumes(b, o, h, p, n, h0, whole)
    ensures w.reply.err.Some? ==> whole.value == n && whole.err == w.reply.err && h0 + whole.events == h + [w]
    ensures w.reply.err.None? ==>
              && whole.value == n + e.reply.n && whole.err == e.reply.err
              && h0 + whole.events == (h + [w]) + [e]
  {
    WriteLoopStep(b, o, h, p, n, w, e);
    TwoEvents(h, w, e);
  }

  /** A successful round of the loop keeps the loop invariant of writeWithLimiter. */
  lemma WriteLoopRound(b: Positive, o: Oracle, h: History, p: seq<byte>, n: nat, w: Event, e: Event,
                       h0: History, whole: Io<nat>, h': History, p': seq<byte>, n': nat)
    requires |p| > 0 && w == Ask(o, h, WaitN(Download, Min(b, |p|))) && w.reply.err.None?
    requires e == Ask(o, h + [w], Write(p[..Min(b, |p|)])) && e.reply.err.None?
    requires WriteResumes(b, o, h, p, n, h0, whole)
    requires h' == (h + [w]) + [e] && p' == p[Min(b, |p|)..] && n' == n + e.reply.n
    ensures WriteResumes(b, o, h', p', n', h0, whole)
  {
    TwoEvents(h, w, e);
    WriteLoopStep(b, o, h, p, n, w, e);
    var r := WriteLoop(b, o, h', p', n');
    AppendAssoc(h, [w, e], r.events);
  }

  lemma TwoEvents(h: History, w: Event, e: Event)
    ensures (h + [w]) + [e] == h + [w, e]
  {
  }

  lemma AppendAssoc(a: History, b: History, c: History)
    ensures a + (b + c) == (a + b) + c
  {
  }

  /** packetConnWithLimiter.ReadPacket. */
  function PacketRead(l: Limiter?, o: Oracle, h: History): Io<Addr> {
    var pre := Refresh(l, o, h);
    if Aborted(pre) then Io(NoAddr, pre[0].reply.err, pre)
    else
      var r := if l != null && l.upload.Some? then PacketReadWithLimiter(o, h + pre)
               else var e := Ask(o, h + pre, ReadPacket); Io(e.reply.addr, e.reply.err, [e]);
      r.(events := pre + r.events)
  }

  /** packetConnWithLimiter.readWithLimiter. */
  function PacketReadWithLimiter(o: Oracle, h: History): Io<Addr> {
    var e := Ask(o, h, ReadPacket);
    if e.reply.err.Some? then Io(e.reply.addr, e.reply.err, [e])
    else
      var w := Ask(o, h + [e], WaitN(Upload, e.reply.n));
      Io(e.reply.addr, w.reply.err, [e, w])
  }

  /** packetConnWithLimiter.WritePacket of the datagram payload to dest. */
  function PacketWrite(l: Limiter?, o: Oracle, h: History, payload: seq<byte>, dest: Addr): Io<()> {
    var pre := Refresh(l, o, h);
    if Aborted(pre) then Io((), pre[0].reply.err, pre)
    else
      var r := if l != null && l.download.Some? then PacketWriteWithLimiter(o, h + pre, payload, dest)
               else var e := Ask(o, h + pre, WritePacket(payload, dest)); Io((), e.reply.err, [e]);
      r.(events := pre + r.events)
  }

  /** packetConnWithLimiter.writePacketWithLimiter. */
  function PacketWriteWithLimiter(o: Oracle, h: History, payload: seq<byte>, dest: Addr): Io<()> {
    var w := Ask(o, h, WaitN(Download, |payload|));
    if w.reply.err.Some? then Io((), w.reply.err, [w])
    else
      var e := Ask(o, h + [w], WritePacket(payload, dest));
      Io((), e.reply.err, [w, e])
  }

  // ---------------------------------------------------------------------
  // The wrappers.
  // ---------------------------------------------------------------------

  /** A net.Conn value: a transport connection or a limited wrapper of one. */
  datatype Conn = Transport(id: nat) | Limited(wrapper: ConnWithLimiter)

  /** A N.PacketConn value. */
  datatype PacketConn = PacketTransport(id: nat) | PacketLimited(wrapper: PacketConnWithLimiter)

  /**
   * connWithLimiter. Its upstream connection and its limiter's buckets are
   * reached through the Env passed to each method.
   */
  class ConnWithLimiter {
    const inner: Conn
    const limiter: Limiter?

    constructor (inner: Conn, limiter: Limiter?)
      ensures this.inner == inner && this.limiter == limiter
    {
      this.inner := inner;
      this.limiter := limiter;
    }

    method Read(env: Env, size: nat) returns (n: nat, err: Option<Error>)
      modifies env
      ensures var r := ConnRead(limiter, env.oracle, old(env.trace), size);
              n == r.value && err == r.err && env.trace == old(env.trace) + r.events
    {
      ghost var pre := Refresh(limiter, env.oracle, env.trace);
      ghost var h0 := env.trace;
      if limiter != null {
        if limiter.timeout > 0 {
          var d := env.Perform(SetDeadline(limiter.timeout));
          if d.err.Some? {
            return 0, d.err;
          }
        }
        assert env.trace == h0 + pre && !Aborted(pre);
        if limiter.upload.Some? {
          n, err := ReadWithLimiter(env, size);
          return;
        }
      }
      assert env.trace == h0 + pre && !Aborted(pre);
      var e := env.Perform(Call.Read(size));
      n, err := e.n, e.err;
    }

    method ReadWithLimiter(env: Env, size: nat) returns (n: nat, err: Option<Error>)
      modifies env
      ensures var r := ConnReadWithLimiter(limiter, env.oracle, old(env.trace), size);
              n == r.value && err == r.err && env.trace == old(env.trace) + r.events
    {
      if limiter == null || limiter.upload.None? {
        var e := env.Perform(Call.Read(size));
        return e.n, e.err;
      }
      var b := limiter.upload.value.burst;
      var len := size;
      if b < len {
        len := b;
      }
      var e := env.Perform(Call.Read(len));
      n, err := e.n, e.err;
      if err.Some? {
        return;
      }
      var w := env.Perform(WaitN(Upload, n));
      err := w.err;
    }

    method Write(env: Env, p: seq<byte>) returns (n: nat, err: Option<Error>)
      modifies env
      ensures var r := ConnWrite(limiter, env.oracle, old(env.trace), p);
              n == r.value && err == r.err && env.trace == old(env.trace) + r.events
    {
      ghost var pre := Refresh(limiter, env.oracle, env.trace);
      ghost var h0 := env.trace;
      if limiter != null {
        if limiter.timeout > 0 {
          var d := env.Perform(SetDeadline(limiter.timeout));
          if d.err.Some? {
            return 0, d.err;
          }
        }
        assert env.trace == h0 + pre && !Aborted(pre);
        if limiter.download.Some? {
          n, err := WriteWithLimiter(env, p);
          return;
        }
      }
      assert env.trace == h0 + pre && !Aborted(pre);
      var e := env.Perform(Call.Write(p));
      n, err := e.n, e.err;
    }

    method WriteWithLimiter(env: Env, p: seq<byte>) returns (n: nat, err: Option<Error>)
      requires limiter != null && limiter.download.Some?
      modifies env
      ensures var r := ConnWriteWithLimiter(limiter.download.value.burst, env.oracle, old(env.trace), p);
              n == r.value && err == r.err && env.trace == old(env.trace) + r.events
    {
      var b := limiter.download.value.burst;
      ghost var h0 := env.trace;
      ghost var whole := WriteLoop(b, env.oracle, env.trace, p, 0);
      n, err := 0, None;
      var rest := p;
      while true
        invariant WriteResumes(b, env.oracle, env.trace, rest, n, h0, whole)
        decreases |rest|
      {
        var end := |rest|;
        if end == 0 {
          break;
        }
        if b < |rest| {
          end := b;
        }
        ghost var h, n0 := env.trace, n;
        assert end == Min(b, |rest|);
        var w := env.Perform(WaitN(Download, end));
        ghost var we := Event(WaitN(Download, end), w);
        if w.err.Some? {
          WriteLoopStop(b, env.oracle, h, rest, n, we, we, h0, whole);
          return n, w.err;
        }
        var e := env.Perform(Call.Write(rest[..end]));
        ghost var ee := Event(Call.Write(rest[..end]), e);
        n := n + e.n;
        if e.err.Some? {
          WriteLoopStop(b, env.oracle, h, rest, n0, we, ee, h0, whole);
          return n, e.err;
        }
        WriteLoopRound(b, env.oracle, h, rest, n0, we, ee, h0, whole, env.trace, rest[end..], n);
        rest := rest[end..];
      }
    }
  }

  /** packetConnWithLimiter. */
  class PacketConnWithLimiter {
    const inner: PacketConn
    const limiter: Limiter?

    constructor (inner: PacketConn, limiter: Limiter?)
      ensures this.inner == inner && this.limiter == limiter
    {
      this.inner := inner;
      this.limiter := limiter;
    }

    method ReadPacket(env: Env) returns (destination: Addr, err: Option<Error>)
      modifies env
      ensures var r := PacketRead(limiter, env.oracle, old(env.trace));
              destination == r.value && err == r.err && env.trace == old(env.trace) + r.events
    {
      ghost var pre := Refresh(limiter, env.oracle, env.trace);
      ghost var h0 := env.trace;
      if limiter != null {
        if limiter.timeout > 0 {
          var d := env.Perform(SetDeadline(limiter.timeout));
          if d.err.Some? {
            return NoAddr, d.err;
          }
        }
        assert env.trace == h0 + pre && !Aborted(pre);
        if limiter.upload.Some? {
          destination, err := ReadWithLimiter(env);
          return;
        }
      }
      assert env.trace == h0 + pre && !Aborted(pre);
      var e := env.Perform(Call.ReadPacket);
      destination, err := e.addr, e.err;
    }

    method ReadWithLimiter(env: Env) returns (destination: Addr, err: Option<Error>)
      requires limiter != null && limiter.upload.Some?
      modifies env
      ensures var r := PacketReadWithLimiter(env.oracle, old(env.trace));
              destination == r.value && err == r.err && env.trace == old(env.trace) + r.events
    {
      var e := env.Perform(Call.ReadPacket);
      destination, err := e.addr, e.err;
      if err.Some? {
        return;
      }
      var w := env.Perform(WaitN(Upload, e.n));
      err := w.err;
    }

    method WritePacket(env: Env, payload: seq<byte>, destination: Addr) returns (err: Option<Error>)
      modifies env
      ensures var r := PacketWrite(limiter, env.oracle, old(env.trace), payload, destination);
              err == r.err && env.trace == old(env.trace) + r.events
    {
      ghost var pre := Refresh(limiter, env.oracle, env.trace);
      ghost var h0 := env.trace;
      if limiter != null {
        if limiter.timeout > 0 {
          var d := env.Perform(SetDeadline(limiter.timeout));
          if d.err.Some? {
            return d.err;
          }
        }
        assert env.trace == h0 + pre && !Aborted(pre);
        if limiter.download.Some? {
          err := WritePacketWithLimiter(env, payload, destination);
          return;
        }
      }
      assert env.trace == h0 + pre && !Aborted(pre);
      var e := env.Perform(Call.WritePacket(payload, destination));
      err := e.err;
    }

    method WritePacketWithLimiter(env: Env, payload: seq<byte>, destination: Addr) returns (err: Option<Error>)
      requires limiter != null && limiter.download.Some?
      modifies env
      ensures var r := PacketWriteWithLimiter(env.oracle, old(env.trace), payload, destination);
              err == r.err && env.trace == old(env.trace) + r.events
    {
      var w := env.Perform(WaitN(Download, |payload|));
      if w.err.Some? {
        return w.err;
      }
      var e := env.Perform(Call.WritePacket(payload, destination));
      err := e.err;
    }
  }
}

/** What the limited wrappers guarantee, for every behaviour of their collaborators. */
module PacingProperties {
  import opened Basics
  import opened Collaborators
  import opened Pacing

  // ---------------------------------------------------------------------
  // Views of a trace.
  // ---------------------------------------------------------------------

  /** The chunks handed to the upstream Write calls, in order. */
  ghost function Chunks(ev: History): seq<seq<byte>>
    decreases |ev|
  {
    if |ev| == 0 then []
    else (if ev[0].call.Write? then [ev[0].call.chunk] else []) + Chunks(ev[1..])
  }

  /** The sum of the byte counts the upstream Write calls reported. */
  ghost function Written(ev: History): nat
    decreases |ev|
  {
    if |ev| == 0 then 0
    else (if ev[0].call.Write? then ev[0].reply.n else 0) + Written(ev[1..])
  }

  ghost function Flatten(cs: seq<seq<byte>>): seq<byte>
    decreases |cs|
  {
    if |cs| == 0 then [] else cs[0] + Flatten(cs[1..])
  }

  /** The reference chunking: p cut into pieces of b bytes, the last one shorter. */
  ghost function Split(p: seq<byte>, b: Positive): seq<seq<byte>>
    decreases |p|
  {
    if |p| == 0 then []
    else if b < |p| then [p[..b]] + Split(p[b..], b)
    else [p]
  }

  /**
   * The deadline rule shared by all four wrapped operations: when the
   * limiter has a positive timeout the first call is SetDeadline(timeout),
   * and if it fails nothing else is called and its error is returned;
   * otherwise SetDeadline is never called.
   */
  ghost predicate DeadlineFirst(l: Limiter?, ev: History, err: Option<Error>) {
    if l != null && l.timeout > 0 then
      && |ev| >= 1 && ev[0].call == SetDeadline(l.timeout)
      && (ev[0].reply.err.Some? ==> ev == [ev[0]] && err == ev[0].reply.err)
    else
      forall i | 0 <= i < |ev| :: !ev[i].call.SetDeadline?
  }

  /** The events of a wrapped operation after its deadline refresh. */
  ghost function AfterDeadline(l: Limiter?, ev: History): History {
    if l != null && l.timeout > 0 && |ev| > 0 then ev[1..] else ev
  }

  // ---------------------------------------------------------------------
  // The write loop.
  // ---------------------------------------------------------------------

  lemma {:induction false} SplitPartition(p: seq<byte>, b: Positive)
    ensures Flatten(Split(p, b)) == p
    ensures forall i | 0 <= i < |Split(p, b)| :: 1 <= |Split(p, b)[i]| <= b
    ensures forall i | 0 <= i < |Split(p, b)| - 1 :: |Split(p, b)[i]| == b
    decreases |p|
  {
    if |p| > 0 && b < |p| {
      SplitPartition(p[b..], b);
      var s := Split(p, b);
      assert s[1..] == Split(p[b..], b);
      assert p == p[..b] + p[b..];
      forall i | 1 <= i < |s|
        ensures 1 <= |s[i]| <= b
        ensures i < |s| - 1 ==> |s[i]| == b
      {
        assert s[i] == Split(p[b..], b)[i - 1];
      }
    }
  }

  lemma {:induction false} FlattenPrefix(a: seq<seq<byte>>, c: seq<seq<byte>>)
    requires a <= c
    ensures Flatten(a) <= Flatten(c)
    decreases |a|
  {
    if |a| > 0 {
      assert a[1..] <= c[1..];
      FlattenPrefix(a[1..], c[1..]);
    }
  }

  /** Chunks and Written of a round [w, e] followed by more events. */
  lemma RoundViews(w: Event, e: Event, ev: History)
    requires w.call.WaitN? && e.call.Write?
    ensures Chunks([w, e] + ev) == [e.call.chunk] + Chunks(ev)
    ensures Written([w, e] + ev) == e.reply.n + Written(ev)
  {
    assert ([w, e] + ev)[1..] == [e] + ev;
    assert ([e] + ev)[1..] == ev;
  }

  lemma SplitHead(p: seq<byte>, b: Positive)
    requires |p| > 0
    ensures Split(p, b) == [p[..Min(b, |p|)]] + Split(p[Min(b, |p|)..], b)
  {
    if b >= |p| {
      assert p[Min(b, |p|)..] == [];
      assert p[..Min(b, |p|)] == p;
    }
  }

  /**
   * The traces writeWithLimiter can leave when asked to write p with burst
   * b, whatever its collaborators answer: rounds of a wait on the download
   * bucket for the length of the next piece of p (b bytes, or what is left)
   * followed, if the wait succeeded, by the write of that piece, which
   * reports at most its length; the rounds stop at the first error, which
   * is the error returned, and otherwise go on until p is used up.
   */
  ghost predicate WriteTrace(b: Positive, p: seq<byte>, ev: History, err: Option<Error>)
    decreases |p|
  {
    if |p| == 0 then ev == [] && err.None?
    else
      var end := Min(b, |p|);
      && |ev| >= 1 && ev[0].call == WaitN(Download, end)
      && if ev[0].reply.err.Some? then |ev| == 1 && err == ev[0].reply.err
         else
           && |ev| >= 2 && ev[1].call == Write(p[..end]) && ev[1].reply.n <= end
           && if ev[1].reply.err.Some? then |ev| == 2 && err == ev[1].reply.err
              else WriteTrace(b, p[end..], ev[2..], err)
  }

  /** The loop leaves a trace of that shape and returns what the writes reported. */
  lemma {:induction false} WriteLoopTrace(b: Positive, o: Oracle, h: History, p: seq<byte>, n: nat)
    ensures var r := WriteLoop(b, o, h, p, n);
            WriteTrace(b, p, r.events, r.err) && r.value == n + Written(r.events)
    decreases |p|
  {
    if |p| > 0 {
      var end := Min(b, |p|);
      var w := Ask(o, h, WaitN(Download, end));
      var e := Ask(o, h + [w], Write(p[..end]));
      WriteLoopStep(b, o, h, p, n, w, e);
      WriteLoopTrace(b, o, h + [w, e], p[end..], n + e.reply.n);
      StepTrace(b, p, n, w, e, WriteLoop(b, o, h, p, n), WriteLoop(b, o, h + [w, e], p[end..], n + e.reply.n));
    }
  }

  /** One round of the loop in front of the trace of the rest. */
  lemma StepTrace(b: Positive, p: seq<byte>, n: nat, w: Event, e: Event, r: Io<nat>, r': Io<nat>)
    requires |p| > 0 && w.call == WaitN(Download, Min(b, |p|))
    requires e.call == Write(p[..Min(b, |p|)]) && e.reply.n <= Min(b, |p|)
    requires w.reply.err.Some? ==> r.events == [w] && r.value == n && r.err == w.reply.err
    requires w.reply.err.None? && e.reply.err.Some? ==>
               r.events == [w, e] && r.value == n + e.reply.n && r.err == e.reply.err
    requires w.reply.err.None? && e.reply.err.None? ==>
               r.events == [w, e] + r'.events && r.value == r'.value && r.err == r'.err
    requires WriteTrace(b, p[Min(b, |p|)..], r'.events, r'.err)
    requires r'.value == n + e.reply.n + Written(r'.events)
    ensures WriteTrace(b, p, r.events, r.err) && r.value == n + Written(r.events)
  {
    if w.reply.err.Some? {
      assert r.events[1..] == [];
    } else if e.reply.err.Some? {
      assert r.events == [w, e] + [];
      RoundViews(w, e, []);
    } else {
      RoundViews(w, e, r'.events);
      assert r.events[2..] == r'.events;
    }
  }

  /**
   * The chunks handed to Write are the first ones of the reference
   * chunking, all of them unless the loop stopped at an error.
   */
  lemma {:induction false} TraceFollowsSplit(b: Positive, p: seq<byte>, ev: History, err: Option<Error>)
    requires WriteTrace(b, p, ev, err)
    ensures Chunks(ev) <= Split(p, b)
    ensures err.None? ==> Chunks(ev) == Split(p, b)
    decreases |p|
  {
    if |p| > 0 {
      SplitHead(p, b);
      if ev[0].reply.err.Some? {
        assert ev[1..] == [];
      } else if ev[1].reply.err.Some? {
        RoundViews(ev[0], ev[1], []);
        assert [ev[0], ev[1]] + [] == ev;
      } else {
        TraceFollowsSplit(b, p[Min(b, |p|)..], ev[2..], err);
        RoundViews(ev[0], ev[1], ev[2..]);
        assert [ev[0], ev[1]] + ev[2..] == ev;
      }
    }
  }

  /**
   * The same trace, event by event: it starts with a wait; every event is
   * a wait on the download bucket for between 1 and b tokens or a write
   * that reports at most its length; waits and writes alternate, and each
   * write carries as many bytes as the wait before it asked for; every
   * call but the last succeeded, and the error returned is the last call's.
   */
  ghost predicate PacedWrites(b: Positive, ev: History, err: Option<Error>) {
    && (|ev| > 0 ==> ev[0].call.WaitN?)
    && (forall i | 0 <= i < |ev| ::
          || (ev[i].call.WaitN? && ev[i].call.dir == Download && 1 <= ev[i].call.k <= b)
          || (ev[i].call.Write? && ev[i].reply.n <= |ev[i].call.chunk|))
    && (forall i, j | 0 <= i < j < |ev| && j == i + 1 ::
          && (ev[i].call.WaitN? <==> ev[j].call.Write?)
          && (ev[j].call.Write? ==> |ev[j].call.chunk| == ev[i].call.k))
    && (forall i | 0 <= i < |ev| - 1 :: ev[i].reply.err.None?)
    && err == (if |ev| == 0 then None else ev[|ev| - 1].reply.err)
  }

  lemma {:induction false} TracePaced(b: Positive, p: seq<byte>, ev: History, err: Option<Error>)
    requires WriteTrace(b, p, ev, err)
    ensures PacedWrites(b, ev, err)
    decreases |p|
  {
    if |p| > 0 && ev[0].reply.err.None? && ev[1].reply.err.None? {
      var rest := ev[2..];
      TracePaced(b, p[Min(b, |p|)..], rest, err);
      PacedRound(b, ev, err);
    }
  }

  /** Two successful events, a wait and its write, in front of a paced trace. */
  lemma PacedRound(b: Positive, ev: History, err: Option<Error>)
    requires |ev| >= 2 && ev[0].reply.err.None? && ev[1].reply.err.None?
    requires ev[0].call.WaitN? && ev[0].call.dir == Download && 1 <= ev[0].call.k <= b
    requires ev[1].call.Write? && |ev[1].call.chunk| == ev[0].call.k && ev[1].reply.n <= ev[0].call.k
    requires PacedWrites(b, ev[2..], err)
    requires |ev| > 2 ==> ev[2].call.WaitN?
    ensures PacedWrites(b, ev, err)
  {
    var rest := ev[2..];
    assert forall i | 2 <= i < |ev| :: ev[i] == rest[i - 2];
  }

  /** Writers that report no more than they were handed report no more in total. */
  lemma {:induction false} WrittenBound(ev: History)
    requires forall i | 0 <= i < |ev| && ev[i].call.Write? :: ev[i].reply.n <= |ev[i].call.chunk|
    ensures Written(ev) <= |Flatten(Chunks(ev))|
    decreases |ev|
  {
    if |ev| > 0 {
      assert forall i | 0 <= i < |ev[1..]| :: ev[1..][i] == ev[i + 1];
      WrittenBound(ev[1..]);
      if ev[0].call.Write? {
        var cs := [ev[0].call.chunk] + Chunks(ev[1..]);
        assert cs[1..] == Chunks(ev[1..]);
        assert Flatten(cs) == ev[0].call.chunk + Flatten(Chunks(ev[1..]));
        assert ev[0].reply.n <= |ev[0].call.chunk|;
      } else {
        assert Chunks(ev) == Chunks(ev[1..]);
      }
    }
  }

  // ---------------------------------------------------------------------
  // The wrapped operations.
  // ---------------------------------------------------------------------

  /** The deadline refresh of a wrapped operation was made and failed. */
  ghost predicate DeadlineFailed(l: Limiter?, ev: History) {
    l != null && l.timeout > 0 && |ev| >= 1 && ev[0].reply.err.Some?
  }

  /**
   * writeWithLimiter writes p in the pieces of the reference chunking, each
   * after a wait for its length on the download bucket, stops at the first
   * error, and returns the sum of what the writes reported, which is at
   * most |p|; when no error occurs every byte of p has been handed to Write
   * exactly once and in order; an empty p makes no call.
   */
  lemma WriteWithLimiterSplits(b: Positive, o: Oracle, h: History, p: seq<byte>)
    ensures var r := ConnWriteWithLimiter(b, o, h, p);
            && WriteTrace(b, p, r.events, r.err)
            && PacedWrites(b, r.events, r.err)
            && Chunks(r.events) <= Split(p, b)
            && (r.err.None? ==> Chunks(r.events) == Split(p, b) && Flatten(Chunks(r.events)) == p)
            && Flatten(Chunks(r.events)) <= p
            && r.value == Written(r.events) <= |p|
            && (|p| == 0 ==> r.events == [] && r.value == 0 && r.err.None?)
  {
    var r := ConnWriteWithLimiter(b, o, h, p);
    WriteLoopTrace(b, o, h, p, 0);
    TraceFollowsSplit(b, p, r.events, r.err);
    TracePaced(b, p, r.events, r.err);
    WrittenBound(r.events);
    SplitPartition(p, b);
    FlattenPrefix(Chunks(r.events), Split(p, b));
  }

  /**
   * What connWithLimiter.Write of p achieves under limiter l: the deadline
   * refresh comes first; with a download bucket the write is the paced
   * loop on the download burst, without one (or without a limiter) it is a
   * single upstream Write of p (so the upload bucket is never used); the
   * count is at most |p|. The paced trace is exactly the loop's: an empty p
   * makes no call, and nothing follows the last write.
   */
  ghost predicate WriteOutcome(l: Limiter?, p: seq<byte>, r: Io<nat>) {
    var ev := AfterDeadline(l, r.events);
    && DeadlineFirst(l, r.events, r.err)
    && r.value <= |p|
    && (DeadlineFailed(l, r.events) ==> r.value == 0)
    && (!DeadlineFailed(l, r.events) && l != null && l.download.Some? ==>
          PacedOutcome(l.download.value.burst, p, ev, r.err, r.value))
    && (!DeadlineFailed(l, r.events) && (l == null || l.download.None?) ==>
          && |ev| == 1 && ev[0].call == Write(p)
          && r.value == ev[0].reply.n && r.err == ev[0].reply.err)
  }

  /**
   * The events ev of the paced write of p with burst b, its error and its
   * count: the loop's trace, paced, in the pieces of the reference chunking
   * (all of p when no error occurs), the count being what the writes reported.
   */
  ghost predicate PacedOutcome(b: Positive, p: seq<byte>, ev: History, err: Option<Error>, n: nat) {
    && WriteTrace(b, p, ev, err)
    && PacedWrites(b, ev, err)
    && Chunks(ev) <= Split(p, b)
    && (err.None? ==> Flatten(Chunks(ev)) == p)
    && n == Written(ev)
  }

  lemma ConnWriteBehaviour(l: Limiter?, o: Oracle, h: History, p: seq<byte>)
    ensures WriteOutcome(l, p, ConnWrite(l, o, h, p))
  {
    if !Aborted(Refresh(l, o, h)) && l != null && l.download.Some? {
      PacedWriteBehaviour(l, o, h, p);
    } else {
      UnpacedWriteBehaviour(l, o, h, p);
    }
  }

  /** WriteOutcome when the refresh failed or there is no download bucket. */
  lemma UnpacedWriteBehaviour(l: Limiter?, o: Oracle, h: History, p: seq<byte>)
    requires Aborted(Refresh(l, o, h)) || l == null || l.download.None?
    ensures WriteOutcome(l, p, ConnWrite(l, o, h, p))
  {
  }

  /** WriteOutcome when the write goes through the paced loop. */
  lemma PacedWriteBehaviour(l: Limiter?, o: Oracle, h: History, p: seq<byte>)
    requires !Aborted(Refresh(l, o, h)) && l != null && l.download.Some?
    ensures WriteOutcome(l, p, ConnWrite(l, o, h, p))
  {
    var r := ConnWrite(l, o, h, p);
    var pre := Refresh(l, o, h);
    var b := l.download.value.burst;
    var w := ConnWriteWithLimiter(b, o, h + pre, p);
    WriteWithLimiterSplits(b, o, h + pre, p);
    assert r == w.(events := pre + w.events);
    PacedWriteOutcome(l, p, pre, w, r);
  }

  /** The paced case of WriteOutcome, from what the loop guarantees. */
  lemma PacedWriteOutcome(l: Limiter?, p: seq<byte>, pre: History, w: Io<nat>, r: Io<nat>)
    requires l != null && l.download.Some?
    requires if l.timeout > 0 then |pre| == 1 && pre[0].call == SetDeadline(l.timeout) && pre[0].reply.err.None?
             else pre == []
    requires r == w.(events := pre + w.events)
    requires PacedOutcome(l.download.value.burst, p, w.events, w.err, w.value) && w.value <= |p|
    ensures WriteOutcome(l, p, r)
  {
    var b := l.download.value.burst;
    PacedWritesOnlyDownload(b, w.events, w.err);
    SucceededDeadline(l, pre, w.events, r.err);
    assert PacedOutcome(b, p, AfterDeadline(l, r.events), r.err, r.value);
  }

  /**
   * A deadline refresh that succeeded (or was not needed) in front of
   * events that set no deadline.
   */
  lemma SucceededDeadline(l: Limiter?, pre: History, ev: History, err: Option<Error>)
    requires if l != null && l.timeout > 0 then |pre| == 1 && pre[0].call == SetDeadline(l.timeout) && pre[0].reply.err.None?
             else pre == []
    requires forall i | 0 <= i < |ev| :: !ev[i].call.SetDeadline?
    ensures DeadlineFirst(l, pre + ev, err) && !DeadlineFailed(l, pre + ev) && AfterDeadline(l, pre + ev) == ev
  {
    if l != null && l.timeout > 0 {
      assert (pre + ev)[0] == pre[0];
      assert (pre + ev)[1..] == ev;
    } else {
      assert pre + ev == ev;
    }
  }

  /** No event is a wait on the bucket of direction d. */
  ghost predicate NeverWaitsOn(d: Direction, ev: History) {
    forall i | 0 <= i < |ev| :: !(ev[i].call.WaitN? && ev[i].call.dir == d)
  }

  /** A paced trace never waits on the upload bucket and never sets a deadline. */
  lemma PacedWritesOnlyDownload(b: Positive, ev: History, err: Option<Error>)
    requires PacedWrites(b, ev, err)
    ensures NeverWaitsOn(Upload, ev)
    ensures forall i | 0 <= i < |ev| :: !ev[i].call.SetDeadline?
  {
  }

  /**
   * connWithLimiter.Read: the deadline refresh comes first; with an upload
   * bucket the upstream Read gets at most the upload burst of the buffer,
   * so it reads at most that many bytes, and only a successful read is
   * followed by a wait on the upload bucket for the bytes read, whose error
   * is then the result's; without one (or without a limiter) the Read gets
   * the whole buffer and nothing else happens. The download bucket is never
   * used.
   */
  lemma ConnReadBehaviour(l: Limiter?, o: Oracle, h: History, size: nat)
    ensures var r := ConnRead(l, o, h, size);
            var ev := AfterDeadline(l, r.events);
            && DeadlineFirst(l, r.events, r.err)
            && r.value <= size
            && (DeadlineFailed(l, r.events) ==> r.value == 0)
            && (!DeadlineFailed(l, r.events) ==>
                  && 1 <= |ev| <= 2 && ev[0].call.Read? && r.value == ev[0].reply.n
                  && r.err == ev[|ev| - 1].reply.err
                  && (l != null && l.upload.Some? ==>
                        && ev[0].call.size == Min(l.upload.value.burst, size)
                        && r.value <= Min(l.upload.value.burst, size)
                        && (|ev| == 2 <==> ev[0].reply.err.None?)
                        && (|ev| == 2 ==> ev[1].call == WaitN(Upload, r.value)))
                  && (l == null || l.upload.None? ==> |ev| == 1 && ev[0].call.size == size))
            && NeverWaitsOn(Download, r.events)
  {
  }

  /**
   * packetConnWithLimiter.ReadPacket: the deadline refresh comes first and
   * its failure yields the zero address; with an upload bucket only a
   * successful ReadPacket is followed by a wait on the upload bucket for
   * the length of the datagram read; the address is always the one
   * ReadPacket returned.
   */
  lemma PacketReadBehaviour(l: Limiter?, o: Oracle, h: History)
    ensures var r := PacketRead(l, o, h);
            var ev := AfterDeadline(l, r.events);
            && DeadlineFirst(l, r.events, r.err)
            && (DeadlineFailed(l, r.events) ==> r.value == NoAddr)
            && (!DeadlineFailed(l, r.events) ==>
                  && 1 <= |ev| <= 2 && ev[0].call == ReadPacket && r.value == ev[0].reply.addr
                  && r.err == ev[|ev| - 1].reply.err
                  && (l != null && l.upload.Some? ==>
                        && (|ev| == 2 <==> ev[0].reply.err.None?)
                        && (|ev| == 2 ==> ev[1].call == WaitN(Upload, ev[0].reply.n)))
                  && (l == null || l.upload.None? ==> |ev| == 1))
  {
  }

  /**
   * packetConnWithLimiter.WritePacket: the deadline refresh comes first;
   * with a download bucket the datagram is sent only after a successful
   * wait for its whole length; without one it is sent at once.
   */
  lemma PacketWriteBehaviour(l: Limiter?, o: Oracle, h: History, payload: seq<byte>, dest: Addr)
    ensures var r := PacketWrite(l, o, h, payload, dest);
            var ev := AfterDeadline(l, r.events);
            && DeadlineFirst(l, r.events, r.err)
            && (!DeadlineFailed(l, r.events) ==>
                  1 <= |ev| <= 2 && r.err == ev[|ev| - 1].reply.err)
            && (!DeadlineFailed(l, r.events) && l != null && l.download.Some? ==>
                  && ev[0].call == WaitN(Download, |payload|)
                  && (|ev| == 2 <==> ev[0].reply.err.None?)
                  && (|ev| == 2 ==> ev[1].call == WritePacket(payload, dest)))
            && (!DeadlineFailed(l, r.events) && (l == null || l.download.None?) ==>
                  ev == [ev[0]] && ev[0].call == WritePacket(payload, dest))
  {
  }
}
