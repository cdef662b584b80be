/** Stand-ins for the operating-system socket and for the per-connection
    consumer. A socket is a script of what each `read` and `write` call will
    do; the consumer records the calls made on it. The pure functions here
    say what one call, and the reactor's read loop as a whole, do. */
module Sockets {
  import opened Buffers

  /** What the peer makes the next `read` call see. */
  datatype ReadStep =
    | Data(bytes: seq<Byte>)  // bytes that have arrived and not yet been read
    | EndOfStream             // the peer closed its side; every later read sees it too
    | ReadFault               // the read call throws an I/O exception

  /** What the next `write` call does. */
  datatype WriteStep =
    | Accept(count: nat)  // the send window takes at most `count` bytes
    | WriteFault          // the write call throws an I/O exception

  /** What an I/O call returns: a byte count (-1 for end of stream) or an exception. */
  datatype IoReturn = Count(n: int) | Thrown

  /** A Java object reference handed through the reactor untouched (closing data,
      consumer working data): null, or some value. */
  datatype Token = Null | Token(value: int)

  function Min(a: int, b: int): int { if a < b then a else b }

  /** The bytes a sequence of reads can still deliver, in order: data up to the
      first end of stream; a faulting read delivers nothing and is passed over. */
  function Stream(inbound: seq<ReadStep>): seq<Byte>
  {
    if inbound == [] then []
    else match inbound[0]
      case Data(bs) => bs + Stream(inbound[1..])
      case EndOfStream => []
      case ReadFault => Stream(inbound[1..])
  }

  datatype ReadCallResult = ReadCallResult(ret: IoReturn, inbound: seq<ReadStep>, buffer: ConsumerBuffer)

  /** One `channel.read(buffer)`: throws on a closed channel; returns 0 at
      once, looking at nothing pending, when the buffer has no room left;
      otherwise moves as many pending bytes as fit into the buffer (what does
      not fit stays pending), returns -1 at end of stream, 0 when nothing is
      pending, and throws on a fault. */
  function ReadCall(open: bool, inbound: seq<ReadStep>, b: ConsumerBuffer): (r: ReadCallResult)
    ensures Written(r.buffer) + Stream(r.inbound) == Written(b) + Stream(inbound)
    ensures SameRegion(r.buffer, b) && b.position <= r.buffer.position
    ensures r.ret.Count? ==> -1 <= r.ret.n
    ensures r.ret.Count? && 0 <= r.ret.n ==> r.ret.n == r.buffer.position - b.position
    ensures open && b.position == b.limit ==> r == ReadCallResult(Count(0), inbound, b)
    ensures r.ret == Count(-1) <==> open && b.position != b.limit && inbound != [] && inbound[0] == EndOfStream
    ensures r.ret == Count(-1) ==> r.inbound == inbound && r.buffer == b
    ensures r.ret == Thrown <==> !open || (b.position != b.limit && inbound != [] && inbound[0] == ReadFault)
    ensures r.ret == Thrown ==> r.buffer == b
  {
    if !open then ReadCallResult(Thrown, inbound, b)
    else if b.position == b.limit then ReadCallResult(Count(0), inbound, b)
    else if inbound == [] then ReadCallResult(Count(0), inbound, b)
    else match inbound[0]
      case EndOfStream => ReadCallResult(Count(-1), inbound, b)
      case ReadFault => ReadCallResult(Thrown, inbound[1..], b)
      case Data(bs) =>
        var k := Min(|bs|, b.limit - b.position);
        var rest := if k == |bs| then inbound[1..] else [Data(bs[k..])] + inbound[1..];
        assert Stream(rest) == bs[k..] + Stream(inbound[1..]) by {
          if k < |bs| { assert rest[1..] == inbound[1..]; }
        }
        assert bs == bs[..k] + bs[k..];
        ReadCallResult(Count(k), rest, Put(b, bs[..k]))
  }

  /** The state at the end of the reactor's read loop: the running total of the
      values the read calls returned, the value of the last call (-1 after an
      exception too), whether it ended by an exception, and the new socket and
      buffer state. */
  datatype ReadPass = ReadPass(total: int, last: int, faulted: bool, inbound: seq<ReadStep>, buffer: ConsumerBuffer)

  /** The do-while loop of the read path: read while each call returns more
      than zero, adding every returned value (the final -1 included) to the
      total; an exception ends the loop with the last value taken as -1 and
      nothing added. Every byte read lands in the buffer in arrival order. */
  function ReadLoop(open: bool, inbound: seq<ReadStep>, b: ConsumerBuffer, total: int): (p: ReadPass)
    ensures Written(p.buffer) + Stream(p.inbound) == Written(b) + Stream(inbound)
    ensures SameRegion(p.buffer, b) && b.position <= p.buffer.position
    ensures -1 <= p.last <= 0 && (p.faulted ==> p.last == -1)
    ensures p.last == -1 && !p.faulted ==> p.inbound != [] && p.inbound[0] == EndOfStream
    ensures p.total == total + (p.buffer.position - b.position) + (if p.last == -1 && !p.faulted then -1 else 0)
    decreases b.limit - b.position
  {
    var c := ReadCall(open, inbound, b);
    match c.ret
    case Thrown => ReadPass(total, -1, true, c.inbound, c.buffer)
    case Count(n) =>
      if n > 0 then ReadLoop(open, c.inbound, c.buffer, total + n)
      else ReadPass(total + n, n, false, c.inbound, c.buffer)
  }

  /** One turn of the read loop: after the first call returned `r` and the
      running total became `total'`, the loop either goes on from the new
      state or ends there. */
  lemma ReadLoopAdvance(p: ReadPass, inbound: seq<ReadStep>, b: ConsumerBuffer, total: int,
                        r: IoReturn, inbound': seq<ReadStep>, b': ConsumerBuffer, total': int)
    requires p == ReadLoop(true, inbound, b, total)
    requires ReadCall(true, inbound, b) == ReadCallResult(r, inbound', b')
    requires total' == if r.Thrown? then total else total + r.n
    ensures r.Thrown? ==> p == ReadPass(total', -1, true, inbound', b')
    ensures r.Count? && r.n > 0 ==> p == ReadLoop(true, inbound', b', total')
    ensures r.Count? && r.n <= 0 ==> p == ReadPass(total', r.n, false, inbound', b')
  {
  }

  /** The loop stopped at end of stream (not by an exception). */
  predicate AtEnd(p: ReadPass) { p.last == -1 && !p.faulted }

  /** The read path hands the buffer to the consumer iff the total is positive. */
  predicate Consumes(p: ReadPass) { p.total > 0 }

  /** How many times the read path calls `Context.close`: once for the -1
      (end of stream or exception) and once more when nothing is consumed. */
  function CloseCount(p: ReadPass): nat
  {
    (if p.last == -1 then 1 else 0) + (if Consumes(p) then 0 else 1)
  }

  /** Starting from a cleared buffer, the consumer is called iff at least one
      byte was read and, when the loop ended at end of stream, at least two:
      the -1 added into the total cancels a single byte. */
  lemma ConsumesIff(inbound: seq<ReadStep>, b: ConsumerBuffer)
    requires Written(b) == []
    ensures var p := ReadLoop(true, inbound, b, 0);
            Consumes(p) <==> |Written(p.buffer)| >= (if AtEnd(p) then 2 else 1)
  {
  }

  /** The payload the consumer gets is what the peer sent first: a prefix of
      the pending stream, and the rest stays pending in the socket. */
  lemma {:induction false} PayloadIsStreamPrefix(inbound: seq<ReadStep>, b: ConsumerBuffer)
    requires Written(b) == []
    ensures var p := ReadLoop(true, inbound, b, 0);
            Stream(inbound) == Written(p.buffer) + Stream(p.inbound)
  {
    var p := ReadLoop(true, inbound, b, 0);
    assert Written(p.buffer) + Stream(p.inbound) == [] + Stream(inbound);
  }

  /** A connection whose peer closes at once is closed twice by one read pass
      and the consumer is not called. */
  lemma ImmediateEndClosesTwice(inbound: seq<ReadStep>, b: ConsumerBuffer)
    requires inbound != [] && inbound[0] == EndOfStream
    requires Written(b) == [] && b.limit > 0
    ensures var p := ReadLoop(true, inbound, b, 0);
            AtEnd(p) && !Consumes(p) && CloseCount(p) == 2 && p.total == -1
  {
  }

  /** A single byte followed by end of stream reaches the buffer but never the
      consumer: the total is 1 + (-1) = 0, and the pass closes the context twice. */
  lemma OneByteThenEndIsDropped(x: Byte, b: ConsumerBuffer)
    requires Written(b) == [] && b.limit >= 2
    ensures var p := ReadLoop(true, [Data([x]), EndOfStream], b, 0);
            Written(p.buffer) == [x] && p.total == 0 && !Consumes(p) && CloseCount(p) == 2
  {
    var c := ReadCall(true, [Data([x]), EndOfStream], b);
    assert c.ret == Count(1) && c.inbound == [EndOfStream];
    var p := ReadLoop(true, [EndOfStream], c.buffer, 1);
    assert p.total == 0 && p.buffer == c.buffer;
  }

  datatype WriteCallResult = WriteCallResult(ret: IoReturn, accepts: seq<WriteStep>, buffer: ConsumerBuffer, sent: seq<Byte>)

  /** One `channel.write(buffer)`: sends as many of the buffer's remaining
      bytes as the send window takes, returning how many (0 when nothing is
      scripted or nothing remains); throws on a fault or on a closed channel. */
  function WriteCall(open: bool, accepts: seq<WriteStep>, b: ConsumerBuffer): (r: WriteCallResult)
    ensures r.sent + Remaining(r.buffer) == Remaining(b)
    ensures SameRegion(r.buffer, b) && r.buffer.bytes == b.bytes
    ensures r.ret == Thrown <==> !open || (accepts != [] && accepts[0] == WriteFault)
    ensures r.ret == Thrown ==> r.sent == [] && r.buffer == b
    ensures r.ret.Count? ==> r.ret.n == |r.sent|
  {
    if !open then WriteCallResult(Thrown, accepts, b, [])
    else if accepts == [] then WriteCallResult(Count(0), accepts, b, [])
    else match accepts[0]
      case WriteFault => WriteCallResult(Thrown, accepts[1..], b, [])
      case Accept(n) =>
        var k := Min(n, b.limit - b.position);
        WriteCallResult(Count(k), accepts[1..], Advance(b, k), Remaining(b)[..k])
  }

  /** How the inner write loop ended for one buffer. */
  datatype WriteOutcome =
    | Sent     // nothing remains: every byte went out
    | Blocked  // a write call returned fewer than one byte
    | Failed   // a write call threw

  /** The state at the end of the inner write loop: how it ended, the rest of
      the write script, the buffer with its position advanced, and the bytes
      that went out, in order. */
  datatype SendPass = SendPass(outcome: WriteOutcome, accepts: seq<WriteStep>, buffer: ConsumerBuffer, sent: seq<Byte>)

  /** The `while (hasRemaining())` loop of one buffer write: write while
      bytes remain; a call that returns fewer than one byte ends it as
      `Blocked`, one that throws as `Failed`. Every byte that leaves the
      buffer goes out, in buffer order, and it ends `Sent` exactly when the
      buffer is exhausted. */
  function SendLoop(open: bool, accepts: seq<WriteStep>, b: ConsumerBuffer): (p: SendPass)
    ensures p.sent + Remaining(p.buffer) == Remaining(b)
    ensures SameRegion(p.buffer, b) && p.buffer.bytes == b.bytes
    ensures p.outcome == Sent <==> Remaining(p.buffer) == []
    ensures p.outcome == Failed ==> !open || WriteFault in accepts
    decreases b.limit - b.position
  {
    if b.position >= b.limit then SendPass(Sent, accepts, b, [])
    else
      var c := WriteCall(open, accepts, b);
      match c.ret
      case Thrown => SendPass(Failed, c.accepts, c.buffer, [])
      case Count(n) =>
        if n < 1 then SendPass(Blocked, c.accepts, c.buffer, c.sent)
        else
          var p := SendLoop(open, c.accepts, c.buffer);
          assert (c.sent + p.sent) + Remaining(p.buffer) == c.sent + (p.sent + Remaining(p.buffer));
          SendPass(p.outcome, p.accepts, p.buffer, c.sent + p.sent)
  }

  /** One turn of the write loop: after a call on a buffer with bytes left
      returned `r`, the loop either goes on from the new state or ends there. */
  lemma SendLoopAdvance(p: SendPass, open: bool, accepts: seq<WriteStep>, b: ConsumerBuffer,
                        r: IoReturn, accepts': seq<WriteStep>, b': ConsumerBuffer, sent: seq<Byte>)
    requires p == SendLoop(open, accepts, b) && b.position < b.limit
    requires WriteCall(open, accepts, b) == WriteCallResult(r, accepts', b', sent)
    ensures r.Thrown? ==> p == SendPass(Failed, accepts', b', [])
    ensures r.Count? && r.n < 1 ==> p == SendPass(Blocked, accepts', b', sent)
    ensures r.Count? && r.n >= 1 ==>
              var q := SendLoop(open, accepts', b');
              p == SendPass(q.outcome, q.accepts, q.buffer, sent + q.sent)
  {
  }

  /** `p`, what is left of a send loop after `sent` went out, completes `goal`. */
  predicate Completes(goal: SendPass, sent: seq<Byte>, p: SendPass)
  {
    && p.outcome == goal.outcome && p.accepts == goal.accepts && p.buffer == goal.buffer
    && goal.sent == sent + p.sent
  }

  /** One call of a send loop that completes `goal`, with everything the
      loop's state needs named. */
  lemma SendLoopStep(goal: SendPass, sent: seq<Byte>, open: bool, accepts: seq<WriteStep>, b: ConsumerBuffer,
                     r: IoReturn, accepts': seq<WriteStep>, b': ConsumerBuffer, sent': seq<Byte>)
    requires Completes(goal, sent, SendLoop(open, accepts, b)) && b.position < b.limit
    requires WriteCall(open, accepts, b) == WriteCallResult(r, accepts', b', sent')
    ensures r.Thrown? ==> goal == SendPass(Failed, accepts', b', sent)
    ensures r.Count? && r.n < 1 ==> goal == SendPass(Blocked, accepts', b', sent + sent')
    ensures r.Count? && r.n >= 1 ==> Completes(goal, sent + sent', SendLoop(open, accepts', b'))
  {
    SendLoopAdvance(SendLoop(open, accepts, b), open, accepts, b, r, accepts', b', sent');
    if r.Thrown? {
      assert sent + [] == sent;
    } else if r.n >= 1 {
      AppendAssoc(sent, sent', SendLoop(open, accepts', b').sent);
    }
  }

  /** Every call of the script takes at least one byte. */
  predicate AllAccept(accepts: seq<WriteStep>)
  {
    forall i :: 0 <= i < |accepts| ==> accepts[i].Accept? && accepts[i].count >= 1
  }

  /** The most bytes a script lets through. */
  function Budget(accepts: seq<WriteStep>): nat
  {
    if accepts == [] || accepts[0].WriteFault? then 0 else accepts[0].count + Budget(accepts[1..])
  }

  /** A socket whose every call takes at least one byte, and which lets
      through at least what remains, takes the whole buffer. */
  lemma {:induction false} SendLoopDelivers(accepts: seq<WriteStep>, b: ConsumerBuffer)
    requires AllAccept(accepts) && |Remaining(b)| <= Budget(accepts)
    ensures var p := SendLoop(true, accepts, b);
            p.outcome == Sent && p.sent == Remaining(b)
    decreases |accepts|
  {
    if b.position < b.limit {
      var c := WriteCall(true, accepts, b);
      assert accepts != [] && accepts[0].Accept? && accepts[0].count >= 1;
      assert AllAccept(accepts[1..]) by {
        forall i | 0 <= i < |accepts| - 1
          ensures accepts[1..][i].Accept? && accepts[1..][i].count >= 1
        {
          assert accepts[1..][i] == accepts[i + 1];
        }
      }
      if c.buffer.position < c.buffer.limit {
        SendLoopDelivers(accepts[1..], c.buffer);
      }
    }
  }

  /** A socket that takes nothing at its next call (an empty script or a
      zero window) leaves a buffer with bytes left `Blocked` at once, with
      nothing sent; a closed socket or a faulting call leaves it `Failed`. */
  lemma SendLoopStops(open: bool, accepts: seq<WriteStep>, b: ConsumerBuffer)
    requires b.position < b.limit
    ensures open && (accepts == [] || accepts[0] == Accept(0)) ==>
              SendLoop(open, accepts, b) == SendPass(Blocked, if accepts == [] then [] else accepts[1..], b, [])
    ensures !open || (accepts != [] && accepts[0] == WriteFault) ==>
              SendLoop(open, accepts, b).outcome == Failed && SendLoop(open, accepts, b).sent == []
  {
  }

  /** A client socket: whether it is open, the scripts its read and write calls
      follow, the bytes it has put on the wire and how often `close()` was called. */
  class Channel {
    var open: bool
    var inbound: seq<ReadStep>
    var accepts: seq<WriteStep>
    var wire: seq<Byte>
    var closes: nat

    constructor (inbound: seq<ReadStep>, accepts: seq<WriteStep>)
      ensures open && this.inbound == inbound && this.accepts == accepts
      ensures wire == [] && closes == 0
    {
      open := true;
      this.inbound := inbound;
      this.accepts := accepts;
      wire := [];
      closes := 0;
    }

    method Read(b: ConsumerBuffer) returns (ret: IoReturn, b': ConsumerBuffer)
      modifies this`inbound
      ensures ReadCall(open, old(inbound), b) == ReadCallResult(ret, inbound, b')
    {
      var c := ReadCall(open, inbound, b);
      ret, b' := c.ret, c.buffer;
      inbound := c.inbound;
    }

    method Write(b: ConsumerBuffer) returns (ret: IoReturn, b': ConsumerBuffer)
      modifies this`accepts, this`wire
      ensures var c := WriteCall(open, old(accepts), b);
              ret == c.ret && b' == c.buffer && accepts == c.accepts && wire == old(wire) + c.sent
      ensures wire + Remaining(b') == old(wire) + Remaining(b)
      ensures SameRegion(b', b) && b'.bytes == b.bytes
    {
      var c := WriteCall(open, accepts, b);
      ret, b' := c.ret, c.buffer;
      accepts := c.accepts;
      assert (wire + c.sent) + Remaining(b') == wire + (c.sent + Remaining(b'));
      wire := wire + c.sent;
    }

    /** `close()`; closing a closed channel has no further effect but is still counted. */
    method Close()
      modifies this`open, this`closes
      ensures !open && closes == old(closes) + 1
    {
      open := false;
      closes := closes + 1;
    }
  }

  /** The request consumer bound to one connection, seen through the calls the
      reactor makes on it: each `consume` payload and each `closeWith` argument
      is recorded, and so is, for each `consume`, how many buffers the pool had
      released when it came; the two flags make the respective call throw after
      it is recorded. */
  class Consumer {
    const consumeThrows: bool
    const closeWithThrows: bool
    var consumed: seq<seq<Byte>>
    var closings: seq<Token>
    var releasesSeen: seq<nat>

    constructor (consumeThrows: bool, closeWithThrows: bool)
      ensures this.consumeThrows == consumeThrows && this.closeWithThrows == closeWithThrows
      ensures consumed == [] && closings == [] && releasesSeen == []
    {
      this.consumeThrows := consumeThrows;
      this.closeWithThrows := closeWithThrows;
      consumed := [];
      closings := [];
      releasesSeen := [];
    }

    method Consume(payload: seq<Byte>, pool: Pool) returns (ok: bool)
      modifies this`consumed, this`releasesSeen
      ensures consumed == old(consumed) + [payload] && ok == !consumeThrows
      ensures releasesSeen == old(releasesSeen) + [|pool.released|]
    {
      consumed := consumed + [payload];
      releasesSeen := releasesSeen + [|pool.released|];
      ok := !consumeThrows;
    }

    method CloseWith(data: Token) returns (ok: bool)
      modifies this`closings
      ensures closings == old(closings) + [data] && ok == !closeWithThrows
    {
      closings := closings + [data];
      ok := !closeWithThrows;
    }
  }
}
