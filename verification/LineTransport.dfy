/**
 UnixSocketLineTransport: lines over a socket that delivers its bytes in chunks of any size and
 accepts them in parts of any size.
 */
module LineTransport {
  import opened Common

  type Byte = x: int | 0 <= x < 256

  const LINE_FEED: Byte := 10
  const READ_CHUNK_BYTES := 0x1000

  datatype TransportError = Disconnected | ReadTimedOut | ReadFailed | WriteTimedOut | WriteFailed | FrameTooLarge

  /** The first line feed of `s`, or its length. */
  function LineEnd(s: seq<Byte>): (k: nat)
    ensures k <= |s| && LINE_FEED !in s[..k] && (k < |s| ==> s[k] == LINE_FEED)
  {
    if s == [] || s[0] == LINE_FEED then 0
    else
      assert s == [s[0]] + s[1..];
      1 + LineEnd(s[1..])
  }

  /**
   What reading a line gives when `s` is all that comes, in whatever chunks, before reads end in
   `ending`. Only the bytes of the line itself count against the limit.
   */
  function NextLine(s: seq<Byte>, limit: nat, ending: TransportError): Result<seq<Byte>, TransportError> {
    if LineEnd(s) > limit then Err(FrameTooLarge)
    else if LineEnd(s) < |s| then Ok(s[..LineEnd(s)])
    else Err(ending)
  }

  /** The other side of the socket: the bytes still to come, how they end, and the bytes received. */
  class Socket {
    var incoming: seq<Byte>
    const ending: TransportError
    var outgoing: seq<Byte>

    constructor (incoming: seq<Byte>, ending: TransportError)
      requires ending in {Disconnected, ReadTimedOut, ReadFailed}
      ensures this.incoming == incoming && this.ending == ending && outgoing == []
    {
      this.incoming, this.ending, outgoing := incoming, ending, [];
    }

    /** Delivers some of the bytes to come, at least one, at most `capacity`. */
    method Read(capacity: nat) returns (chunk: seq<Byte>)
      requires capacity > 0
      modifies this`incoming
      ensures old(incoming) == chunk + incoming && |chunk| <= capacity
      ensures chunk == [] <==> old(incoming) == []
    {
      if incoming == [] { return []; }
      var count: nat :| 1 <= count <= |incoming| && count <= capacity;
      chunk := incoming[..count];
      incoming := incoming[count..];
    }

    /** Accepts some of the bytes, at least one, or fails. */
    method Write(bytes: seq<Byte>) returns (r: Result<nat, TransportError>)
      requires bytes != []
      modifies this`outgoing
      ensures r.Ok? ==> 1 <= r.value <= |bytes| && outgoing == old(outgoing) + bytes[..r.value]
      ensures r.Err? ==> outgoing == old(outgoing) && r.error in {WriteTimedOut, WriteFailed}
    {
      var fails: bool, timedOut: bool := *, *;
      if fails { return Err(if timedOut then WriteTimedOut else WriteFailed); }
      var count: nat :| 1 <= count <= |bytes|;
      outgoing := outgoing + bytes[..count];
      return Ok(count);
    }
  }

  class Transport {
    const maxFrameBytes: nat
    const socket: Socket
    var bufferedReadData: seq<Byte>

    constructor (socket: Socket, maxFrameBytes: nat)
      requires maxFrameBytes > 0
      ensures this.socket == socket && this.maxFrameBytes == maxFrameBytes && bufferedReadData == []
    {
      this.socket, this.maxFrameBytes, bufferedReadData := socket, maxFrameBytes, [];
    }

    /** All bytes not yet returned: those in the buffer and those still to come. */
    ghost function Unread(): seq<Byte>
      reads this, socket
    {
      bufferedReadData + socket.incoming
    }

    /** The first line of the buffer, if it holds one. */
    method ConsumeBufferedLine() returns (r: Result<Option<seq<Byte>>, TransportError>)
      modifies this`bufferedReadData
      ensures var before := old(bufferedReadData);
        && (LineEnd(before) == |before| ==> r == Ok(None) && bufferedReadData == before)
        && (LineEnd(before) < |before| && LineEnd(before) > maxFrameBytes ==>
          r == Err(FrameTooLarge) && bufferedReadData == before)
        && (LineEnd(before) < |before| && LineEnd(before) <= maxFrameBytes ==>
          r == Ok(Some(before[..LineEnd(before)])) && bufferedReadData == before[LineEnd(before) + 1..])
    {
      var lineFeedIndex := LineEnd(bufferedReadData);
      if lineFeedIndex == |bufferedReadData| { return Ok(None); }
      var line := bufferedReadData[..lineFeedIndex];
      if |line| > maxFrameBytes { return Err(FrameTooLarge); }
      bufferedReadData := bufferedReadData[lineFeedIndex + 1..];
      return Ok(Some(line));
    }

    /**
     The result depends on the bytes alone, not on how they were cut into chunks, and no byte is
     lost: a line takes itself and its line feed from what is unread, an error takes nothing.
     */
    method ReadLine() returns (r: Result<seq<Byte>, TransportError>)
      modifies this`bufferedReadData, socket`incoming
      ensures r == NextLine(old(Unread()), maxFrameBytes, socket.ending)
      ensures r.Ok? ==> LINE_FEED !in r.value && r.value + [LINE_FEED] + Unread() == old(Unread())
      ensures r.Err? ==> Unread() == old(Unread())
    {
      hide NextLine, LineEnd;
      while true
        invariant Unread() == old(Unread())
        decreases |socket.incoming|
      {
        if LineEnd(bufferedReadData) < |bufferedReadData| {
          LineFound(bufferedReadData, socket.incoming, maxFrameBytes, socket.ending);
        }
        LineMissing(bufferedReadData, socket.incoming, maxFrameBytes, socket.ending);
        var consumed := ConsumeBufferedLine();
        if consumed.Err? { return Err(consumed.error); }
        if consumed.value.Some? { return Ok(consumed.value.value); }
        if |bufferedReadData| > maxFrameBytes { return Err(FrameTooLarge); }
        ghost var unread := Unread();
        var chunk := socket.Read(READ_CHUNK_BYTES);
        if chunk == [] { return Err(socket.ending); }
        bufferedReadData := bufferedReadData + chunk;
        assert Unread() == unread;
      }
    }

    /** Sends the line and its line feed, in however many parts, or a beginning of that and an error. */
    method WriteLine(data: seq<Byte>) returns (err: Option<TransportError>)
      modifies socket`outgoing
      ensures |data| > maxFrameBytes <==> err == Some(FrameTooLarge)
      ensures err.None? ==> socket.outgoing == old(socket.outgoing) + data + [LINE_FEED]
      ensures err == Some(FrameTooLarge) ==> socket.outgoing == old(socket.outgoing)
      ensures err.Some? ==> exists n: nat :: n <= |data| && socket.outgoing == old(socket.outgoing) + data[..n]
    {
      if |data| > maxFrameBytes {
        assert old(socket.outgoing) + data[..0] == socket.outgoing;
        return Some(FrameTooLarge);
      }
      var bytes := data + [LINE_FEED];
      var written: nat := 0;
      while written < |bytes|
        invariant written <= |bytes| && socket.outgoing == old(socket.outgoing) + bytes[..written]
      {
        var count := socket.Write(bytes[written..]);
        if count.Err? {
          assert bytes[..written] == data[..written];
          return Some(count.error);
        }
        assert bytes[..written] + bytes[written..][..count.value] == bytes[..written + count.value];
        written := written + count.value;
      }
      assert bytes[..written] == data + [LINE_FEED];
      assert old(socket.outgoing) + data + [LINE_FEED] == old(socket.outgoing) + (data + [LINE_FEED]);
      return None;
    }
  }

  /** The end of a line in the buffer is its end in the whole stream; without one, the line goes on. */
  lemma {:induction false} LineEndWithin(buffered: seq<Byte>, more: seq<Byte>)
    ensures LineEnd(buffered) < |buffered| ==> LineEnd(buffered + more) == LineEnd(buffered)
    ensures LineEnd(buffered) == |buffered| ==> LineEnd(buffered + more) == |buffered| + LineEnd(more)
    ensures LineEnd(buffered) < |buffered| ==> (buffered + more)[..LineEnd(buffered)] == buffered[..LineEnd(buffered)]
  {
    if buffered == [] {
      assert buffered + more == more;
    } else {
      assert (buffered + more)[1..] == buffered[1..] + more;
      LineEndWithin(buffered[1..], more);
    }
  }

  lemma LineFound(buffered: seq<Byte>, incoming: seq<Byte>, limit: nat, ending: TransportError)
    requires LineEnd(buffered) < |buffered|
    ensures var k := LineEnd(buffered);
      && NextLine(buffered + incoming, limit, ending) == (if k > limit then Err(FrameTooLarge) else Ok(buffered[..k]))
      && buffered[..k] + [LINE_FEED] + (buffered[k + 1..] + incoming) == buffered + incoming
      && LINE_FEED !in buffered[..k]
  {
    hide LineEnd, NextLine;
    LineEndWithin(buffered, incoming);
    FinishedLine(buffered + incoming, limit, ending);
    Reassembled(buffered, incoming, LineEnd(buffered));
  }

  lemma FinishedLine(s: seq<Byte>, limit: nat, ending: TransportError)
    requires LineEnd(s) < |s|
    ensures NextLine(s, limit, ending) == if LineEnd(s) > limit then Err(FrameTooLarge) else Ok(s[..LineEnd(s)])
  {
  }

  lemma Reassembled(buffered: seq<Byte>, incoming: seq<Byte>, k: nat)
    requires k < |buffered| && buffered[k] == LINE_FEED
    ensures buffered[..k] + [LINE_FEED] + (buffered[k + 1..] + incoming) == buffered + incoming
  {
  }

  lemma LineMissing(buffered: seq<Byte>, incoming: seq<Byte>, limit: nat, ending: TransportError)
    requires LineEnd(buffered) <= |buffered|
    ensures LineEnd(buffered) == |buffered| > limit ==>
      NextLine(buffered + incoming, limit, ending) == Err(FrameTooLarge)
    ensures LineEnd(buffered) == |buffered| <= limit && incoming == [] ==>
      NextLine(buffered + incoming, limit, ending) == Err(ending)
  {
  }

  /** A frame is refused exactly when the next line is longer than the limit, finished or not. */
  lemma TooLargeExactly(s: seq<Byte>, limit: nat, ending: TransportError)
    requires ending in {Disconnected, ReadTimedOut, ReadFailed}
    ensures NextLine(s, limit, ending) == Err(FrameTooLarge) <==> |s| > limit && LINE_FEED !in s[..limit + 1]
  {
  }

  // ---- whole conversations ----

  function Wire(messages: seq<seq<Byte>>): seq<Byte> {
    if messages == [] then [] else messages[0] + [LINE_FEED] + Wire(messages[1..])
  }

  /** The lines that repeated reads return until the first error. */
  function Lines(s: seq<Byte>, limit: nat): seq<seq<Byte>>
    decreases |s|
  {
    var k := LineEnd(s);
    if k > limit || k == |s| then [] else [s[..k]] + Lines(s[k + 1..], limit)
  }

  lemma {:induction false} LineEndAt(data: seq<Byte>, rest: seq<Byte>)
    requires LINE_FEED !in data
    ensures LineEnd(data + [LINE_FEED] + rest) == |data|
  {
    if data != [] {
      assert data[0] in data;
      LineEndAt(data[1..], rest);
      assert (data + [LINE_FEED] + rest)[1..] == data[1..] + [LINE_FEED] + rest;
    }
  }

  /** Reading undoes writing, one line at a time, and leaves the rest as it is. */
  lemma ReadUndoesWrite(data: seq<Byte>, rest: seq<Byte>, limit: nat, ending: TransportError)
    requires LINE_FEED !in data && |data| <= limit
    ensures NextLine(data + [LINE_FEED] + rest, limit, ending) == Ok(data)
  {
    LineEndAt(data, rest);
    assert (data + [LINE_FEED] + rest)[..|data|] == data;
  }

  /** Everything written is read back, message by message, and nothing else. */
  lemma {:induction false} ConversationReadsBack(messages: seq<seq<Byte>>, limit: nat)
    requires forall m :: m in messages ==> LINE_FEED !in m && |m| <= limit
    ensures Lines(Wire(messages), limit) == messages
  {
    if messages != [] {
      var data, rest := messages[0], Wire(messages[1..]);
      var s := data + [LINE_FEED] + rest;
      LineEndAt(data, rest);
      assert s[..|data|] == data && s[|data| + 1..] == rest;
      ConversationReadsBack(messages[1..], limit);
    }
  }

  /** The lines and what follows them are the bytes received. */
  lemma {:induction false} NothingLost(s: seq<Byte>, limit: nat)
    ensures Wire(Lines(s, limit)) <= s
    ensures forall ending :: NextLine(s[|Wire(Lines(s, limit))|..], limit, ending).Err?
    decreases |s|
  {
    var k := LineEnd(s);
    if k <= limit && k < |s| {
      NothingLost(s[k + 1..], limit);
      var later := Wire(Lines(s[k + 1..], limit));
      assert Lines(s, limit)[0] == s[..k] && Lines(s, limit)[1..] == Lines(s[k + 1..], limit);
      assert s == s[..k] + [LINE_FEED] + s[k + 1..];
      assert s[|Wire(Lines(s, limit))|..] == s[k + 1..][|later|..];
    } else {
      assert s[0..] == s;
    }
  }
}
