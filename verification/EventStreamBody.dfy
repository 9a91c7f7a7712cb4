/** The response body that turns an event stream into server-sent events as it is read. */
module EventStreamBody {
  import opened EventStream

  /** What one Read of the backend body returns. */
  datatype Status = Fine | Eof | Failed
  datatype Chunk = Chunk(data: Bytes, status: Status)

  datatype ReadError = NoError | EndOfFile | StreamClosed | BodyError | Crashed

  /** The bytes a list of reads delivers, up to the first end-of-file. */
  function Tail(chunks: seq<Chunk>): Bytes {
    if chunks == [] then []
    else if chunks[0].status.Eof? then chunks[0].data
    else chunks[0].data + Tail(chunks[1..])
  }

  /** No read fails, and each brings data or the end. */
  ghost predicate AllData(chunks: seq<Chunk>) {
    chunks != [] && !chunks[0].status.Eof? ==>
      chunks[0].status.Fine? && chunks[0].data != [] && AllData(chunks[1..])
  }

  /** The backend body: the answers its next reads will give, then end-of-file. */
  class ChunkReader {
    var remaining: seq<Chunk>

    constructor (chunks: seq<Chunk>)
      ensures remaining == chunks
    {
      remaining := chunks;
    }

    method Read() returns (c: Chunk)
      modifies this
      ensures old(remaining) == [] ==> c == Chunk([], Eof) && remaining == []
      ensures old(remaining) != [] ==> c == old(remaining)[0] && remaining == old(remaining)[1..]
    {
      if remaining == [] {
        return Chunk([], Eof);
      }
      c := remaining[0];
      remaining := remaining[1..];
    }
  }

  class EventStreamToSseBody {
    const crc: Crc
    const quote: Quote
    const original: ChunkReader
    var sseBuffer: string
    var esBuffer: Bytes
    var done: bool

    /** Between calls no complete valid frame waits in the raw buffer. */
    ghost predicate Valid()
      reads this
    {
      ParseFrame(crc, esBuffer).Refused?
    }

    /** The event-stream bytes not yet decoded: buffered, and still to come. */
    ghost function Unparsed(): Bytes
      reads this, original
    {
      esBuffer + if done then [] else Tail(original.remaining)
    }

    /** Everything later reads will still deliver. */
    ghost function Pending(): string
      reads this, original
    {
      sseBuffer + Render(quote, Decode(crc, Unparsed()).messages)
    }

    /** What greedy decoding will not get past. */
    ghost function Leftover(): Bytes
      reads this, original
    {
      Decode(crc, Unparsed()).rest
    }

    /** A frame whose header length overruns it stands behind the frames that parse; on it the
        parser may panic. */
    ghost predicate Overrun()
      reads this, original
    {
      ParseFrame(crc, Leftover()) == Refused(HeaderOverrun)
    }

    constructor (crc: Crc, quote: Quote, original: ChunkReader)
      ensures Valid()
      ensures Flowing() <==> AllData(original.remaining)
      ensures Leftover() == Decode(crc, Tail(original.remaining)).rest
      ensures this.crc == crc && this.quote == quote && this.original == original
      ensures Pending() == Render(quote, Decode(crc, Tail(original.remaining)).messages)
    {
      this.crc, this.quote, this.original := crc, quote, original;
      sseBuffer, esBuffer, done := "", [], false;
      new;
      assert [] + Tail(original.remaining) == Tail(original.remaining);
      assert "" + Render(quote, Decode(crc, Unparsed()).messages) == Render(quote, Decode(crc, Unparsed()).messages);
    }

    /** Nothing but data is left to come: the stream is read to its end, or every further read
        brings data or the end. */
    ghost predicate Flowing()
      reads this, original
    {
      done || AllData(original.remaining)
    }

    /** Read: at most `p` bytes. Whatever the backend's chunks and the caller's buffers,
        what is returned is the next piece of the one pending text; an error loses nothing and
        comes only from the backend, and a panic only from an overrunning frame; end-of-file
        comes only when nothing is left. */
    method Read(p: nat) returns (out: string, err: ReadError)
      requires Valid()
      modifies this, original
      ensures Valid()
      ensures err.NoError? ==> |out| <= p && (p > 0 ==> |out| > 0) && out + Pending() == old(Pending())
      ensures !err.NoError? ==> out == ""
      ensures err.Crashed? ==> old(Overrun())
      ensures !err.NoError? && !err.Crashed? ==> Pending() == old(Pending())
      ensures !err.Crashed? ==> Leftover() == old(Leftover())
      ensures err.EndOfFile? ==> Pending() == ""
      ensures old(Flowing()) && !err.Crashed? ==> Flowing() && (err.NoError? || err.EndOfFile?)
      ensures |original.remaining| <= old(|original.remaining|)
    {
      hide Pending, Leftover, Flowing, Valid, ParseFrame;
      while true
        invariant Valid()
        invariant Pending() == old(Pending()) && Leftover() == old(Leftover())
        invariant old(Flowing()) ==> Flowing()
        invariant |original.remaining| <= old(|original.remaining|)
        decreases |original.remaining|, if done then 0 else 1
      {
        if |sseBuffer| > 0 {
          out := Deliver(p);
          return out, NoError;
        }
        if done {
          NothingLeft();
          return "", EndOfFile;
        }
        var readErr := ReadAndBuffer();
        if readErr.Crashed? {
          return "", ReadError.Crashed;
        }
        if readErr.EndOfFile? {
          if |sseBuffer| == 0 {
            NothingLeft();
            return "", EndOfFile;
          }
        } else if !readErr.NoError? {
          return "", readErr;
        }
      }
    }

    /** Hands over the front of the output buffer. */
    method Deliver(p: nat) returns (out: string)
      requires Valid() && |sseBuffer| > 0
      modifies this`sseBuffer
      ensures Valid() && (Flowing() <==> old(Flowing()))
      ensures |out| <= p && (p > 0 ==> |out| > 0)
      ensures out + Pending() == old(Pending()) && Leftover() == old(Leftover())
    {
      hide ParseFrame, Decode, Render, Tail;
      var n := if p < |sseBuffer| then p else |sseBuffer|;
      out := sseBuffer[..n];
      ghost var tail := Render(quote, Decode(crc, Unparsed()).messages);
      assert out + (sseBuffer[n..] + tail) == sseBuffer + tail;
      sseBuffer := sseBuffer[n..];
      assert Pending() == sseBuffer + tail;
    }

    lemma NothingLeft()
      requires Valid() && done && sseBuffer == ""
      ensures Pending() == ""
    {
      assert Unparsed() == esBuffer;
    }

    method ReadAndBuffer() returns (err: ReadError)
      requires Valid() && !done
      modifies this, original
      ensures Valid()
      ensures err.Crashed? ==> old(Overrun())
      ensures !err.Crashed? ==> Pending() == old(Pending()) && Leftover() == old(Leftover())
      ensures old(original.remaining) != [] ==> original.remaining == old(original.remaining)[1..]
      ensures old(original.remaining) == [] ==> original.remaining == []
      ensures done <==> err.EndOfFile?
      ensures old(original.remaining) == [] && !err.Crashed? ==> done
      ensures !err.Crashed? && old(original.remaining) != [] ==>
                var c := old(original.remaining)[0];
                && (err.EndOfFile? <==> c.status.Eof?) && (err.BodyError? <==> c.status.Failed?)
                && (err.NoError? <==> c.status.Fine? && c.data != []) && (err.StreamClosed? <==> c.status.Fine? && c.data == [])
      ensures old(Flowing()) && !err.Crashed? ==> Flowing() && (err.NoError? || err.EndOfFile?)
    {
      hide ParseFrame, Decode, Render, Tail, AllData;
      ghost var later;
      var c;
      c, later := Append();
      if |c.data| == 0 && c.status.Fine? {
        return StreamClosed;
      }
      var ok := ParseAhead(later);
      if !ok {
        return ReadError.Crashed;
      }
      if c.status.Eof? {
        done := true;
        return EndOfFile;
      }
      return if c.status.Failed? then BodyError else NoError;
    }

    /** One read of the backend, appended to the raw buffer. */
    method Append() returns (c: Chunk, ghost later: Bytes)
      requires !done
      modifies this`esBuffer, original
      ensures c == if old(original.remaining) == [] then Chunk([], Eof) else old(original.remaining)[0]
      ensures original.remaining == if old(original.remaining) == [] then [] else old(original.remaining)[1..]
      ensures esBuffer == old(esBuffer) + c.data && (c.data == [] ==> esBuffer == old(esBuffer))
      ensures later == if c.status.Eof? then [] else Tail(original.remaining)
      ensures old(Unparsed()) == esBuffer + later
      ensures old(Flowing()) ==> c.status.Eof? || (c.status.Fine? && c.data != [] && Flowing())
    {
      hide ParseFrame, Decode, Render, Tail;
      TailHead(original.remaining);
      c := original.Read();
      later := if c.status.Eof? then [] else Tail(original.remaining);
      Associates(esBuffer, c.data, later);
      assert esBuffer + [] == esBuffer;
      if |c.data| > 0 {
        esBuffer := esBuffer + c.data;
      }
    }

    /** Parses what is buffered, which is as good as parsing it together with what comes later. */
    method ParseAhead(ghost later: Bytes) returns (ok: bool)
      modifies this`esBuffer, this`sseBuffer
      ensures Valid()
      ensures !ok ==> ParseFrame(crc, Decode(crc, old(esBuffer) + later).rest) == Refused(HeaderOverrun)
      ensures ok ==> sseBuffer + Render(quote, Decode(crc, esBuffer + later).messages)
                     == old(sseBuffer) + Render(quote, Decode(crc, old(esBuffer) + later).messages)
      ensures ok ==> Decode(crc, esBuffer + later).rest == Decode(crc, old(esBuffer) + later).rest
    {
      hide ParseFrame, Decode, Render;
      DecodeEarly(crc, quote, esBuffer, later);
      OverrunStays(crc, esBuffer, later);
      ok := ParseEventStreamBuffer();
    }

    /** Moves every complete frame from the raw buffer to the output. Whatever capacity the
        buffer grew to, it panics only on a frame whose header length overruns it. */
    method ParseEventStreamBuffer() returns (ok: bool)
      modifies this`esBuffer, this`sseBuffer
      ensures Valid()
      ensures !ok ==> ParseFrame(crc, esBuffer) == Refused(HeaderOverrun)
      ensures esBuffer == Decode(crc, old(esBuffer)).rest
      ensures sseBuffer == old(sseBuffer) + Render(quote, Decode(crc, old(esBuffer)).messages)
    {
      hide ParseFrame, ParseMessage, FormatMessage;
      while true
        invariant sseBuffer + Render(quote, Decode(crc, esBuffer).messages)
                  == old(sseBuffer) + Render(quote, Decode(crc, old(esBuffer)).messages)
        invariant Decode(crc, esBuffer).rest == Decode(crc, old(esBuffer)).rest
        decreases |esBuffer|
      {
        var spare: Bytes := *;
        ParseMessageIs(crc, esBuffer, spare);
        var call := ParseMessage(crc, esBuffer, spare);
        if call.Panicked? {
          return false;
        }
        var r := call.result;
        if r.Refused? {
          return true;
        }
        DecodeStep(crc, quote, esBuffer);
        esBuffer := esBuffer[r.consumed..];
        sseBuffer := sseBuffer + FormatMessage(quote, r.message);
      }
    }
  }

  lemma TailHead(chunks: seq<Chunk>)
    ensures chunks == [] ==> Tail(chunks) == [] + []
    ensures chunks != [] ==> Tail(chunks) == chunks[0].data + if chunks[0].status.Eof? then [] else Tail(chunks[1..])
  {
  }

  lemma Associates(a: Bytes, b: Bytes, c: Bytes)
    ensures a + (b + c) == a + b + c
  {
  }

  lemma DecodeStep(crc: Crc, quote: Quote, data: Bytes)
    requires ParseFrame(crc, data).Parsed?
    ensures var r := ParseFrame(crc, data);
            var tail := Decode(crc, data[r.consumed..]);
            && Decode(crc, data).rest == tail.rest
            && Render(quote, Decode(crc, data).messages) == FormatMessage(quote, r.message) + Render(quote, tail.messages)
  {
    hide ParseFrame, FormatMessage;
    var r := ParseFrame(crc, data);
    var tail := Decode(crc, data[r.consumed..]).messages;
    assert ([r.message] + tail)[1..] == tail;
  }

  /** What is delivered does not depend on when complete frames leave the raw buffer. */
  lemma DecodeEarly(crc: Crc, quote: Quote, data: Bytes, later: Bytes)
    ensures Render(quote, Decode(crc, data + later).messages)
            == Render(quote, Decode(crc, data).messages) + Render(quote, Decode(crc, Decode(crc, data).rest + later).messages)
    ensures Decode(crc, data + later).rest == Decode(crc, Decode(crc, data).rest + later).rest
  {
    hide Decode, Render;
    DecodeAppend(crc, data, later);
    RenderAppend(quote, Decode(crc, data).messages, Decode(crc, Decode(crc, data).rest + later).messages);
  }

  /** A frame that overruns stands in the way of whatever follows it. */
  lemma OverrunStays(crc: Crc, data: Bytes, later: Bytes)
    ensures ParseFrame(crc, Decode(crc, data).rest) == Refused(HeaderOverrun) ==>
              ParseFrame(crc, Decode(crc, data + later).rest) == Refused(HeaderOverrun)
  {
    hide ParseFrame, Decode;
    DecodeAppend(crc, data, later);
    var rest := Decode(crc, data).rest;
    if ParseFrame(crc, rest) == Refused(HeaderOverrun) {
      FrameStable(crc, rest, later);
      DecodeOne(crc, rest + later);
    }
  }

  /** The caller's copy loop, with a buffer size of its choice for every read. If every read of
      the backend brings data or the end, and no frame overruns, it receives exactly the rendering of the whole stream
      decoded at once, however the backend cut the stream into chunks. */
  method Drain(body: EventStreamToSseBody, sizes: nat -> nat) returns (out: string, err: ReadError)
    requires body.Valid()
    requires forall i: nat :: sizes(i) > 0
    modifies body, body.original
    ensures old(body.Flowing()) && !old(body.Overrun()) ==> err.EndOfFile? && out == old(body.Pending())
    ensures err.EndOfFile? ==> out == old(body.Pending())
    ensures err.Crashed? ==> old(body.Overrun()) && out <= old(body.Pending())
    ensures !err.NoError? && (!err.Crashed? ==> out + body.Pending() == old(body.Pending()))
  {
    hide EventStreamToSseBody.Pending, EventStreamToSseBody.Leftover, EventStreamToSseBody.Flowing, EventStreamToSseBody.Valid, ParseFrame;
    out := "";
    assert out + body.Pending() == body.Pending();
    var i := 0;
    while true
      invariant body.Valid()
      invariant old(body.Flowing()) ==> body.Flowing()
      invariant out + body.Pending() == old(body.Pending())
      invariant body.Overrun() == old(body.Overrun())
      decreases |body.Pending()|
    {
      var piece;
      piece, err := body.Read(sizes(i));
      if !err.NoError? {
        assert out + "" == out;
        return;
      }
      assert out + (piece + body.Pending()) == (out + piece) + body.Pending();
      out := out + piece;
      i := i + 1;
    }
  }

  // ----- The same statement on values ------------------------------------------------------

  function Concat(parts: seq<Bytes>): Bytes {
    if parts == [] then [] else parts[0] + Concat(parts[1..])
  }

  /** Decode after every part, carrying the remainder along. */
  function Incremental(crc: Crc, buffer: Bytes, parts: seq<Bytes>): seq<Message>
    decreases parts
  {
    if parts == [] then []
    else
      var d := Decode(crc, buffer + parts[0]);
      d.messages + Incremental(crc, d.rest, parts[1..])
  }

  lemma {:induction false} IncrementalIsGreedy(crc: Crc, buffer: Bytes, parts: seq<Bytes>)
    requires ParseFrame(crc, buffer).Refused?
    ensures Incremental(crc, buffer, parts) == Decode(crc, buffer + Concat(parts)).messages
    decreases parts
  {
    hide ParseFrame;
    if parts == [] {
      assert buffer + Concat(parts) == buffer;
    } else {
      var d := Decode(crc, buffer + parts[0]);
      assert buffer + Concat(parts) == (buffer + parts[0]) + Concat(parts[1..]);
      DecodeAppend(crc, buffer + parts[0], Concat(parts[1..]));
      IncrementalIsGreedy(crc, d.rest, parts[1..]);
    }
  }

  /** Two ways of cutting the same stream give the same messages. */
  lemma ChunkingDoesNotMatter(crc: Crc, a: seq<Bytes>, b: seq<Bytes>)
    requires Concat(a) == Concat(b)
    ensures Incremental(crc, [], a) == Incremental(crc, [], b)
  {
    hide Decode, HeadersFrom;
    IncrementalIsGreedy(crc, [], a);
    IncrementalIsGreedy(crc, [], b);
  }
}
