/** From frames to the events a client parses: encoder, decoder, renderer and SSE parser
    composed. */
module EndToEnd {
  import opened Lines
  import opened Sse
  import opened EventStream
  import opened EventStreamBody

  /** The event a frame stands for. */
  function EventOf(eventType: string, payload: string): Event {
    Event(TrimCR(eventType), "", Join(TrimAll(Split(payload))), 0)
  }

  /** A rendered event parses back to its type and payload, an empty payload included. */
  lemma FormatParse(emitted: seq<Event>, eventType: string, payload: string, rest: string)
    requires NoNewline(eventType)
    ensures Run(State(EMPTY, [], emitted), FormatEvent(eventType, payload) + rest)
            == Run(State(EMPTY, [], emitted + [EventOf(eventType, payload)]), rest)
  {
    hide Run, Split, Join, DataText;
    var lines := Split(payload);
    var p0 := State(EMPTY, [], emitted);
    var p1 := State(Event(TrimCR(eventType), "", "", 0), [], emitted);
    var tail := DataText(lines) + ("\n" + rest);
    assert FormatEvent(eventType, payload) + rest == "event" + ": " + eventType + "\n" + tail;
    FieldLine(p0, "event", eventType, tail);
    DataLines(p1, lines, "\n" + rest);
    assert p1.dataLines + TrimAll(lines) == TrimAll(lines);
    BlankLine(p1.(dataLines := TrimAll(lines)), rest);
  }

  /** The exact round trip of one rendered event, for every type and payload. */
  lemma FormatRoundTrip(eventType: string, payload: string)
    ensures Parse(FormatEvent(eventType, payload)) == [Event(eventType, "", payload, 0)] <==>
            && NoNewline(eventType) && !EndsWithCR(eventType)
            && forall l :: l in Split(payload) ==> !EndsWithCR(l)
  {
    hide Run, Split, Join, FormatEvent, NoNewline;
    if NoNewline(eventType) {
      FormatOneLine(eventType, payload);
    } else {
      assert Clean(State(EMPTY, [], [])) by {
        CleanStart();
      }
      RunClean(State(EMPTY, [], []), FormatEvent(eventType, payload));
      var e := Event(eventType, "", payload, 0);
      assert e in [e] && !CleanEvent(e);
    }
  }

  lemma CleanStart()
    ensures Clean(State(EMPTY, [], []))
  {
  }

  lemma FormatOneLine(eventType: string, payload: string)
    requires NoNewline(eventType)
    ensures Parse(FormatEvent(eventType, payload)) == [Event(eventType, "", payload, 0)]
            <==> !EndsWithCR(eventType) && forall l :: l in Split(payload) ==> !EndsWithCR(l)
  {
    hide Run, Split, Join, FormatEvent;
    FormatParse([], eventType, payload, "");
    assert FormatEvent(eventType, payload) + "" == FormatEvent(eventType, payload);
    RunAtEnd(State(EMPTY, [], [EventOf(eventType, payload)]));
    assert [] + [EventOf(eventType, payload)] == [EventOf(eventType, payload)];
    var lines := Split(payload);
    if l :| l in lines && EndsWithCR(l) {
      SplitTrimChanges(payload);
    } else {
      forall i | 0 <= i < |lines| ensures TrimAll(lines)[i] == lines[i] {
        assert lines[i] in lines;
      }
      assert TrimAll(lines) == lines;
      JoinSplit(payload);
    }
  }

  /** A frame as its sender sees it. */
  datatype Frame = Frame(headers: seq<Header>, payload: Bytes)

  function HeadersOf(f: Frame): map<string, string> {
    StringHeaders(f.headers, map[])
  }

  /** The JSON text of an error event. */
  function ErrorText(quote: Quote, exception: string, payload: string): string {
    "{\"error\":{\"type\":" + quote(exception) + ",\"message\":" + quote(payload) + "}}"
  }

  /** A header with a text in it. */
  ghost predicate Says(f: Frame, name: string) {
    name in HeadersOf(f) && HeadersOf(f)[name] != ""
  }

  /** What the renderer needs of a frame: a type on one line, and, for an exception, quoted texts
      on one line. */
  ghost predicate Carried(quote: Quote, f: Frame) {
    if Says(f, ":exception-type") then NoNewline(quote(HeadersOf(f)[":exception-type"])) && NoNewline(quote(f.payload))
    else Says(f, ":event-type") ==> NoNewline(HeadersOf(f)[":event-type"])
  }

  /** An exception stands for an error event, a frame without a type for nothing, and any other
      frame for an event of its type. */
  ghost function EventsFor(quote: Quote, f: Frame): seq<Event> {
    if Says(f, ":exception-type") then [Event("error", "", ErrorText(quote, HeadersOf(f)[":exception-type"], f.payload), 0)]
    else if Says(f, ":event-type") then [EventOf(HeadersOf(f)[":event-type"], f.payload)]
    else []
  }

  ghost function Stream(crc: Crc, frames: seq<Frame>): Bytes
    requires forall f :: f in frames ==> Encodable(f.headers, f.payload)
  {
    if frames == [] then []
    else
      assert frames[0] in frames;
      Encode(crc, frames[0].headers, frames[0].payload) + Stream(crc, frames[1..])
  }

  ghost function EventsOf(quote: Quote, frames: seq<Frame>): seq<Event> {
    if frames == [] then [] else EventsFor(quote, frames[0]) + EventsOf(quote, frames[1..])
  }

  function MessagesOf(frames: seq<Frame>): seq<Message> {
    if frames == [] then [] else [Message(HeadersOf(frames[0]), frames[0].payload)] + MessagesOf(frames[1..])
  }

  lemma StreamDecodes(crc: Crc, frames: seq<Frame>)
    requires forall f :: f in frames ==> Encodable(f.headers, f.payload)
    ensures Decode(crc, Stream(crc, frames)) == Decoded(MessagesOf(frames), [])
    ensures ReadFrames(crc, Stream(crc, frames)) == ReadOutcome(MessagesOf(frames), CleanEnd)
  {
    hide ParseFrame, Encode, StringHeaders, EncodeHeaders;
    DecodesAll(crc, frames);
    ReaderExtendsDecoder(crc, Stream(crc, frames));
    assert MessagesOf(frames) + [] == MessagesOf(frames);
  }

  lemma {:induction false} DecodesAll(crc: Crc, frames: seq<Frame>)
    requires forall f :: f in frames ==> Encodable(f.headers, f.payload)
    ensures Decode(crc, Stream(crc, frames)) == Decoded(MessagesOf(frames), [])
  {
    hide ParseFrame, Encode, StringHeaders, EncodeHeaders, Encodable;
    if frames == [] {
      assert ParseFrame(crc, []).Refused? by {
        EmptyRefused(crc);
      }
    } else {
      var f := frames[0];
      assert f in frames;
      FrameRoundTrip(crc, f.headers, f.payload, Stream(crc, frames[1..]));
      var frame := Encode(crc, f.headers, f.payload);
      assert (frame + Stream(crc, frames[1..]))[|frame|..] == Stream(crc, frames[1..]);
      DecodesAll(crc, frames[1..]);
    }
  }

  lemma EmptyRefused(crc: Crc)
    ensures ParseFrame(crc, []) == Refused(TooShort)
  {
  }

  /** One-line texts pass through an event unchanged. */
  lemma OneLineEvent(eventType: string, text: string)
    requires NoNewline(text) && !EndsWithCR(eventType) && !EndsWithCR(text)
    ensures EventOf(eventType, text) == Event(eventType, "", text, 0)
    ensures FormatEvent(eventType, text) == "event: " + eventType + "\ndata: " + text + "\n\n"
  {
    SplitLine(text);
    assert TrimAll([text]) == [text];
    assert DataText([text]) == "data: " + text + "\n" by {
      assert [text][1..] == [];
      assert DataText([]) == "";
    }
  }

  lemma ErrorFormats(quote: Quote, exception: string, payload: string)
    requires NoNewline(quote(exception)) && NoNewline(quote(payload))
    ensures var text := ErrorText(quote, exception, payload);
            && EventOf("error", text) == Event("error", "", text, 0)
            && FormatEvent("error", text) ==
               "event: error\ndata: {\"error\":{\"type\":" + quote(exception) + ",\"message\":" + quote(payload) + "}}\n\n"
  {
    hide FormatEvent, EventOf, ErrorText;
    ErrorOnOneLine(quote, exception, payload);
    OneLineEvent("error", ErrorText(quote, exception, payload));
    ErrorShape(quote, exception, payload);
  }

  lemma ErrorOnOneLine(quote: Quote, exception: string, payload: string)
    requires NoNewline(quote(exception)) && NoNewline(quote(payload))
    ensures NoNewline(ErrorText(quote, exception, payload)) && !EndsWithCR(ErrorText(quote, exception, payload))
  {
  }

  lemma ErrorShape(quote: Quote, exception: string, payload: string)
    ensures "event: " + "error" + "\ndata: " + ErrorText(quote, exception, payload) + "\n\n"
         == "event: error\ndata: {\"error\":{\"type\":" + quote(exception) + ",\"message\":" + quote(payload) + "}}\n\n"
  {
    var a, b := quote(exception), quote(payload);
    assert "event: " + "error" + "\ndata: " + "{\"error\":{\"type\":" == "event: error\ndata: {\"error\":{\"type\":";
    assert "}}" + "\n\n" == "}}\n\n";
    Regroup("event: " + "error" + "\ndata: ", "{\"error\":{\"type\":", a, ",\"message\":", b, "}}", "\n\n");
  }

  lemma Regroup(s: string, t: string, a: string, u: string, b: string, v: string, w: string)
    ensures s + (t + a + u + b + v) + w == (s + t) + a + u + b + (v + w)
  {
  }

  lemma FrameParses(quote: Quote, f: Frame, emitted: seq<Event>, rest: string)
    requires Carried(quote, f)
    ensures Run(State(EMPTY, [], emitted), FormatMessage(quote, Message(HeadersOf(f), f.payload)) + rest)
            == Run(State(EMPTY, [], emitted + EventsFor(quote, f)), rest)
  {
    hide Run, HeadersOf, EventOf, FormatEvent;
    var exception := Lookup(HeadersOf(f), ":exception-type");
    var eventType := Lookup(HeadersOf(f), ":event-type");
    if exception != "" {
      ErrorFormats(quote, exception, f.payload);
      assert NoNewline("error");
      FormatParse(emitted, "error", ErrorText(quote, exception, f.payload), rest);
    } else if eventType == "" {
      assert "" + rest == rest && emitted + [] == emitted;
    } else {
      FormatParse(emitted, eventType, f.payload, rest);
    }
  }

  lemma RenderNone(quote: Quote)
    ensures Render(quote, []) == ""
  {
  }

  lemma RenderOne(quote: Quote, m: Message, ms: seq<Message>)
    ensures Render(quote, [m] + ms) == FormatMessage(quote, m) + Render(quote, ms)
  {
    hide FormatMessage;
    assert ([m] + ms)[1..] == ms;
  }

  lemma {:induction false} RenderedParses(quote: Quote, frames: seq<Frame>, emitted: seq<Event>)
    requires forall f :: f in frames ==> Carried(quote, f)
    ensures Run(State(EMPTY, [], emitted), Render(quote, MessagesOf(frames))).emitted == emitted + EventsOf(quote, frames)
    decreases frames
  {
    hide Run, HeadersOf, EventsFor, FormatMessage, Carried, Render;
    if frames == [] {
      RenderNone(quote);
      RunAtEnd(State(EMPTY, [], emitted));
    } else {
      var f, tail := frames[0], frames[1..];
      assert f in frames;
      FrameParses(quote, f, emitted, Render(quote, MessagesOf(tail)));
      RenderOne(quote, Message(HeadersOf(f), f.payload), MessagesOf(tail));
      RenderedParses(quote, tail, emitted + EventsFor(quote, f));
      assert emitted + EventsFor(quote, f) + EventsOf(quote, tail) == emitted + EventsOf(quote, frames);
    }
  }

  /** Whatever the sender's frames, and however the network cuts the byte stream, a
      client parsing the converted body receives the senders' events in order. */
  lemma EventsArriveInOrder(crc: Crc, quote: Quote, frames: seq<Frame>, parts: seq<Bytes>)
    requires forall f :: f in frames ==> Encodable(f.headers, f.payload) && Carried(quote, f)
    requires Concat(parts) == Stream(crc, frames)
    ensures Parse(Render(quote, Incremental(crc, [], parts))) == EventsOf(quote, frames)
  {
    hide Run, Decode, ReadFrames, Render, EventsOf, Stream, Carried, Encodable, HeadersFrom;
    IncrementalIsGreedy(crc, [], parts);
    assert [] + Concat(parts) == Stream(crc, frames);
    StreamDecodes(crc, frames);
    RenderedParses(quote, frames, []);
    assert [] + EventsOf(quote, frames) == EventsOf(quote, frames);
  }
}
