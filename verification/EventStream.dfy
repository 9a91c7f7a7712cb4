/** AWS event-stream frames: parser, an encoder written from the documented layout,
    and the two decoding loops built on the parser. */
module EventStream {
  import opened Options
  import opened Lines
  import opened Sse

  type Octet = c: char | c as int < 256
  type Bytes = seq<Octet>

  const TWO_32 := 0x1_0000_0000
  type U32 = x: int | 0 <= x < TWO_32

  /** The checksum (CRC32-C in the source); its polynomial plays no part here. */
  type Crc = Bytes -> U32

  const PRELUDE_LEN := 12
  const TRAILER_LEN := 4
  const MIN_MSG_LEN := 16

  datatype Message = Message(headers: map<string, string>, payload: Bytes)

  // ----- Big-endian integers ----------------------------------------------------------

  function Be16(n: int): (b: Bytes)
    requires 0 <= n < 0x1_0000
    ensures |b| == 2
  {
    [(n / 256) as char, (n % 256) as char]
  }

  function GetBe16(b: Bytes): (n: int)
    requires |b| == 2
    ensures 0 <= n < 0x1_0000
  {
    b[0] as int * 256 + b[1] as int
  }

  function Be32(n: U32): (b: Bytes)
    ensures |b| == 4
  {
    Be16(n / 0x1_0000) + Be16(n % 0x1_0000)
  }

  function GetBe32(b: Bytes): U32
    requires |b| == 4
  {
    GetBe16(b[..2]) * 0x1_0000 + GetBe16(b[2..])
  }

  lemma Be16RoundTrip(n: int)
    requires 0 <= n < 0x1_0000
    ensures GetBe16(Be16(n)) == n
  {
  }

  lemma Be32RoundTrip(n: U32)
    ensures GetBe32(Be32(n)) == n
  {
    hide Be16, GetBe16;
    Be16RoundTrip(n / 0x1_0000);
    Be16RoundTrip(n % 0x1_0000);
    assert Be32(n)[..2] == Be16(n / 0x1_0000);
    assert Be32(n)[2..] == Be16(n % 0x1_0000);
  }

  /** The most significant byte comes first. */
  lemma Be32Is(b: Bytes)
    requires |b| == 4
    ensures GetBe32(b) == b[0] as int * 0x100_0000 + b[1] as int * 0x1_0000 + b[2] as int * 0x100 + b[3] as int
  {
    assert b[..2] == [b[0], b[1]] && b[2..] == [b[2], b[3]];
  }

  // ----- Header parsing -----------------------------------------------------------------

  /** Sizes of the header types whose value has a fixed length; the flags have none. */
  function FixedSize(kind: int): Option<nat> {
    match kind
    case 0 => Some(0)
    case 1 => Some(0)
    case 2 => Some(1)
    case 3 => Some(2)
    case 4 => Some(4)
    case 5 => Some(8)
    case 8 => Some(8)
    case 9 => Some(16)
    case _ => None
  }

  /** One parsed header: its name, its value when it is a string, and the next offset. */
  datatype Entry = Entry(name: Bytes, value: Option<Bytes>, next: nat)

  function ValueAt(data: Bytes, name: Bytes, kind: int, offset: nat): (r: Option<Entry>)
    requires offset <= |data|
    ensures r.Some? ==> offset <= r.value.next <= |data|
  {
    if kind == 6 || kind == 7 then
      if offset + 2 > |data| then None
      else
        var end := offset + 2 + GetBe16(data[offset..offset + 2]);
        if end > |data| then None
        else Some(Entry(name, if kind == 7 then Some(data[offset + 2..end]) else None, end))
    else
      match FixedSize(kind)
      case None => None
      case Some(size) => if offset + size > |data| then None else Some(Entry(name, None, offset + size))
  }

  function HeaderAt(data: Bytes, offset: nat): (r: Option<Entry>)
    requires offset < |data|
    ensures r.Some? ==> offset < r.value.next <= |data|
  {
    var end := offset + 1 + data[offset] as int;
    if end >= |data| then None
    else ValueAt(data, data[offset + 1..end], data[end] as int, end + 1)
  }

  /** What stands at a header of each type: a flag ends behind its type, a number after 1, 2, 4 or 8
      bytes more, a timestamp after 8 and a UUID after 16; bytes and strings carry their length in two
      bytes, high byte first, and only a string has a value. No other type is known. */
  lemma HeaderIs(data: Bytes, offset: nat)
    requires offset < |data| && offset + 1 + data[offset] as int < |data|
    ensures var end := offset + 1 + data[offset] as int;
            var name, kind, start := data[offset + 1..end], data[end] as int, end + 1;
            var size := if kind <= 1 then 0 else if kind == 2 then 1 else if kind == 3 then 2 else if kind == 4 then 4
                        else if kind == 9 then 16 else 8;
            if kind <= 5 || kind == 8 || kind == 9 then
              HeaderAt(data, offset) == if start + size <= |data| then Some(Entry(name, None, start + size)) else None
            else if (kind == 6 || kind == 7) && start + 2 <= |data| then
              var stop := start + 2 + (data[start] as int * 256 + data[start + 1] as int);
              HeaderAt(data, offset)
              == if stop <= |data| then Some(Entry(name, if kind == 7 then Some(data[start + 2..stop]) else None, stop)) else None
            else HeaderAt(data, offset) == None
  {
  }

  function Store(headers: map<string, string>, name: Bytes, value: Option<Bytes>): map<string, string> {
    match value
    case None => headers
    case Some(v) => headers[name := v]
  }

  function HeadersFrom(data: Bytes, offset: nat, headers: map<string, string>): Option<map<string, string>>
    requires offset <= |data|
    decreases |data| - offset
  {
    if offset == |data| then Some(headers)
    else
      match HeaderAt(data, offset)
      case None => None
      case Some(e) => HeadersFrom(data, e.next, Store(headers, e.name, e.value))
  }

  method ParseEventStreamHeaders(data: Bytes) returns (r: Option<map<string, string>>)
    ensures r == HeadersFrom(data, 0, map[])
  {
    var headers: map<string, string> := map[];
    var offset := 0;
    while offset < |data|
      invariant offset <= |data|
      invariant HeadersFrom(data, offset, headers) == HeadersFrom(data, 0, map[])
    {
      var e := HeaderAt(data, offset);
      if e.None? {
        return None;
      }
      if e.value.value.Some? {
        headers := headers[e.value.name := e.value.value.value];
      }
      offset := e.value.next;
    }
    return Some(headers);
  }

  // ----- Frame parsing --------------------------------------------------------------------

  datatype Refusal = TooShort | InvalidLength | Incomplete | PreludeCrc | MessageCrc | HeaderOverrun | BadHeaders

  datatype ParseResult = Parsed(message: Message, consumed: nat) | Refused(why: Refusal)

  /** The first frame of `data`. HeaderOverrun marks a frame whose header length exceeds its body;
      what the code does with one, which has no check for it, is said by ParseMessage. */
  function ParseFrame(crc: Crc, data: Bytes): (r: ParseResult)
    ensures r.Parsed? ==> MIN_MSG_LEN <= r.consumed <= |data|
  {
    if |data| < MIN_MSG_LEN then Refused(TooShort)
    else
      var totalLen := GetBe32(data[0..4]);
      var headersLen := GetBe32(data[4..8]);
      if totalLen < MIN_MSG_LEN then Refused(InvalidLength)
      else if totalLen > |data| then Refused(Incomplete)
      else if crc(data[0..8]) != GetBe32(data[8..12]) then Refused(PreludeCrc)
      else if crc(data[0..totalLen - 4]) != GetBe32(data[totalLen - 4..totalLen]) then Refused(MessageCrc)
      else if headersLen > totalLen - MIN_MSG_LEN then Refused(HeaderOverrun)
      else
        match HeadersFrom(data[12..12 + headersLen], 0, map[])
        case None => Refused(BadHeaders)
        case Some(headers) => Parsed(Message(headers, data[12 + headersLen..totalLen - 4]), totalLen)
  }

  /** A call of the parser returns, or panics on a slice out of range. */
  datatype Call = Returned(result: ParseResult) | Panicked

  /** ParseEventStreamMessage as it runs: `spare` is what lies between the length of the slice and
      its capacity. Slicing may reach into it, lengths are added modulo 2^32, and a slice that
      starts behind its end or ends behind the capacity panics. */
  function ParseMessage(crc: Crc, data: Bytes, spare: Bytes): (c: Call) {
    if |data| < MIN_MSG_LEN then Returned(Refused(TooShort))
    else
      var totalLen := GetBe32(data[0..4]);
      if totalLen < MIN_MSG_LEN then Returned(Refused(InvalidLength))
      else if totalLen > |data| then Returned(Refused(Incomplete))
      else if crc(data[0..8]) != GetBe32(data[8..12]) then Returned(Refused(PreludeCrc))
      else if crc(data[0..totalLen - 4]) != GetBe32(data[totalLen - 4..totalLen]) then Returned(Refused(MessageCrc))
      else
        var payloadStart := (PRELUDE_LEN + GetBe32(data[4..8])) % TWO_32;
        if payloadStart < PRELUDE_LEN || payloadStart > |data| + |spare| then Panicked
        else
          match HeadersFrom((data + spare)[PRELUDE_LEN..payloadStart], 0, map[])
          case None => Returned(Refused(BadHeaders))
          case Some(headers) =>
            if payloadStart > totalLen - TRAILER_LEN then Panicked
            else Returned(Parsed(Message(headers, data[payloadStart..totalLen - TRAILER_LEN]), totalLen))
  }

  /** The call returns the verdict on the first frame, whatever the capacity, unless the header
      length overruns that frame. Then it never returns a message: it panics exactly when the
      header length is past the capacity (or the sum overflows) or the bytes it covers happen to
      read as headers, and otherwise reports bad headers. */
  lemma ParseMessageIs(crc: Crc, data: Bytes, spare: Bytes)
    ensures ParseFrame(crc, data) != Refused(HeaderOverrun) ==> ParseMessage(crc, data, spare) == Returned(ParseFrame(crc, data))
    ensures ParseFrame(crc, data) == Refused(HeaderOverrun) ==>
              var end := PRELUDE_LEN + GetBe32(data[4..8]);
              ParseMessage(crc, data, spare) ==
                if end >= TWO_32 || end > |data| + |spare| || HeadersFrom((data + spare)[PRELUDE_LEN..end], 0, map[]).Some?
                then Panicked else Returned(Refused(BadHeaders))
  {
    hide GetBe32, HeadersFrom;
    if ParseFrame(crc, data) == Refused(HeaderOverrun) {
      var end := PRELUDE_LEN + GetBe32(data[4..8]);
      if end >= TWO_32 {
        assert end % TWO_32 == end - TWO_32;
      }
    } else if |data| >= MIN_MSG_LEN {
      var totalLen, headersLen := GetBe32(data[0..4]), GetBe32(data[4..8]);
      if MIN_MSG_LEN <= totalLen <= |data| && headersLen <= totalLen - MIN_MSG_LEN {
        assert (data + spare)[PRELUDE_LEN..PRELUDE_LEN + headersLen] == data[12..12 + headersLen];
      }
    }
  }

  /** A verdict reached on a buffer stands when bytes are appended, and whatever the capacities,
      unless the verdict was that bytes are missing or the header length overruns the frame. */
  lemma ParseStable(crc: Crc, data: Bytes, spare: Bytes, more: Bytes, spare': Bytes)
    requires ParseFrame(crc, data).Refused? ==> ParseFrame(crc, data).why !in {TooShort, Incomplete, HeaderOverrun}
    ensures ParseMessage(crc, data + more, spare') == ParseMessage(crc, data, spare) == Returned(ParseFrame(crc, data))
  {
    hide ParseFrame, ParseMessage;
    FrameStable(crc, data, more);
    ParseMessageIs(crc, data, spare);
    ParseMessageIs(crc, data + more, spare');
  }

  /** The same for the verdict alone, which for an overrunning frame does not depend on what
      follows either. */
  lemma FrameStable(crc: Crc, data: Bytes, more: Bytes)
    requires ParseFrame(crc, data) != Refused(TooShort)
    requires ParseFrame(crc, data) != Refused(Incomplete)
    ensures ParseFrame(crc, data + more) == ParseFrame(crc, data)
  {
    hide GetBe32, HeadersFrom;
    var d := data + more;
    assert d[0..4] == data[0..4] && d[4..8] == data[4..8] && d[8..12] == data[8..12] && d[0..8] == data[0..8];
    var totalLen, headersLen := GetBe32(data[0..4]), GetBe32(data[4..8]);
    if MIN_MSG_LEN <= totalLen <= |data| {
      assert d[0..totalLen - 4] == data[0..totalLen - 4];
      assert d[totalLen - 4..totalLen] == data[totalLen - 4..totalLen];
      if headersLen <= totalLen - MIN_MSG_LEN {
        assert d[12..12 + headersLen] == data[12..12 + headersLen];
        assert d[12 + headersLen..totalLen - 4] == data[12 + headersLen..totalLen - 4];
      }
    }
  }

  /** The verdict on a complete frame looks at that frame only. */
  lemma ParseLocal(crc: Crc, data: Bytes)
    requires |data| >= 12 && MIN_MSG_LEN <= GetBe32(data[0..4]) <= |data|
    ensures ParseFrame(crc, data[..GetBe32(data[0..4])]) == ParseFrame(crc, data)
  {
    hide GetBe32, HeadersFrom;
    var n := GetBe32(data[0..4]);
    assert data[..n][0..4] == data[0..4];
    assert data[..n] + data[n..] == data;
    FrameStable(crc, data[..n], data[n..]);
  }

  // ----- Greedy decoding --------------------------------------------------------------------

  datatype Decoded = Decoded(messages: seq<Message>, rest: Bytes)

  /** The frames that parse, off the front, up to the first one that does not. */
  function Decode(crc: Crc, data: Bytes): (r: Decoded)
    ensures ParseFrame(crc, r.rest).Refused?
    decreases |data|
  {
    match ParseFrame(crc, data)
    case Refused(_) => Decoded([], data)
    case Parsed(m, n) =>
      var tail := Decode(crc, data[n..]);
      Decoded([m] + tail.messages, tail.rest)
  }

  /** Decoding a stream in two parts: what the first part leaves over goes in front of
      the second. */
  lemma {:induction false} DecodeAppend(crc: Crc, a: Bytes, b: Bytes)
    ensures var first := Decode(crc, a);
            var second := Decode(crc, first.rest + b);
            Decode(crc, a + b) == Decoded(first.messages + second.messages, second.rest)
    decreases |a|
  {
    hide ParseFrame, Decode;
    DecodeOne(crc, a);
    match ParseFrame(crc, a)
    case Refused(_) =>
      assert [] + Decode(crc, a + b).messages == Decode(crc, a + b).messages;
    case Parsed(m, n) =>
      FrameStable(crc, a, b);
      DecodeOne(crc, a + b);
      assert (a + b)[n..] == a[n..] + b;
      DecodeAppend(crc, a[n..], b);
      var first := Decode(crc, a[n..]);
      var second := Decode(crc, first.rest + b);
      assert [m] + (first.messages + second.messages) == [m] + first.messages + second.messages;
  }

  /** One step of the greedy decoder. */
  lemma DecodeOne(crc: Crc, data: Bytes)
    ensures ParseFrame(crc, data).Refused? ==> Decode(crc, data) == Decoded([], data)
    ensures ParseFrame(crc, data).Parsed? ==>
              var tail := Decode(crc, data[ParseFrame(crc, data).consumed..]);
              Decode(crc, data) == Decoded([ParseFrame(crc, data).message] + tail.messages, tail.rest)
  {
    hide ParseFrame;
  }

  // ----- Rendering as server-sent events ------------------------------------------------------

  /** Go's %q quoting of exception texts; only that it is a function matters. */
  type Quote = string -> string

  function FormatEvent(eventType: string, payload: string): string {
    "event: " + eventType + "\n" + (DataText(Split(payload)) + "\n")
  }

  /** formatSSEEvent: the loop over the payload lines, with no newline after the last. */
  method FormatSSEEvent(eventType: string, payload: string) returns (buf: string)
    ensures buf == FormatEvent(eventType, payload)
  {
    assert DataText([]) == "";
    hide DataText, Split;
    var head := "event: " + eventType + "\n";
    buf := head;
    var lines := Split(payload);
    assert lines[..0] == [];
    var i := 0;
    while i < |lines|
      invariant 0 <= i <= |lines|
      invariant i < |lines| ==> buf == head + DataText(lines[..i])
      invariant i == |lines| ==> buf + "\n" == head + DataText(lines)
    {
      DataTextSnoc(lines, i);
      assert lines[..|lines|] == lines;
      buf := buf + ("data: " + lines[i]);
      if i < |lines| - 1 {
        buf := buf + "\n";
      }
      i := i + 1;
    }
    assert buf + "\n\n" == head + DataText(lines) + "\n";
    buf := buf + "\n\n";
  }

  function Lookup(headers: map<string, string>, name: string): string {
    if name in headers then headers[name] else ""
  }

  function FormatMessage(quote: Quote, m: Message): string {
    var exception := Lookup(m.headers, ":exception-type");
    var eventType := Lookup(m.headers, ":event-type");
    if exception != "" then
      "event: error\ndata: {\"error\":{\"type\":" + quote(exception) + ",\"message\":" + quote(m.payload) + "}}\n\n"
    else if eventType == "" then ""
    else FormatEvent(eventType, m.payload)
  }

  function Render(quote: Quote, messages: seq<Message>): string {
    if messages == [] then ""
    else FormatMessage(quote, messages[0]) + Render(quote, messages[1..])
  }

  lemma {:induction false} RenderAppend(quote: Quote, a: seq<Message>, b: seq<Message>)
    ensures Render(quote, a + b) == Render(quote, a) + Render(quote, b)
  {
    hide FormatMessage;
    if a == [] {
      assert a + b == b;
    } else {
      assert (a + b)[1..] == a[1..] + b;
      RenderAppend(quote, a[1..], b);
    }
  }

  // ----- The reader loop -------------------------------------------------------------------------

  /** How processEventStream ends: at the end of the stream, with an error, or in a panic. */
  datatype Ending = CleanEnd | ReadFailed | Crashed

  datatype ReadOutcome = ReadOutcome(messages: seq<Message>, ending: Ending)

  function Prepend(ms: seq<Message>, o: ReadOutcome): ReadOutcome {
    ReadOutcome(ms + o.messages, o.ending)
  }

  /** Frame by frame from a reader, each in a buffer of exactly its length: a complete frame that
      is refused is skipped, and one on which the parser panics ends everything. A stream that
      ends right after a prelude counts as a clean end, since reading no byte of the body reports
      plain end-of-file. */
  function ReadFrames(crc: Crc, data: Bytes): ReadOutcome
    decreases |data|
  {
    if |data| == 0 then ReadOutcome([], CleanEnd)
    else if |data| < PRELUDE_LEN then ReadOutcome([], ReadFailed)
    else
      var totalLen := GetBe32(data[0..4]);
      if totalLen < MIN_MSG_LEN then ReadOutcome([], ReadFailed)
      else if |data| == PRELUDE_LEN then ReadOutcome([], CleanEnd)
      else if |data| < totalLen then ReadOutcome([], ReadFailed)
      else
        match ParseMessage(crc, data[..totalLen], [])
        case Panicked => ReadOutcome([], Crashed)
        case Returned(Refused(_)) => ReadFrames(crc, data[totalLen..])
        case Returned(Parsed(m, _)) => Prepend([m], ReadFrames(crc, data[totalLen..]))
  }

  /** The reader emits everything the buffered decoder does, then whatever it finds in
      the part at which the buffered decoder stops. */
  lemma {:induction false} ReaderExtendsDecoder(crc: Crc, data: Bytes)
    ensures var d := Decode(crc, data);
            ReadFrames(crc, data) == Prepend(d.messages, ReadFrames(crc, d.rest))
    decreases |data|
  {
    hide ParseFrame, Decode, ReadFrames;
    DecodeOne(crc, data);
    match ParseFrame(crc, data)
    case Refused(_) =>
      assert [] + ReadFrames(crc, data).messages == ReadFrames(crc, data).messages;
    case Parsed(m, n) =>
      ReadOne(crc, data);
      ReaderExtendsDecoder(crc, data[n..]);
      var d := Decode(crc, data[n..]);
      assert [m] + (d.messages + ReadFrames(crc, d.rest).messages) == [m] + d.messages + ReadFrames(crc, d.rest).messages;
  }

  /** The reader takes a frame that parses like the buffered decoder does. */
  lemma ReadOne(crc: Crc, data: Bytes)
    requires ParseFrame(crc, data).Parsed?
    ensures var r := ParseFrame(crc, data);
            ReadFrames(crc, data) == Prepend([r.message], ReadFrames(crc, data[r.consumed..]))
  {
    hide HeadersFrom, GetBe32, ParseMessage;
    assert ParseFrame(crc, data).consumed == GetBe32(data[0..4]);
    ParseLocal(crc, data);
    ParseMessageIs(crc, data[..GetBe32(data[0..4])], []);
  }

  /** The complete frames of a stream, told by their length fields only. */
  function Pieces(data: Bytes): (r: seq<Bytes>)
    ensures forall i :: 0 <= i < |r| ==> |r[i]| >= MIN_MSG_LEN && GetBe32(r[i][0..4]) == |r[i]|
    decreases |data|
  {
    if |data| < PRELUDE_LEN then []
    else
      var totalLen := GetBe32(data[0..4]);
      if totalLen < MIN_MSG_LEN || totalLen > |data| then []
      else
        assert data[..totalLen][0..4] == data[0..4];
        [data[..totalLen]] + Pieces(data[totalLen..])
  }

  predicate Intact(crc: Crc, piece: Bytes) {
    ParseFrame(crc, piece).Parsed?
  }

  predicate Panics(crc: Crc, piece: Bytes) {
    ParseMessage(crc, piece, []).Panicked?
  }

  /** What the reader loop makes of the pieces. */
  function Emitted(crc: Crc, pieces: seq<Bytes>): seq<Message> {
    if pieces == [] || Panics(crc, pieces[0]) then []
    else if Intact(crc, pieces[0]) then [ParseFrame(crc, pieces[0]).message] + Emitted(crc, pieces[1..])
    else Emitted(crc, pieces[1..])
  }

  /** What the buffered decoder makes of them. */
  function Leading(crc: Crc, pieces: seq<Bytes>): seq<Message> {
    if pieces == [] || !Intact(crc, pieces[0]) then []
    else [ParseFrame(crc, pieces[0]).message] + Leading(crc, pieces[1..])
  }

  lemma {:induction false} ReadsPieces(crc: Crc, data: Bytes)
    ensures ReadFrames(crc, data).messages == Emitted(crc, Pieces(data))
    decreases |data|
  {
    hide ParseFrame, ParseMessage, GetBe32;
    if |data| >= PRELUDE_LEN {
      var totalLen := GetBe32(data[0..4]);
      if MIN_MSG_LEN <= totalLen <= |data| {
        ParseMessageIs(crc, data[..totalLen], []);
        ReadsPieces(crc, data[totalLen..]);
        assert Pieces(data)[1..] == Pieces(data[totalLen..]);
      }
    }
  }

  lemma {:induction false} DecodesPieces(crc: Crc, data: Bytes)
    ensures Decode(crc, data).messages == Leading(crc, Pieces(data))
    decreases |data|
  {
    FrameIsPiece(crc, data);
    DecodeOne(crc, data);
    hide ParseMessage, ParseFrame, GetBe32, Decode;
    if |data| >= PRELUDE_LEN {
      var totalLen := GetBe32(data[0..4]);
      if MIN_MSG_LEN <= totalLen <= |data| {
        ParseLocal(crc, data);
        DecodesPieces(crc, data[totalLen..]);
        assert Pieces(data)[1..] == Pieces(data[totalLen..]);
      }
    }
  }

  lemma FrameIsPiece(crc: Crc, data: Bytes)
    ensures ParseFrame(crc, data).Parsed? ==>
              && |data| >= PRELUDE_LEN && MIN_MSG_LEN <= GetBe32(data[0..4]) <= |data|
              && ParseFrame(crc, data).consumed == GetBe32(data[0..4])
  {
    hide GetBe32, HeadersFrom;
  }

  lemma IntactReturns(crc: Crc, piece: Bytes)
    ensures Intact(crc, piece) ==> !Panics(crc, piece)
  {
    hide ParseFrame, ParseMessage;
    ParseMessageIs(crc, piece, []);
  }

  /** No frame before `j` makes the parser panic. */
  ghost predicate Reached(crc: Crc, pieces: seq<Bytes>, j: nat)
    requires j <= |pieces|
  {
    forall k :: 0 <= k < j ==> !Panics(crc, pieces[k])
  }

  lemma ReachedBehind(crc: Crc, pieces: seq<Bytes>, j: nat)
    requires 0 < j <= |pieces|
    ensures Reached(crc, pieces, j) <==> !Panics(crc, pieces[0]) && Reached(crc, pieces[1..], j - 1)
  {
    hide Panics;
    if !Panics(crc, pieces[0]) && Reached(crc, pieces[1..], j - 1) {
      forall k | 0 <= k < j ensures !Panics(crc, pieces[k]) {
        assert k > 0 ==> pieces[k] == pieces[1..][k - 1];
      }
    }
  }

  lemma {:induction false} NothingEmitted(crc: Crc, pieces: seq<Bytes>)
    ensures Emitted(crc, pieces) == [] <==>
            forall j :: 0 <= j < |pieces| && Intact(crc, pieces[j]) ==> !Reached(crc, pieces, j)
  {
    if pieces != [] {
      var rest := pieces[1..];
      NothingEmitted(crc, rest);
      IntactReturns(crc, pieces[0]);
      assert Reached(crc, pieces, 0);
      hide Intact, Panics, Reached;
      forall j | 0 < j < |pieces|
        ensures pieces[j] == rest[j - 1]
        ensures Reached(crc, pieces, j) <==> !Panics(crc, pieces[0]) && Reached(crc, rest, j - 1)
      {
        ReachedBehind(crc, pieces, j);
      }
      if !Panics(crc, pieces[0]) && Emitted(crc, pieces) == [] {
        forall j | 0 <= j < |pieces| && Intact(crc, pieces[j]) ensures !Reached(crc, pieces, j) {
          assert j > 0;
          assert Intact(crc, rest[j - 1]);
        }
      }
      if forall j :: 0 <= j < |pieces| && Intact(crc, pieces[j]) ==> !Reached(crc, pieces, j) {
        forall j | 0 <= j < |rest| && Intact(crc, rest[j]) && !Panics(crc, pieces[0]) ensures !Reached(crc, rest, j) {
          assert Intact(crc, pieces[j + 1]);
        }
      }
    }
  }

  /** No intact frame that the reader reaches stands behind one that is not intact. */
  ghost predicate IntactFirst(crc: Crc, pieces: seq<Bytes>) {
    forall i, j :: 0 <= i < j < |pieces| && !Intact(crc, pieces[i]) && Intact(crc, pieces[j]) ==> !Reached(crc, pieces, j)
  }

  lemma {:induction false} LeadingIsEmitted(crc: Crc, pieces: seq<Bytes>)
    ensures Emitted(crc, pieces) == Leading(crc, pieces) <==> IntactFirst(crc, pieces)
  {
    if pieces != [] {
      hide *;
      var rest := pieces[1..];
      HeadPiece(crc, pieces);
      if Intact(crc, pieces[0]) {
        LeadingIsEmitted(crc, rest);
        IntactFirstBehind(crc, pieces);
        var m := ParseFrame(crc, pieces[0]).message;
        assert ([m] + Emitted(crc, rest))[1..] == Emitted(crc, rest);
        assert ([m] + Leading(crc, rest))[1..] == Leading(crc, rest);
      } else {
        NothingEmitted(crc, pieces);
        NoneBehindFirst(crc, pieces);
      }
    }
  }

  lemma HeadPiece(crc: Crc, pieces: seq<Bytes>)
    requires pieces != []
    ensures Intact(crc, pieces[0]) ==>
              && ParseFrame(crc, pieces[0]).Parsed?
              && Emitted(crc, pieces) == [ParseFrame(crc, pieces[0]).message] + Emitted(crc, pieces[1..])
              && Leading(crc, pieces) == [ParseFrame(crc, pieces[0]).message] + Leading(crc, pieces[1..])
    ensures !Intact(crc, pieces[0]) ==> Leading(crc, pieces) == []
  {
    IntactReturns(crc, pieces[0]);
    hide ParseFrame, Panics;
  }

  lemma NoneBehindFirst(crc: Crc, pieces: seq<Bytes>)
    requires pieces != [] && !Intact(crc, pieces[0])
    ensures IntactFirst(crc, pieces) <==>
            forall j :: 0 <= j < |pieces| && Intact(crc, pieces[j]) ==> !Reached(crc, pieces, j)
  {
    hide Intact, Reached;
  }

  lemma IntactFirstBehind(crc: Crc, pieces: seq<Bytes>)
    requires pieces != [] && Intact(crc, pieces[0])
    ensures IntactFirst(crc, pieces) <==> IntactFirst(crc, pieces[1..])
  {
    IntactReturns(crc, pieces[0]);
    hide Intact, Panics, Reached;
    var rest := pieces[1..];
    forall j | 0 < j < |pieces|
      ensures pieces[j] == rest[j - 1] && (Reached(crc, pieces, j) <==> Reached(crc, rest, j - 1))
    {
      ReachedBehind(crc, pieces, j);
    }
    if IntactFirst(crc, pieces) {
      forall i, j | 0 <= i < j < |rest| && !Intact(crc, rest[i]) && Intact(crc, rest[j]) ensures !Reached(crc, rest, j) {
        assert !Intact(crc, pieces[i + 1]) && Intact(crc, pieces[j + 1]);
      }
    }
    if IntactFirst(crc, rest) {
      forall i, j | 0 <= i < j < |pieces| && !Intact(crc, pieces[i]) && Intact(crc, pieces[j]) ensures !Reached(crc, pieces, j) {
        assert !Intact(crc, rest[i - 1]) && Intact(crc, rest[j - 1]);
      }
    }
  }

  /** The two decoders emit the same messages exactly when no intact frame stands behind a complete
      one that is not, unless a frame on which the parser panics comes before it. */
  lemma DecodersAgree(crc: Crc, data: Bytes)
    ensures ReadFrames(crc, data).messages == Decode(crc, data).messages <==> IntactFirst(crc, Pieces(data))
  {
    hide *;
    ReadsPieces(crc, data);
    DecodesPieces(crc, data);
    LeadingIsEmitted(crc, Pieces(data));
  }

  /** A complete frame that is refused, or on which the parser panics, ends the buffered decoder
      for good. The reader carries on behind the first kind and crashes on the second. */
  lemma RefusedFrameSplitsDecoders(crc: Crc, bad: Bytes, more: Bytes)
    requires |bad| >= MIN_MSG_LEN && GetBe32(bad[0..4]) == |bad| && !Intact(crc, bad)
    ensures Decode(crc, bad + more).messages == []
    ensures ReadFrames(crc, bad + more) == if Panics(crc, bad) then ReadOutcome([], Crashed) else ReadFrames(crc, more)
  {
    hide ParseMessage, HeadersFrom, GetBe32;
    FrameStable(crc, bad, more);
    ParseMessageIs(crc, bad, []);
    assert (bad + more)[0..4] == bad[0..4];
    assert (bad + more)[..|bad|] == bad;
    assert (bad + more)[|bad|..] == more;
  }

  /** Exactly which complete frames crash the reader loop: both checksums are right, the header
      length is larger than what is left of the frame, and it is past the end of the frame or the
      bytes it covers, the last checksum among them, read as headers. */
  lemma PanicsIff(crc: Crc, frame: Bytes)
    requires |frame| >= MIN_MSG_LEN && GetBe32(frame[0..4]) == |frame|
    ensures Panics(crc, frame) <==>
            var headersLen := GetBe32(frame[4..8]);
            && crc(frame[0..8]) == GetBe32(frame[8..12])
            && crc(frame[0..|frame| - 4]) == GetBe32(frame[|frame| - 4..])
            && headersLen > |frame| - MIN_MSG_LEN
            && (headersLen > |frame| - PRELUDE_LEN
                || HeadersFrom(frame[PRELUDE_LEN..PRELUDE_LEN + headersLen], 0, map[]).Some?)
  {
    hide HeadersFrom, GetBe32, ParseMessage;
    ParseMessageIs(crc, frame, []);
    assert frame + [] == frame;
    assert frame[|frame| - 4..|frame|] == frame[|frame| - 4..];
  }

  /** For every checksum function there is such a frame, with any header length past the frame. */
  lemma CrashingFrame(crc: Crc, payload: Bytes, headersLen: U32) returns (frame: Bytes)
    requires |payload| + MIN_MSG_LEN < TWO_32 && headersLen > |payload| + TRAILER_LEN
    ensures |frame| == |payload| + MIN_MSG_LEN && GetBe32(frame[0..4]) == |frame| && Panics(crc, frame)
  {
    hide Be32, GetBe32, HeadersFrom, Panics;
    var n := |payload| + MIN_MSG_LEN;
    var lengths := Be32(n) + Be32(headersLen);
    var body := lengths + Be32(crc(lengths)) + payload;
    frame := body + Be32(crc(body));
    Be32RoundTrip(n);
    Be32RoundTrip(headersLen);
    Be32RoundTrip(crc(lengths));
    Be32RoundTrip(crc(body));
    assert frame[0..4] == Be32(n) && frame[4..8] == Be32(headersLen) && frame[0..8] == lengths;
    assert frame[8..12] == Be32(crc(lengths));
    assert frame[0..n - 4] == body && frame[n - 4..] == Be32(crc(body));
    PanicsIff(crc, frame);
  }

  /** processEventStream over a body read to its end. */
  method ProcessEventStream(crc: Crc, quote: Quote, body: Bytes) returns (out: string, ending: Ending)
    ensures out == Render(quote, ReadFrames(crc, body).messages)
    ensures ending == ReadFrames(crc, body).ending
  {
    hide ParseMessage, FormatMessage, GetBe32;
    out := "";
    ghost var seen := [];
    var rest := body;
    while true
      invariant out == Render(quote, seen)
      invariant ReadFrames(crc, body) == Prepend(seen, ReadFrames(crc, rest))
      decreases |rest|
    {
      if |rest| == 0 {
        assert seen + [] == seen;
        return out, CleanEnd;
      }
      if |rest| < PRELUDE_LEN {
        assert seen + [] == seen;
        return out, ReadFailed;
      }
      var totalLen := GetBe32(rest[0..4]);
      if totalLen < MIN_MSG_LEN {
        assert seen + [] == seen;
        return out, ReadFailed;
      }
      if |rest| == PRELUDE_LEN {
        assert seen + [] == seen;
        return out, CleanEnd;
      }
      if |rest| < totalLen {
        assert seen + [] == seen;
        return out, ReadFailed;
      }
      var call := ParseMessage(crc, rest[..totalLen], []);
      if call.Panicked? {
        assert seen + [] == seen;
        return out, Crashed;
      }
      var parsed := call.result;
      if parsed.Parsed? {
        RenderAppend(quote, seen, [parsed.message]);
        assert Render(quote, [parsed.message]) == FormatMessage(quote, parsed.message) + Render(quote, []);
        out := out + FormatMessage(quote, parsed.message);
        ghost var tail := ReadFrames(crc, rest[totalLen..]).messages;
        assert seen + ([parsed.message] + tail) == seen + [parsed.message] + tail;
        seen := seen + [parsed.message];
      }
      rest := rest[totalLen..];
    }
  }

  // ----- An encoder from the documented layout -----------------------------------------------------

  datatype HeaderValue =
    | Flag(on: bool)
    | Fixed(kind: int, raw: Bytes)
    | Blob(bytes: Bytes)
    | Text(text: Bytes)

  datatype Header = Header(name: Bytes, value: HeaderValue)

  ghost predicate ValidHeader(h: Header) {
    && |h.name| < 256
    && match h.value
       case Flag(_) => true
       case Fixed(kind, raw) => kind in {2, 3, 4, 5, 8, 9} && FixedSize(kind) == Some(|raw|)
       case Blob(bytes) => |bytes| < 0x1_0000
       case Text(text) => |text| < 0x1_0000
  }

  function KindOf(v: HeaderValue): (k: int)
  {
    match v
    case Flag(on) => if on then 0 else 1
    case Fixed(kind, _) => kind
    case Blob(_) => 6
    case Text(_) => 7
  }

  ghost function EncodeValue(h: Header): Bytes
    requires ValidHeader(h)
  {
    match h.value
    case Flag(_) => []
    case Fixed(_, raw) => raw
    case Blob(bytes) => Be16(|bytes|) + bytes
    case Text(text) => Be16(|text|) + text
  }

  ghost function EncodeHeader(h: Header): (b: Bytes)
    requires ValidHeader(h)
    ensures |b| > 0
  {
    [|h.name| as char] + (h.name + ([KindOf(h.value) as char] + EncodeValue(h)))
  }

  ghost function EncodeHeaders(hs: seq<Header>): Bytes
    requires forall h :: h in hs ==> ValidHeader(h)
  {
    if hs == [] then [] else EncodeHeader(hs[0]) + EncodeHeaders(hs[1..])
  }

  /** The string headers of a list, a later one replacing an earlier one of its name. */
  function StringHeaders(hs: seq<Header>, acc: map<string, string>): map<string, string> {
    if hs == [] then acc
    else StringHeaders(hs[1..], if hs[0].value.Text? then acc[hs[0].name := hs[0].value.text] else acc)
  }

  ghost predicate Encodable(hs: seq<Header>, payload: Bytes) {
    && (forall h :: h in hs ==> ValidHeader(h))
    && |EncodeHeaders(hs)| + |payload| + MIN_MSG_LEN < TWO_32
  }

  /** A frame around a header block: both lengths with their checksum, the headers, the payload,
      and the checksum of all before it. */
  ghost function Layout(crc: Crc, h: Bytes, payload: Bytes): (b: Bytes)
    requires |h| + |payload| + MIN_MSG_LEN < TWO_32
    ensures |b| == |h| + |payload| + MIN_MSG_LEN
  {
    var lengths := Be32(|h| + |payload| + MIN_MSG_LEN) + Be32(|h|);
    var body := lengths + Be32(crc(lengths)) + h + payload;
    body + Be32(crc(body))
  }

  ghost function Encode(crc: Crc, hs: seq<Header>, payload: Bytes): (b: Bytes)
    requires Encodable(hs, payload)
    ensures |b| == |EncodeHeaders(hs)| + |payload| + MIN_MSG_LEN
  {
    Layout(crc, EncodeHeaders(hs), payload)
  }

  lemma ValueRoundTrip(h: Header, before: Bytes, after: Bytes)
    requires ValidHeader(h)
    ensures ValueAt(before + EncodeValue(h) + after, h.name, KindOf(h.value), |before|)
            == Some(Entry(h.name, if h.value.Text? then Some(h.value.text) else None, |before| + |EncodeValue(h)|))
  {
    hide Be16, GetBe16;
    var data, o := before + EncodeValue(h) + after, |before|;
    if h.value.Blob? || h.value.Text? {
      var v := if h.value.Blob? then h.value.bytes else h.value.text;
      Be16RoundTrip(|v|);
      assert data[o..o + 2] == Be16(|v|);
      assert data[o + 2..o + 2 + |v|] == v;
    }
  }

  lemma HeaderRoundTrip(h: Header, before: Bytes, after: Bytes)
    requires ValidHeader(h)
    ensures HeaderAt(before + EncodeHeader(h) + after, |before|)
            == Some(Entry(h.name, if h.value.Text? then Some(h.value.text) else None, |before| + |EncodeHeader(h)|))
  {
    hide ValueAt, EncodeValue;
    var data, o := before + EncodeHeader(h) + after, |before|;
    var front := before + [|h.name| as char] + h.name + [KindOf(h.value) as char];
    assert data == front + EncodeValue(h) + after;
    assert data[o] == |h.name| as char;
    assert data[o + 1..o + 1 + |h.name|] == h.name;
    assert data[o + 1 + |h.name|] == KindOf(h.value) as char;
    ValueRoundTrip(h, front, after);
  }

  lemma {:induction false} HeadersRoundTrip(hs: seq<Header>, before: Bytes, acc: map<string, string>)
    requires forall h :: h in hs ==> ValidHeader(h)
    ensures HeadersFrom(before + EncodeHeaders(hs), |before|, acc) == Some(StringHeaders(hs, acc))
    decreases hs
  {
    hide HeaderAt, EncodeHeader;
    if hs != [] {
      var h, tail := hs[0], EncodeHeaders(hs[1..]);
      var value := if h.value.Text? then Some(h.value.text) else None;
      HeaderRoundTrip(h, before, tail);
      assert before + EncodeHeaders(hs) == before + EncodeHeader(h) + tail;
      HeadersRoundTrip(hs[1..], before + EncodeHeader(h), Store(acc, h.name, value));
    }
  }

  /** The parts of a frame at their offsets, whatever follows it. */
  lemma LayoutParts(crc: Crc, h: Bytes, payload: Bytes, suffix: Bytes)
    requires |h| + |payload| + MIN_MSG_LEN < TWO_32
    ensures var n, d := |h| + |payload| + MIN_MSG_LEN, Layout(crc, h, payload) + suffix;
            && GetBe32(d[0..4]) == n && GetBe32(d[4..8]) == |h|
            && GetBe32(d[8..12]) == crc(d[0..8]) && GetBe32(d[n - 4..n]) == crc(d[0..n - 4])
            && d[12..12 + |h|] == h && d[12 + |h|..n - 4] == payload
  {
    hide Be32, GetBe32;
    var n := |h| + |payload| + MIN_MSG_LEN;
    var lengths := Be32(n) + Be32(|h|);
    var body := lengths + Be32(crc(lengths)) + h + payload;
    var d := body + Be32(crc(body)) + suffix;
    assert Layout(crc, h, payload) + suffix == d;
    Be32RoundTrip(n);
    Be32RoundTrip(|h|);
    Be32RoundTrip(crc(lengths));
    Be32RoundTrip(crc(body));
    assert d[0..4] == Be32(n);
    assert d[4..8] == Be32(|h|);
    assert d[0..8] == lengths;
    assert d[8..12] == Be32(crc(lengths));
    assert d[0..n - 4] == body;
    assert d[n - 4..n] == Be32(crc(body));
  }

  lemma LayoutParses(crc: Crc, h: Bytes, payload: Bytes, suffix: Bytes)
    requires |h| + |payload| + MIN_MSG_LEN < TWO_32 && HeadersFrom(h, 0, map[]).Some?
    ensures ParseFrame(crc, Layout(crc, h, payload) + suffix)
            == Parsed(Message(HeadersFrom(h, 0, map[]).value, payload), |Layout(crc, h, payload)|)
  {
    hide Layout, GetBe32, HeadersFrom;
    LayoutParts(crc, h, payload, suffix);
  }

  /** Parsing an encoded frame, whatever follows it, gives back its string headers and
      payload and consumes exactly the frame. */
  lemma FrameRoundTrip(crc: Crc, hs: seq<Header>, payload: Bytes, suffix: Bytes)
    requires Encodable(hs, payload)
    ensures ParseFrame(crc, Encode(crc, hs, payload) + suffix)
            == Parsed(Message(StringHeaders(hs, map[]), payload), |Encode(crc, hs, payload)|)
  {
    hide Layout, HeadersFrom, EncodeHeaders, StringHeaders, ParseFrame;
    HeadersRoundTrip(hs, [], map[]);
    assert [] + EncodeHeaders(hs) == EncodeHeaders(hs);
    LayoutParses(crc, EncodeHeaders(hs), payload, suffix);
  }

  lemma Be16Inverse(b: Bytes)
    requires |b| == 2
    ensures Be16(GetBe16(b)) == b
  {
    assert Be16(GetBe16(b))[0] == b[0] && Be16(GetBe16(b))[1] == b[1];
  }

  lemma Be32Inverse(b: Bytes)
    requires |b| == 4
    ensures Be32(GetBe32(b)) == b
  {
    hide Be16, GetBe16;
    Be16Inverse(b[..2]);
    Be16Inverse(b[2..]);
    assert b == b[..2] + b[2..];
  }

  /** A frame parses only if it is intact: what the parser consumed is, byte for byte, the layout
      of a header block and the payload, both checksums included. */
  lemma ParsedIsIntact(crc: Crc, data: Bytes)
    requires ParseFrame(crc, data).Parsed?
    ensures MIN_MSG_LEN <= |data| && 12 + GetBe32(data[4..8]) <= |data|
    ensures var r := ParseFrame(crc, data);
            var h := data[12..12 + GetBe32(data[4..8])];
            && |h| + |r.message.payload| + MIN_MSG_LEN == r.consumed < TWO_32
            && data[..r.consumed] == Layout(crc, h, r.message.payload)
            && HeadersFrom(h, 0, map[]) == Some(r.message.headers)
  {
    hide Be32, GetBe32, HeadersFrom;
    var r, headersLen := ParseFrame(crc, data), GetBe32(data[4..8]);
    var n := r.consumed;
    var h, payload := data[12..12 + headersLen], r.message.payload;
    Be32Inverse(data[0..4]);
    Be32Inverse(data[4..8]);
    Be32Inverse(data[8..12]);
    Be32Inverse(data[n - 4..n]);
    var lengths := data[0..4] + data[4..8];
    assert lengths == data[0..8];
    var body := lengths + data[8..12] + h + payload;
    assert body == data[0..n - 4];
    assert data[..n] == data[0..n - 4] + data[n - 4..n];
  }

  /** The frames that parse are exactly the layouts of a readable header block. */
  lemma ParsedIff(crc: Crc, data: Bytes, m: Message, n: nat)
    ensures ParseFrame(crc, data) == Parsed(m, n) <==>
            exists h: Bytes {:trigger HeadersFrom(h, 0, map[])} ::
              && HeadersFrom(h, 0, map[]) == Some(m.headers)
              && |h| + |m.payload| + MIN_MSG_LEN == n < TWO_32
              && Layout(crc, h, m.payload) <= data
  {
    hide ParseFrame, Layout, HeadersFrom, GetBe32;
    if ParseFrame(crc, data) == Parsed(m, n) {
      ParsedIsIntact(crc, data);
      var h := data[12..12 + GetBe32(data[4..8])];
      assert HeadersFrom(h, 0, map[]) == Some(m.headers) && Layout(crc, h, m.payload) <= data;
    }
    if h: Bytes {:trigger HeadersFrom(h, 0, map[])} :|
        && HeadersFrom(h, 0, map[]) == Some(m.headers)
        && |h| + |m.payload| + MIN_MSG_LEN == n < TWO_32
        && Layout(crc, h, m.payload) <= data
    {
      assert data == Layout(crc, h, m.payload) + data[n..];
      LayoutParses(crc, h, m.payload, data[n..]);
    }
  }

  /** A stream cut inside a frame is noticed, unless the cut is right behind the prelude: there
      the reader loop takes it for a clean end. */
  lemma CutFrame(crc: Crc, h: Bytes, payload: Bytes, k: nat)
    requires |h| + |payload| + MIN_MSG_LEN < TWO_32 && 0 < k < |Layout(crc, h, payload)|
    ensures ReadFrames(crc, Layout(crc, h, payload)[..k]) == ReadOutcome([], if k == PRELUDE_LEN then CleanEnd else ReadFailed)
    ensures Decode(crc, Layout(crc, h, payload)[..k]) == Decoded([], Layout(crc, h, payload)[..k])
  {
    hide Layout, GetBe32, HeadersFrom;
    var d := Layout(crc, h, payload);
    LayoutParts(crc, h, payload, []);
    assert d + [] == d;
    if k >= PRELUDE_LEN {
      assert d[..k][0..4] == d[0..4];
    }
  }
}
