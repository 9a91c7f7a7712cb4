/** The converter from chat-completion chunks to response events: the language of the event
    streams it writes, and what that language promises to a client. */
module StreamConverter {
  import opened Options

  // ----- Chunks and events --------------------------------------------------------------------

  /** An entry of delta.tool_calls; fields that are missing or not strings read as "". */
  datatype ToolCall = NotAnObject | ToolCall(id: string, name: string, arguments: string)

  datatype Delta = Delta(content: string, toolCalls: seq<ToolCall>)

  datatype Choice = Choice(delta: Option<Delta>, finishReason: string)

  /** A parsed chunk: its model and the first of its choices. */
  datatype Chunk = Chunk(model: string, choice: Option<Choice>)

  datatype Outcome = Accepted | BadFormat | BadJson | SliceOutOfRange

  datatype Input = Sentinel | Payload(chunk: Chunk) | Refused(outcome: Outcome)

  /** The part of one SSE chunk between "data: " and the two line ends. A chunk of exactly seven
      bytes passes the length check and then slices backwards. */
  function Read(data: string, parse: string -> Option<Chunk>): (r: Input)
    ensures r != Refused(Accepted)
  {
    if |data| < 7 || data[..6] != "data: " then Refused(BadFormat)
    else if |data| == 7 then Refused(SliceOutOfRange)
    else
      var json := data[6..|data| - 2];
      if json == "[DONE]" then Sentinel
      else
        match parse(json)
        case None => Refused(BadJson)
        case Some(chunk) => Payload(chunk)
  }

  /** Exactly which chunks crash: "data: " and one more byte. */
  lemma SlicesBackwardsIff(data: string, parse: string -> Option<Chunk>)
    ensures Read(data, parse) == Refused(SliceOutOfRange) <==> |data| == 7 && data[..6] == "data: "
  {
  }

  /** What a framed text says: the sentinel for exactly [DONE], otherwise what the JSON parser makes of
      the whole of it. The two bytes behind it may be anything. */
  lemma ReadsFramed(text: string, end: string, parse: string -> Option<Chunk>)
    requires |end| == 2
    ensures Read("data: " + text + end, parse)
            == if text == "[DONE]" then Sentinel
               else if parse(text).None? then Refused(BadJson)
               else Payload(parse(text).value)
  {
    var data := "data: " + text + end;
    assert data[..6] == "data: " && data[6..|data| - 2] == text;
  }

  /** Exactly which chunks are refused unread: those too short for the frame, or of another field. */
  lemma RefusesUnframedIff(data: string, parse: string -> Option<Chunk>)
    ensures Read(data, parse) == Refused(BadFormat) <==> |data| < 7 || !("data: " <= data)
  {
    assert |data| >= 6 ==> ("data: " <= data <==> data[..6] == "data: ");
  }

  datatype Item = Message(id: string) | FunctionCall(id: string, name: string)

  datatype Event =
    | Created(model: string)
    | InProgress(model: string)
    | ItemAdded(item: Item)
    | TextDelta(delta: string)
    | ArgumentsDelta(itemId: string, arguments: string)
    | TextDone(text: string)
    | ItemDone(done: Item, content: string)
    | Completed(status: string, finalModel: string, output: seq<Item>)

  // ----- The converter on values ----------------------------------------------------------------

  datatype Converter = Converter(
    created: bool, completed: bool, model: string, messageId: string, open: bool, text: string,
    items: seq<Item>, written: seq<Event>)

  function Fresh(messageId: string): Converter {
    Converter(false, false, "", messageId, false, "", [], [])
  }

  function Emit(c: Converter, e: Event): Converter {
    c.(written := c.written + [e])
  }

  function WithModel(c: Converter, model: string): Converter {
    if c.model == "" then c.(model := model) else c
  }

  function Begin(c: Converter): Converter {
    if c.created then c
    else Emit(Emit(c, Created(c.model)), InProgress(c.model)).(created := true)
  }

  function AddItem(c: Converter, item: Item): Converter {
    Emit(c.(items := c.items + [item]), ItemAdded(item))
  }

  function OpenMessage(c: Converter): Converter {
    if c.open then c else AddItem(c, Message(c.messageId)).(open := true)
  }

  function AddContent(c: Converter, content: string): Converter {
    if content == "" then c
    else
      var o := OpenMessage(c);
      Emit(o.(text := o.text + content), TextDelta(content))
  }

  function AddCall(c: Converter, call: ToolCall): Converter {
    match call
    case NotAnObject => c
    case ToolCall(id, name, arguments) =>
      var a := if id != "" then AddItem(c, FunctionCall(id, name)) else c;
      if arguments != "" then Emit(a, ArgumentsDelta(id, arguments)) else a
  }

  function AddCalls(c: Converter, calls: seq<ToolCall>): Converter {
    if calls == [] then c
    else AddCall(AddCalls(c, calls[..|calls| - 1]), calls[|calls| - 1])
  }

  function CloseText(c: Converter): Converter {
    if c.open then Emit(Emit(c, TextDone(c.text)), ItemDone(Message(c.messageId), c.text)) else c
  }

  function CloseCalls(c: Converter, items: seq<Item>): Converter {
    if items == [] then c
    else
      var before := CloseCalls(c, items[..|items| - 1]);
      var last := items[|items| - 1];
      if last.FunctionCall? then Emit(before, ItemDone(last, "")) else before
  }

  function Complete(c: Converter, status: string): Converter {
    Emit(c, Completed(status, c.model, c.items)).(completed := true)
  }

  function Finish(c: Converter, reason: string): Converter {
    Complete(CloseCalls(CloseText(c), c.items), if reason == "length" then "incomplete" else "completed")
  }

  /** The sentinel closes the message only: function calls get no done event. */
  function EndOfStream(c: Converter): Converter {
    Complete(CloseText(c), "completed")
  }

  function ApplyDelta(c: Converter, delta: Delta): Converter {
    AddCalls(AddContent(c, delta.content), delta.toolCalls)
  }

  function ApplyChoice(c: Converter, choice: Choice): Converter {
    var d := if choice.delta.Some? then ApplyDelta(c, choice.delta.value) else c;
    if choice.finishReason != "" then Finish(d, choice.finishReason) else d
  }

  function Process(c: Converter, input: Input): Converter {
    if c.completed then c
    else
      match input
      case Refused(_) => c
      case Sentinel => EndOfStream(c)
      case Payload(chunk) =>
        var b := Begin(WithModel(c, chunk.model));
        if chunk.choice.Some? then ApplyChoice(b, chunk.choice.value) else b
  }

  function Run(messageId: string, inputs: seq<Input>): Converter {
    if inputs == [] then Fresh(messageId)
    else Process(Run(messageId, inputs[..|inputs| - 1]), inputs[|inputs| - 1])
  }

  // ----- The language of event streams --------------------------------------------------------------

  function Added(w: seq<Event>): seq<Item> {
    if w == [] then []
    else
      var before := Added(w[..|w| - 1]);
      if w[|w| - 1].ItemAdded? then before + [w[|w| - 1].item] else before
  }

  function Finished(w: seq<Event>): seq<Item> {
    if w == [] then []
    else
      var before := Finished(w[..|w| - 1]);
      if w[|w| - 1].ItemDone? then before + [w[|w| - 1].done] else before
  }

  /** All the text deltas, one after the other. */
  function Deltas(w: seq<Event>): string {
    if w == [] then ""
    else
      var before := Deltas(w[..|w| - 1]);
      if w[|w| - 1].TextDelta? then before + w[|w| - 1].delta else before
  }

  predicate IsClosing(e: Event) {
    e.TextDone? || e.ItemDone? || e.Completed?
  }

  predicate Closing(w: seq<Event>) {
    w != [] && IsClosing(w[|w| - 1])
  }

  predicate Started(w: seq<Event>) {
    |w| >= 2 && w[0].Created? && w[1].InProgress?
  }

  function Messages(items: seq<Item>): (r: seq<Item>)
    ensures forall i :: 0 <= i < |r| ==> r[i].Message?
  {
    if items == [] then []
    else
      var before := Messages(items[..|items| - 1]);
      if items[|items| - 1].Message? then before + [items[|items| - 1]] else before
  }

  function Calls(items: seq<Item>): (r: seq<Item>)
    ensures forall i :: 0 <= i < |r| ==> r[i].FunctionCall?
  {
    if items == [] then []
    else
      var before := Calls(items[..|items| - 1]);
      if items[|items| - 1].FunctionCall? then before + [items[|items| - 1]] else before
  }

  /** When `e` may follow the stream `w`. */
  ghost predicate Admissible(w: seq<Event>, e: Event) {
    && (w != [] ==> !w[|w| - 1].Completed?)
    && match e
       case Created(_) => w == []
       case InProgress(model) => w == [Created(model)]
       case ItemAdded(item) =>
         Started(w) && !Closing(w) && (item.Message? ==> Messages(Added(w)) == [])
       case TextDelta(delta) =>
         Started(w) && !Closing(w) && delta != "" && |Messages(Added(w))| == 1
       case ArgumentsDelta(id, arguments) =>
         Started(w) && !Closing(w) && arguments != ""
         && (id != "" ==> w[|w| - 1].ItemAdded? && w[|w| - 1].item.FunctionCall? && w[|w| - 1].item.id == id)
       case TextDone(text) =>
         Started(w) && !Closing(w) && text == Deltas(w) && |Messages(Added(w))| == 1
       case ItemDone(Message(id), content) =>
         Started(w) && w[|w| - 1] == TextDone(content) && Messages(Added(w)) == [Message(id)]
       case ItemDone(call, _) =>
         Started(w) && !w[|w| - 1].TextDone? && Finished(w) + [call] <= Messages(Added(w)) + Calls(Added(w))
       case Completed(_, _, output) =>
         && (w == [] || Started(w)) && output == Added(w)
         && (Finished(w) == Messages(output) || Finished(w) == Messages(output) + Calls(output))
  }

  ghost predicate InLanguage(w: seq<Event>) {
    w != [] ==> InLanguage(w[..|w| - 1]) && Admissible(w[..|w| - 1], w[|w| - 1])
  }

  lemma Snoc(w: seq<Event>, e: Event)
    ensures (w + [e])[..|w + [e]| - 1] == w
    ensures Added(w + [e]) == if e.ItemAdded? then Added(w) + [e.item] else Added(w)
    ensures Finished(w + [e]) == if e.ItemDone? then Finished(w) + [e.done] else Finished(w)
    ensures Deltas(w + [e]) == if e.TextDelta? then Deltas(w) + e.delta else Deltas(w)
    ensures InLanguage(w + [e]) <==> InLanguage(w) && Admissible(w, e)
  {
    hide Admissible;
    assert (w + [e])[..|w + [e]| - 1] == w;
  }

  lemma ItemSnoc(items: seq<Item>, item: Item)
    ensures Messages(items + [item]) == if item.Message? then Messages(items) + [item] else Messages(items)
    ensures Calls(items + [item]) == if item.FunctionCall? then Calls(items) + [item] else Calls(items)
  {
    assert (items + [item])[..|items + [item]| - 1] == items;
  }

  lemma {:induction false} CallsPrefix(items: seq<Item>, k: nat)
    requires k <= |items|
    ensures Calls(items[..k]) <= Calls(items)
  {
    if k < |items| {
      var front := items[..|items| - 1];
      CallsPrefix(front, k);
      assert front[..k] == items[..k];
    } else {
      assert items[..k] == items;
    }
  }

  // ----- The converter stays in the language --------------------------------------------------------

  /** What the fields say about the events written so far. */
  ghost predicate Tracks(c: Converter) {
    && InLanguage(c.written)
    && Added(c.written) == c.items
    && Deltas(c.written) == c.text
    && (c.created <==> Started(c.written))
    && (c.created || !c.open)
    && Messages(c.items) == if c.open then [Message(c.messageId)] else []
  }

  ghost predicate Streaming(c: Converter) {
    && Tracks(c) && !c.completed
    && (c.created || c.written == [])
    && !Closing(c.written) && Finished(c.written) == []
  }

  /** The message is done, and so are the calls among the first `k` items. */
  ghost predicate ClosedUpTo(c: Converter, k: nat) {
    && Tracks(c) && !c.completed && k <= |c.items|
    && (c.created || c.written == [])
    && (c.written != [] ==> !c.written[|c.written| - 1].Completed? && !c.written[|c.written| - 1].TextDone?)
    && Finished(c.written) == Messages(c.items) + Calls(c.items[..k])
  }

  ghost predicate Ended(c: Converter) {
    && Tracks(c) && c.completed
    && c.written != [] && c.written[|c.written| - 1].Completed?
    && (Finished(c.written) == Messages(c.items) || Finished(c.written) == Messages(c.items) + Calls(c.items))
  }

  lemma FreshStreams(messageId: string)
    ensures Streaming(Fresh(messageId))
  {
  }

  lemma BeginStreams(c: Converter)
    requires Streaming(c)
    ensures Streaming(Begin(c)) && Begin(c).created
  {
    hide InLanguage, Added, Finished, Deltas, Messages;
    if !c.created {
      Snoc([], Created(c.model));
      Snoc([Created(c.model)], InProgress(c.model));
      assert [] + [Created(c.model)] == [Created(c.model)];
      assert Begin(c).written == [Created(c.model)] + [InProgress(c.model)];
    }
  }

  lemma OpenMessageStreams(c: Converter)
    requires Streaming(c) && c.created
    ensures Streaming(OpenMessage(c)) && OpenMessage(c).created
  {
    hide InLanguage, Added, Finished, Deltas, Messages;
    if !c.open {
      Snoc(c.written, ItemAdded(Message(c.messageId)));
      ItemSnoc(c.items, Message(c.messageId));
    }
  }

  lemma TextStreams(c: Converter, content: string)
    requires Streaming(c) && c.created && c.open && content != ""
    ensures Streaming(Emit(c.(text := c.text + content), TextDelta(content)))
  {
    hide InLanguage, Added, Finished, Deltas, Messages;
    Snoc(c.written, TextDelta(content));
  }

  lemma AddContentStreams(c: Converter, content: string)
    requires Streaming(c) && c.created
    ensures Streaming(AddContent(c, content)) && AddContent(c, content).created
  {
    hide Streaming;
    if content != "" {
      OpenMessageStreams(c);
      TextStreams(OpenMessage(c), content);
    }
  }

  lemma AddItemStreams(c: Converter, item: Item)
    requires Streaming(c) && c.created && item.FunctionCall?
    ensures Streaming(AddItem(c, item))
  {
    hide InLanguage, Added, Finished, Deltas, Messages;
    Snoc(c.written, ItemAdded(item));
    ItemSnoc(c.items, item);
  }

  lemma ArgumentsStream(c: Converter, id: string, arguments: string)
    requires Streaming(c) && c.created && Admissible(c.written, ArgumentsDelta(id, arguments))
    ensures Streaming(Emit(c, ArgumentsDelta(id, arguments)))
  {
    hide InLanguage, Admissible, Added, Finished, Deltas, Messages;
    Snoc(c.written, ArgumentsDelta(id, arguments));
  }

  lemma AddCallStreams(c: Converter, call: ToolCall)
    requires Streaming(c) && c.created
    ensures Streaming(AddCall(c, call)) && AddCall(c, call).created
  {
    hide InLanguage, Added, Finished, Deltas, Messages;
    if call.ToolCall? {
      var item := FunctionCall(call.id, call.name);
      var a := if call.id != "" then AddItem(c, item) else c;
      if call.id != "" {
        AddItemStreams(c, item);
      }
      assert Started(a.written) && !Closing(a.written);
      hide Tracks;
      if call.arguments != "" {
        ArgumentsStream(a, call.id, call.arguments);
      }
    }
  }

  lemma {:induction false} AddCallsStreams(c: Converter, calls: seq<ToolCall>)
    requires Streaming(c) && c.created
    ensures Streaming(AddCalls(c, calls)) && AddCalls(c, calls).created
  {
    hide Streaming, AddCall;
    if calls != [] {
      AddCallsStreams(c, calls[..|calls| - 1]);
      AddCallStreams(AddCalls(c, calls[..|calls| - 1]), calls[|calls| - 1]);
    }
  }

  lemma TextDoneTracks(c: Converter)
    requires Streaming(c) && c.open
    ensures var d := Emit(c, TextDone(c.text));
            && Tracks(d) && Finished(d.written) == []
            && Admissible(d.written, ItemDone(Message(c.messageId), c.text))
  {
    hide InLanguage, Added, Finished, Deltas, Messages, Calls;
    Snoc(c.written, TextDone(c.text));
    assert Admissible(c.written, TextDone(c.text));
    EmitTracks(c, TextDone(c.text));
  }

  lemma CloseTextCloses(c: Converter)
    requires Streaming(c)
    ensures ClosedUpTo(CloseText(c), 0) && CloseText(c).items == c.items
  {
    assert Calls(c.items[..0]) == [];
    hide InLanguage, Added, Finished, Deltas, Messages, Calls;
    if c.open {
      var d, item := Emit(c, TextDone(c.text)), ItemDone(Message(c.messageId), c.text);
      TextDoneTracks(c);
      hide Admissible;
      EmitTracks(d, item);
      Snoc(d.written, item);
    }
  }

  lemma {:induction false} CloseCallsCloses(c: Converter, k: nat)
    requires ClosedUpTo(c, 0) && k <= |c.items|
    ensures ClosedUpTo(CloseCalls(c, c.items[..k]), k) && CloseCalls(c, c.items[..k]).items == c.items
  {
    hide *;
    if k == 0 {
      CloseNoCalls(c);
    } else {
      CloseCallsCloses(c, k - 1);
      CloseCallsStep(c, k - 1);
      CloseOneCall(CloseCalls(c, c.items[..k - 1]), k - 1);
      EmitKeepsItems(CloseCalls(c, c.items[..k - 1]), ItemDone(c.items[k - 1], ""));
    }
  }

  lemma CloseNoCalls(c: Converter)
    ensures CloseCalls(c, c.items[..0]) == c
  {
  }

  lemma CloseCallsStep(c: Converter, k: nat)
    requires k < |c.items|
    ensures var before := CloseCalls(c, c.items[..k]);
            CloseCalls(c, c.items[..k + 1])
            == if c.items[k].FunctionCall? then Emit(before, ItemDone(c.items[k], "")) else before
  {
    hide Emit;
    assert c.items[..k + 1][..k] == c.items[..k];
  }

  lemma EmitKeepsItems(c: Converter, e: Event)
    ensures Emit(c, e).items == c.items
  {
  }

  /** A closing event changes neither the items nor the text. */
  lemma EmitTracks(c: Converter, e: Event)
    requires Tracks(c) && Admissible(c.written, e) && IsClosing(e)
    requires c.created || c.written == []
    ensures Tracks(Emit(c, e))
  {
    hide InLanguage, Admissible, Added, Finished, Deltas, Messages, Calls;
    Snoc(c.written, e);
  }

  lemma CloseOneCall(c: Converter, k: nat)
    requires ClosedUpTo(c, k) && k < |c.items|
    ensures ClosedUpTo(if c.items[k].FunctionCall? then Emit(c, ItemDone(c.items[k], "")) else c, k + 1)
  {
    var item := c.items[k];
    assert c.items[..k + 1] == c.items[..k] + [item];
    ItemSnoc(c.items[..k], item);
    if item.FunctionCall? {
      CallsPrefix(c.items, k + 1);
      CloseCall(c, k);
    }
  }

  lemma CloseCall(c: Converter, k: nat)
    requires ClosedUpTo(c, k) && k < |c.items| && c.items[k].FunctionCall?
    requires Calls(c.items[..k + 1]) == Calls(c.items[..k]) + [c.items[k]]
    requires Calls(c.items[..k + 1]) <= Calls(c.items)
    ensures ClosedUpTo(Emit(c, ItemDone(c.items[k], "")), k + 1)
  {
    var item, w := c.items[k], c.written;
    assert Added([]) == [];
    hide InLanguage, Added, Deltas, Messages, Calls, Finished;
    assert Finished(w) + [item] == Messages(c.items) + Calls(c.items[..k + 1]);
    assert Admissible(w, ItemDone(item, ""));
    hide Admissible;
    EmitTracks(c, ItemDone(item, ""));
    Snoc(w, ItemDone(item, ""));
  }

  lemma MayComplete(c: Converter, k: nat, status: string)
    requires ClosedUpTo(c, k) && (k == 0 || k == |c.items|)
    ensures Admissible(c.written, Completed(status, c.model, c.items))
  {
    assert Calls(c.items[..0]) == [];
    assert c.items[..|c.items|] == c.items;
    hide InLanguage, Added, Finished, Deltas, Messages, Calls;
  }

  lemma MarkingTracks(c: Converter)
    requires Tracks(c)
    ensures Tracks(c.(completed := true))
  {
    hide InLanguage, Added, Finished, Deltas, Messages, Calls, Started;
  }

  lemma CompleteEnds(c: Converter, k: nat, status: string)
    requires ClosedUpTo(c, k) && (k == 0 || k == |c.items|)
    ensures Ended(Complete(c, status)) && Finished(Complete(c, status).written) == Finished(c.written)
  {
    var e := Completed(status, c.model, c.items);
    assert Calls(c.items[..0]) == [];
    assert c.items[..|c.items|] == c.items;
    MayComplete(c, k, status);
    hide Tracks, Admissible, Finished, Messages, Calls;
    EmitTracks(c, e);
    MarkingTracks(Emit(c, e));
    Snoc(c.written, e);
  }

  lemma FinishEnds(c: Converter, reason: string)
    requires Streaming(c)
    ensures Ended(Finish(c, reason)) && Finish(c, reason).items == c.items
    ensures Finished(Finish(c, reason).written) == Messages(c.items) + Calls(c.items)
  {
    assert c.items[..|c.items|] == c.items;
    CloseTextCloses(c);
    CloseCallsCloses(CloseText(c), |c.items|);
    CompleteEnds(CloseCalls(CloseText(c), c.items), |c.items|, if reason == "length" then "incomplete" else "completed");
  }

  lemma EndOfStreamEnds(c: Converter)
    requires Streaming(c)
    ensures Ended(EndOfStream(c)) && EndOfStream(c).items == c.items
    ensures Finished(EndOfStream(c).written) == Messages(c.items)
  {
    CloseTextCloses(c);
    CompleteEnds(CloseText(c), 0, "completed");
    assert Calls(c.items[..0]) == [];
  }

  lemma ProcessKeeps(c: Converter, input: Input)
    requires Streaming(c) || Ended(c)
    ensures Streaming(Process(c, input)) || Ended(Process(c, input))
    ensures Streaming(c) ==> (Process(c, input).completed <==> Ends(input))
  {
    assert Ended(c) ==> c.completed;
    assert Streaming(c) ==> !c.completed;
    if !c.completed {
      match input {
        case Refused(_) =>
        case Sentinel => EndOfStreamEnds(c);
        case Payload(chunk) => PayloadKeeps(c, chunk);
      }
    }
  }

  lemma WithModelStreams(c: Converter, model: string)
    requires Streaming(c)
    ensures Streaming(WithModel(c, model))
  {
  }

  lemma PayloadKeeps(c: Converter, chunk: Chunk)
    requires Streaming(c)
    ensures var r := Process(c, Payload(chunk));
            if Ends(Payload(chunk)) then Ended(r) else Streaming(r) && r.created
  {
    hide WithModel, Begin, AddContent, AddCalls, Finish, Tracks;
    var b := Begin(WithModel(c, chunk.model));
    WithModelStreams(c, chunk.model);
    BeginStreams(WithModel(c, chunk.model));
    if chunk.choice.Some? {
      var choice := chunk.choice.value;
      var d := if choice.delta.Some? then ApplyDelta(b, choice.delta.value) else b;
      if choice.delta.Some? {
        AddContentStreams(b, choice.delta.value.content);
        AddCallsStreams(AddContent(b, choice.delta.value.content), choice.delta.value.toolCalls);
      }
      if choice.finishReason != "" {
        FinishEnds(d, choice.finishReason);
      }
    }
  }

  /** The input is the last one that is listened to. */
  predicate Ends(input: Input) {
    match input
    case Refused(_) => false
    case Sentinel => true
    case Payload(chunk) => chunk.choice.Some? && chunk.choice.value.finishReason != ""
  }

  /** Whatever arrives, malformed chunks included, the events written form a stream of the
      language, and the stream is complete exactly when some chunk asked for it. */
  lemma {:induction false} AlwaysInLanguage(messageId: string, inputs: seq<Input>)
    ensures InLanguage(Run(messageId, inputs).written)
    ensures if Over(inputs) then Ended(Run(messageId, inputs)) else Streaming(Run(messageId, inputs))
  {
    hide Process, Ends;
    if inputs == [] {
      FreshStreams(messageId);
    } else {
      var front, last := inputs[..|inputs| - 1], inputs[|inputs| - 1];
      AlwaysInLanguage(messageId, front);
      var c := Run(messageId, front);
      ProcessKeeps(c, last);
      EndedStays(c, last);
      assert Over(inputs) <==> Over(front) || Ends(last);
    }
  }

  ghost predicate Over(inputs: seq<Input>) {
    exists i :: 0 <= i < |inputs| && Ends(inputs[i])
  }

  lemma EndedStays(c: Converter, input: Input)
    ensures c.completed ==> Process(c, input) == c
  {
  }

  // ----- What the language promises --------------------------------------------------------------------

  /** response.completed comes at most once, and nothing follows it. */
  lemma {:induction false} CompletedIsLast(w: seq<Event>, k: nat)
    requires InLanguage(w) && k < |w| && w[k].Completed?
    ensures k == |w| - 1
  {
    if k < |w| - 1 {
      CompletedIsLast(w[..|w| - 1], k);
    }
  }

  /** Every item and delta event comes after one pair of created and in-progress events that
      open the stream; a stream that opens otherwise is a lone response.completed. */
  lemma {:induction false} OpensWithPair(w: seq<Event>, k: nat)
    requires InLanguage(w) && k < |w|
    ensures (w[k].Created? <==> k == 0 && w[0].Created?) && (w[k].InProgress? <==> k == 1)
    ensures w[0].Created? || (|w| == 1 && w[0].Completed?)
    ensures |w| >= 2 ==> w[1].InProgress?
  {
    var front := w[..|w| - 1];
    if front != [] {
      OpensWithPair(front, if k < |front| then k else 0);
      if |front| >= 2 {
        OpensWithPair(front, 1);
      }
    }
  }

  /** Text is never cut or repeated: a text-done event carries all the deltas of the stream. */
  lemma {:induction false} TextDoneIsWhole(w: seq<Event>, k: nat)
    requires InLanguage(w) && k < |w| && w[k].TextDone?
    ensures w[k].text == Deltas(w) && Closing(w)
  {
    var front, e := w[..|w| - 1], w[|w| - 1];
    assert InLanguage(front) && Admissible(front, e);
    hide Deltas, InLanguage, Added, Messages, Calls, Finished;
    assert w == front + [e];
    Snoc(front, e);
    if k < |front| {
      TextDoneIsWhole(front, k);
    }
  }

  /** There is at most one message, and it is added before the first text delta. */
  lemma {:induction false} DeltasFollowMessage(w: seq<Event>, k: nat)
    requires InLanguage(w) && k < |w| && w[k].TextDelta?
    ensures exists j :: 0 <= j < k && w[j].ItemAdded? && w[j].item.Message?
  {
    if k < |w| - 1 {
      var front := w[..|w| - 1];
      DeltasFollowMessage(front, k);
      var j :| 0 <= j < k && front[j].ItemAdded? && front[j].item.Message?;
      assert w[j] == front[j];
    } else {
      MessageWasAdded(w[..k]);
    }
  }

  lemma {:induction false} MessageWasAdded(w: seq<Event>)
    requires Messages(Added(w)) != []
    ensures exists j :: 0 <= j < |w| && w[j].ItemAdded? && w[j].item.Message?
  {
    var front, e := w[..|w| - 1], w[|w| - 1];
    if e.ItemAdded? {
      ItemSnoc(Added(front), e.item);
    }
    assert Added(w) == if e.ItemAdded? then Added(front) + [e.item] else Added(front);
    hide Added, Messages;
    if !(e.ItemAdded? && e.item.Message?) {
      MessageWasAdded(front);
      var j :| 0 <= j < |front| && front[j].ItemAdded? && front[j].item.Message?;
      assert w[j] == front[j];
    }
  }

  lemma {:induction false} AtMostOneMessage(w: seq<Event>)
    requires InLanguage(w)
    ensures |Messages(Added(w))| <= 1
  {
    if w != [] {
      var front, e := w[..|w| - 1], w[|w| - 1];
      AtMostOneMessage(front);
      if e.ItemAdded? {
        ItemSnoc(Added(front), e.item);
      }
    }
  }

  lemma {:induction false} KindsSplit(items: seq<Item>)
    ensures multiset(Messages(items) + Calls(items)) == multiset(items)
  {
    if items != [] {
      var front, last := items[..|items| - 1], items[|items| - 1];
      KindsSplit(front);
      assert items == front + [last];
      assert multiset(items) == multiset(front) + multiset([last]);
    }
  }

  /** The stream that a finish reason completes has done what it added, item for item; the
      sentinel leaves every function call open, so there it holds only without calls. */
  lemma DoneMatchesAdded(messageId: string, inputs: seq<Input>, last: Input)
    requires !Over(inputs) && Ends(last)
    ensures var w := Process(Run(messageId, inputs), last).written;
            multiset(Finished(w)) == multiset(Added(w)) <==> last.Payload? || Calls(Added(w)) == []
  {
    hide Run, Process, Added, Finished, Messages, Calls, Over;
    var c := Run(messageId, inputs);
    AlwaysInLanguage(messageId, inputs);
    DoneByKind(c, last);
    var r := Process(c, last);
    KindsSplit(r.items);
    if !last.Payload? {
      var m, k := Messages(r.items), Calls(r.items);
      assert multiset(m + k) == multiset(m) + multiset(k);
      assert |multiset(k)| == |k|;
      if k == [] {
        assert m + k == m;
      } else {
        assert |multiset(m) + multiset(k)| == |multiset(m)| + |k|;
      }
    }
  }

  lemma DoneByKind(c: Converter, last: Input)
    requires Streaming(c) && Ends(last)
    ensures var r := Process(c, last);
            && Added(r.written) == r.items
            && Finished(r.written) == if last.Payload? then Messages(r.items) + Calls(r.items) else Messages(r.items)
  {
    hide Added, Finished, Messages, Calls, Finish, AddContent, AddCalls, Begin, WithModel;
    if last.Sentinel? {
      EndOfStreamEnds(c);
    } else {
      var b := Begin(WithModel(c, last.chunk.model));
      WithModelStreams(c, last.chunk.model);
      BeginStreams(WithModel(c, last.chunk.model));
      var choice := last.chunk.choice.value;
      if choice.delta.Some? {
        AddContentStreams(b, choice.delta.value.content);
        AddCallsStreams(AddContent(b, choice.delta.value.content), choice.delta.value.toolCalls);
        FinishEnds(ApplyDelta(b, choice.delta.value), choice.finishReason);
      } else {
        FinishEnds(b, choice.finishReason);
      }
    }
  }

  // ----- Nothing said upstream is lost -------------------------------------------------------------------

  function ContentOf(input: Input): string {
    if input.Payload? && input.chunk.choice.Some? && input.chunk.choice.value.delta.Some?
    then input.chunk.choice.value.delta.value.content else ""
  }

  /** The calls among tool-call entries that carry an id, in order. */
  function Named(calls: seq<ToolCall>): seq<Item> {
    if calls == [] then []
    else
      var before, last := Named(calls[..|calls| - 1]), calls[|calls| - 1];
      if last.ToolCall? && last.id != "" then before + [FunctionCall(last.id, last.name)] else before
  }

  function CallsOf(input: Input): seq<Item> {
    if input.Payload? && input.chunk.choice.Some? && input.chunk.choice.value.delta.Some?
    then Named(input.chunk.choice.value.delta.value.toolCalls) else []
  }

  /** The content of every chunk up to the one that ends the stream. */
  ghost function Heard(inputs: seq<Input>): string {
    if inputs == [] then ""
    else Heard(inputs[..|inputs| - 1]) + if Over(inputs[..|inputs| - 1]) then "" else ContentOf(inputs[|inputs| - 1])
  }

  /** The tool calls those chunks name. */
  ghost function Announced(inputs: seq<Input>): seq<Item> {
    if inputs == [] then []
    else Announced(inputs[..|inputs| - 1]) + if Over(inputs[..|inputs| - 1]) then [] else CallsOf(inputs[|inputs| - 1])
  }

  lemma AddCallHears(c: Converter, call: ToolCall)
    ensures AddCall(c, call).text == c.text && AddCall(c, call).model == c.model
    ensures Calls(AddCall(c, call).items)
         == if call.ToolCall? && call.id != "" then Calls(c.items) + [FunctionCall(call.id, call.name)] else Calls(c.items)
  {
    hide Calls;
    if call.ToolCall? && call.id != "" {
      ItemSnoc(c.items, FunctionCall(call.id, call.name));
    }
  }

  lemma {:induction false} AddCallsHears(c: Converter, calls: seq<ToolCall>)
    ensures AddCalls(c, calls).text == c.text && AddCalls(c, calls).model == c.model
    ensures Calls(AddCalls(c, calls).items) == Calls(c.items) + Named(calls)
  {
    hide Calls, AddCall;
    if calls != [] {
      var front, last := calls[..|calls| - 1], calls[|calls| - 1];
      AddCallsHears(c, front);
      AddCallHears(AddCalls(c, front), last);
    }
  }

  lemma {:induction false} CloseCallsKeeps(c: Converter, items: seq<Item>)
    ensures CloseCalls(c, items).text == c.text && CloseCalls(c, items).items == c.items
    ensures CloseCalls(c, items).model == c.model
  {
    if items != [] {
      CloseCallsKeeps(c, items[..|items| - 1]);
    }
  }

  lemma AddContentHears(c: Converter, content: string)
    ensures AddContent(c, content).text == c.text + content
    ensures Calls(AddContent(c, content).items) == Calls(c.items)
  {
    ItemSnoc(c.items, Message(c.messageId));
  }

  lemma ProcessHears(c: Converter, input: Input)
    ensures var r := Process(c, input);
            && r.text == c.text + (if c.completed then "" else ContentOf(input))
            && Calls(r.items) == Calls(c.items) + (if c.completed then [] else CallsOf(input))
  {
    hide Calls, ApplyDelta, Begin, WithModel, Finish, Named, CloseText;
    if !c.completed && input.Payload? {
      BeginKeeps(WithModel(c, input.chunk.model));
      WithModelKeeps(c, input.chunk.model);
      if input.chunk.choice.Some? {
        var choice := input.chunk.choice.value;
        var b := Begin(WithModel(c, input.chunk.model));
        var d := if choice.delta.Some? then ApplyDelta(b, choice.delta.value) else b;
        if choice.delta.Some? {
          ApplyDeltaHears(b, choice.delta.value);
        }
        FinishKeeps(d, choice.finishReason);
      }
    } else if !c.completed {
      CloseTextKeeps(c);
    }
  }

  lemma WithModelKeeps(c: Converter, model: string)
    ensures WithModel(c, model).text == c.text && WithModel(c, model).items == c.items
  {
  }

  lemma BeginKeeps(c: Converter)
    ensures Begin(c).text == c.text && Begin(c).items == c.items
  {
  }

  lemma CloseTextKeeps(c: Converter)
    ensures CloseText(c).text == c.text && CloseText(c).items == c.items
  {
  }

  lemma FinishKeeps(c: Converter, reason: string)
    ensures Finish(c, reason).text == c.text && Finish(c, reason).items == c.items
  {
    CloseCallsKeeps(CloseText(c), c.items);
  }

  lemma ApplyDeltaHears(c: Converter, delta: Delta)
    ensures ApplyDelta(c, delta).text == c.text + delta.content
    ensures Calls(ApplyDelta(c, delta).items) == Calls(c.items) + Named(delta.toolCalls)
  {
    hide Calls, AddContent, AddCalls, Named;
    AddContentHears(c, delta.content);
    AddCallsHears(AddContent(c, delta.content), delta.toolCalls);
  }

  /** The text deltas are the content of the chunks, and the calls added are the calls they name,
      up to the chunk that ends the stream. */
  lemma {:induction false} NothingIsLost(messageId: string, inputs: seq<Input>)
    ensures Deltas(Run(messageId, inputs).written) == Heard(inputs)
    ensures Calls(Added(Run(messageId, inputs).written)) == Announced(inputs)
  {
    AlwaysInLanguage(messageId, inputs);
    hide Process, Over, Calls, Deltas, Added;
    if inputs == [] {
      CallsOfNone();
    } else {
      var front, last := inputs[..|inputs| - 1], inputs[|inputs| - 1];
      AlwaysInLanguage(messageId, front);
      NothingIsLost(messageId, front);
      ProcessHears(Run(messageId, front), last);
    }
  }

  lemma CallsOfNone()
    ensures Calls([]) == []
  {
  }

  // ----- Arguments and the final event ------------------------------------------------------------------------

  /** The arguments deltas of a stream, each with the item it names. */
  function Arguments(w: seq<Event>): seq<(string, string)> {
    if w == [] then []
    else
      var before, e := Arguments(w[..|w| - 1]), w[|w| - 1];
      if e.ArgumentsDelta? then before + [(e.itemId, e.arguments)] else before
  }

  /** The arguments among tool-call entries, each with the id of its entry. */
  function Spoken(calls: seq<ToolCall>): seq<(string, string)> {
    if calls == [] then []
    else
      var before, last := Spoken(calls[..|calls| - 1]), calls[|calls| - 1];
      if last.ToolCall? && last.arguments != "" then before + [(last.id, last.arguments)] else before
  }

  function ArgumentsOf(input: Input): seq<(string, string)> {
    if input.Payload? && input.chunk.choice.Some? && input.chunk.choice.value.delta.Some?
    then Spoken(input.chunk.choice.value.delta.value.toolCalls) else []
  }

  ghost function HeardArguments(inputs: seq<Input>): seq<(string, string)> {
    if inputs == [] then []
    else HeardArguments(inputs[..|inputs| - 1]) + if Over(inputs[..|inputs| - 1]) then [] else ArgumentsOf(inputs[|inputs| - 1])
  }

  lemma ArgumentsSnoc(w: seq<Event>, e: Event)
    ensures Arguments(w + [e]) == if e.ArgumentsDelta? then Arguments(w) + [(e.itemId, e.arguments)] else Arguments(w)
  {
    assert (w + [e])[..|w + [e]| - 1] == w;
  }

  lemma BeginIsSilent(c: Converter)
    ensures Arguments(Begin(c).written) == Arguments(c.written)
  {
    hide Arguments;
    ArgumentsSnoc(c.written, Created(c.model));
    ArgumentsSnoc(c.written + [Created(c.model)], InProgress(c.model));
  }

  lemma AddContentIsSilent(c: Converter, content: string)
    ensures Arguments(AddContent(c, content).written) == Arguments(c.written)
  {
    hide Arguments;
    ArgumentsSnoc(c.written, ItemAdded(Message(c.messageId)));
    ArgumentsSnoc(OpenMessage(c).written, TextDelta(content));
  }

  lemma {:induction false} AddCallsSpeaks(c: Converter, calls: seq<ToolCall>)
    ensures Arguments(AddCalls(c, calls).written) == Arguments(c.written) + Spoken(calls)
  {
    hide Arguments;
    if calls != [] {
      var front, last := calls[..|calls| - 1], calls[|calls| - 1];
      AddCallsSpeaks(c, front);
      AddCallSpeaks(AddCalls(c, front), last);
    }
  }

  lemma AddCallSpeaks(c: Converter, call: ToolCall)
    ensures Arguments(AddCall(c, call).written)
         == if call.ToolCall? && call.arguments != "" then Arguments(c.written) + [(call.id, call.arguments)] else Arguments(c.written)
  {
    hide Arguments;
    if call.ToolCall? {
      var item := FunctionCall(call.id, call.name);
      var a := if call.id != "" then AddItem(c, item) else c;
      ArgumentsSnoc(c.written, ItemAdded(item));
      ArgumentsSnoc(a.written, ArgumentsDelta(call.id, call.arguments));
    }
  }

  lemma CloseTextIsSilent(c: Converter)
    ensures Arguments(CloseText(c).written) == Arguments(c.written)
  {
    hide Arguments;
    ArgumentsSnoc(c.written, TextDone(c.text));
    ArgumentsSnoc(c.written + [TextDone(c.text)], ItemDone(Message(c.messageId), c.text));
  }

  lemma {:induction false} CloseCallsIsSilent(c: Converter, items: seq<Item>)
    ensures Arguments(CloseCalls(c, items).written) == Arguments(c.written)
  {
    hide Arguments;
    if items != [] {
      var front := items[..|items| - 1];
      CloseCallsIsSilent(c, front);
      ArgumentsSnoc(CloseCalls(c, front).written, ItemDone(items[|items| - 1], ""));
    }
  }

  lemma CompleteIsSilent(c: Converter, status: string)
    ensures Arguments(Complete(c, status).written) == Arguments(c.written)
  {
    hide Arguments;
    ArgumentsSnoc(c.written, Completed(status, c.model, c.items));
  }

  lemma EndIsSilent(c: Converter, reason: string)
    ensures Arguments(Finish(c, reason).written) == Arguments(c.written)
    ensures Arguments(EndOfStream(c).written) == Arguments(c.written)
  {
    hide Arguments, CloseText, CloseCalls, Complete;
    CloseTextIsSilent(c);
    CloseCallsIsSilent(CloseText(c), c.items);
    CompleteIsSilent(CloseText(c), "completed");
    CompleteIsSilent(CloseCalls(CloseText(c), c.items), if reason == "length" then "incomplete" else "completed");
  }

  lemma ProcessSpeaks(c: Converter, input: Input)
    ensures Arguments(Process(c, input).written) == Arguments(c.written) + if c.completed then [] else ArgumentsOf(input)
  {
    hide Arguments, Begin, AddContent, AddCalls, Finish, EndOfStream, Spoken;
    if !c.completed && input.Payload? {
      var m := WithModel(c, input.chunk.model);
      BeginIsSilent(m);
      if input.chunk.choice.Some? {
        var choice := input.chunk.choice.value;
        var d := if choice.delta.Some? then ApplyDelta(Begin(m), choice.delta.value) else Begin(m);
        if choice.delta.Some? {
          AddContentIsSilent(Begin(m), choice.delta.value.content);
          AddCallsSpeaks(AddContent(Begin(m), choice.delta.value.content), choice.delta.value.toolCalls);
        }
        EndIsSilent(d, choice.finishReason);
      }
    } else if !c.completed {
      EndIsSilent(c, "");
    }
  }

  /** Every piece of arguments the model sends up to the ending chunk is passed on once, in order,
      under the id its entry carried; a piece without an id is passed on without one. */
  lemma {:induction false} ArgumentsPassThrough(messageId: string, inputs: seq<Input>)
    ensures Arguments(Run(messageId, inputs).written) == HeardArguments(inputs)
  {
    hide Process, Over, Arguments, ArgumentsOf;
    if inputs == [] {
      NoArguments();
    } else {
      var front, last := inputs[..|inputs| - 1], inputs[|inputs| - 1];
      AlwaysInLanguage(messageId, front);
      ArgumentsPassThrough(messageId, front);
      ProcessSpeaks(Run(messageId, front), last);
    }
  }

  lemma NoArguments()
    ensures Arguments([]) == []
  {
  }

  /** The first model any chunk names. */
  function FirstModel(inputs: seq<Input>): string {
    if inputs == [] then ""
    else
      var before, last := FirstModel(inputs[..|inputs| - 1]), inputs[|inputs| - 1];
      if before == "" && last.Payload? then last.chunk.model else before
  }

  lemma ProcessModel(c: Converter, input: Input)
    requires !c.completed
    ensures Process(c, input).model == if c.model == "" && input.Payload? then input.chunk.model else c.model
  {
    hide AddContent, AddCalls, CloseCalls;
    if input.Payload? && input.chunk.choice.Some? {
      var choice := input.chunk.choice.value;
      var b := Begin(WithModel(c, input.chunk.model));
      var d := if choice.delta.Some? then ApplyDelta(b, choice.delta.value) else b;
      if choice.delta.Some? {
        ContentKeepsModel(b, choice.delta.value.content);
        AddCallsHears(AddContent(b, choice.delta.value.content), choice.delta.value.toolCalls);
      }
      CloseCallsKeeps(CloseText(d), d.items);
    }
  }

  lemma ContentKeepsModel(c: Converter, content: string)
    ensures AddContent(c, content).model == c.model
  {
  }

  lemma {:induction false} RunModel(messageId: string, inputs: seq<Input>)
    requires !Over(inputs)
    ensures Run(messageId, inputs).model == FirstModel(inputs) && !Run(messageId, inputs).completed
  {
    AlwaysInLanguage(messageId, inputs);
    if inputs != [] {
      hide Process;
      var front, last := inputs[..|inputs| - 1], inputs[|inputs| - 1];
      forall i | 0 <= i < |front| ensures !Ends(front[i]) {
        assert front[i] == inputs[i];
      }
      RunModel(messageId, front);
      ProcessModel(Run(messageId, front), last);
    }
  }

  /** The last event reports the first model named, every item added, and "incomplete" exactly when
      the ending chunk gave length as its reason. */
  lemma FinalEvent(messageId: string, inputs: seq<Input>, last: Input)
    requires !Over(inputs) && Ends(last)
    ensures var w := Process(Run(messageId, inputs), last).written;
            var status := if last.Payload? && last.chunk.choice.value.finishReason == "length" then "incomplete" else "completed";
            w != [] && w[|w| - 1] == Completed(status, FirstModel(inputs + [last]), Added(w))
  {
    assert (inputs + [last])[..|inputs|] == inputs;
    assert FirstModel(inputs + [last]) ==
      if FirstModel(inputs) == "" && last.Payload? then last.chunk.model else FirstModel(inputs);
    hide Run, Over, Added, Process, Streaming, Finished, Messages, Calls, FirstModel, Ends, Tracks, InLanguage;
    var c := Run(messageId, inputs);
    RunModel(messageId, inputs);
    AlwaysInLanguage(messageId, inputs);
    ProcessModel(c, last);
    DoneByKind(c, last);
    LastEvent(c, last);
  }

  lemma LastEvent(c: Converter, last: Input)
    requires !c.completed && Ends(last)
    ensures var r := Process(c, last);
            var status := if last.Payload? && last.chunk.choice.value.finishReason == "length" then "incomplete" else "completed";
            r.written != [] && r.written[|r.written| - 1] == Completed(status, r.model, r.items)
  {
    hide ApplyDelta, Begin, WithModel, CloseText, CloseCalls;
    if last.Payload? {
      var choice := last.chunk.choice.value;
      var b := Begin(WithModel(c, last.chunk.model));
      var d := if choice.delta.Some? then ApplyDelta(b, choice.delta.value) else b;
      CloseTextKeeps(d);
      CloseCallsKeeps(CloseText(d), d.items);
    } else {
      CloseTextKeeps(c);
    }
  }

  /** What a client reads in output_text.done is everything the model said. */
  lemma WholeText(messageId: string, inputs: seq<Input>, k: nat)
    requires k < |Run(messageId, inputs).written| && Run(messageId, inputs).written[k].TextDone?
    ensures Run(messageId, inputs).written[k].text == Heard(inputs)
  {
    hide Run, Heard;
    AlwaysInLanguage(messageId, inputs);
    TextDoneIsWhole(Run(messageId, inputs).written, k);
    NothingIsLost(messageId, inputs);
  }

  // ----- The converter ---------------------------------------------------------------------------------------

  class StreamConverter {
    const messageId: string
    var created: bool
    var completed: bool
    var model: string
    var currentItem: Option<Item>
    var contentBuffer: string
    var outputItems: seq<Item>
    var eventWriter: seq<Event>

    ghost predicate Valid()
      reads this
    {
      currentItem.Some? ==> currentItem.value == Message(messageId)
    }

    ghost function Value(): Converter
      reads this
    {
      Converter(created, completed, model, messageId, currentItem.Some?, contentBuffer, outputItems, eventWriter)
    }

    /** `messageId` stands for the id drawn when the first text arrives. */
    constructor (messageId: string)
      ensures Valid() && Value() == Fresh(messageId)
    {
      this.messageId := messageId;
      created, completed, model := false, false, "";
      currentItem, contentBuffer, outputItems, eventWriter := None, "", [], [];
    }

    method ProcessChunk(data: string, parse: string -> Option<Chunk>) returns (r: Outcome)
      requires Valid()
      modifies this
      ensures Valid() && Value() == Process(old(Value()), Read(data, parse))
      ensures r == if !old(completed) && Read(data, parse).Refused? then Read(data, parse).outcome else Accepted
    {
      hide AddContent, AddCalls, Finish, EndOfStream;
      if completed {
        return Accepted;
      }
      if |data| < 7 || data[..6] != "data: " {
        return BadFormat;
      }
      if |data| == 7 {
        return SliceOutOfRange;
      }
      var json := data[6..|data| - 2];
      if json == "[DONE]" {
        EmitCompletedEvent();
        return Accepted;
      }
      var parsed := parse(json);
      if parsed.None? {
        return BadJson;
      }
      var chunk := parsed.value;
      if model == "" {
        model := chunk.model;
      }
      if !created {
        eventWriter := eventWriter + [Created(model)];
        eventWriter := eventWriter + [InProgress(model)];
        created := true;
      }
      if chunk.choice.Some? {
        var choice := chunk.choice.value;
        if choice.delta.Some? {
          var delta := choice.delta.value;
          if delta.content != "" {
            EmitContentDelta(delta.content);
          } else {
            NoContent(Value());
          }
          HandleToolCallsDelta(delta.toolCalls);
        }
        if choice.finishReason != "" {
          EmitFinishEvents(choice.finishReason);
        }
      }
      return Accepted;
    }

    method EmitContentDelta(content: string)
      requires Valid() && content != ""
      modifies this
      ensures Valid() && Value() == AddContent(old(Value()), content)
    {
      if currentItem.None? {
        currentItem := Some(Message(messageId));
        outputItems := outputItems + [currentItem.value];
        eventWriter := eventWriter + [ItemAdded(currentItem.value)];
      }
      contentBuffer := contentBuffer + content;
      eventWriter := eventWriter + [TextDelta(content)];
    }

    method HandleToolCallsDelta(toolCalls: seq<ToolCall>)
      requires Valid()
      modifies this
      ensures Valid() && Value() == AddCalls(old(Value()), toolCalls)
    {
      var i := 0;
      while i < |toolCalls|
        invariant 0 <= i <= |toolCalls| && Valid()
        invariant Value() == AddCalls(old(Value()), toolCalls[..i])
      {
        assert toolCalls[..i + 1][..i] == toolCalls[..i];
        match toolCalls[i] {
          case NotAnObject =>
          case ToolCall(id, name, arguments) => {
            if id != "" {
              outputItems := outputItems + [FunctionCall(id, name)];
              eventWriter := eventWriter + [ItemAdded(FunctionCall(id, name))];
            }
            if arguments != "" {
              eventWriter := eventWriter + [ArgumentsDelta(id, arguments)];
            }
          }
        }
        i := i + 1;
      }
      assert toolCalls[..i] == toolCalls;
    }

    method EmitTextDone()
      requires Valid()
      modifies this`eventWriter
      ensures Value() == CloseText(old(Value()))
    {
      if currentItem.Some? {
        eventWriter := eventWriter + [TextDone(contentBuffer)];
        eventWriter := eventWriter + [ItemDone(currentItem.value, contentBuffer)];
      }
    }

    method EmitFinishEvents(finishReason: string)
      requires Valid()
      modifies this
      ensures Valid() && Value() == Finish(old(Value()), finishReason)
    {
      hide CloseText;
      CloseTextKeeps(Value());
      var status := if finishReason == "length" then "incomplete" else "completed";
      EmitTextDone();
      ghost var c := Value();
      var i := 0;
      while i < |outputItems|
        invariant 0 <= i <= |outputItems| && Valid()
        invariant c.items == outputItems && Value() == CloseCalls(c, outputItems[..i])
      {
        assert outputItems[..i + 1][..i] == outputItems[..i];
        if outputItems[i].FunctionCall? {
          eventWriter := eventWriter + [ItemDone(outputItems[i], "")];
        }
        i := i + 1;
      }
      assert outputItems[..i] == outputItems;
      completed := true;
      eventWriter := eventWriter + [Completed(status, model, outputItems)];
    }

    method EmitCompletedEvent()
      requires Valid() && !completed
      modifies this
      ensures Valid() && Value() == EndOfStream(old(Value()))
    {
      EmitTextDone();
      completed := true;
      eventWriter := eventWriter + [Completed("completed", model, outputItems)];
    }
  }

  lemma NoContent(c: Converter)
    ensures AddContent(c, "") == c
  {
  }

  // ----- The upstream stream, line by line --------------------------------------------------------------------

  predicate IsData(line: string) {
    "data: " <= line
  }

  /** What the converter is told: the data lines, up to the first one it refuses. */
  function Listened(lines: seq<string>, parse: string -> Option<Chunk>): seq<Input> {
    if lines == [] then []
    else
      var before, last := Listened(lines[..|lines| - 1], parse), lines[|lines| - 1];
      if Stopped(before) || !IsData(last) then before else before + [Read(last + "\n\n", parse)]
  }

  predicate Stopped(inputs: seq<Input>) {
    inputs != [] && inputs[|inputs| - 1].Refused?
  }

  lemma ListensOn(lines: seq<string>, i: nat, parse: string -> Option<Chunk>)
    requires i < |lines|
    ensures Listened(lines[..i + 1], parse)
            == if Stopped(Listened(lines[..i], parse)) || !("data: " <= lines[i]) then Listened(lines[..i], parse)
               else Listened(lines[..i], parse) + [Read(lines[i] + "\n\n", parse)]
  {
    assert lines[..i + 1][..i] == lines[..i];
  }

  lemma {:induction false} StopsForGood(lines: seq<string>, i: nat, parse: string -> Option<Chunk>)
    requires i <= |lines| && Stopped(Listened(lines[..i], parse))
    ensures Listened(lines, parse) == Listened(lines[..i], parse)
    decreases |lines|
  {
    if i == |lines| {
      assert lines[..i] == lines;
    } else {
      assert lines[..|lines| - 1][..i] == lines[..i];
      StopsForGood(lines[..|lines| - 1], i, parse);
    }
  }

  lemma RunSnoc(messageId: string, inputs: seq<Input>, input: Input)
    ensures Run(messageId, inputs + [input]) == Process(Run(messageId, inputs), input)
  {
    assert (inputs + [input])[..|inputs|] == inputs;
  }

  /** One line more: a data line is one more step of the converter, any other changes nothing. */
  lemma ListensStep(messageId: string, lines: seq<string>, i: nat, parse: string -> Option<Chunk>)
    requires i < |lines|
    requires Stopped(Listened(lines[..i], parse)) ==> Run(messageId, Listened(lines[..i], parse)).completed
    ensures var c, c' := Run(messageId, Listened(lines[..i], parse)), Run(messageId, Listened(lines[..i + 1], parse));
            && c' == (if IsData(lines[i]) then Process(c, Read(lines[i] + "\n\n", parse)) else c)
            && (Stopped(Listened(lines[..i + 1], parse)) && !c'.completed ==>
                  IsData(lines[i]) && !c.completed && Read(lines[i] + "\n\n", parse).Refused?)
  {
    hide Run, Process, Listened, Read;
    var input := Read(lines[i] + "\n\n", parse);
    ListensOn(lines, i, parse);
    RunSnoc(messageId, Listened(lines[..i], parse), input);
    EndedStays(Run(messageId, Listened(lines[..i], parse)), input);
  }

  /** handleStreamingResponse: each data line is framed again and handed on; an error ends the loop. */
  method HandleStreamingResponse(converter: StreamConverter, lines: seq<string>, parse: string -> Option<Chunk>)
    requires converter.Valid() && converter.Value() == Fresh(converter.messageId)
    modifies converter
    ensures converter.Valid() && converter.Value() == Run(converter.messageId, Listened(lines, parse))
  {
    ListensToNothing(converter.messageId, lines, parse);
    hide Run, Process, Listened, Read, Stopped, IsData;
    var i := 0;
    while i < |lines|
      invariant 0 <= i <= |lines| && converter.Valid()
      invariant converter.Value() == Run(converter.messageId, Listened(lines[..i], parse))
      invariant Stopped(Listened(lines[..i], parse)) ==> converter.completed
    {
      ListensStep(converter.messageId, lines, i, parse);
      if IsData(lines[i]) {
        var r := converter.ProcessChunk(lines[i] + "\n\n", parse);
        if !r.Accepted? {
          StopsHere(lines, i, parse);
          return;
        }
      }
      i := i + 1;
    }
    assert lines[..i] == lines;
  }

  lemma StopsHere(lines: seq<string>, i: nat, parse: string -> Option<Chunk>)
    requires i < |lines| && IsData(lines[i]) && Read(lines[i] + "\n\n", parse).Refused?
    ensures Listened(lines, parse) == Listened(lines[..i + 1], parse)
  {
    hide Listened, Read;
    ListensOn(lines, i, parse);
    StopsForGood(lines, i + 1, parse);
  }

  lemma ListensToNothing(messageId: string, lines: seq<string>, parse: string -> Option<Chunk>)
    ensures Listened(lines[..0], parse) == [] && Run(messageId, []) == Fresh(messageId) && !Stopped([])
  {
  }

  /** As long as no line before it is refused, a [DONE] line ends the stream properly, whatever came
      before and comes after it: response.completed is the last event the client gets. */
  lemma DoneEndsTheStream(messageId: string, before: seq<string>, after: seq<string>, parse: string -> Option<Chunk>)
    requires forall line :: line in before && "data: " <= line ==> line[6..] == "[DONE]" || parse(line[6..]).Some?
    ensures var w := Run(messageId, Listened(before + ["data: [DONE]"] + after, parse)).written;
            w != [] && w[|w| - 1].Completed?
  {
    hide Run, Listened, Read, Process, InLanguage, Added, Finished, Deltas, Messages, Calls;
    var first, all := before + ["data: [DONE]"], before + ["data: [DONE]"] + after;
    assert first[..|before|] == before && all[..|first|] == first;
    NotStopped(before, parse);
    ListensOn(first, |before|, parse);
    assert first[..|before| + 1] == first;
    ReadsFramed("[DONE]", "\n\n", parse);
    assert "data: [DONE]" + "\n\n" == "data: " + "[DONE]" + "\n\n";
    assert Listened(first, parse)[|Listened(first, parse)| - 1] == Sentinel;
    ListenedGrows(all, |first|, parse);
    assert Over(Listened(all, parse)) by {
      assert Ends(Listened(all, parse)[|Listened(first, parse)| - 1]);
    }
    AlwaysInLanguage(messageId, Listened(all, parse));
  }

  lemma {:induction false} NotStopped(lines: seq<string>, parse: string -> Option<Chunk>)
    requires forall line :: line in lines && "data: " <= line ==> line[6..] == "[DONE]" || parse(line[6..]).Some?
    ensures !Stopped(Listened(lines, parse))
  {
    hide Read;
    if lines != [] {
      var last := lines[|lines| - 1];
      NotStopped(lines[..|lines| - 1], parse);
      if IsData(last) {
        ReadsFramed(last[6..], "\n\n", parse);
        assert last + "\n\n" == "data: " + last[6..] + "\n\n";
      }
    }
  }

  lemma {:induction false} ListenedGrows(lines: seq<string>, i: nat, parse: string -> Option<Chunk>)
    requires i <= |lines|
    ensures Listened(lines[..i], parse) <= Listened(lines, parse)
    decreases |lines|
  {
    hide Read;
    if i == |lines| {
      assert lines[..i] == lines;
    } else {
      assert lines[..|lines| - 1][..i] == lines[..i];
      ListenedGrows(lines[..|lines| - 1], i, parse);
    }
  }
}
