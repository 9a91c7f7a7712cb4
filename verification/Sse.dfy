/** Server-sent events: the printer, the line-based parser, and their round trip. */
module Sse {
  import opened Decimal
  import opened Options
  import opened Lines

  datatype Event = Event(event: string, id: string, data: string, retry: Int64)

  const EMPTY := Event("", "", "", 0)

  // ----- Printing -----------------------------------------------------------------

  function DataText(lines: seq<string>): string {
    if lines == [] then "" else "data: " + lines[0] + "\n" + DataText(lines[1..])
  }

  function NameText(e: Event): string {
    if e.event != "" then "event: " + e.event + "\n" else ""
  }

  function IdText(e: Event): string {
    if e.id != "" then "id: " + e.id + "\n" else ""
  }

  function RetryText(e: Event): string {
    if e.retry > 0 then "retry: " + Text(e.retry) + "\n" else ""
  }

  function DataLinesOf(e: Event): seq<string> {
    if e.data != "" then Split(e.data) else []
  }

  /** The wire form of an event. */
  function Print(e: Event): string {
    NameText(e) + (IdText(e) + (RetryText(e) + (DataText(DataLinesOf(e)) + "\n")))
  }

  function PrintAll(es: seq<Event>): string {
    if es == [] then "" else Print(es[0]) + PrintAll(es[1..])
  }

  /** The loop over the data lines. */
  method AppendData(head: string, lines: seq<string>) returns (buf: string)
    ensures buf == head + DataText(lines)
  {
    assert DataText([]) == "";
    hide DataText;
    buf := head;
    assert lines[..0] == [];
    var i := 0;
    while i < |lines|
      invariant 0 <= i <= |lines|
      invariant buf == head + DataText(lines[..i])
    {
      DataTextSnoc(lines, i);
      buf := buf + ("data: " + lines[i] + "\n");
      i := i + 1;
    }
    assert lines[..|lines|] == lines;
  }

  /** String: the fields that are set, the data lines, and a blank line. */
  method EventString(e: Event) returns (buf: string)
    ensures buf == Print(e)
  {
    assert DataText([]) == "";
    hide DataText, Split, Text;
    buf := "";
    if e.event != "" {
      buf := buf + ("event: " + e.event + "\n");
    }
    assert buf == NameText(e);
    if e.id != "" {
      buf := buf + ("id: " + e.id + "\n");
    }
    assert buf == NameText(e) + IdText(e);
    if e.retry > 0 {
      buf := buf + ("retry: " + Text(e.retry) + "\n");
    }
    ghost var head := buf;
    assert head == NameText(e) + IdText(e) + RetryText(e);
    hide NameText, IdText, RetryText;
    if |e.data| > 0 {
      var lines := Split(e.data);
      buf := AppendData(buf, lines);
    }
    assert buf == head + DataText(DataLinesOf(e));
    buf := buf + "\n";
    Reassociate(NameText(e), IdText(e), RetryText(e), DataText(DataLinesOf(e)), "\n");
  }

  lemma Reassociate(a: string, b: string, c: string, d: string, e: string)
    ensures a + b + c + d + e == a + (b + (c + (d + e)))
  {
  }

  lemma {:induction false} DataTextSnoc(lines: seq<string>, i: nat)
    requires i < |lines|
    ensures DataText(lines[..i + 1]) == DataText(lines[..i]) + ("data: " + lines[i] + "\n")
  {
    if i > 0 {
      DataTextSnoc(lines[1..], i - 1);
      assert lines[..i + 1][1..] == lines[1..][..i];
      assert lines[..i][1..] == lines[1..][..i - 1];
    }
  }

  // ----- Parsing, on values ---------------------------------------------------------

  /** Parser state: the event being built, its data lines, and the events emitted. */
  datatype State = State(event: Event, dataLines: seq<string>, emitted: seq<Event>)

  function Trimmed(line: string): string {
    TrimCR(if |line| > 0 && line[|line|-1] == '\n' then line[..|line|-1] else line)
  }

  function Emit(p: State): State {
    if p.dataLines == [] then p
    else State(EMPTY, [], p.emitted + [p.event.(data := Join(p.dataLines))])
  }

  function FieldOf(line: string): string {
    line[..IndexOf(line, ':')]
  }

  function ValueIn(line: string): string {
    if IndexOf(line, ':') == |line| then ""
    else
      var after := line[IndexOf(line, ':') + 1..];
      if |after| > 0 && after[0] == ' ' then after[1..] else after
  }

  function SetField(p: State, field: string, value: string): State {
    match field
    case "event" => p.(event := p.event.(event := value))
    case "data" => p.(dataLines := p.dataLines + [value])
    case "id" => p.(event := p.event.(id := value))
    case "retry" =>
      (match Atoi(value)
       case Some(n) => p.(event := p.event.(retry := n))
       case None => p)
    case _ => p
  }

  function ParseField(p: State, line: string): State {
    if |line| > 0 && line[0] == ':' then p else SetField(p, FieldOf(line), ValueIn(line))
  }

  function ProcessLine(p: State, line: string): State {
    if line == "" then p
    else if Trimmed(line) == "" then Emit(p)
    else ParseField(p, Trimmed(line))
  }

  /** Reading line by line to the end of the stream, then finalizing. */
  function Run(p: State, s: string): State
    decreases |s|
  {
    var n := IndexOf(s, '\n');
    if n == |s| then Emit(ProcessLine(p, s))
    else Run(ProcessLine(p, s[..n + 1]), s[n + 1..])
  }

  function Parse(s: string): seq<Event> {
    Run(State(EMPTY, [], []), s).emitted
  }

  /** sseParser, with the observer's events as a field. */
  class SseParser {
    var event: Event
    var dataLines: seq<string>
    var emitted: seq<Event>
    var completed: bool

    ghost function View(): State
      reads this
    {
      State(event, dataLines, emitted)
    }

    constructor ()
      ensures View() == State(EMPTY, [], []) && !completed
    {
      event, dataLines, emitted, completed := EMPTY, [], [], false;
    }

    /** Reads lines until the stream ends; the last piece may lack its newline. */
    method ParseStream(s: string)
      modifies this
      ensures View() == Run(old(View()), s)
      ensures completed
    {
      var rest := s;
      while true
        invariant Run(View(), rest) == Run(old(View()), s)
        decreases |rest|
      {
        var n := IndexOf(rest, '\n');
        if n == |rest| {
          DoProcessLine(rest);
          EmitEventIfReady();
          completed := true;
          return;
        }
        DoProcessLine(rest[..n + 1]);
        rest := rest[n + 1..];
      }
    }

    method DoProcessLine(line: string)
      modifies this`event, this`dataLines, this`emitted
      ensures View() == ProcessLine(old(View()), line)
    {
      if |line| == 0 {
        return;
      }
      var trimmed := Trimmed(line);
      if |trimmed| == 0 {
        EmitEventIfReady();
        return;
      }
      if trimmed[0] == ':' {
        return;
      }
      DoSetField(FieldOf(trimmed), ValueIn(trimmed));
    }

    method EmitEventIfReady()
      modifies this`event, this`dataLines, this`emitted
      ensures View() == Emit(old(View()))
    {
      if |dataLines| == 0 {
        return;
      }
      event := event.(data := Join(dataLines));
      emitted := emitted + [event];
      event := EMPTY;
      dataLines := [];
    }

    method DoSetField(field: string, value: string)
      modifies this`event, this`dataLines
      ensures View() == SetField(old(View()), field, value)
    {
      if field == "event" {
        event := event.(event := value);
      } else if field == "data" {
        dataLines := dataLines + [value];
      } else if field == "id" {
        event := event.(id := value);
      } else if field == "retry" {
        var n := Atoi(value);
        if n.Some? {
          event := event.(retry := n.value);
        }
      }
    }
  }

  // ----- One line at a time -----------------------------------------------------------

  lemma RunLine(p: State, l: string, rest: string)
    requires NoNewline(l)
    ensures Run(p, l + "\n" + rest) == Run(ProcessLine(p, l + "\n"), rest)
  {
    hide ProcessLine, IndexOf;
    var s := l + "\n" + rest;
    IndexOfAt(l, '\n', rest);
    assert s[..|l| + 1] == l + "\n";
    assert s[|l| + 1..] == rest;
  }

  lemma TrimmedField(name: string, value: string)
    ensures Trimmed(name + ": " + value + "\n") == name + ": " + TrimCR(value)
  {
    var l := name + ": " + value;
    assert (l + "\n")[..|l|] == l;
    assert Trimmed(l + "\n") == TrimCR(l);
    if |value| > 0 {
      assert l[|l|-1] == value[|value|-1];
      assert l[..|l|-1] == name + ": " + value[..|value|-1];
    } else {
      assert l[|l|-1] == ' ';
    }
  }

  /** A printed field line sets exactly that field, to its value less one trailing CR. */
  lemma FieldLine(p: State, name: string, value: string, rest: string)
    requires |name| > 0 && NoNewline(name) && ':' !in name && NoNewline(value)
    ensures Run(p, name + ": " + value + "\n" + rest) == Run(SetField(p, name, TrimCR(value)), rest)
  {
    hide Run, SetField, ProcessLine, NoNewline;
    var l := name + ": " + value;
    assert NoNewline(l) by {
      FieldOnOneLine(name, value);
    }
    RunLine(p, l, rest);
    FieldSet(p, name, value);
  }

  lemma FieldOnOneLine(name: string, value: string)
    requires NoNewline(name) && NoNewline(value)
    ensures NoNewline(name + ": " + value)
  {
  }

  lemma FieldSet(p: State, name: string, value: string)
    requires |name| > 0 && ':' !in name
    ensures ProcessLine(p, name + ": " + value + "\n") == SetField(p, name, TrimCR(value))
  {
    hide SetField, Trimmed, IndexOf;
    var v := TrimCR(value);
    TrimmedField(name, value);
    var t := name + ": " + v;
    assert t == name + ":" + (" " + v);
    IndexOfAt(name, ':', " " + v);
    assert t[..|name|] == name;
    assert t[|name| + 1..] == " " + v;
    assert (" " + v)[1..] == v;
    assert t[0] == name[0] != ':';
  }

  lemma TrimmedLine(l: string)
    ensures Trimmed(l + "\n") == TrimCR(l)
  {
    assert (l + "\n")[..|l|] == l;
  }

  /** A line without a colon is a field of that name with an empty value: data gets an empty line,
      the event and the id are cleared, and retry stays, for "" is no number. */
  lemma BareFieldLine(p: State, name: string, rest: string)
    requires name != "" && NoNewline(name) && ':' !in name && name[|name| - 1] != '\r'
    ensures Run(p, name + "\n" + rest)
            == Run(if name == "event" then p.(event := p.event.(event := ""))
                   else if name == "data" then p.(dataLines := p.dataLines + [""])
                   else if name == "id" then p.(event := p.event.(id := ""))
                   else p, rest)
  {
    hide Run, Trimmed, IndexOf;
    RunLine(p, name, rest);
    TrimmedLine(name);
    assert name[..|name|] == name;
    assert IndexOf(name, ':') == |name|;
  }

  /** A stream that stops inside a line, or before the blank line of its last event, is read as if
      the line and the event were finished. */
  lemma {:induction false} UnfinishedCounts(p: State, s: string)
    ensures Run(p, s + "\n\n").emitted == Run(p, s).emitted
    decreases |s|
  {
    var n := IndexOf(s, '\n');
    if n == |s| {
      LastLine(p, s);
    } else {
      hide ProcessLine;
      var l, rest := s[..n], s[n + 1..];
      assert s == l + "\n" + rest && s + "\n\n" == l + "\n" + (rest + "\n\n");
      RunLine(p, l, rest);
      RunLine(p, l, rest + "\n\n");
      UnfinishedCounts(ProcessLine(p, l + "\n"), rest);
    }
  }

  lemma LastLine(p: State, s: string)
    requires IndexOf(s, '\n') == |s|
    ensures Run(p, s + "\n\n").emitted == Run(p, s).emitted
  {
    assert s + "\n\n" == s + "\n" + "\n" && "\n" == "" + "\n" + "";
    assert s[..|s|] == s;
    RunLine(p, s, "\n");
    RunLine(ProcessLine(p, s + "\n"), "", "");
    NothingLeft(Emit(ProcessLine(p, s + "\n")));
    TrimmedLine(s);
  }

  lemma NothingLeft(p: State)
    ensures Run(p, "") == Emit(p)
  {
  }

  /** A comment changes nothing. */
  lemma CommentLine(p: State, text: string, rest: string)
    requires NoNewline(text)
    ensures Run(p, ":" + text + "\n" + rest) == Run(p, rest)
  {
    hide Run, Trimmed;
    RunLine(p, ":" + text, rest);
    TrimmedLine(":" + text);
  }

  /** The space behind the colon is optional. */
  lemma TightFieldLine(p: State, name: string, value: string, rest: string)
    requires |name| > 0 && NoNewline(name) && ':' !in name && NoNewline(value)
    requires value == "" || value[0] != ' '
    ensures Run(p, name + ":" + value + "\n" + rest) == Run(p, name + ": " + value + "\n" + rest)
  {
    hide Run, SetField, ProcessLine, NoNewline;
    FieldLine(p, name, value, rest);
    assert NoNewline(name + ":" + value) by {
      TightOnOneLine(name, value);
    }
    RunLine(p, name + ":" + value, rest);
    TightFieldSet(p, name, value);
  }

  lemma TightOnOneLine(name: string, value: string)
    requires NoNewline(name) && NoNewline(value)
    ensures NoNewline(name + ":" + value)
  {
  }

  lemma TightFieldSet(p: State, name: string, value: string)
    requires |name| > 0 && ':' !in name && (value == "" || value[0] != ' ')
    ensures ProcessLine(p, name + ":" + value + "\n") == SetField(p, name, TrimCR(value))
  {
    hide SetField, Trimmed, IndexOf;
    var l, t := name + ":" + value, name + ":" + TrimCR(value);
    TrimmedLine(l);
    assert TrimCR(l) == t;
    IndexOfAt(name, ':', TrimCR(value));
    assert t == name + [':'] + TrimCR(value);
    assert t[..|name|] == name;
    assert t[|name| + 1..] == TrimCR(value);
    assert t[0] == name[0] != ':';
  }

  /** The lines, each with the same ending. */
  function Ended(lines: seq<string>, ending: string): string {
    if lines == [] then "" else lines[0] + ending + Ended(lines[1..], ending)
  }

  /** A stream with CR LF line endings is parsed like the same stream with LF endings. */
  lemma {:induction false} LineEndingsAgree(p: State, lines: seq<string>)
    requires forall l :: l in lines ==> NoNewline(l) && !EndsWithCR(l)
    ensures Run(p, Ended(lines, "\r\n")) == Run(p, Ended(lines, "\n"))
    decreases lines
  {
    if lines == [] {
      assert Ended(lines, "\r\n") == Ended(lines, "\n");
    } else {
      assert Ended(lines, "\r\n") == lines[0] + "\r\n" + Ended(lines[1..], "\r\n");
      assert Ended(lines, "\n") == lines[0] + "\n" + Ended(lines[1..], "\n");
      hide *;
      var l := lines[0];
      assert l in lines;
      CrLfStep(p, l, Ended(lines[1..], "\r\n"));
      RunLine(p, l, Ended(lines[1..], "\n"));
      LineEndingsAgree(ProcessLine(p, l + "\n"), lines[1..]);
    }
  }

  lemma CrLfStep(p: State, l: string, rest: string)
    requires NoNewline(l) && !EndsWithCR(l)
    ensures Run(p, l + "\r\n" + rest) == Run(ProcessLine(p, l + "\n"), rest)
  {
    hide *;
    CrLfText(l, rest);
    RunLine(p, l + "\r", rest);
    CrLfLine(p, l);
  }

  lemma CrLfText(l: string, rest: string)
    requires NoNewline(l)
    ensures l + "\r" + "\n" + rest == l + "\r\n" + rest
    ensures NoNewline(l + "\r")
  {
    assert "\r" + "\n" == "\r\n";
  }

  lemma CrLfLine(p: State, l: string)
    requires !EndsWithCR(l)
    ensures ProcessLine(p, l + "\r" + "\n") == ProcessLine(p, l + "\n")
  {
    hide Trimmed;
    TrimmedLine(l);
    TrimmedLine(l + "\r");
  }

  lemma NoDataText(rest: string)
    ensures DataText([]) + rest == rest
  {
  }

  lemma FirstDataText(lines: seq<string>, rest: string)
    requires lines != []
    ensures DataText(lines) + rest == "data" + ": " + lines[0] + "\n" + (DataText(lines[1..]) + rest)
  {
    assert "data" + ": " == "data: ";
  }

  lemma NameOfData()
    ensures NoNewline("data") && ':' !in "data"
  {
  }

  lemma {:induction false} DataLines(p: State, lines: seq<string>, rest: string)
    requires forall l :: l in lines ==> NoNewline(l)
    ensures Run(p, DataText(lines) + rest) == Run(p.(dataLines := p.dataLines + TrimAll(lines)), rest)
    decreases lines
  {
    hide Run, DataText, TrimCR, NoNewline;
    if lines == [] {
      NoDataText(rest);
      assert p.dataLines + TrimAll(lines) == p.dataLines;
    } else {
      var q := p.(dataLines := p.dataLines + [TrimCR(lines[0])]);
      FirstDataText(lines, rest);
      assert lines[0] in lines;
      NameOfData();
      FieldLine(p, "data", lines[0], DataText(lines[1..]) + rest);
      DataLines(q, lines[1..], rest);
      assert q.dataLines + TrimAll(lines[1..]) == p.dataLines + TrimAll(lines);
    }
  }

  lemma BlankLine(p: State, rest: string)
    ensures Run(p, "\n" + rest) == Run(Emit(p), rest)
  {
    hide Run;
    RunLine(p, "", rest);
    assert "" + "\n" + rest == "\n" + rest;
    assert Trimmed("\n") == "";
  }

  // ----- The round trip ---------------------------------------------------------------

  /** What the wire can carry of an event: one trailing CR is lost per line. */
  function Normal(e: Event): Event {
    Event(TrimCR(e.event), TrimCR(e.id), Join(TrimAll(DataLinesOf(e))), if e.retry > 0 then e.retry else 0)
  }

  /** The fields a printed event leaves in a parser that held those of `base`. */
  function Merged(base: Event, e: Event): Event {
    Event(
      if e.event != "" then TrimCR(e.event) else base.event,
      if e.id != "" then TrimCR(e.id) else base.id,
      Join(TrimAll(DataLinesOf(e))),
      if e.retry > 0 then e.retry else base.retry)
  }

  lemma MergedIntoNothing(e: Event)
    ensures Merged(EMPTY, e) == Normal(e)
  {
    hide Join;
  }

  lemma NameLine(p: State, e: Event, rest: string)
    requires NoNewline(e.event)
    ensures Run(p, NameText(e) + rest)
         == Run(p.(event := p.event.(event := if e.event != "" then TrimCR(e.event) else p.event.event)), rest)
  {
    hide Run;
    if e.event != "" {
      FieldLine(p, "event", e.event, rest);
      assert NameText(e) + rest == "event" + ": " + e.event + "\n" + rest;
    } else {
      assert NameText(e) + rest == rest;
    }
  }

  lemma IdLine(p: State, e: Event, rest: string)
    requires NoNewline(e.id)
    ensures Run(p, IdText(e) + rest)
         == Run(p.(event := p.event.(id := if e.id != "" then TrimCR(e.id) else p.event.id)), rest)
  {
    hide Run;
    if e.id != "" {
      FieldLine(p, "id", e.id, rest);
      assert IdText(e) + rest == "id" + ": " + e.id + "\n" + rest;
    } else {
      assert IdText(e) + rest == rest;
    }
  }

  lemma DigitsAreClean(n: nat)
    ensures NoNewline(Text(n)) && TrimCR(Text(n)) == Text(n)
  {
    hide Text;
    TextRoundTrip(n);
    var t := Text(n);
    assert IsDigit(t[|t| - 1]);
    forall i | 0 <= i < |t| ensures t[i] != '\n' {
      assert IsDigit(t[i]);
    }
  }

  lemma RetryLine(p: State, e: Event, rest: string)
    ensures Run(p, RetryText(e) + rest)
         == Run(p.(event := p.event.(retry := if e.retry > 0 then e.retry else p.event.retry)), rest)
  {
    hide Run, Text, Atoi;
    if e.retry > 0 {
      var t := Text(e.retry);
      AtoiText(e.retry);
      DigitsAreClean(e.retry);
      FieldLine(p, "retry", t, rest);
      assert RetryText(e) + rest == "retry" + ": " + t + "\n" + rest;
    } else {
      assert RetryText(e) + rest == rest;
    }
  }

  /** Printed text brings a parser without data lines to the blank line with the event's fields. */
  lemma PrintedFields(base: Event, emitted: seq<Event>, e: Event, rest: string)
    requires NoNewline(e.event) && NoNewline(e.id)
    ensures var q := State(Merged(base, e).(data := base.data), TrimAll(DataLinesOf(e)), emitted);
            Run(State(base, [], emitted), Print(e) + rest) == Run(Emit(q), rest)
  {
    hide Run, NameText, IdText, RetryText, DataText, TrimCR, TrimAll, DataLinesOf;
    var lines := DataLinesOf(e);
    var r3 := "\n" + rest;
    var r2 := DataText(lines) + r3;
    var r1 := RetryText(e) + r2;
    var r0 := IdText(e) + r1;
    assert Print(e) + rest == NameText(e) + r0;
    var p0 := State(base, [], emitted);
    var p1 := p0.(event := p0.event.(event := if e.event != "" then TrimCR(e.event) else base.event));
    var p2 := p1.(event := p1.event.(id := if e.id != "" then TrimCR(e.id) else base.id));
    var p3 := p2.(event := p2.event.(retry := if e.retry > 0 then e.retry else base.retry));
    NameLine(p0, e, r0);
    IdLine(p1, e, r1);
    RetryLine(p2, e, r2);
    assert forall l :: l in lines ==> NoNewline(l) by {
      DataLinesClean(e);
    }
    DataLines(p3, lines, r3);
    assert p3.dataLines + TrimAll(lines) == TrimAll(lines);
    BlankLine(p3.(dataLines := TrimAll(lines)), rest);
  }

  lemma DataLinesClean(e: Event)
    ensures forall l :: l in DataLinesOf(e) ==> NoNewline(l)
    ensures |DataLinesOf(e)| > 0 <==> e.data != ""
    ensures e.data == "" ==> Join(TrimAll(DataLinesOf(e))) == ""
  {
  }

  /** An event with data is emitted at its blank line; one without leaves its fields behind. */
  lemma PrintedEvent(base: Event, emitted: seq<Event>, e: Event, rest: string)
    requires NoNewline(e.event) && NoNewline(e.id) && base.data == ""
    ensures Run(State(base, [], emitted), Print(e) + rest)
         == if e.data == "" then Run(State(Merged(base, e), [], emitted), rest)
            else Run(State(EMPTY, [], emitted + [Merged(base, e)]), rest)
  {
    hide Run, Print, TrimCR, DataLinesOf, Join;
    PrintedFields(base, emitted, e, rest);
    DataLinesClean(e);
  }

  /** What a parser that holds the fields of `base` makes of a list of printed events. */
  function Received(base: Event, es: seq<Event>): (r: seq<Event>)
    ensures |r| <= |es|
    decreases es
  {
    if es == [] then []
    else if es[0].data == "" then Received(Merged(base, es[0]), es[1..])
    else [Merged(base, es[0])] + Received(EMPTY, es[1..])
  }

  /** The parser on any list of printed events with names and ids on one line: fields of an event
      without data pass to the next event that does not set them. */
  lemma {:induction false} PrintedAll(base: Event, emitted: seq<Event>, es: seq<Event>)
    requires base.data == "" && forall e :: e in es ==> NoNewline(e.event) && NoNewline(e.id)
    ensures Run(State(base, [], emitted), PrintAll(es)).emitted == emitted + Received(base, es)
    decreases es
  {
    hide Run, Print, Merged;
    if es == [] {
      assert Emit(State(base, [], emitted)) == State(base, [], emitted);
      RunAtEnd(State(base, [], emitted));
    } else {
      var e, rest := es[0], es[1..];
      PrintedEvent(base, emitted, e, PrintAll(rest));
      if e.data == "" {
        assert Merged(base, e).data == "" by {
          MergedData(base, e);
        }
        PrintedAll(Merged(base, e), emitted, rest);
      } else {
        PrintedAll(EMPTY, emitted + [Merged(base, e)], rest);
        assert emitted + [Merged(base, e)] + Received(EMPTY, rest) == emitted + Received(base, es);
      }
    }
  }

  lemma MergedData(base: Event, e: Event)
    requires e.data == ""
    ensures Merged(base, e).data == ""
  {
    DataLinesClean(e);
  }

  lemma {:induction false} ReceivedNormal(es: seq<Event>)
    requires forall e :: e in es ==> e.data != ""
    ensures Received(EMPTY, es) == Normals(es)
  {
    hide Merged, Normal;
    if es != [] {
      MergedIntoNothing(es[0]);
      ReceivedNormal(es[1..]);
    }
  }

  lemma {:induction false} ReceivedFewer(base: Event, es: seq<Event>)
    ensures |Received(base, es)| == |es| ==> forall e :: e in es ==> e.data != ""
    decreases es
  {
    hide Merged;
    if es != [] {
      ReceivedFewer(if es[0].data == "" then Merged(base, es[0]) else EMPTY, es[1..]);
    }
  }

  lemma PrintParseAll(emitted: seq<Event>, es: seq<Event>)
    requires forall e :: e in es ==> NoNewline(e.event) && NoNewline(e.id) && e.data != ""
    ensures Run(State(EMPTY, [], emitted), PrintAll(es)).emitted == emitted + Normals(es)
  {
    hide Run, Print, Normal, Received;
    PrintedAll(EMPTY, emitted, es);
    ReceivedNormal(es);
  }

  function Normals(es: seq<Event>): (r: seq<Event>)
    ensures |r| == |es| && forall i :: 0 <= i < |es| ==> r[i] == Normal(es[i])
  {
    seq(|es|, i requires 0 <= i < |es| => Normal(es[i]))
  }

  predicate EndsWithCR(s: string) {
    |s| > 0 && s[|s|-1] == '\r'
  }

  /** What a caller can check of an event before printing it. */
  ghost predicate Printable(e: Event) {
    && e.data != "" && e.retry >= 0
    && NoNewline(e.event) && NoNewline(e.id)
    && !EndsWithCR(e.event) && !EndsWithCR(e.id)
    && forall l :: l in Split(e.data) ==> !EndsWithCR(l)
  }

  lemma PrintableIsNormal(e: Event)
    requires Printable(e)
    ensures Normal(e) == e
  {
    hide Join, Split;
    var lines := Split(e.data);
    forall i | 0 <= i < |lines| ensures TrimAll(lines)[i] == lines[i] {
      assert lines[i] in lines;
    }
    assert TrimAll(lines) == lines;
    JoinSplit(e.data);
  }

  /** The round trip over whole sequences of events. */
  lemma RoundTripAll(es: seq<Event>)
    requires forall e :: e in es ==> Printable(e)
    ensures Parse(PrintAll(es)) == es
  {
    hide Run, Print, Normal;
    PrintParseAll([], es);
    forall i | 0 <= i < |es| ensures Normals(es)[i] == es[i] {
      assert es[i] in es;
      PrintableIsNormal(es[i]);
    }
    assert [] + Normals(es) == es;
  }

  // ----- The round trip holds for no other event ---------------------------------------

  /** Names and ids the parser holds come from single lines. */
  ghost predicate CleanEvent(e: Event) {
    NoNewline(e.event) && NoNewline(e.id)
  }

  ghost predicate Clean(p: State) {
    CleanEvent(p.event) && forall e :: e in p.emitted ==> CleanEvent(e)
  }

  lemma ProcessLineClean(p: State, line: string)
    requires Clean(p) && NoNewline(Trimmed(line))
    ensures Clean(ProcessLine(p, line))
  {
    hide Join, Atoi, IndexOf;
    var t := Trimmed(line);
    assert NoNewline(ValueIn(t));
  }

  lemma {:induction false} RunClean(p: State, s: string)
    requires Clean(p)
    ensures Clean(Run(p, s))
    decreases |s|
  {
    hide ProcessLine, IndexOf;
    var n := IndexOf(s, '\n');
    if n == |s| {
      assert s[..n] == s;
      ProcessLineClean(p, s);
    } else {
      assert s[..n + 1][..n] == s[..n];
      ProcessLineClean(p, s[..n + 1]);
      RunClean(ProcessLine(p, s[..n + 1]), s[n + 1..]);
    }
  }

  lemma SplitTrimChanges(s: string)
    requires exists l :: l in Split(s) && EndsWithCR(l)
    ensures Join(TrimAll(Split(s))) != s
  {
    var lines := Split(s);
    var l :| l in lines && EndsWithCR(l);
    var k :| 0 <= k < |lines| && lines[k] == l;
    JoinShorter(lines, k);
    JoinSplit(s);
  }

  lemma {:induction false} JoinNotLonger(lines: seq<string>)
    ensures |Join(TrimAll(lines))| <= |Join(lines)|
  {
    if |lines| > 1 {
      JoinNotLonger(lines[1..]);
      assert TrimAll(lines)[1..] == TrimAll(lines[1..]);
    }
  }

  lemma {:induction false} JoinShorter(lines: seq<string>, k: nat)
    requires k < |lines| && EndsWithCR(lines[k])
    ensures |Join(TrimAll(lines))| < |Join(lines)|
  {
    if |lines| > 1 {
      assert TrimAll(lines)[1..] == TrimAll(lines[1..]);
      JoinLength(lines);
      JoinLength(TrimAll(lines));
      hide Join;
      if k == 0 {
        JoinNotLonger(lines[1..]);
      } else {
        JoinShorter(lines[1..], k - 1);
      }
    }
  }

  lemma JoinLength(lines: seq<string>)
    requires |lines| > 1
    ensures |Join(lines)| == |lines[0]| + 1 + |Join(lines[1..])|
  {
  }

  /** A list of events survives printing and parsing exactly when each of them is printable. */
  lemma RoundTripIff(es: seq<Event>)
    ensures Parse(PrintAll(es)) == es <==> forall e :: e in es ==> Printable(e)
  {
    hide Run, Print, PrintAll, Received, Printable, Normal;
    if forall e :: e in es ==> Printable(e) {
      RoundTripAll(es);
    }
    if Parse(PrintAll(es)) == es {
      RunClean(State(EMPTY, [], []), PrintAll(es));
      PrintedAll(EMPTY, [], es);
      assert [] + Received(EMPTY, es) == Received(EMPTY, es);
      ReceivedFewer(EMPTY, es);
      ReceivedNormal(es);
      forall e | e in es ensures Printable(e) {
        var i :| 0 <= i < |es| && es[i] == e;
        assert Normals(es)[i] == Normal(e);
        if !Printable(e) {
          NotPrintableChanges(e);
        }
      }
    }
  }

  lemma NotPrintableChanges(e: Event)
    requires CleanEvent(e) && e.data != "" && !Printable(e)
    ensures Normal(e) != e
  {
    hide Split, Join;
    if exists l :: l in Split(e.data) && EndsWithCR(l) {
      SplitTrimChanges(e.data);
    }
  }

  lemma RunAtEnd(p: State)
    ensures Run(Emit(p), "").emitted == Emit(p).emitted
  {
  }

  lemma {:induction false} SplitLine(s: string)
    requires NoNewline(s)
    ensures Split(s) == [s]
  {
    if s != [] {
      SplitLine(s[1..]);
      assert [s[0]] + s[1..] == s;
    }
  }

  /** Fields without data are not dropped at their blank line. Exactly when does the next event
      arrive as it would alone: each field left behind is empty or set again. */
  lemma LeaksUnlessSetAgain(e: Event, f: Event)
    requires CleanEvent(e) && CleanEvent(f) && e.data == "" && f.data != ""
    ensures Parse(Print(e) + Print(f)) == [Merged(Normal(e), f)]
    ensures Parse(Print(e) + Print(f)) == [Normal(f)] <==>
            && (f.event != "" || TrimCR(e.event) == "")
            && (f.id != "" || TrimCR(e.id) == "")
            && (f.retry > 0 || e.retry <= 0)
  {
    hide Run, Print, TrimCR, Join, Received;
    PrintedAll(EMPTY, [], [e, f]);
    assert PrintAll([e, f]) == Print(e) + Print(f) by {
      PrintPair(e, f);
    }
    ReceivedPair(e, f);
    assert [] + [Merged(Normal(e), f)] == [Merged(Normal(e), f)];
    assert TrimCR("") == "" by {
      EmptyTrimmed();
    }
  }

  lemma EmptyTrimmed()
    ensures TrimCR("") == ""
  {
  }

  lemma PrintPair(e: Event, f: Event)
    ensures PrintAll([e, f]) == Print(e) + Print(f)
  {
    hide Print;
    assert [e, f][1..] == [f] && [f][1..] == [];
    assert PrintAll([f]) == Print(f) + "";
  }

  lemma ReceivedPair(e: Event, f: Event)
    requires e.data == "" && f.data != ""
    ensures Received(EMPTY, [e, f]) == [Merged(Normal(e), f)]
  {
    hide Merged, Normal;
    MergedIntoNothing(e);
    assert [e, f][1..] == [f] && [f][1..] == [];
    assert Received(Normal(e), [f]) == [Merged(Normal(e), f)] + Received(EMPTY, []);
  }
}
