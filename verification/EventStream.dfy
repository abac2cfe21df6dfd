/** The events the service pushes to the browser. The server prints an event as a JSON object
    inside a server-sent-event frame; the web application reads the frames back with the stream
    parser of the WHATWG HTML Standard (sections 9.2.5 and 9.2.6) and the string syntax of
    section 7 of RFC 8259. */
module EventStream {
  import opened Decimal
  import opened NewlineRuns

  datatype Event = Event(name: string, data: string)

  // ---------------------------------------------------------------------------
  // Printing

  /** `regex_replace(data, "\n+", mark)`: every maximal run of newlines becomes `mark`. */
  function ReplaceNewlineRuns(data: string, mark: string): string {
    if data == [] then []
    else if data[0] != '\n' then [data[0]] + ReplaceNewlineRuns(data[1..], mark)
    else if 1 < |data| && data[1] == '\n' then ReplaceNewlineRuns(data[1..], mark)
    else mark + ReplaceNewlineRuns(data[1..], mark)
  }

  /** The text before the data, inside the JSON object. */
  function Opening(name: string): string {
    "{\"event\": \"" + name + "\", \"data\": \""
  }

  /** The message the event callback builds. */
  function Payload(e: Event): string {
    Opening(e.name) + ReplaceNewlineRuns(e.data, "\\n") + "\"}"
  }

  /** The bytes `send_event` hands to every connection. */
  function Frame(payload: string): string {
    "data: " + payload + "\n\n"
  }

  function Stream(events: seq<Event>): string {
    if events == [] then [] else Frame(Payload(events[0])) + Stream(events[1..])
  }

  // ---------------------------------------------------------------------------
  // What the replacement does

  /** The replacement works on both sides of a place that is not inside a run. */
  lemma {:induction false} ReplaceSplit(a: string, b: string, mark: string)
    requires a == [] || a[|a| - 1] != '\n' || b == [] || b[0] != '\n'
    ensures ReplaceNewlineRuns(a + b, mark) == ReplaceNewlineRuns(a, mark) + ReplaceNewlineRuns(b, mark)
  {
    if a == [] {
      assert a + b == b;
    } else {
      ReplaceSplit(a[1..], b, mark);
      ReplaceFirst(a, mark);
      ReplaceFirst(a + b, mark);
      assert (a + b)[1..] == a[1..] + b;
      assert ForFirst(a + b, mark) == ForFirst(a, mark);
      Associative(ForFirst(a, mark), ReplaceNewlineRuns(a[1..], mark), ReplaceNewlineRuns(b, mark));
    }
  }

  /** What the replacement writes for the first character. */
  function ForFirst(d: string, mark: string): string
    requires d != []
  {
    if d[0] != '\n' then [d[0]] else if 1 < |d| && d[1] == '\n' then [] else mark
  }

  lemma ReplaceFirst(d: string, mark: string)
    requires d != []
    ensures ReplaceNewlineRuns(d, mark) == ForFirst(d, mark) + ReplaceNewlineRuns(d[1..], mark)
  {
  }

  function Newlines(k: nat): (s: string)
    ensures |s| == k && forall i :: 0 <= i < k ==> s[i] == '\n'
  {
    seq(k, i => '\n')
  }

  lemma {:induction false} ReplaceRun(k: nat, mark: string)
    requires k >= 1
    ensures ReplaceNewlineRuns(Newlines(k), mark) == mark
  {
    var s := Newlines(k);
    assert s[1..] == Newlines(k - 1);
    if k > 1 {
      ReplaceRun(k - 1, mark);
    } else {
      assert ReplaceNewlineRuns(s[1..], mark) == [];
    }
  }

  /** Every maximal run of newlines becomes one mark, whatever is around it. */
  lemma RunBecomesMark(a: string, k: nat, b: string, mark: string)
    requires k >= 1 && (a == [] || a[|a| - 1] != '\n') && (b == [] || b[0] != '\n')
    ensures ReplaceNewlineRuns(a + (Newlines(k) + b), mark) ==
            ReplaceNewlineRuns(a, mark) + (mark + ReplaceNewlineRuns(b, mark))
  {
    ReplaceSplit(a, Newlines(k) + b, mark);
    ReplaceSplit(Newlines(k), b, mark);
    ReplaceRun(k, mark);
  }

  /** Text without newlines stays as it is. */
  lemma {:induction false} NoRunNoMark(d: string, mark: string)
    requires '\n' !in d
    ensures ReplaceNewlineRuns(d, mark) == d
  {
    if d != [] {
      NoRunNoMark(d[1..], mark);
    }
  }

  /** With a newline as the mark, the runs are collapsed. */
  lemma {:induction false} ReplaceCollapses(d: string)
    ensures Collapses(d, '\n', ReplaceNewlineRuns(d, "\n"))
  {
    if d == [] {
      CollapsesEmpty('\n');
    } else {
      var rest := ReplaceNewlineRuns(d[1..], "\n");
      ReplaceCollapses(d[1..]);
      assert d == [d[0]] + d[1..];
      if d[0] == '\n' && 1 < |d| && d[1] == '\n' {
        CollapsesAgain(d[1..], '\n', rest);
      } else {
        CollapsesCons(d[0], d[1..], '\n', rest);
      }
    }
  }

  // ---------------------------------------------------------------------------
  // Reading the stream

  predicate IsEol(c: char) { c == '\n' || c == '\r' }

  /** Length of the first line, without its terminator. */
  function LineLength(s: string): (i: nat)
    ensures i <= |s|
    ensures forall j :: 0 <= j < i ==> !IsEol(s[j])
    ensures i < |s| ==> IsEol(s[i])
  {
    if s == [] || IsEol(s[0]) then 0 else 1 + LineLength(s[1..])
  }

  /** The text after the line terminator at `i`: CR LF, LF or CR. */
  function AfterEol(s: string, i: nat): (rest: string)
    requires i < |s|
    ensures |rest| < |s| - i
  {
    if s[i] == '\r' && i + 1 < |s| && s[i + 1] == '\n' then s[i + 2..] else s[i + 1..]
  }

  /** What one line adds to the data buffer. */
  function FieldData(line: string): string {
    if |line| >= 5 && line[..5] == "data:" then
      (if |line| > 5 && line[5] == ' ' then line[6..] else line[5..]) + "\n"
    else if line == "data" then "\n"
    else ""
  }

  /** The data of the events dispatched by the rest of the stream; `buffer` is the data buffer. */
  function Dispatched(s: string, buffer: string): seq<string>
    decreases |s|
  {
    var i := LineLength(s);
    if i == |s| then [] else
      var rest := AfterEol(s, i);
      if i > 0 then Dispatched(rest, buffer + FieldData(s[..i]))
      else if buffer == [] then Dispatched(rest, [])
      else [EventData(buffer)] + Dispatched(rest, [])
  }

  /** The data buffer without the newline at its end. */
  function EventData(buffer: string): string
    requires buffer != []
  {
    if buffer[|buffer| - 1] == '\n' then buffer[..|buffer| - 1] else buffer
  }

  // ---------------------------------------------------------------------------
  // Reading the JSON object

  /** A character that may stand for itself in a JSON string. */
  predicate Plain(c: char) { c as int >= 0x20 && c != '"' && c != '\\' }

  function HexValue(c: char): Option<nat> {
    if IsDigit(c) then Some(DigitValue(c))
    else if 'a' <= c <= 'f' then Some(c as int - 'a' as int + 10)
    else if 'A' <= c <= 'F' then Some(c as int - 'A' as int + 10)
    else None
  }

  /** The character of a `\uXXXX` escape; surrogates are not characters. */
  function UnicodeEscape(h: string): Option<char>
    requires |h| == 4
  {
    match (HexValue(h[0]), HexValue(h[1]), HexValue(h[2]), HexValue(h[3]))
    case (Some(a), Some(b), Some(c), Some(d)) =>
      var code := ((a * 16 + b) * 16 + c) * 16 + d;
      if code < 0xD800 then Some(code as char)
      else if 0xE000 <= code < 0x10000 then Some(code as char)
      else None
    case _ => None
  }

  /** The character and the length of the escape sequence at the start of `t`. */
  function Escape(t: string): Option<(char, nat)>
    requires t != [] && t[0] == '\\'
  {
    if |t| < 2 then None
    else if t[1] in "\"\\/" then Some((t[1], 2))
    else if t[1] == 'b' then Some((8 as char, 2))
    else if t[1] == 'f' then Some((12 as char, 2))
    else if t[1] == 'n' then Some(('\n', 2))
    else if t[1] == 'r' then Some(('\r', 2))
    else if t[1] == 't' then Some(('\t', 2))
    else if t[1] == 'u' && |t| >= 6 && UnicodeEscape(t[2..6]).Some? then Some((UnicodeEscape(t[2..6]).value, 6))
    else None
  }

  /** Reads a string up to its closing quote; gives its value and the text after the quote. */
  function StringBody(t: string): (r: Option<(string, string)>)
    ensures r.Some? ==> |r.value.1| < |t|
  {
    if t == [] then None
    else if t[0] == '"' then Some(("", t[1..]))
    else if t[0] == '\\' then
      match Escape(t) {
        case None => None
        case Some((c, n)) =>
          match StringBody(t[n..])
          case None => None
          case Some((v, rest)) => Some(([c] + v, rest))
      }
    else if !Plain(t[0]) then None
    else
      match StringBody(t[1..])
      case None => None
      case Some((v, rest)) => Some(([t[0]] + v, rest))
  }

  function SkipSpace(t: string): (r: string)
    ensures |r| <= |t|
  {
    if t != [] && t[0] in " \t\n\r" then SkipSpace(t[1..]) else t
  }

  /** Skips white space and then the character `c`. */
  function Token(c: char, t: string): (r: Option<string>)
    ensures r.Some? ==> |r.value| < |t|
  {
    var u := SkipSpace(t);
    if u != [] && u[0] == c then Some(u[1..]) else None
  }

  function QuotedString(t: string): (r: Option<(string, string)>)
    ensures r.Some? ==> |r.value.1| < |t|
  {
    match Token('"', t)
    case None => None
    case Some(u) => StringBody(u)
  }

  /** The members of an object from its first key on; `None` unless the object ends the text. */
  function Members(t: string): Option<seq<(string, string)>>
    decreases |t|, 1
  {
    match QuotedString(t)
    case None => None
    case Some((key, u)) =>
      match Token(':', u)
      case None => None
      case Some(v) =>
        match QuotedString(v)
        case None => None
        case Some((value, rest)) => After(key, value, rest)
  }

  /** What follows a member: the end of the object, or a comma and more members. */
  function After(key: string, value: string, rest: string): Option<seq<(string, string)>>
    decreases |rest|, 2
  {
    var end := Token('}', rest);
    var more := Token(',', rest);
    if end.Some? then (if SkipSpace(end.value) == [] then Some([(key, value)]) else None)
    else if more.None? then None
    else
      match Members(more.value)
      case None => None
      case Some(ms) => Some([(key, value)] + ms)
  }

  /** Of two members with the same key the last one counts. */
  function Lookup(ms: seq<(string, string)>, key: string): Option<string> {
    if ms == [] then None
    else if ms[|ms| - 1].0 == key then Some(ms[|ms| - 1].1)
    else Lookup(ms[..|ms| - 1], key)
  }

  function Decode(text: string): Option<Event> {
    match Token('{', text)
    case None => None
    case Some(t) =>
      match Members(t)
      case None => None
      case Some(ms) =>
        match (Lookup(ms, "event"), Lookup(ms, "data"))
        case (Some(name), Some(data)) => Some(Event(name, data))
        case _ => None
  }

  function DecodeAll(texts: seq<string>): seq<Option<Event>> {
    if texts == [] then [] else [Decode(texts[0])] + DecodeAll(texts[1..])
  }

  /** What a browser sees of a whole stream. */
  function Received(stream: string): seq<Option<Event>> {
    DecodeAll(Dispatched(stream, []))
  }

  // ---------------------------------------------------------------------------
  // Round trip

  predicate PlainText(s: string) { forall i :: 0 <= i < |s| ==> Plain(s[i]) }

  /** Data that survives the trip: newlines are escaped, nothing else is. */
  predicate SafeData(s: string) { forall i :: 0 <= i < |s| ==> Plain(s[i]) || s[i] == '\n' }

  /** What the browser got is the event, the newline runs in its data collapsed. */
  ghost predicate Arrived(e: Event, got: Option<Event>) {
    got.Some? && got.value.name == e.name && Collapses(e.data, '\n', got.value.data)
  }

  /** That event, computed. */
  function Collapsed(e: Event): Event {
    Event(e.name, ReplaceNewlineRuns(e.data, "\n"))
  }

  lemma ArrivedIff(e: Event, got: Option<Event>)
    ensures Arrived(e, got) <==> got == Some(Collapsed(e))
  {
    ReplaceCollapses(e.data);
    if Arrived(e, got) {
      CollapsesUnique(e.data, '\n', got.value.data, Collapsed(e).data);
    }
  }

  lemma {:induction false} PlainStringBody(x: string, rest: string)
    requires PlainText(x)
    ensures StringBody(x + ("\"" + rest)) == Some((x, rest))
  {
    var t := x + ("\"" + rest);
    if x == [] {
      assert t == "\"" + rest;
    } else {
      PlainStringBody(x[1..], rest);
      assert t[1..] == x[1..] + ("\"" + rest);
      assert [x[0]] + x[1..] == x;
    }
  }

  lemma PlainFirst(c: char, t: string)
    requires Plain(c)
    ensures StringBody([c] + t) ==
            match StringBody(t)
            case None => None
            case Some((v, rest)) => Some(([c] + v, rest))
  {
    assert ([c] + t)[1..] == t;
  }

  lemma NewlineFirst(t: string)
    ensures StringBody("\\n" + t) ==
            match StringBody(t)
            case None => None
            case Some((v, rest)) => Some((['\n'] + v, rest))
  {
    assert ("\\n" + t)[2..] == t;
  }

  lemma {:induction false} EscapedStringBody(d: string, rest: string)
    requires SafeData(d)
    ensures StringBody(ReplaceNewlineRuns(d, "\\n") + ("\"" + rest)) == Some((ReplaceNewlineRuns(d, "\n"), rest))
  {
    var tail := "\"" + rest;
    if d == [] {
      assert [] + tail == tail;
    } else {
      EscapedStringBody(d[1..], rest);
      var body := ReplaceNewlineRuns(d[1..], "\\n");
      if d[0] != '\n' {
        PlainFirst(d[0], body + tail);
        assert ([d[0]] + body) + tail == [d[0]] + (body + tail);
      } else if !(1 < |d| && d[1] == '\n') {
        NewlineFirst(body + tail);
        assert ("\\n" + body) + tail == "\\n" + (body + tail);
      }
    }
  }

  /** A quoted string followed by `rest`. */
  function Quote(x: string, rest: string): string {
    ['"'] + (x + ("\"" + rest))
  }

  lemma ReadQuote(x: string, rest: string)
    requires PlainText(x)
    ensures QuotedString(Quote(x, rest)) == Some((x, rest))
    ensures QuotedString([' '] + Quote(x, rest)) == Some((x, rest))
  {
    PlainStringBody(x, rest);
    var q := Quote(x, rest);
    assert q[1..] == x + ("\"" + rest);
    assert ([' '] + q)[1..] == q;
    assert SkipSpace([' '] + q) == SkipSpace(q) == q;
  }

  function DataMember(u: string): string {
    Quote("data", [':'] + ([' '] + (['"'] + u)))
  }

  function NameAndData(name: string, u: string): string {
    Quote(name, [','] + ([' '] + DataMember(u)))
  }

  lemma OpeningShape(name: string, u: string)
    ensures Opening(name) + u == ['{'] + Quote("event", [':'] + ([' '] + NameAndData(name, u)))
  {
    assert ['"'] + ("data" + ("\"" + ([':'] + ([' '] + (['"'] + u))))) == "\"data\": \"" + u;
    assert "\"" + ([','] + ([' '] + ("\"data\": \"" + u))) == "\", \"data\": \"" + u;
    var v := "\", \"data\": \"" + u;
    assert ['{'] + (['"'] + ("event" + ("\"" + ([':'] + ([' '] + (['"'] + (name + v))))))) ==
           "{\"event\": \"" + (name + v);
    assert Opening(name) + u == "{\"event\": \"" + (name + v);
  }

  /** The object opened by `Opening(name)` always has `name` as its first member, and the reader
      then stands just inside the data string. */
  function DataMembers(name: string, u: string): Option<seq<(string, string)>> {
    match StringBody(u)
    case None => None
    case Some((value, rest)) =>
      match After("data", value, rest)
      case None => None
      case Some(ms) => Some([("event", name)] + ms)
  }

  lemma MembersOfData(u: string)
    ensures Members([' '] + DataMember(u)) ==
            match StringBody(u)
            case None => None
            case Some((value, rest)) => After("data", value, rest)
  {
    var t := ['"'] + u;
    ReadQuote("data", [':'] + ([' '] + t));
    assert Token(':', [':'] + ([' '] + t)) == Some([' '] + t);
    assert ([' '] + t)[1..] == t && t[1..] == u;
    assert SkipSpace([' '] + t) == SkipSpace(t) == t;
  }

  lemma MembersOfName(name: string, u: string)
    requires PlainText(name)
    ensures After("event", name, [','] + ([' '] + DataMember(u))) == DataMembers(name, u)
  {
    var t := [' '] + DataMember(u);
    assert Token('}', [','] + t) == None;
    assert Token(',', [','] + t) == Some(t);
    MembersOfData(u);
  }

  lemma MembersOfOpening(name: string, u: string)
    requires PlainText(name)
    ensures exists t :: Token('{', Opening(name) + u) == Some(t) && Members(t) == DataMembers(name, u)
  {
    OpeningShape(name, u);
    var t1 := [' '] + NameAndData(name, u);
    var t := Quote("event", [':'] + t1);
    assert Token('{', ['{'] + t) == Some(t);
    ReadQuote("event", [':'] + t1);
    assert Token(':', [':'] + t1) == Some(t1);
    var t2 := [' '] + DataMember(u);
    ReadQuote(name, [','] + t2);
    MembersOfName(name, u);
  }

  lemma PayloadSplit(e: Event)
    ensures Payload(e) == Opening(e.name) + (ReplaceNewlineRuns(e.data, "\\n") + ("\"" + "}"))
  {
  }

  lemma LastMember(name: string, value: string)
    ensures After("data", value, "}") == Some([("data", value)])
    ensures Lookup([("event", name)] + [("data", value)], "event") == Some(name)
    ensures Lookup([("event", name)] + [("data", value)], "data") == Some(value)
  {
    assert Token('}', "}") == Some("");
    var ms := [("event", name)] + [("data", value)];
    assert ms[..1] == [("event", name)];
    assert "event" != "data" by { assert |"event"| != |"data"|; }
  }

  lemma DecodePayload(e: Event)
    requires PlainText(e.name) && SafeData(e.data)
    ensures Decode(Payload(e)) == Some(Collapsed(e)) && Arrived(e, Decode(Payload(e)))
  {
    ArrivedIff(e, Some(Collapsed(e)));
    var body := ReplaceNewlineRuns(e.data, "\\n");
    var u := body + ("\"" + "}");
    PayloadSplit(e);
    MembersOfOpening(e.name, u);
    EscapedStringBody(e.data, "}");
    LastMember(e.name, ReplaceNewlineRuns(e.data, "\n"));
  }

  lemma {:induction false} NoEolInBody(d: string)
    requires SafeData(d)
    ensures forall i :: 0 <= i < |ReplaceNewlineRuns(d, "\\n")| ==> !IsEol(ReplaceNewlineRuns(d, "\\n")[i])
  {
    if d != [] {
      NoEolInBody(d[1..]);
    }
  }

  lemma PayloadIsOneLine(e: Event)
    requires PlainText(e.name) && SafeData(e.data)
    ensures Payload(e) != [] && forall i :: 0 <= i < |Payload(e)| ==> !IsEol(Payload(e)[i])
  {
    NoEolInBody(e.data);
  }

  lemma {:induction false} LineLengthOf(line: string, c: char, rest: string)
    requires IsEol(c) && forall i :: 0 <= i < |line| ==> !IsEol(line[i])
    ensures LineLength(line + ([c] + rest)) == |line|
  {
    var s := line + ([c] + rest);
    if line != [] {
      LineLengthOf(line[1..], c, rest);
      assert s[1..] == line[1..] + ([c] + rest);
    }
  }

  /** A line that is not blank adds to the data buffer. */
  lemma DispatchedLine(s: string, i: nat, buffer: string)
    requires i == LineLength(s) && 0 < i < |s|
    ensures Dispatched(s, buffer) == Dispatched(AfterEol(s, i), buffer + FieldData(s[..i]))
  {
  }

  /** A blank line dispatches the buffer, if there is anything in it. */
  lemma DispatchedBlank(s: string, buffer: string)
    requires s != [] && IsEol(s[0])
    ensures Dispatched(s, buffer) == Flushed(buffer) + Dispatched(AfterEol(s, 0), [])
  {
  }

  function Flushed(buffer: string): seq<string> {
    if buffer == [] then [] else [EventData(buffer)]
  }

  /** A frame whose payload has no line terminator dispatches exactly that payload. */
  lemma FrameDispatches(p: string, rest: string)
    requires p != [] && forall i :: 0 <= i < |p| ==> !IsEol(p[i])
    ensures Dispatched(Frame(p) + rest, []) == [p] + Dispatched(rest, [])
  {
    var line := "data: " + p;
    var tail := "\n" + rest;
    var s := Frame(p) + rest;
    assert s == line + (['\n'] + tail);
    LineLengthOf(line, '\n', tail);
    assert s[..|line|] == line && s[|line| + 1..] == tail;
    assert FieldData(line) == p + "\n" by { assert line[6..] == p; }
    assert [] + FieldData(line) == p + "\n";
    assert Dispatched(s, []) == Dispatched(tail, p + "\n");
    assert LineLength(tail) == 0 && tail[1..] == rest;
    assert (p + "\n")[..|p|] == p;
  }

  predicate Safe(e: Event) { PlainText(e.name) && SafeData(e.data) }

  /** One event after the other has arrived, and nothing else. */
  ghost predicate AllArrived(events: seq<Event>, got: seq<Option<Event>>) {
    |got| == |events| && forall i :: 0 <= i < |events| ==> Arrived(events[i], got[i])
  }

  /** Those events, computed. */
  function AllCollapsed(events: seq<Event>): seq<Option<Event>> {
    if events == [] then [] else [Some(Collapsed(events[0]))] + AllCollapsed(events[1..])
  }

  /** A safe event is read first, and the stream after its frame as if it had not been there. */
  lemma ReceivedFirst(e: Event, rest: string)
    requires Safe(e)
    ensures Received(Frame(Payload(e)) + rest) == [Some(Collapsed(e))] + Received(rest)
  {
    DecodePayload(e);
    PayloadIsOneLine(e);
    FrameDispatches(Payload(e), rest);
    DecodeCons(Payload(e), Dispatched(rest, []));
  }

  lemma DecodeCons(text: string, texts: seq<string>)
    ensures DecodeAll([text] + texts) == [Decode(text)] + DecodeAll(texts)
  {
    assert ([text] + texts)[1..] == texts;
  }

  lemma {:induction false} AllArrivedIff(events: seq<Event>, got: seq<Option<Event>>)
    ensures AllArrived(events, got) <==> got == AllCollapsed(events)
  {
    if events != [] && got != [] {
      ArrivedIff(events[0], got[0]);
      AllArrivedIff(events[1..], got[1..]);
      assert got == [got[0]] + got[1..];
      assert AllArrived(events, got) <==> Arrived(events[0], got[0]) && AllArrived(events[1..], got[1..]) by {
        assert forall i :: 1 <= i < |events| ==> events[i] == events[1..][i - 1];
        assert forall i :: 1 <= i < |got| ==> got[i] == got[1..][i - 1];
        assert forall i :: 0 <= i < |events[1..]| ==> events[1..][i] == events[i + 1];
        assert forall i :: 0 <= i < |got[1..]| ==> got[1..][i] == got[i + 1];
      }
    }
  }

  lemma {:induction false} SafeStream(events: seq<Event>)
    requires forall i :: 0 <= i < |events| ==> Safe(events[i])
    ensures Received(Stream(events)) == AllCollapsed(events)
  {
    if events != [] {
      SafeStream(events[1..]);
      ReceivedFirst(events[0], Stream(events[1..]));
    }
  }

  /** Whatever the order and number of events, the browser reads back the same list, each run of
      newlines collapsed to one. */
  lemma StreamRoundTrip(events: seq<Event>)
    requires forall i :: 0 <= i < |events| ==> Safe(events[i])
    ensures AllArrived(events, Received(Stream(events)))
  {
    SafeStream(events);
    AllArrivedIff(events, Received(Stream(events)));
  }

  // ---------------------------------------------------------------------------
  // The safety condition is exact

  /** Characters of a value that JSON can only express by an escape sequence. */
  function Escapes(v: string): nat {
    if v == [] then 0 else (if Plain(v[0]) then 0 else 1) + Escapes(v[1..])
  }

  /** A decoded string is paid for by the text it came from. */
  lemma {:induction false} StringBodyCost(t: string)
    ensures match StringBody(t)
            case None => true
            case Some((v, rest)) => |v| + Escapes(v) + 1 + |rest| <= |t|
  {
    if t != [] && t[0] != '"' {
      if t[0] == '\\' {
        match Escape(t)
        case None =>
        case Some((c, n)) =>
          StringBodyCost(t[n..]);
          match StringBody(t[n..]) {
            case None =>
            case Some((v, rest)) => assert ([c] + v)[1..] == v;
          }
      } else if Plain(t[0]) {
        StringBodyCost(t[1..]);
        match StringBody(t[1..])
        case None =>
        case Some((v, rest)) => assert ([t[0]] + v)[1..] == v;
      }
    }
  }

  /** Every value of an object is paid for by the text of the object, and so is its end. */
  lemma {:induction false} MembersCost(t: string)
    ensures match Members(t)
            case None => true
            case Some(ms) => forall m :: m in ms ==> |m.1| + Escapes(m.1) + 2 <= |t|
    decreases |t|, 1
  {
    match QuotedString(t)
    case None =>
    case Some((key, u)) =>
      match Token(':', u)
      case None =>
      case Some(v) =>
        match QuotedString(v)
        case None =>
        case Some((value, rest)) =>
          StringBodyCost(Token('"', v).value);
          AfterCost(key, value, rest);
  }

  lemma {:induction false} AfterCost(key: string, value: string, rest: string)
    ensures match After(key, value, rest)
            case None => true
            case Some(ms) =>
              |rest| >= 1 && forall m :: m in ms ==> m == (key, value) || |m.1| + Escapes(m.1) + 2 <= |rest|
    decreases |rest|, 2
  {
    var more := Token(',', rest);
    if more.Some? {
      MembersCost(more.value);
    }
  }

  lemma {:induction false} LookupIsMember(ms: seq<(string, string)>, key: string)
    ensures Lookup(ms, key).Some? ==> exists m :: m in ms && m.0 == key && m.1 == Lookup(ms, key).value
  {
    if ms != [] && ms[|ms| - 1].0 != key {
      LookupIsMember(ms[..|ms| - 1], key);
    }
  }

  /** The data read from an object that starts with `Opening(name)` fits into the text after it. */
  lemma DataCost(name: string, u: string)
    requires PlainText(name)
    ensures var d := Decode(Opening(name) + u);
            d.Some? ==> |d.value.data| + Escapes(d.value.data) + 2 <= |u|
  {
    var d := Decode(Opening(name) + u);
    if d.Some? {
      MembersOfOpening(name, u);
      StringBodyCost(u);
      var (value, rest) := StringBody(u).value;
      AfterCost("data", value, rest);
      var ms := [("event", name)] + After("data", value, rest).value;
      LookupIsMember(ms, "data");
    }
  }

  /** The first event dispatched extends the buffered text and is paid for by the stream. */
  lemma {:induction false} DispatchCost(s: string, buffer: string)
    requires buffer != [] && buffer[|buffer| - 1] == '\n'
    ensures var got := Dispatched(s, buffer);
            got != [] ==> buffer[..|buffer| - 1] <= got[0] && |got[0]| + 2 <= |buffer| + |s|
    decreases |s|
  {
    var i := LineLength(s);
    if 0 < i < |s| {
      var rest := AfterEol(s, i);
      var more := buffer + FieldData(s[..i]);
      DispatchCost(rest, more);
      assert buffer[..|buffer| - 1] <= more[..|more| - 1];
    }
  }

  /** Characters of the data that the server should have escaped and did not. */
  function Unsafe(d: string): nat {
    if d == [] then 0 else (if Plain(d[0]) || d[0] == '\n' then 0 else 1) + Unsafe(d[1..])
  }

  lemma {:induction false} UnsafeCount(d: string)
    ensures Unsafe(d) == 0 <==> SafeData(d)
  {
    if d != [] {
      UnsafeCount(d[1..]);
      assert SafeData(d) <==> (Plain(d[0]) || d[0] == '\n') && SafeData(d[1..]) by {
        assert SafeData(d) ==> forall i :: 0 <= i < |d[1..]| ==> d[1..][i] == d[i + 1];
        assert forall i :: 1 <= i < |d| ==> d[i] == d[1..][i - 1];
      }
    }
  }

  /** The text JSON needs for the data exceeds what the server prints by one per unsafe character. */
  lemma {:induction false} CollapsedCost(d: string)
    ensures var v := ReplaceNewlineRuns(d, "\n");
            |v| + Escapes(v) == |ReplaceNewlineRuns(d, "\\n")| + Unsafe(d)
  {
    if d != [] {
      CollapsedCost(d[1..]);
      var v' := ReplaceNewlineRuns(d[1..], "\n");
      assert ([d[0]] + v')[1..] == v';
      assert ("\n" + v')[1..] == v';
    }
  }

  /** The first event of a frame starts with the part of the payload before any line terminator
      and is no longer than the payload. */
  lemma FirstOfFrame(o: string, b: string)
    requires forall i :: 0 <= i < |o| ==> !IsEol(o[i])
    ensures var got := Dispatched(Frame(o + b), []);
            got != [] ==> exists u :: got[0] == o + u && |u| <= |b|
  {
    var s := Frame(o + b);
    assert s == "data: " + (o + (b + "\n\n"));
    var i := LineLength(s);
    assert IsEol(s[6 + |o| + |b|]) && i <= 6 + |o| + |b|;
    assert s[..6] == "data: ";
    assert s[6..6 + |o|] == o;
    forall j | 0 <= j < 6 + |o|
      ensures !IsEol(s[j])
    {
      assert s[j] == if j < 6 then s[..6][j] else s[6..6 + |o|][j - 6];
    }
    var line := s[..i];
    assert line[..5] == s[..6][..5] == "data:" && line[5] == s[..6][5] == ' ';
    var text := line[6..];
    assert text[..|o|] == o;
    AfterFirstLine(s, i, text, o);
  }

  lemma Extends(o: string, text: string, g: string)
    requires o <= text && text <= g
    ensures exists u :: g == o + u && |u| == |g| - |o|
  {
    assert g == o + g[|o|..];
  }

  lemma AfterFirstLine(s: string, i: nat, text: string, o: string)
    requires i == LineLength(s) && 6 <= i < |s| && FieldData(s[..i]) == text + "\n" && o <= text && |text| == i - 6
    ensures var got := Dispatched(s, []);
            got != [] ==> exists u :: got[0] == o + u && |o| + |u| + 8 <= |s|
  {
    var rest := AfterEol(s, i);
    var buffer := text + "\n";
    assert [] + FieldData(s[..i]) == buffer;
    var got := Dispatched(rest, buffer);
    DispatchedLine(s, i, []);
    DispatchCost(rest, buffer);
    if got != [] {
      assert buffer[..|buffer| - 1] == text;
      Extends(o, text, got[0]);
    }
  }

  lemma SafeEventArrives(e: Event)
    requires Safe(e)
    ensures Received(Frame(Payload(e))) == [Some(Collapsed(e))]
  {
    ReceivedFirst(e, []);
    assert Frame(Payload(e)) + [] == Frame(Payload(e));
    assert Received([]) == [];
  }

  lemma {:induction false} NothingToCollapse(d: string)
    requires PlainText(d)
    ensures ReplaceNewlineRuns(d, "\n") == d
  {
    if d != [] {
      NothingToCollapse(d[1..]);
    }
  }

  /** An event without newlines arrives as it is. */
  lemma PlainEventArrives(e: Event)
    requires PlainText(e.name) && PlainText(e.data)
    ensures Received(Frame(Payload(e))) == [Some(e)]
  {
    NothingToCollapse(e.data);
    SafeEventArrives(e);
  }

  lemma OpeningIsOneLine(name: string)
    requires PlainText(name)
    ensures forall i :: 0 <= i < |Opening(name)| ==> !IsEol(Opening(name)[i])
  {
  }

  lemma FirstText(e: Event, text: string) returns (u: string)
    requires PlainText(e.name) && Dispatched(Frame(Payload(e)), []) == [text]
    ensures text == Opening(e.name) + u && |u| <= |ReplaceNewlineRuns(e.data, "\\n")| + 2
  {
    var b := ReplaceNewlineRuns(e.data, "\\n") + ("\"" + "}");
    PayloadSplit(e);
    OpeningIsOneLine(e.name);
    var o := Opening(e.name);
    FirstOfFrame(o, b);
    u :| [text][0] == o + u && |u| <= |b|;
  }

  lemma ArrivedDataIsSafe(e: Event, u: string)
    requires PlainText(e.name) && Decode(Opening(e.name) + u) == Some(Collapsed(e))
    requires |u| <= |ReplaceNewlineRuns(e.data, "\\n")| + 2
    ensures SafeData(e.data)
  {
    DataCost(e.name, u);
    CollapsedCost(e.data);
    UnsafeCount(e.data);
  }

  lemma SafeIffCollapsed(e: Event)
    requires PlainText(e.name)
    ensures Received(Frame(Payload(e))) == [Some(Collapsed(e))] <==> SafeData(e.data)
  {
    if SafeData(e.data) {
      SafeEventArrives(e);
    } else if Received(Frame(Payload(e))) == [Some(Collapsed(e))] {
      var got := Dispatched(Frame(Payload(e)), []);
      OneReceived(got, Some(Collapsed(e)));
      var u := FirstText(e, got[0]);
      ArrivedDataIsSafe(e, u);
    }
  }

  /** A browser receives an event as it was sent, newline runs collapsed, exactly when its data has
      no quote, no backslash and no control character other than a newline. */
  lemma FrameRoundTripIff(e: Event)
    requires PlainText(e.name)
    ensures AllArrived([e], Received(Frame(Payload(e)))) <==> SafeData(e.data)
  {
    SafeIffCollapsed(e);
    AllArrivedIff([e], Received(Frame(Payload(e))));
    OneCollapsed(e);
  }

  lemma OneCollapsed(e: Event)
    ensures AllCollapsed([e]) == [Some(Collapsed(e))]
  {
    assert [e][1..] == [];
    assert AllCollapsed([]) == [];
  }

  lemma OneReceived(texts: seq<string>, d: Option<Event>)
    requires DecodeAll(texts) == [d]
    ensures |texts| == 1 && Decode(texts[0]) == d
  {
    assert |DecodeAll(texts)| == 1 + |DecodeAll(texts[1..])|;
    assert DecodeAll(texts)[0] == Decode(texts[0]);
  }

  // ---------------------------------------------------------------------------
  // Frames do not disturb each other

  lemma {:induction false} LineLengthPrefix(q: string, x: string)
    requires x != [] && IsEol(x[0])
    ensures LineLength(q + x) == LineLength(q)
  {
    if q == [] {
      assert q + x == x;
    } else if !IsEol(q[0]) {
      LineLengthPrefix(q[1..], x);
      assert (q + x)[1..] == q[1..] + x;
    }
  }

  /** Text that ends inside a line. */
  predicate Unterminated(q: string) {
    q != [] && !IsEol(q[|q| - 1])
  }

  lemma AfterEolPrefix(q: string, i: nat, x: string)
    requires Unterminated(q) && i < |q| && IsEol(q[i])
    ensures Unterminated(AfterEol(q, i)) && AfterEol(q + x, i) == AfterEol(q, i) + x
  {
  }

  /** The two newlines at the end of a frame leave the reader as it was at the start of the stream. */
  lemma {:induction false} Resynchronised(q: string, rest: string, buffer: string)
    requires Unterminated(q)
    ensures Dispatched(q + ("\n\n" + rest), buffer) == Dispatched(q + "\n\n", buffer) + Dispatched(rest, [])
    decreases |q|
  {
    var i := LineLength(q);
    if i < |q| {
      OneLine(q, "\n\n" + rest, buffer);
      OneLine(q, "\n\n", buffer);
      AfterEolPrefix(q, i, []);
      var flushed := if i == 0 then Flushed(buffer) else [];
      var more := if i == 0 then [] else buffer + FieldData(q[..i]);
      var q' := AfterEol(q, i);
      Resynchronised(q', rest, more);
      Associative(flushed, Dispatched(q' + "\n\n", more), Dispatched(rest, []));
    } else {
      LastLine(q, rest, buffer);
      LastLine(q, [], buffer);
      assert "\n\n" + [] == "\n\n";
      assert Flushed(buffer + FieldData(q)) + [] == Flushed(buffer + FieldData(q));
    }
  }

  lemma Associative<T>(a: seq<T>, b: seq<T>, c: seq<T>)
    ensures (a + b) + c == a + (b + c)
  {
  }

  /** The first line of `q`, whatever comes after `q`. */
  lemma OneLine(q: string, x: string, buffer: string)
    requires Unterminated(q) && LineLength(q) < |q| && x != [] && IsEol(x[0])
    ensures var i := LineLength(q);
            Dispatched(q + x, buffer) ==
              (if i == 0 then Flushed(buffer) else []) +
              Dispatched(AfterEol(q, i) + x, if i == 0 then [] else buffer + FieldData(q[..i]))
  {
    var i := LineLength(q);
    LineLengthPrefix(q, x);
    AfterEolPrefix(q, i, x);
    if i == 0 {
      DispatchedBlank(q + x, buffer);
    } else {
      DispatchedLine(q + x, i, buffer);
      assert (q + x)[..i] == q[..i];
    }
  }

  lemma LastLine(q: string, rest: string, buffer: string)
    requires q != [] && LineLength(q) == |q|
    ensures Dispatched(q + ("\n\n" + rest), buffer) == Flushed(buffer + FieldData(q)) + Dispatched(rest, [])
  {
    var x := "\n\n" + rest;
    LineLengthPrefix(q, x);
    DispatchedLine(q + x, |q|, buffer);
    assert (q + x)[..|q|] == q;
    AfterBothNewlines(q, rest);
    DispatchedBlank("\n" + rest, buffer + FieldData(q));
  }

  lemma AfterBothNewlines(q: string, rest: string)
    ensures AfterEol(q + ("\n\n" + rest), |q|) == "\n" + rest && AfterEol("\n" + rest, 0) == rest
  {
  }

  /** Once there is something in the buffer, the frame dispatches an event. */
  lemma {:induction false} SomethingDispatched(q: string, buffer: string)
    requires Unterminated(q) && (buffer != [] || FieldData(q[..LineLength(q)]) != [])
    ensures |Dispatched(q + "\n\n", buffer)| >= 1
    decreases |q|
  {
    var i := LineLength(q);
    if i == |q| {
      LastLine(q, [], buffer);
      assert "\n\n" + [] == "\n\n" && q[..i] == q;
    } else {
      OneLine(q, "\n\n", buffer);
      if i > 0 || buffer == [] {
        AfterEolPrefix(q, i, []);
        SomethingDispatched(AfterEol(q, i), buffer + FieldData(q[..i]));
      }
    }
  }

  /** Every frame dispatches at least one event, and the stream goes on as if it had not been there. */
  lemma FrameStandsAlone(p: string, rest: string)
    requires Unterminated(p)
    ensures Received(Frame(p) + rest) == Received(Frame(p)) + Received(rest)
    ensures |Received(Frame(p))| >= 1
  {
    var q := "data: " + p;
    assert Frame(p) == q + "\n\n" && Frame(p) + rest == q + ("\n\n" + rest);
    Resynchronised(q, rest, []);
    FirstLineIsData(p);
    SomethingDispatched(q, []);
    DecodeConcat(Dispatched(Frame(p), []), Dispatched(rest, []));
    DecodeCount(Dispatched(Frame(p), []));
  }

  lemma FirstLineIsData(p: string)
    requires p != []
    ensures var q := "data: " + p; FieldData(q[..LineLength(q)]) != []
  {
    var q := "data: " + p;
    var i := LineLength(q);
    assert forall j :: 0 <= j < 6 ==> q[j] == "data: "[j] && !IsEol(q[j]);
    assert i >= 6;
    assert q[..i][..5] == "data:";
  }

  lemma {:induction false} DecodeConcat(a: seq<string>, b: seq<string>)
    ensures DecodeAll(a + b) == DecodeAll(a) + DecodeAll(b)
  {
    if a == [] {
      assert a + b == b;
    } else {
      DecodeConcat(a[1..], b);
      DecodeCons(a[0], a[1..]);
      DecodeCons(a[0], a[1..] + b);
      Associative([a[0]], a[1..], b);
      Associative([Decode(a[0])], DecodeAll(a[1..]), DecodeAll(b));
      assert [a[0]] + a[1..] == a;
    }
  }

  lemma {:induction false} DecodeCount(a: seq<string>)
    ensures |DecodeAll(a)| == |a|
  {
    if a != [] {
      DecodeCount(a[1..]);
    }
  }

  lemma PayloadUnterminated(e: Event)
    ensures Unterminated(Payload(e))
  {
    assert Payload(e)[|Payload(e)| - 1] == "\"}"[1];
  }

  predicate PlainNames(events: seq<Event>) { forall i :: 0 <= i < |events| ==> PlainText(events[i].name) }

  predicate AllSafe(events: seq<Event>) { forall i :: 0 <= i < |events| ==> SafeData(events[i].data) }

  lemma FirstOfStream(events: seq<Event>)
    requires events != []
    ensures Received(Stream(events)) == Received(Frame(Payload(events[0]))) + Received(Stream(events[1..]))
    ensures |Received(Frame(Payload(events[0])))| >= 1
  {
    PayloadUnterminated(events[0]);
    FrameStandsAlone(Payload(events[0]), Stream(events[1..]));
  }

  lemma {:induction false} NoEventVanishes(events: seq<Event>)
    ensures |Received(Stream(events))| >= |events| == |AllCollapsed(events)|
  {
    if events != [] {
      FirstOfStream(events);
      NoEventVanishes(events[1..]);
    }
  }

  /** Two lists that agree and whose parts are at least as long as they should be agree part by part. */
  lemma SplitFirst<T>(a: seq<T>, b: seq<T>, x: T, c: seq<T>)
    requires a + b == [x] + c && |a| >= 1 && |b| >= |c|
    ensures a == [x] && b == c
  {
    assert |a| == 1;
    assert (a + b)[0] == x && (a + b)[1..] == b && ([x] + c)[1..] == c;
  }

  lemma {:induction false} ArrivedListIsSafe(events: seq<Event>)
    requires PlainNames(events) && Received(Stream(events)) == AllCollapsed(events)
    ensures AllSafe(events)
  {
    if events != [] {
      var e := events[0];
      FirstOfStream(events);
      NoEventVanishes(events[1..]);
      SplitFirst(Received(Frame(Payload(e))), Received(Stream(events[1..])), Some(Collapsed(e)), AllCollapsed(events[1..]));
      SafeIffCollapsed(e);
      ArrivedListIsSafe(events[1..]);
      assert forall i :: 1 <= i < |events| ==> events[i] == events[1..][i - 1];
    }
  }

  /** A list of events arrives, newline runs collapsed, exactly when the data of every event is safe: an
      unsafe event cannot be made good by its neighbours. */
  lemma StreamRoundTripIff(events: seq<Event>)
    requires PlainNames(events)
    ensures AllArrived(events, Received(Stream(events))) <==> AllSafe(events)
  {
    AllArrivedIff(events, Received(Stream(events)));
    if AllSafe(events) {
      SafeStream(events);
    } else if Received(Stream(events)) == AllCollapsed(events) {
      ArrivedListIsSafe(events);
    }
  }

  /** Console output with a quote in it does not arrive: the object ends early and does not parse. */
  lemma QuoteIsLost()
    ensures Received(Frame(Payload(Event("ReplResponseEvent", "\"")))) !=
            [Some(Event("ReplResponseEvent", "\""))]
  {
    var e := Event("ReplResponseEvent", "\"");
    assert ReplaceNewlineRuns(e.data, "\n") == e.data;
    assert !Plain(e.data[0]);
    SafeIffCollapsed(e);
  }

  // ---------------------------------------------------------------------------
  // What escaping would do

  function HexDigit(d: nat): (c: char)
    requires d < 16
    ensures HexValue(c) == Some(d) && Plain(c)
  {
    "0123456789abcdef"[d]
  }

  /** A character as section 7 of RFC 8259 asks for it. */
  function EscapeChar(c: char): string {
    if c == '"' then "\\\""
    else if c == '\\' then "\\\\"
    else if c == '\n' then "\\n"
    else if c == '\r' then "\\r"
    else if c == '\t' then "\\t"
    else if c as int == 8 then "\\b"
    else if c as int == 12 then "\\f"
    else if c as int < 0x20 then "\\u00" + [HexDigit(c as int / 16), HexDigit(c as int % 16)]
    else [c]
  }

  function Escaped(s: string): string {
    if s == [] then [] else EscapeChar(s[0]) + Escaped(s[1..])
  }

  lemma EscapeReads(c: char, t: string)
    ensures StringBody(EscapeChar(c) + t) ==
            match StringBody(t)
            case None => None
            case Some((v, rest)) => Some(([c] + v, rest))
  {
    var e := EscapeChar(c);
    assert (e + t)[|e|..] == t;
    if Plain(c) {
      PlainFirst(c, t);
    } else {
      EscapeOf(c, t);
      ReadEscape(e + t, c, |e|);
    }
  }

  lemma ReadEscape(t: string, c: char, n: nat)
    requires t != [] && t[0] == '\\' && n <= |t| && Escape(t) == Some((c, n))
    ensures StringBody(t) ==
            match StringBody(t[n..])
            case None => None
            case Some((v, rest)) => Some(([c] + v, rest))
  {
  }

  lemma EscapeOf(c: char, t: string)
    requires !Plain(c)
    ensures var e := EscapeChar(c); e != [] && e[0] == '\\' && Escape(e + t) == Some((c, |e|))
  {
    var e := EscapeChar(c);
    if |e| == 6 {
      var h := [HexDigit(c as int / 16), HexDigit(c as int % 16)];
      assert (e + t)[2..6] == "00" + h;
      assert HexValue('0') == Some(0);
      assert UnicodeEscape("00" + h) == Some(c);
    } else {
      assert (e + t)[0] == e[0] && (e + t)[1] == e[1];
    }
  }

  lemma {:induction false} EscapedBody(s: string, rest: string)
    ensures StringBody(Escaped(s) + ("\"" + rest)) == Some((s, rest))
  {
    var tail := "\"" + rest;
    if s == [] {
      assert [] + tail == tail;
    } else {
      EscapedBody(s[1..], rest);
      EscapedStep(s[0], Escaped(s[1..]), tail, s[1..], rest);
      assert s == [s[0]] + s[1..];
    }
  }

  lemma EscapedStep(c: char, more: string, tail: string, v: string, rest: string)
    requires StringBody(more + tail) == Some((v, rest))
    ensures StringBody((EscapeChar(c) + more) + tail) == Some(([c] + v, rest))
  {
    Associative(EscapeChar(c), more, tail);
    EscapeReads(c, more + tail);
  }

  lemma {:induction false} EscapedIsOneLine(s: string)
    ensures forall i :: 0 <= i < |Escaped(s)| ==> !IsEol(Escaped(s)[i])
  {
    if s != [] {
      EscapedIsOneLine(s[1..]);
      assert forall i :: 0 <= i < |EscapeChar(s[0])| ==> !IsEol(EscapeChar(s[0])[i]);
    }
  }

  /** Had the printer escaped the data, every text would arrive unaltered. */
  lemma EscapingWouldDo(name: string, data: string)
    requires PlainText(name)
    ensures Received(Frame(Opening(name) + Escaped(data) + "\"}")) == [Some(Event(name, data))]
  {
    var u := Escaped(data) + ("\"" + "}");
    var payload := Opening(name) + Escaped(data) + "\"}";
    assert payload == Opening(name) + u;
    MembersOfOpening(name, u);
    EscapedBody(data, "}");
    LastMember(name, data);
    assert Decode(payload) == Some(Event(name, data));
    OpeningIsOneLine(name);
    EscapedIsOneLine(data);
    FrameDispatches(payload, []);
    assert Frame(payload) + [] == Frame(payload);
    DecodeCons(payload, Dispatched([], []));
  }
}
