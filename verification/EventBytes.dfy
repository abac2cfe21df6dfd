/** Events as bytes: what the service sends when the data is whatever bytes the console printed, and
    exactly which of it arrives. */
module EventBytes {
  import Decimal
  import opened EventStream
  import opened Utf8
  import opened NewlineRuns

  const NEWLINE: Byte := 10

  /** `regex_replace` of the newline runs, on bytes. */
  function ReplaceRuns(data: seq<Byte>, mark: seq<Byte>): seq<Byte> {
    if data == [] then []
    else if data[0] != NEWLINE then [data[0]] + ReplaceRuns(data[1..], mark)
    else if 1 < |data| && data[1] == NEWLINE then ReplaceRuns(data[1..], mark)
    else mark + ReplaceRuns(data[1..], mark)
  }

  /** What goes over the wire for an event. */
  function Wire(name: string, data: seq<Byte>): seq<Byte> {
    Bytes("data: " + Opening(name)) + (ReplaceRuns(data, Bytes("\\n")) + Bytes("\"}\n\n"))
  }

  /** What a browser sees of it. */
  function Seen(wire: seq<Byte>): seq<Decimal.Option<Event>> {
    Received(Text(wire))
  }

  /** With a newline as the mark, the runs are collapsed. */
  lemma {:induction false} ReplaceRunsCollapses(data: seq<Byte>)
    ensures Collapses(data, NEWLINE, ReplaceRuns(data, [NEWLINE]))
  {
    if data == [] {
      CollapsesEmpty<Byte>(NEWLINE);
    } else {
      var rest := ReplaceRuns(data[1..], [NEWLINE]);
      ReplaceRunsCollapses(data[1..]);
      assert data == [data[0]] + data[1..];
      if data[0] == NEWLINE && 1 < |data| && data[1] == NEWLINE {
        CollapsesAgain(data[1..], NEWLINE, rest);
      } else {
        CollapsesCons(data[0], data[1..], NEWLINE, rest);
      }
    }
  }

  // ---------------------------------------------------------------------------
  // Replacing newlines and decoding commute

  /** A mark that is a character by itself, followed by more or not. */
  predicate IsMark(mark: string) {
    mark != [] && forall i :: 0 <= i < |mark| ==> mark[i] as int < 0x80
  }

  /** A piece without newlines is passed on as it is. */
  lemma {:induction false} ReplacePiece(data: seq<Byte>, mark: seq<Byte>, n: nat)
    requires n <= |data| && forall k :: 0 <= k < n ==> data[k] != NEWLINE
    ensures ReplaceRuns(data, mark) == data[..n] + ReplaceRuns(data[n..], mark)
  {
    if n > 0 {
      ReplacePiece(data[1..], mark, n - 1);
      assert data[..n] == [data[0]] + data[1..][..n - 1];
      assert data[1..][n - 1..] == data[n..];
    } else {
      assert data[n..] == data;
    }
  }

  /** What follows a piece continues it after the replacement exactly if it did before. */
  lemma NextKind(data: seq<Byte>, mark: seq<Byte>)
    requires mark != [] && mark[0] < 0x80
    ensures ByteAt(ReplaceRuns(data, mark), 0) == ByteAt(data, 0) || (ByteAt(ReplaceRuns(data, mark), 0) < 0x80 && ByteAt(data, 0) < 0x80)
    decreases |data|
  {
    if |data| > 1 && data[0] == NEWLINE && data[1] == NEWLINE {
      NextKind(data[1..], mark);
    }
  }

  lemma PieceDecodes(data: seq<Byte>, mark: seq<Byte>)
    requires data != [] && data[0] != NEWLINE && mark != [] && mark[0] < 0x80
    ensures var (c, n) := DecodeOne(data);
            && ReplaceRuns(data, mark) == data[..n] + ReplaceRuns(data[n..], mark)
            && Text(ReplaceRuns(data, mark)) == [c] + Text(ReplaceRuns(data[n..], mark))
            && ReplaceRuns(data, mark) != [] && DecodeOne(ReplaceRuns(data, mark)) == (c, n)
            && c != '\n'
  {
    var (c, n) := DecodeOne(data);
    forall k | 0 <= k < n
      ensures data[k] != NEWLINE
    {
      if k > 0 {
        NoAsciiInside(data, k);
      }
    }
    ReplacePiece(data, mark, n);
    var tail := ReplaceRuns(data[n..], mark);
    var replaced := data[..n] + tail;
    NextKind(data[n..], mark);
    assert ByteAt(replaced, n) == ByteAt(tail, 0) && ByteAt(data, n) == ByteAt(data[n..], 0);
    Local(data, replaced);
    assert replaced[n..] == tail;
  }

  lemma AsciiFirst(x: Byte, rest: seq<Byte>)
    requires x < 0x80
    ensures Text([x] + rest) == [x as char] + Text(rest)
  {
    assert ([x] + rest)[1..] == rest;
  }

  lemma EncodedMark(mark: string)
    requires IsMark(mark)
    ensures Bytes(mark) != [] && Bytes(mark)[0] < 0x80
  {
    assert EncodeChar(mark[0]) == [mark[0] as int];
  }

  /** Whatever the bytes, the browser's text is the decoded data with its newline runs replaced. */
  lemma {:induction false} ReplaceDecodes(data: seq<Byte>, mark: string)
    requires IsMark(mark)
    ensures Text(ReplaceRuns(data, Bytes(mark))) == ReplaceNewlineRuns(Text(data), mark)
    decreases |data|
  {
    if data != [] {
      EncodedMark(mark);
      if data[0] != NEWLINE {
        PieceDecodes(data, Bytes(mark));
        var (c, n) := DecodeOne(data);
        ReplaceDecodes(data[n..], mark);
        assert ([c] + Text(data[n..]))[1..] == Text(data[n..]);
      } else {
        AsciiFirst(NEWLINE, data[1..]);
        assert data == [NEWLINE] + data[1..];
        var text := Text(data);
        assert text[1..] == Text(data[1..]);
        NewlineDecodes(data[1..]);
        ReplaceDecodes(data[1..], mark);
        TextOfBytes(mark, ReplaceRuns(data[1..], Bytes(mark)));
      }
    }
  }

  /** Only the newline byte decodes to a newline. */
  lemma NewlineDecodes(data: seq<Byte>)
    ensures data != [] && data[0] == NEWLINE <==> Text(data) != [] && Text(data)[0] == '\n'
  {
  }

  lemma WireDecodes(name: string, data: seq<Byte>)
    ensures Text(Wire(name, data)) == Frame(Payload(Event(name, Text(data))))
  {
    var body := ReplaceRuns(data, Bytes("\\n"));
    var tail := Bytes("\"}\n\n");
    TextOfBytes("data: " + Opening(name), body + tail);
    EncodedMark("\"}\n\n");
    Concat(body, tail);
    TextRoundTrip("\"}\n\n");
    ReplaceDecodes(data, "\\n");
    FrameShape(Opening(name), ReplaceNewlineRuns(Text(data), "\\n"));
  }

  lemma FrameShape(opening: string, body: string)
    ensures "data: " + opening + (body + "\"}\n\n") == Frame(opening + body + "\"}")
  {
    assert "\"}\n\n" == "\"}" + "\n\n";
  }

  // ---------------------------------------------------------------------------
  // What arrives

  /** Replacing newline runs loses a character exactly if it was lost before. */
  lemma {:induction false} ReplaceLossless(data: seq<Byte>)
    ensures Lossless(ReplaceRuns(data, [NEWLINE])) <==> Lossless(data)
    decreases |data|
  {
    if data != [] {
      var replaced := ReplaceRuns(data, [NEWLINE]);
      LosslessPiece(data);
      if data[0] != NEWLINE {
        PieceDecodes(data, [NEWLINE]);
        var (c, n) := DecodeOne(data);
        LosslessPiece(replaced);
        assert replaced[..n] == data[..n] && replaced[n..] == ReplaceRuns(data[n..], [NEWLINE]);
        ReplaceLossless(data[n..]);
      } else {
        var rest := ReplaceRuns(data[1..], [NEWLINE]);
        LosslessPiece([NEWLINE] + rest);
        assert ([NEWLINE] + rest)[1..] == rest;
        ReplaceLossless(data[1..]);
      }
    }
  }

  predicate SafeByte(x: Byte) {
    x == NEWLINE || (x >= 0x20 && x != 0x22 && x != 0x5C)
  }

  predicate SafeBytes(data: seq<Byte>) {
    forall i :: 0 <= i < |data| ==> SafeByte(data[i])
  }

  lemma SafePiece(data: seq<Byte>)
    requires data != []
    ensures var (c, n) := DecodeOne(data);
            && ((Plain(c) || c == '\n') <==> SafeByte(data[0]))
            && forall k :: 1 <= k < n ==> SafeByte(data[k])
  {
    var (c, n) := DecodeOne(data);
    forall k | 1 <= k < n
      ensures SafeByte(data[k])
    {
      NoAsciiInside(data, k);
    }
  }

  lemma SafeCons(c: char, text: string)
    ensures SafeData([c] + text) <==> (Plain(c) || c == '\n') && SafeData(text)
  {
    var t := [c] + text;
    assert t[0] == c && forall i :: 0 <= i < |text| ==> t[i + 1] == text[i];
    assert forall i :: 1 <= i < |t| ==> t[i] == text[i - 1];
  }

  /** Which text is safe can be seen from the bytes. */
  lemma {:induction false} SafeBytesIff(data: seq<Byte>)
    ensures SafeBytes(data) <==> SafeData(Text(data))
    decreases |data|
  {
    if data != [] {
      var (c, n) := DecodeOne(data);
      SafePiece(data);
      SafeBytesIff(data[n..]);
      SafeCons(c, Text(data[n..]));
      assert forall i :: n <= i < |data| ==> data[i] == data[n..][i - n];
    }
  }

  /** The browser got one event, with the name, and its data is the text whose bytes were sent, newline
      runs collapsed. */
  ghost predicate Arrives(name: string, data: seq<Byte>) {
    exists text :: Seen(Wire(name, data)) == [Decimal.Some(Event(name, text))] && Collapses(data, NEWLINE, Bytes(text))
  }

  lemma NewlineBytes()
    ensures Bytes("\n") == [NEWLINE]
  {
  }

  /** Bytes arrive, newline runs collapsed, exactly when they are well-formed UTF-8 without a quote, a
      backslash or a control character other than a newline. */
  lemma BytesArriveIff(name: string, data: seq<Byte>)
    requires PlainText(name)
    ensures Arrives(name, data) <==> WellFormed(data) && SafeBytes(data)
  {
    var e := Event(name, Text(data));
    var text := ReplaceNewlineRuns(Text(data), "\n");
    WireDecodes(name, data);
    SafeIffCollapsed(e);
    NewlineBytes();
    ReplaceDecodes(data, "\n");
    ReplaceLossless(data);
    WellFormedIff(data);
    SafeBytesIff(data);
    ReplaceRunsCollapses(data);
    if Arrives(name, data) {
      var t :| Seen(Wire(name, data)) == [Decimal.Some(Event(name, t))] && Collapses(data, NEWLINE, Bytes(t));
      CollapsesUnique(data, NEWLINE, Bytes(t), ReplaceRuns(data, [NEWLINE]));
      TextRoundTrip(t);
      assert t == text;
    }
    if WellFormed(data) && SafeBytes(data) {
      assert Seen(Wire(name, data)) == [Decimal.Some(Event(name, text))];
    }
  }

  /** Console output is sent in pieces of at most 1024 bytes; a piece that ends inside a character has only
      safe bytes and does not arrive. */
  lemma CutCharacter()
    ensures SafeBytes([0xC3]) && !Arrives("ReplResponseEvent", [0xC3])
  {
    assert DecodeOne([0xC3]) == (REPLACEMENT, 1);
    LosslessPiece([0xC3]);
    WellFormedIff([0xC3]);
    BytesArriveIff("ReplResponseEvent", [0xC3]);
  }
}
