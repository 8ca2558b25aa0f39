/** The message wire format of protocol/message.go. */
module MessageCodec {
  import opened ByteSeqs
  import opened Decimal
  import opened Streams

  const MSG_START: Bytes := [77, 83, 71, 32]  // "MSG "

  function PrintMessage(body: Bytes): Bytes
  {
    MSG_START + Digits(|body|) + CRLF + body + CRLF
  }

  function PrintMessages(bodies: seq<Bytes>): Bytes
  {
    if bodies == [] then [] else PrintMessage(bodies[0]) + PrintMessages(bodies[1..])
  }

  /** readNewLine. */
  function ReadNewline(s: Bytes): Parsed<()>
  {
    if s == [] then Failed(EOF, [])
    else if s[0] != RETURN then Failed(InvalidNewline, s[1..])
    else if |s| == 1 then Failed(EOF, [])
    else if s[1] != NEWLINE then Failed(InvalidNewline, s[2..])
    else Parsed((), s[2..])
  }

  /** Message.ReadFrom into a message whose body buffer has `max` bytes. */
  function ReadMessage(max: nat, buf: nat, s: Bytes): Parsed<Bytes>
  {
    var w := ReadSlice(buf, s, SPACE);
    if w.err.Some? then Failed(w.err.value, w.rest)
    else if w.word != MSG_START then Failed(InvalidLine, w.rest)
    else
      var (n, s) :- ReadNumber(buf, w.rest, NEWLINE, 2);
      if ToInt(n) < 0 || ToInt(n) > max then Failed(Panic, s)
      else
        var (body, s) :- ReadFull(s, ToInt(n));
        var (_, s) :- ReadNewline(s);
        Parsed(body, s)
  }

  /** MessageSize. */
  method MessageSize(bodySize: nat) returns (l: nat)
    ensures forall body: Bytes :: |body| == bodySize ==> l == |PrintMessage(body)|
  {
    l := bodySize;
    var digits := AsciiSize(l);
    l := l + digits + |MSG_START| + 2 * |CRLF|;
  }

  /** Message.WriteTo: the bytes written for a message with this body. */
  method WriteMessage(body: Bytes) returns (out: Bytes)
    requires |body| < TWO_63
    ensures out == PrintMessage(body)
  {
    var digitbuf := new byte[32](_ => 0);
    out := MSG_START;
    var l := UintToAscii(|body|, digitbuf);
    out := out + digitbuf[l..];
    out := out + CRLF;
    out := out + body;
    out := out + CRLF;
  }

  /** Message.readFromBuf. */
  method ReadMessageFrom(max: nat, r: Reader) returns (body: Bytes, err: Option<Error>)
    modifies r
    ensures match ReadMessage(max, r.buf, old(r.rest))
            case Parsed(b, rest) => err == None && body == b && r.rest == rest
            case Failed(e, rest) => err == Some(e) && r.rest == rest
  {
    hide ReadSlice, ParseUint;
    body := [];
    var word;
    word, err := r.TakeSlice(SPACE);
    if err.Some? { return; }
    if word != MSG_START { return body, Some(InvalidLine); }
    word, err := r.TakeSlice(NEWLINE);
    if err.Some? { return; }
    if |word| < 2 { return body, Some(Panic); }
    var n := AsciiToUint(word[..|word| - 2]);
    if n.None? { return body, Some(InvalidByte); }
    var size := ToInt(n.value);
    if size < 0 || size > max { return body, Some(Panic); }
    body, err := r.TakeFull(size);
    if err.Some? { return; }
    var nl := ReadNewline(r.rest);
    r.rest := nl.rest;
    err := if nl.Parsed? then None else Some(nl.err);
  }

  /** The message codec is an exact prefix code. */
  lemma ReadPrintedMessage(max: nat, buf: nat, body: Bytes, t: Bytes)
    requires |body| <= max < TWO_63 && 22 <= buf
    ensures ReadMessage(max, buf, PrintMessage(body) + t) == Parsed(body, t)
  {
    hide ReadNumber, Digits;
    var t2 := body + (CRLF + t);
    var t1 := Digits(|body|) + CRLF + t2;
    var s := PrintMessage(body) + t;
    assert s == MSG_START + t1;
    IndexOfIs(s, SPACE, 3);
    assert s[..4] == MSG_START;
    assert s[4..] == t1;
    NumberOfText(buf, |body|, CRLF, NEWLINE, t2);
    assert t2[..|body|] == body;
    assert t2[|body|..] == CRLF + t;
    assert (CRLF + t)[2..] == t;
  }

  /** The smallest message is "MSG 0\r\n\r\n". */
  lemma MessageLength(body: Bytes)
    ensures |PrintMessage(body)| == 8 + |Digits(|body|)| + |body| >= 9
  {}

  lemma {:induction false} PrintMessagesConcat(a: seq<Bytes>, b: seq<Bytes>)
    ensures PrintMessages(a + b) == PrintMessages(a) + PrintMessages(b)
  {
    hide PrintMessage;
    if a == [] {
      assert a + b == b;
    } else {
      PrintMessagesConcat(a[1..], b);
      var first, ra, rb := PrintMessage(a[0]), PrintMessages(a[1..]), PrintMessages(b);
      assert (a + b)[1..] == a[1..] + b;
      assert PrintMessages(a + b) == first + (ra + rb);
      assert first + (ra + rb) == first + ra + rb;
    }
  }

  lemma PrintMessagesSnoc(a: seq<Bytes>, x: Bytes)
    ensures PrintMessages(a + [x]) == PrintMessages(a) + PrintMessage(x)
  {
    hide PrintMessage;
    PrintMessagesConcat(a, [x]);
    assert PrintMessages([x][1..]) == [];
  }
}
