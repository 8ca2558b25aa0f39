/** The server's own request parser (protocol/request.go and FromRequest of protocol/batch.go),
    which reads the same bytes as Batch.ReadFrom by a different route. */
module RequestCodec {
  import opened ByteSeqs
  import opened Decimal
  import opened Streams
  import opened Configs
  import opened BatchCodec

  datatype Command = BATCH | READ | TAIL | STATS | CLOSE | CONFIG

  function CommandOf(word: Bytes): Option<Command>
  {
    if word == [66, 65, 84, 67, 72] then Some(BATCH)
    else if word == [82, 69, 65, 68] then Some(READ)
    else if word == [84, 65, 73, 76] then Some(TAIL)
    else if word == [83, 84, 65, 84, 83] then Some(STATS)
    else if word == [67, 76, 79, 83, 69] then Some(CLOSE)
    else if word == [67, 79, 78, 70, 73, 71] then Some(CONFIG)
    else None
  }

  function ArgCount(c: Command): nat
  {
    match c
    case BATCH => 4
    case READ => 3
    case TAIL => 2
    case _ => 0
  }

  /** A request as read: `header` bytes of `raw` are the first line. The body is missing when the
      input ended right after the first line. */
  datatype Received = Received(name: Command, args: seq<Bytes>, raw: Bytes, header: nat, body: Option<Bytes>,
    bodySize: int)

  /** A word without one trailing carriage return, unless it is nothing else. */
  function Trim(word: Bytes): Bytes
  {
    if |word| > 1 && word[|word| - 1] == RETURN then word[..|word| - 1] else word
  }

  /** The position of the first space or newline. */
  function WordEnd(line: Bytes): (n: nat)
    ensures n <= |line|
  {
    var i, j := IndexOf(line, SPACE), IndexOf(line, NEWLINE);
    if i < j then i else j
  }

  /** parseWord: the first word and what follows its delimiter. */
  function ParseWord(line: Bytes): Option<(Bytes, Bytes)>
  {
    var n := WordEnd(line);
    if n == |line| then None else Some((Trim(line[..n]), line[n + 1..]))
  }

  function ParseArgs(line: Bytes, count: nat): Option<seq<Bytes>>
  {
    if count == 0 then Some([])
    else
      match ParseWord(line)
      case None => None
      case Some((word, rest)) =>
        match ParseArgs(rest, count - 1)
        case None => None
        case Some(words) => Some([word] + words)
  }

  /** readEnvelope: one line, copied into a buffer of maxBatchSize bytes. */
  function ReadLine(cfg: Config, s: Bytes): Parsed<Bytes>
  {
    var r := ReadSlice(BUF_SIZE, s, NEWLINE);
    if r.err == None && |r.word| < 2 then Failed(Panic, r.rest)
    else if |r.word| > cfg.maxBatchSize then Failed(Panic, r.rest)
    else if r.err.Some? then Failed(r.err.value, r.rest)
    else if r.word[|r.word| - 2] != RETURN then Failed(InvalidLine, r.rest)
    else Parsed(r.word, r.rest)
  }

  /** readBody, for a body that starts `pos` bytes into the buffer. */
  function ReadBody(cfg: Config, s: Bytes, bodySize: int, pos: nat): Parsed<Bytes>
  {
    if bodySize < 0 || bodySize + pos >= TWO_63 then Failed(Panic, s)
    else if bodySize + pos > cfg.maxBatchSize then Failed(TooLarge, s)
    else ReadFull(s, bodySize)
  }

  /** Request.ReadFrom. */
  function ReadRequest(cfg: Config, s: Bytes): Parsed<Received>
  {
    var (line, s) :- ReadLine(cfg, s);
    var first := ParseWord(line);
    var command := if first.None? then None else CommandOf(first.value.0);
    if command.None? then Failed(UnknownCommand, s)
    else
      var name := command.value;
      var args := ParseArgs(first.value.1, ArgCount(name));
      if args.None? then Failed(InvalidLine, s)
      else if !name.BATCH? then Parsed(Received(name, args.value, line, |line|, None, 0), s)
      else ReadBatchRequest(cfg, line, args.value, s)
  }

  function ReadBatchRequest(cfg: Config, line: Bytes, args: seq<Bytes>, s: Bytes): Parsed<Received>
  {
    if args == [] then Failed(Panic, s)
    else
      match ParseUint(args[0])
      case None => Failed(InvalidByte, s)
      case Some(n) =>
        match ReadBody(cfg, s, ToInt(n), |line|)
        case Parsed(body, rest) => Parsed(Received(BATCH, args, line + body, |line|, Some(body), ToInt(n)), rest)
        case Failed(EOF, rest) => Parsed(Received(BATCH, args, line, |line|, None, ToInt(n)), rest)
        case Failed(e, rest) => Failed(e, rest)
  }

  datatype Decoded = Decoded(frame: Frame) | Rejected(err: Error)

  /** Batch.FromRequest. */
  function FromRequest(cfg: Config, req: Received): Decoded
  {
    if |req.args| != 4 then Rejected(InvalidNumArgs)
    else
      var size, crc, messages := ParseUint(req.args[0]), ParseUint(req.args[2]), ParseUint(req.args[3]);
      if size.None? || crc.None? || messages.None? then Rejected(InvalidByte)
      else
        var body := if req.body.Some? then req.body.value else [];
        if |body| < req.bodySize then Rejected(BodyTooSmall)
        else
          var f := Frame(req.args[1], crc.value % TWO_32, ToInt(messages.value), body);
          match Validate(cfg, f)
          case Some(e) => Rejected(e)
          case None => Decoded(f)
  }

  /** What the server makes of the bytes on a connection. */
  datatype Receipt = Accepted(raw: Bytes, frame: Frame, rest: Bytes) | Refused(err: Error)

  function Accept(cfg: Config, s: Bytes): Receipt
  {
    match ReadRequest(cfg, s)
    case Failed(e, _) => Refused(e)
    case Parsed(req, rest) =>
      if !req.name.BATCH? then Refused(InvalidRequest)
      else
        match FromRequest(cfg, req)
        case Rejected(e) => Refused(e)
        case Decoded(f) => Accepted(req.raw, f, rest)
  }

  // ----- lines and their words

  /** Exactly one newline, at the end. */
  predicate IsLine(line: Bytes)
  {
    |line| >= 1 && IndexOf(line, NEWLINE) == |line| - 1
  }

  /** A line as readLineFromBuf accepts it. */
  predicate IsCrLine(line: Bytes)
  {
    IsLine(line) && 2 <= |line| <= BUF_SIZE && line[|line| - 2] == RETURN
  }

  predicate EndsInReturn(word: Bytes) { |word| >= 1 && word[|word| - 1] == RETURN }

  /** A word that is followed by more words ends at a space. */
  lemma WordEndsAtSpace(line: Bytes)
    requires IsLine(line)
    requires var w := ParseWord(line); w.Some? && w.value.1 != []
    ensures var i := IndexOf(line, SPACE);
            && i < |line| - 1
            && ParseWord(line) == Some((Trim(line[..i]), line[i + 1..]))
            && IsLine(line[i + 1..])
  {
    hide Trim, IndexOf;
    IndexOfFirst(line, NEWLINE);
    IndexOfFirst(line, SPACE);
    var i := IndexOf(line, SPACE);
    assert line[|line|..] == [];
    IndexOfIs(line[i + 1..], NEWLINE, |line| - 2 - i);
  }

  /** Both parsers split such a word off at the same place; only the server's trims it. */
  lemma WordStep(line: Bytes, t: Bytes)
    requires IsCrLine(line)
    requires var w := ParseWord(line); w.Some? && w.value.1 != []
    ensures var i := IndexOf(line, SPACE);
            && i < |line| - 1
            && ParseWord(line) == Some((Trim(line[..i]), line[i + 1..]))
            && IsCrLine(line[i + 1..])
            && ReadSlice(BUF_SIZE, line + t, SPACE) == Slice(line[..i + 1], line[i + 1..] + t, None)
            && ReadToken(BUF_SIZE, line + t, SPACE, 1) == Parsed(line[..i], line[i + 1..] + t)
  {
    hide Trim, ParseWord, ReadSlice, ReadToken, IsLine, IndexOf;
    WordEndsAtSpace(line);
    SuffixKeepsReturn(line);
    SliceStep(line, t);
  }

  lemma SuffixKeepsReturn(line: Bytes)
    requires IsCrLine(line) && IndexOf(line, SPACE) < |line| - 1
    ensures var i := IndexOf(line, SPACE);
            |line| - i - 1 >= 2 && line[i + 1..][|line| - i - 3] == RETURN
  {
    hide IndexOf;
    IndexOfFirst(line, SPACE);
  }

  lemma SliceStep(line: Bytes, t: Bytes)
    requires IndexOf(line, SPACE) < |line| <= BUF_SIZE
    ensures var i := IndexOf(line, SPACE);
            && ReadSlice(BUF_SIZE, line + t, SPACE) == Slice(line[..i + 1], line[i + 1..] + t, None)
            && ReadToken(BUF_SIZE, line + t, SPACE, 1) == Parsed(line[..i], line[i + 1..] + t)
  {
    hide IndexOf;
    var i := IndexOf(line, SPACE);
    assert ReadSlice(BUF_SIZE, line, SPACE) == Slice(line[..i + 1], line[i + 1..], None);
    hide ReadSlice;
    SliceExtend(BUF_SIZE, line, SPACE, t);
    assert line[..i + 1][..i] == line[..i];
  }

  /** A number that survives trimming is the raw word's number, unless trimming did something. */
  lemma TrimmedNumber(word: Bytes)
    requires ParseUint(Trim(word)).Some?
    ensures ParseUint(word) == if EndsInReturn(word) then None else ParseUint(Trim(word))
  {
    if EndsInReturn(word) {
      assert !IsDigit(word[|word| - 1]);
    }
  }

  lemma RestOfLine(line: Bytes, t: Bytes)
    requires IsCrLine(line)
    ensures ReadToken(BUF_SIZE, line + t, NEWLINE, 2) == Parsed(line[..|line| - 2], t)
  {
    hide IndexOf;
    assert ReadToken(BUF_SIZE, line, NEWLINE, 2) == Parsed(line[..|line| - 2], []) by {
      assert line[..|line|] == line;
    }
    hide ReadToken;
    TokenExtend(BUF_SIZE, line, NEWLINE, 2, t);
    assert [] + t == t;
  }

  /** The one word of a line without spaces. */
  lemma OnlyWord(line: Bytes)
    requires IsCrLine(line) && SPACE !in line
    ensures ParseWord(line) == Some((Trim(line[..|line| - 1]), []))
  {
    hide IndexOf, Trim;
    IndexOfFirst(line, SPACE);
    assert IndexOf(line, SPACE) == |line|;
    assert line[|line|..] == [];
  }

  /** The last word of the line: Batch.ReadFrom takes the whole rest of the line instead. */
  lemma LastWord(line: Bytes, t: Bytes)
    requires IsCrLine(line)
    requires var w := ParseWord(line); w.Some? && ParseUint(w.value.0).Some?
    ensures ReadNumber(BUF_SIZE, line + t, NEWLINE, 2) ==
            if SPACE in line then Failed(InvalidByte, t)
            else Parsed(ParseUint(ParseWord(line).value.0).value, t)
  {
    hide ReadToken, ParseWord, IsLine;
    var tok := line[..|line| - 2];
    RestOfLine(line, t);
    if SPACE in line {
      var i :| 0 <= i < |line| && line[i] == SPACE;
      assert line[|line| - 1] == NEWLINE by { EndsInNewline(line); }
      assert tok[i] == SPACE && !IsDigit(tok[i]);
    } else {
      OnlyWord(line);
      var w := line[..|line| - 1];
      assert w[|w| - 1] == RETURN;
      assert |w| > 1 ==> Trim(w) == tok;
    }
  }

  lemma EndsInNewline(line: Bytes)
    requires IsLine(line)
    ensures line[|line| - 1] == NEWLINE
  {
    IndexOfFirst(line, NEWLINE);
  }

  /** A batch envelope as the printer lays it out: nothing to trim around the numbers, no extra
      words. A client can check this before sending. */
  predicate Plain(line: Bytes)
  {
    var i := IndexOf(line, SPACE);
    i < |line| && !EndsInReturn(line[..i]) && PlainFields(line[i + 1..])
  }

  predicate PlainFields(l1: Bytes)
  {
    var i1 := IndexOf(l1, SPACE);
    i1 < |l1| && !EndsInReturn(l1[..i1]) &&
    var l2 := l1[i1 + 1..];
    var i2 := IndexOf(l2, SPACE);
    i2 < |l2| && PlainTail(l2[i2 + 1..])
  }

  predicate PlainTail(l3: Bytes)
  {
    var i3 := IndexOf(l3, SPACE);
    i3 < |l3| && !EndsInReturn(l3[..i3]) && SPACE !in l3[i3 + 1..]
  }

  lemma LineShape(cfg: Config, s: Bytes)
    requires ReadLine(cfg, s).Parsed?
    ensures var l := ReadLine(cfg, s);
            && s == l.value + l.rest
            && IsCrLine(l.value)
  {
    IndexOfFirst(s, NEWLINE);
    var line := ReadLine(cfg, s).value;
    IndexOfIs(line, NEWLINE, |line| - 1);
  }

  lemma {:induction false} ArgsCount(line: Bytes, count: nat)
    requires ParseArgs(line, count).Some?
    ensures |ParseArgs(line, count).value| == count
    decreases count
  {
    hide ParseWord;
    if count > 0 {
      ArgsCount(ParseWord(line).value.1, count - 1);
    }
  }

  lemma ArgsStep(line: Bytes, args: seq<Bytes>)
    requires args != [] && ParseArgs(line, |args|) == Some(args)
    ensures line != []
    ensures var w := ParseWord(line);
            w.Some? && w.value.0 == args[0] && ParseArgs(w.value.1, |args| - 1) == Some(args[1..])
  {
    var rest := ParseWord(line).value.1;
    var words := ParseArgs(rest, |args| - 1).value;
    assert args == [args[0]] + words;
  }

  /** The server's view of an accepted batch: a line with four arguments, then the body. */
  predicate Accepts(cfg: Config, line: Bytes, body: Bytes, frame: Frame)
  {
    && IsCrLine(line)
    && |line| + |body| <= cfg.maxBatchSize
    && var first := ParseWord(line);
    && first.Some? && first.value.0 == BATCH_START[..5]
    && var args := ParseArgs(first.value.1, 4);
    && args.Some? && |args.value| == 4
    && var n, crc, messages := ParseUint(args.value[0]), ParseUint(args.value[2]), ParseUint(args.value[3]);
    && n == Some(|body|) && crc.Some? && messages.Some?
    && frame == Frame(args.value[1], crc.value % TWO_32, ToInt(messages.value), body)
    && frame.checksum == cfg.crc(body)
  }

  lemma AcceptedParts(cfg: Config, s: Bytes) returns (line: Bytes, body: Bytes)
    requires Accept(cfg, s).Accepted?
    ensures var a := Accept(cfg, s);
            && a.raw == line + body
            && s == a.raw + a.rest
            && Accepts(cfg, line, body, a.frame)
  {
    hide ParseWord, ParseUint, ReadLine, ParseArgs, IsCrLine;
    var l := ReadLine(cfg, s);
    line := l.value;
    LineShape(cfg, s);
    var rest := ParseWord(line).value.1;
    ArgsCount(rest, 4);
    var args := ParseArgs(rest, 4).value;
    assert ReadRequest(cfg, s) == ReadBatchRequest(cfg, line, args, l.rest);
    body := BatchRequestParts(cfg, line, args, l.rest);
    var a := Accept(cfg, s);
    assert s == line + (body + a.rest) == (line + body) + a.rest;
  }

  lemma BatchRequestParts(cfg: Config, line: Bytes, args: seq<Bytes>, s: Bytes) returns (body: Bytes)
    requires |args| == 4
    requires var r := ReadBatchRequest(cfg, line, args, s);
             r.Parsed? && FromRequest(cfg, r.value).Decoded?
    ensures var r := ReadBatchRequest(cfg, line, args, s);
            && r.value.raw == line + body && s == body + r.rest
            && |line| + |body| <= cfg.maxBatchSize
            && var n, crc, messages := ParseUint(args[0]), ParseUint(args[2]), ParseUint(args[3]);
            && n == Some(|body|) && crc.Some? && messages.Some?
            && var f := Frame(args[1], crc.value % TWO_32, ToInt(messages.value), body);
            && FromRequest(cfg, r.value) == Decoded(f) && f.checksum == cfg.crc(body)
  {
    hide ParseUint;
    var r := ReadBatchRequest(cfg, line, args, s).value;
    assert r.body.Some?;
    body := r.body.value;
  }

  // ----- when the stored bytes of an accepted request can be scanned again

  /** Reading the checksum and the message count, the last two fields. */
  function ReadTail(buf: nat, s: Bytes): Parsed<(uint64, uint64)>
  {
    var (crc, s) :- ReadNumber(buf, s, SPACE, 1);
    var (messages, s) :- ReadNumber(buf, s, NEWLINE, 2);
    Parsed((crc, messages), s)
  }

  lemma TailOfLine(l3: Bytes, t: Bytes, crc: Bytes, messages: Bytes)
    requires IsCrLine(l3)
    requires ParseArgs(l3, 2) == Some([crc, messages])
    requires ParseUint(crc).Some? && ParseUint(messages).Some?
    ensures ReadTail(BUF_SIZE, l3 + t).Parsed? <==> PlainTail(l3)
    ensures PlainTail(l3) ==>
              ReadTail(BUF_SIZE, l3 + t) == Parsed((ParseUint(crc).value, ParseUint(messages).value), t)
  {
    hide ReadNumber, ReadToken, ReadSlice, ParseWord, ParseUint, Trim;
    ArgsStep(l3, [crc, messages]);
    assert [crc, messages][1..] == [messages];
    var l4 := ParseWord(l3).value.1;
    ArgsStep(l4, [messages]);
    WordStep(l3, t);
    var i := IndexOf(l3, SPACE);
    IndexOfFirst(l3, SPACE);
    TrimmedNumber(l3[..i]);
    NumberFromToken(l3 + t, SPACE, 1);
    LastWord(l4, t);
  }

  lemma NumberFromToken(s: Bytes, d: byte, strip: nat)
    requires ReadToken(BUF_SIZE, s, d, strip).Parsed?
    ensures var p := ReadToken(BUF_SIZE, s, d, strip);
            ReadNumber(BUF_SIZE, s, d, strip)
            == match ParseUint(p.value) { case None => Failed(InvalidByte, p.rest) case Some(n) => Parsed(n, p.rest) }
  {}

  lemma FieldsOfLine(l1: Bytes, t: Bytes, args: seq<Bytes>)
    requires IsCrLine(l1)
    requires |args| == 4 && ParseArgs(l1, 4) == Some(args)
    requires ParseUint(args[0]).Some? && ParseUint(args[2]).Some? && ParseUint(args[3]).Some?
    ensures ReadFields(BUF_SIZE, l1 + t).Parsed? <==> PlainFields(l1)
    ensures PlainFields(l1) ==>
              && ReadFields(BUF_SIZE, l1 + t).rest == t
              && var e := ReadFields(BUF_SIZE, l1 + t).value;
              && e.size == ToInt(ParseUint(args[0]).value) && Trim(e.topic) == args[1]
              && e.checksum == ParseUint(args[2]).value % TWO_32
              && e.messages == ToInt(ParseUint(args[3]).value)
  {
    hide ReadNumber, ReadToken, ReadSlice, ParseWord, ParseUint, Trim, ParseArgs, PlainTail, ToInt, ReadFields,
      ReadTail, IsCrLine, IndexOf;
    ArgsStep(l1, args);
    var l2 := ParseWord(l1).value.1;
    ArgsStep(l2, args[1..]);
    var l3 := ParseWord(l2).value.1;
    assert args[1..][1..] == [args[2], args[3]];
    ArgsStep(l3, [args[2], args[3]]);
    WordStep(l1, t);
    WordStep(l2, t);
    var i1 := IndexOf(l1, SPACE);
    TrimmedNumber(l1[..i1]);
    NumberFromToken(l1 + t, SPACE, 1);
    TailOfLine(l3, t, args[2], args[3]);
    FieldsByTail(l1 + t);
  }

  /** ReadFields, with its last two fields named. */
  lemma FieldsByTail(s: Bytes)
    ensures var p1 := ReadNumber(BUF_SIZE, s, SPACE, 1);
            p1.Parsed? ==>
              var p2 := ReadToken(BUF_SIZE, p1.rest, SPACE, 1);
              p2.Parsed? ==>
                match ReadTail(BUF_SIZE, p2.rest)
                case Failed(e, rest) => ReadFields(BUF_SIZE, s) == Failed(e, rest)
                case Parsed((crc, messages), rest) =>
                  ReadFields(BUF_SIZE, s)
                    == Parsed(Envelope(ToInt(p1.value), p2.value, crc % TWO_32, ToInt(messages)), rest)
    ensures ReadNumber(BUF_SIZE, s, SPACE, 1).Failed? ==> ReadFields(BUF_SIZE, s).Failed?
  {
    hide ReadNumber, ReadToken;
  }

  lemma StartOfLine(line: Bytes, t: Bytes)
    requires IsCrLine(line)
    requires var w := ParseWord(line); w.Some? && w.value.0 == BATCH_START[..5] && w.value.1 != []
    ensures var i := IndexOf(line, SPACE);
            && i < |line|
            && (ReadStart(BUF_SIZE, line + t).Parsed? <==> !EndsInReturn(line[..i]))
            && (!EndsInReturn(line[..i]) ==> ReadStart(BUF_SIZE, line + t).rest == line[i + 1..] + t)
  {
    hide ReadToken, ReadSlice, ParseWord, Trim, EndsInReturn, IsCrLine;
    WordStep(line, t);
    var i := IndexOf(line, SPACE);
    IndexOfFirst(line, SPACE);
    BatchWord(line[..i]);
    assert line[..i + 1] == line[..i] + [SPACE];
  }

  lemma BatchWord(w: Bytes)
    requires Trim(w) == BATCH_START[..5]
    ensures w + [SPACE] == BATCH_START <==> !EndsInReturn(w)
  {
    assert BATCH_START == BATCH_START[..5] + [SPACE];
    if EndsInReturn(w) {
      assert |w + [SPACE]| == 7;
    }
  }

  /** The first line of a request. */
  function LineOf(raw: Bytes): Bytes
  {
    var i := IndexOf(raw, NEWLINE);
    if i < |raw| then raw[..i + 1] else raw
  }

  /** The server accepts envelopes that its own scanner cannot read again. The stored bytes of an
      accepted request are one whole batch if and only if its first line is plain; then the two
      parsers agree on every field, up to a carriage return at the end of the topic. */
  lemma StoredIsWholeIffPlain(cfg: Config, s: Bytes)
    requires Accept(cfg, s).Accepted?
    ensures var a := Accept(cfg, s);
            && (Whole(cfg, a.raw) <==> Plain(LineOf(a.raw)))
            && (Whole(cfg, a.raw) ==>
                  var f := FrameOf(cfg, a.raw);
                  && f == a.frame.(topic := f.topic) && Trim(f.topic) == a.frame.topic
                  && HeaderLength(cfg, a.raw) == |LineOf(a.raw)|)
  {
    hide ReadFields, ReadStart, ParseWord, ParseArgs, PlainFields, Trim, ParseUint, Accept, IsCrLine;
    var a := Accept(cfg, s);
    var line, body := AcceptedParts(cfg, s);
    LineOfParts(line, body);
    var l1 := ParseWord(line).value.1;
    var args := ParseArgs(l1, 4).value;
    ArgsStep(l1, args);
    WordStep(line, body);
    StartOfLine(line, body);
    FieldsOfLine(l1, body, args);
    assert body[..|body|] == body && body[|body|..] == [];
  }

  lemma LineOfParts(line: Bytes, body: Bytes)
    requires IsCrLine(line)
    ensures LineOf(line + body) == line
  {
    IndexOfFirst(line, NEWLINE);
    IndexOfIs(line + body, NEWLINE, |line| - 1);
    assert (line + body)[..|line|] == line;
  }

  /** Accepted bytes are a prefix of the input that fits the size limit. */
  lemma AcceptedFits(cfg: Config, s: Bytes)
    requires Accept(cfg, s).Accepted?
    ensures var a := Accept(cfg, s); s == a.raw + a.rest && 2 <= |a.raw| <= cfg.maxBatchSize
  {
    hide Accept, ParseArgs, ParseWord;
    var line, body := AcceptedParts(cfg, s);
  }

  // ----- canonical batches

  /** A batch as the client prints it, small enough for the server. */
  predicate Canonical(cfg: Config, f: Frame)
  {
    && Printable(cfg, f)
    && NEWLINE !in f.topic && Trim(f.topic) == f.topic
    && f.checksum == cfg.crc(f.body)
    && |Print(f)| <= cfg.maxBatchSize
  }

  lemma WordOfText(word: Bytes, d: byte, t: Bytes)
    requires SPACE !in word && NEWLINE !in word && (d == SPACE || d == NEWLINE)
    ensures ParseWord(word + [d] + t) == Some((Trim(word), t))
  {
    hide Trim;
    var s := word + [d] + t;
    IndexOfFirst(s, SPACE);
    IndexOfFirst(s, NEWLINE);
    assert s[|word|] == d;
    assert forall j :: 0 <= j < |word| ==> s[j] == word[j];
    assert WordEnd(s) == |word|;
    assert s[..|word|] == word;
    assert s[|word| + 1..] == t;
  }

  lemma NumberWord(n: nat)
    ensures SPACE !in Digits(n) && NEWLINE !in Digits(n) && RETURN !in Digits(n)
    ensures Trim(Digits(n)) == Digits(n) && Trim(Digits(n) + [RETURN]) == Digits(n)
  {
    var ds := Digits(n);
    assert forall i :: 0 <= i < |ds| ==> IsDigit(ds[i]);
    assert (ds + [RETURN])[..|ds|] == ds;
  }

  lemma ArgsOfText(word: Bytes, d: byte, t: Bytes, count: nat)
    requires SPACE !in word && NEWLINE !in word && (d == SPACE || d == NEWLINE)
    requires ParseArgs(t, count).Some?
    ensures ParseArgs(word + [d] + t, count + 1) == Some([Trim(word)] + ParseArgs(t, count).value)
  {
    hide ParseWord, Trim;
    WordOfText(word, d, t);
  }

  /** The words of a printed header. */
  lemma HeaderWords(cfg: Config, f: Frame)
    requires Canonical(cfg, f)
    ensures ParseArgs(Header(f)[6..], 4)
            == Some([Digits(|f.body|), f.topic, Digits(f.checksum), Digits(f.messages % TWO_64)])
  {
    hide ParseWord, ParseArgs, Trim, Digits, Print;
    var m := f.messages % TWO_64;
    var t3 := Digits(f.checksum) + [SPACE] + (Digits(m) + [RETURN] + [NEWLINE] + []);
    var t2 := f.topic + [SPACE] + t3;
    assert Header(f)[6..] == Digits(|f.body|) + [SPACE] + t2;
    NumberWord(|f.body|);
    NumberWord(f.checksum);
    NumberWord(m);
    NoArgs([]);
    ArgsOfText(Digits(m) + [RETURN], NEWLINE, [], 0);
    ArgsOfText(Digits(f.checksum), SPACE, Digits(m) + [RETURN] + [NEWLINE] + [], 1);
    ArgsOfText(f.topic, SPACE, t3, 2);
    ArgsOfText(Digits(|f.body|), SPACE, t2, 3);
    var a, b, c, d := Digits(|f.body|), f.topic, Digits(f.checksum), Digits(m);
    assert [a] + ([b] + ([c] + ([d] + []))) == [a, b, c, d];
  }

  lemma NoArgs(line: Bytes)
    ensures ParseArgs(line, 0) == Some([])
  {}

  lemma HeaderIsLine(cfg: Config, f: Frame, t: Bytes)
    requires Canonical(cfg, f)
    ensures ReadLine(cfg, Print(f) + t) == Parsed(Header(f), f.body + t)
  {
    hide Digits, Trim;
    var h := Header(f);
    NumberWord(|f.body|);
    NumberWord(f.checksum);
    NumberWord(f.messages % TWO_64);
    DigitsOfUint64(|f.body|);
    DigitsOfUint64(f.checksum);
    DigitsOfUint64(f.messages % TWO_64);
    var init := BATCH_START + Digits(|f.body|) + [SPACE] + f.topic + [SPACE] + Digits(f.checksum) + [SPACE]
              + Digits(f.messages % TWO_64) + [RETURN];
    assert h == init + [NEWLINE];
    assert NEWLINE !in init;
    var s := Print(f) + t;
    assert s == init + [NEWLINE] + (f.body + t);
    SliceOfText(BUF_SIZE, init, NEWLINE, f.body + t);
    assert h[|h| - 2] == RETURN;
  }

  lemma SliceOfText(buf: nat, word: Bytes, d: byte, t: Bytes)
    requires d !in word && |word| + 1 <= buf
    ensures ReadSlice(buf, word + [d] + t, d) == Slice(word + [d], t, None)
  {
    var s := word + [d] + t;
    IndexOfIs(s, d, |word|);
    assert s[..|word| + 1] == word + [d];
    assert s[|word| + 1..] == t;
  }

  /** The two parsers agree on every canonical batch: the server's own parser takes exactly the
      printed bytes, whatever follows, and sees the fields Batch.ReadFrom would. */
  lemma PrintedIsAccepted(cfg: Config, f: Frame, t: Bytes)
    requires Canonical(cfg, f)
    ensures Accept(cfg, Print(f) + t) == Accepted(Print(f), f, t)
    ensures ReadBatch(cfg, BUF_SIZE, Print(f) + t) == Parsed(f, t)
  {
    hide ReadLine, ParseWord, ParseArgs, ParseUint, Digits, Trim, ReadBatch;
    ReadPrinted(cfg, BUF_SIZE, f, t);
    HeaderIsLine(cfg, f, t);
    HeaderWords(cfg, f);
    var h, s := Header(f), Print(f) + t;
    assert h == BATCH_START[..5] + [SPACE] + h[6..];
    WordOfText(BATCH_START[..5], SPACE, h[6..]);
    assert Trim(BATCH_START[..5]) == BATCH_START[..5] by { TrimIdle(BATCH_START[..5]); }
    ParseUintOfDigits(|f.body|);
    ParseUintOfDigits(f.checksum);
    ParseUintOfDigits(f.messages % TWO_64);
    var args := ParseArgs(h[6..], 4).value;
    assert ReadRequest(cfg, s) == ReadBatchRequest(cfg, h, args, f.body + t);
    assert (f.body + t)[..|f.body|] == f.body && (f.body + t)[|f.body|..] == t;
  }

  lemma TrimIdle(word: Bytes)
    requires !EndsInReturn(word)
    ensures Trim(word) == word
  {}

  // ----- a family of accepted requests that cannot be scanned

  /** The printed header with another word after the message count. */
  function LooseHeader(f: Frame, extra: Bytes): Bytes
  {
    BATCH_START + (Digits(|f.body|) + [SPACE] + (f.topic + [SPACE] + (Digits(f.checksum) + [SPACE]
    + (Digits(f.messages % TWO_64) + [SPACE] + (extra + CRLF)))))
  }

  lemma LooseWords(cfg: Config, f: Frame, extra: Bytes)
    requires Canonical(cfg, f)
    ensures ParseArgs(LooseHeader(f, extra)[6..], 4)
            == Some([Digits(|f.body|), f.topic, Digits(f.checksum), Digits(f.messages % TWO_64)])
  {
    hide ParseWord, ParseArgs, Trim, Digits, Print;
    var m := f.messages % TWO_64;
    var t4 := extra + CRLF;
    var t3 := Digits(m) + [SPACE] + t4;
    var t2 := Digits(f.checksum) + [SPACE] + t3;
    var t1 := f.topic + [SPACE] + t2;
    assert LooseHeader(f, extra)[6..] == Digits(|f.body|) + [SPACE] + t1;
    NumberWord(|f.body|);
    NumberWord(f.checksum);
    NumberWord(m);
    NoArgs(t4);
    ArgsOfText(Digits(m), SPACE, t4, 0);
    ArgsOfText(Digits(f.checksum), SPACE, t3, 1);
    ArgsOfText(f.topic, SPACE, t2, 2);
    ArgsOfText(Digits(|f.body|), SPACE, t1, 3);
    var a, b, c, d := Digits(|f.body|), f.topic, Digits(f.checksum), Digits(m);
    assert [a] + ([b] + ([c] + ([d] + []))) == [a, b, c, d];
  }

  lemma LooseLine(cfg: Config, f: Frame, extra: Bytes, t: Bytes)
    requires Canonical(cfg, f) && NEWLINE !in extra
    requires |LooseHeader(f, extra)| <= BUF_SIZE && |LooseHeader(f, extra)| <= cfg.maxBatchSize
    ensures ReadLine(cfg, LooseHeader(f, extra) + t) == Parsed(LooseHeader(f, extra), t)
  {
    hide Digits, Trim, Print;
    var h := LooseHeader(f, extra);
    NumberWord(|f.body|);
    NumberWord(f.checksum);
    NumberWord(f.messages % TWO_64);
    var init := h[..|h| - 1];
    assert h == init + [NEWLINE];
    assert init == BATCH_START + (Digits(|f.body|) + [SPACE] + (f.topic + [SPACE] + (Digits(f.checksum) + [SPACE]
                 + (Digits(f.messages % TWO_64) + [SPACE] + (extra + [RETURN])))));
    assert NEWLINE !in init;
    SliceOfText(BUF_SIZE, init, NEWLINE, t);
    assert h[|h| - 2] == RETURN;
  }

  lemma LooseFieldsFail(f: Frame, extra: Bytes, t: Bytes)
    requires |f.body| < TWO_63 && SPACE !in f.topic && |f.topic| <= MAX_TOPIC_SIZE && NEWLINE !in extra
    requires |LooseHeader(f, extra)| <= BUF_SIZE
    ensures ReadFields(BUF_SIZE, LooseHeader(f, extra)[6..] + t).Failed?
  {
    hide ReadToken, Digits, ReadNumber;
    var m := f.messages % TWO_64;
    var w := Digits(m) + [SPACE] + extra;
    var t4 := w + CRLF + t;
    var t3 := Digits(f.checksum) + [SPACE] + t4;
    var t2 := f.topic + [SPACE] + t3;
    assert LooseHeader(f, extra)[6..] + t == Digits(|f.body|) + [SPACE] + t2;
    NumberOfText(BUF_SIZE, |f.body|, [SPACE], SPACE, t2);
    TokenOfText(BUF_SIZE, f.topic, [SPACE], SPACE, t3);
    NumberOfText(BUF_SIZE, f.checksum, [SPACE], SPACE, t4);
    NumberWord(m);
    TokenOfText(BUF_SIZE, w, CRLF, NEWLINE, t);
    NumberFromToken(t4, NEWLINE, 2);
    assert w[|Digits(m)|] == SPACE && !IsDigit(SPACE);
  }

  /** With one more word in its first line a batch is still accepted and stored, but what was stored is
      not a whole batch: reading stops there, and the next start cuts it off. */
  lemma ExtraWordIsStoredUnreadable(cfg: Config, f: Frame, extra: Bytes, t: Bytes)
    requires Canonical(cfg, f) && NEWLINE !in extra
    requires |LooseHeader(f, extra)| <= BUF_SIZE && |LooseHeader(f, extra)| + |f.body| <= cfg.maxBatchSize
    ensures var raw := LooseHeader(f, extra) + f.body;
            Accept(cfg, raw + t) == Accepted(raw, f, t) && !Whole(cfg, raw)
  {
    hide ReadLine, ParseWord, ParseArgs, ParseUint, Digits, Trim, ReadFields, Print, LooseHeader;
    var h := LooseHeader(f, extra);
    var raw := h + f.body;
    assert raw + t == h + (f.body + t);
    LooseLine(cfg, f, extra, f.body + t);
    LooseWords(cfg, f, extra);
    LooseStart(f, extra);
    WordOfText(BATCH_START[..5], SPACE, h[6..]);
    assert Trim(BATCH_START[..5]) == BATCH_START[..5] by { TrimIdle(BATCH_START[..5]); }
    ParseUintOfDigits(|f.body|);
    ParseUintOfDigits(f.checksum);
    ParseUintOfDigits(f.messages % TWO_64);
    var args := ParseArgs(h[6..], 4).value;
    assert ReadRequest(cfg, raw + t) == ReadBatchRequest(cfg, h, args, f.body + t);
    assert (f.body + t)[..|f.body|] == f.body && (f.body + t)[|f.body|..] == t;
    LooseFieldsFail(f, extra, f.body);
    assert raw == BATCH_START + (h[6..] + f.body);
    StartOfText(BUF_SIZE, h[6..] + f.body);
  }

  lemma LooseStart(f: Frame, extra: Bytes)
    ensures var h := LooseHeader(f, extra);
            |h| >= 6 && h == BATCH_START[..5] + [SPACE] + h[6..] && h == BATCH_START + h[6..]
  {}
}
