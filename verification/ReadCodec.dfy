/** READ and TAIL requests (protocol/read.go, protocol/tail_request.go): what the client prints, what the
    server's request parser makes of it, and how the server answers. */
module ReadCodec {
  import opened ByteSeqs
  import opened Decimal
  import opened Streams
  import opened Configs
  import opened BatchCodec
  import opened RequestCodec
  import opened PartitionTable
  import opened TopicState
  import opened Reading

  // ----- command words

  /** The word of a command. */
  function CommandWord(c: Command): Bytes
  {
    match c
    case BATCH => [66, 65, 84, 67, 72]
    case READ => [82, 69, 65, 68]
    case TAIL => [84, 65, 73, 76]
    case STATS => [83, 84, 65, 84, 83]
    case CLOSE => [67, 76, 79, 83, 69]
    case CONFIG => [67, 79, 78, 70, 73, 71]
  }

  /** Exactly the six command words are recognised, each as its command. */
  lemma CommandOfIff(word: Bytes, c: Command)
    ensures CommandOf(word) == Some(c) <==> word == CommandWord(c)
  {
    assert CommandWord(BATCH)[0] == 66 && CommandWord(READ)[0] == 82 && CommandWord(TAIL)[0] == 84;
    assert CommandWord(STATS)[0] == 83 && CommandWord(CLOSE)[0] == 67 == CommandWord(CONFIG)[0];
    assert CommandWord(CLOSE)[1] == 76 && CommandWord(CONFIG)[1] == 79;
  }

  // ----- printing

  /** Read.WriteTo. */
  function PrintRead(topic: Bytes, off: uint64, messages: int): Bytes
  {
    CommandWord(READ) + [SPACE] + (topic + [SPACE] + (Digits(off) + [SPACE] + (Digits(messages % TWO_64) + CRLF)))
  }

  /** Tail.WriteTo. */
  function PrintTail(topic: Bytes, messages: int): Bytes
  {
    CommandWord(TAIL) + [SPACE] + (topic + [SPACE] + (Digits(messages % TWO_64) + CRLF))
  }

  // ----- parsing

  datatype Asked = Asked(topic: Bytes, offset: uint64, messages: int) | NotAsked(err: Error)

  /** Read.FromRequest. */
  function ReadFromRequest(req: Received): Asked
  {
    if |req.args| != 3 then NotAsked(InvalidNumArgs)
    else
      match ParseUint(req.args[1])
      case None => NotAsked(InvalidByte)
      case Some(off) =>
        match ParseUint(req.args[2])
        case None => NotAsked(InvalidByte)
        case Some(n) => if ToInt(n) < 1 then NotAsked(InvalidRequest) else Asked(req.args[0], off, ToInt(n))
  }

  /** Tail.FromRequest; a TAIL has no offset. */
  function TailFromRequest(req: Received): Asked
  {
    if |req.args| != 2 then NotAsked(InvalidNumArgs)
    else
      match ParseUint(req.args[1])
      case None => NotAsked(InvalidByte)
      case Some(n) => if req.args[0] == [] then NotAsked(NoTopic) else Asked(req.args[0], 0, ToInt(n))
  }

  /** Request.Topic, by which requests are sent to queues. */
  function TopicOf(req: Received): Bytes
    requires |req.args| == ArgCount(req.name)
  {
    match req.name
    case BATCH => req.args[1]
    case READ => req.args[0]
    case TAIL => req.args[0]
    case _ => []
  }

  // ----- round trips

  /** A word that survives the trip: no space, no newline, no carriage return at its end. */
  predicate TopicWord(topic: Bytes)
  {
    SPACE !in topic && NEWLINE !in topic && !EndsInReturn(topic) && |topic| <= MAX_TOPIC_SIZE
  }

  lemma LineOfText(cfg: Config, init: Bytes, t: Bytes)
    requires NEWLINE !in init && |init| + 2 <= BUF_SIZE && |init| + 2 <= cfg.maxBatchSize
    ensures ReadLine(cfg, init + CRLF + t) == Parsed(init + CRLF, t)
  {
    var word, line := init + [RETURN], init + CRLF;
    assert line == word + [NEWLINE] && line + t == word + [NEWLINE] + t;
    SliceOfText(BUF_SIZE, word, NEWLINE, t);
    assert line[|line| - 2] == RETURN;
  }

  lemma WordTrims(c: Command)
    ensures Trim(CommandWord(c)) == CommandWord(c)
    ensures SPACE !in CommandWord(c) && NEWLINE !in CommandWord(c)
  {
    var w := CommandWord(c);
    assert w[|w| - 1] != RETURN;
  }

  /** A line of a command without a body. */
  lemma RequestOfText(cfg: Config, c: Command, init: Bytes, words: Bytes, args: seq<Bytes>, t: Bytes)
    requires c != BATCH
    requires var line := init + CRLF;
             && NEWLINE !in init && |line| <= BUF_SIZE && |line| <= cfg.maxBatchSize
             && ParseWord(line) == Some((CommandWord(c), words)) && ParseArgs(words, ArgCount(c)) == Some(args)
    ensures ReadRequest(cfg, init + CRLF + t)
            == Parsed(Received(c, args, init + CRLF, |init| + 2, None, 0), t)
  {
    hide ReadLine, ParseWord, ParseArgs, CommandOf, CommandWord;
    LineOfText(cfg, init, t);
    CommandOfIff(CommandWord(c), c);
  }

  /** The line that the client prints for READ is read as READ with exactly its three words, and decoded to the
      same topic, offset and count; counts below 1 are refused. */
  lemma PrintedReadIsRead(cfg: Config, topic: Bytes, off: uint64, messages: int, t: Bytes)
    requires TopicWord(topic) && -TWO_63 <= messages < TWO_63 && |topic| + 49 <= cfg.maxBatchSize
    ensures var line := PrintRead(topic, off, messages);
            var req := Received(READ, [topic, Digits(off), Digits(messages % TWO_64)], line, |line|, None, 0);
            && ReadRequest(cfg, line + t) == Parsed(req, t) && TopicOf(req) == topic
            && ReadFromRequest(req) == if messages < 1 then NotAsked(InvalidRequest) else Asked(topic, off, messages)
  {
    hide ParseWord, ParseArgs, Digits, Trim, CommandWord, ReadRequest, ParseUint, IndexOf;
    var n := messages % TWO_64;
    var w2 := Digits(off) + [SPACE] + (Digits(n) + [RETURN] + [NEWLINE] + []);
    var words := topic + [SPACE] + w2;
    var line := PrintRead(topic, off, messages);
    assert Digits(n) + [RETURN] + [NEWLINE] + [] == Digits(n) + CRLF;
    assert line == CommandWord(READ) + [SPACE] + words;
    NumberWord(off);
    NumberWord(n);
    DigitsOfUint64(off);
    DigitsOfUint64(n);
    NoArgs([]);
    ArgsOfText(Digits(n) + [RETURN], NEWLINE, [], 0);
    ArgsOfText(Digits(off), SPACE, Digits(n) + [RETURN] + [NEWLINE] + [], 1);
    TrimIdle(topic);
    ArgsOfText(topic, SPACE, w2, 2);
    assert [topic] + ([Digits(off)] + ([Digits(n)] + [])) == [topic, Digits(off), Digits(n)];
    WordTrims(READ);
    WordOfText(CommandWord(READ), SPACE, words);
    var init := CommandWord(READ) + [SPACE] + (topic + [SPACE] + (Digits(off) + [SPACE] + Digits(n)));
    assert line == init + CRLF;
    assert |CommandWord(READ)| == 4 by { WordLengths(); }
    RequestOfText(cfg, READ, init, words, [topic, Digits(off), Digits(n)], t);
    ParseUintOfDigits(off);
    ParseUintOfDigits(n);
    CountSurvives(messages);
  }

  lemma WordLengths()
    ensures |CommandWord(READ)| == 4 && |CommandWord(TAIL)| == 4
  {}

  /** A count goes over the wire as an unsigned number and comes back. */
  lemma CountSurvives(messages: int)
    requires -TWO_63 <= messages < TWO_63
    ensures ToInt(messages % TWO_64) == messages
  {
    assert messages % TWO_64 == if messages < 0 then messages + TWO_64 else messages;
  }

  /** The same for TAIL and its two words; the topic must not be empty. */
  lemma PrintedTailIsTail(cfg: Config, topic: Bytes, messages: int, t: Bytes)
    requires TopicWord(topic) && -TWO_63 <= messages < TWO_63 && |topic| + 28 <= cfg.maxBatchSize
    ensures var line := PrintTail(topic, messages);
            var req := Received(TAIL, [topic, Digits(messages % TWO_64)], line, |line|, None, 0);
            && ReadRequest(cfg, line + t) == Parsed(req, t) && TopicOf(req) == topic
            && TailFromRequest(req) == if topic == [] then NotAsked(NoTopic) else Asked(topic, 0, messages)
  {
    hide ParseWord, ParseArgs, Digits, Trim, CommandWord, ReadRequest, ParseUint, IndexOf;
    var n := messages % TWO_64;
    var words := topic + [SPACE] + (Digits(n) + [RETURN] + [NEWLINE] + []);
    var line := PrintTail(topic, messages);
    assert Digits(n) + [RETURN] + [NEWLINE] + [] == Digits(n) + CRLF;
    assert line == CommandWord(TAIL) + [SPACE] + words;
    NumberWord(n);
    DigitsOfUint64(n);
    NoArgs([]);
    ArgsOfText(Digits(n) + [RETURN], NEWLINE, [], 0);
    TrimIdle(topic);
    ArgsOfText(topic, SPACE, Digits(n) + [RETURN] + [NEWLINE] + [], 1);
    assert [topic] + ([Digits(n)] + []) == [topic, Digits(n)];
    WordTrims(TAIL);
    WordOfText(CommandWord(TAIL), SPACE, words);
    var init := CommandWord(TAIL) + [SPACE] + (topic + [SPACE] + Digits(n));
    assert line == init + CRLF;
    assert |CommandWord(TAIL)| == 4 by { WordLengths(); }
    RequestOfText(cfg, TAIL, init, words, [topic, Digits(n)], t);
    ParseUintOfDigits(n);
    CountSurvives(messages);
  }

  /** STATS, CLOSE and CONFIG stand alone on their lines. */
  lemma BareCommand(cfg: Config, c: Command, t: Bytes)
    requires (c == STATS || c == CLOSE || c == CONFIG) && cfg.maxBatchSize >= 8
    ensures var line := CommandWord(c) + CRLF;
            ReadRequest(cfg, line + t) == Parsed(Received(c, [], line, |line|, None, 0), t)
  {
    hide ReadRequest, ParseArgs, ParseWord, IndexOf;
    var w := CommandWord(c);
    assert w + CRLF == (w + [RETURN]) + [NEWLINE] + [];
    WordTrims(c);
    WordOfText(w + [RETURN], NEWLINE, []);
    assert Trim(w + [RETURN]) == w;
    NoArgs([]);
    RequestOfText(cfg, c, w, [], [], t);
  }

  // ----- answering

  /** What the server answers to a READ request on a connection. */
  function AnswerRead(cfg: Config, s: State, input: Bytes): ReadReply
    requires WellFormed(s.table)
  {
    match ReadRequest(cfg, input)
    case Failed(e, _) => ReadError(e)
    case Parsed(req, _) =>
      if !req.name.READ? then ReadError(InvalidRequest)
      else
        match ReadFromRequest(req)
        case NotAsked(e) => ReadError(e)
        case Asked(_, off, n) => HandleRead(cfg, s, off, n)
  }

  /** A printed READ is answered for the offset and count that were printed. */
  lemma PrintedReadIsAnswered(cfg: Config, s: State, topic: Bytes, off: uint64, messages: int, t: Bytes)
    requires TopicWord(topic) && -TWO_63 <= messages < TWO_63 && |topic| + 49 <= cfg.maxBatchSize
    requires WellFormed(s.table)
    ensures AnswerRead(cfg, s, PrintRead(topic, off, messages) + t) == HandleRead(cfg, s, off, messages)
  {
    hide ReadRequest, ReadFromRequest, Gather, ServePlan, PrintRead;
    PrintedReadIsRead(cfg, topic, off, messages, t);
  }
}
