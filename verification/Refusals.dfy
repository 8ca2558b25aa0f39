/** What is refused, and how: requests that the server does not accept, files that it does not start on, and
    offsets that it does not read at. A refused request changes nothing. */
module Refusals {
  import opened ByteSeqs
  import opened Decimal
  import opened Streams
  import opened Configs
  import opened MessageCodec
  import opened BatchCodec
  import opened RequestCodec
  import opened Repair
  import opened PartitionTable
  import opened TopicState
  import opened TopicRefinement
  import opened StartUp
  import opened Reading
  import opened ReadCodec
  import opened ReadAnywhere

  // ----- BATCH requests

  /** A frame whose first line the server can read as the client prints it. */
  predicate Announced(cfg: Config, f: Frame)
  {
    && SPACE !in f.topic && NEWLINE !in f.topic && Trim(f.topic) == f.topic && |f.topic| <= MAX_TOPIC_SIZE
    && |f.body| < TWO_63 && |Header(f)| <= cfg.maxBatchSize
  }

  lemma AnnouncedWords(cfg: Config, f: Frame)
    requires Announced(cfg, f)
    ensures var h := Header(f);
            && |h| >= 6 && h == BATCH_START[..5] + [SPACE] + h[6..]
            && ParseArgs(h[6..], 4)
               == Some([Digits(|f.body|), f.topic, Digits(f.checksum), Digits(f.messages % TWO_64)])
  {
    hide ParseWord, ParseArgs, Trim, Digits, IndexOf;
    var m := f.messages % TWO_64;
    var t3 := Digits(f.checksum) + [SPACE] + (Digits(m) + [RETURN] + [NEWLINE] + []);
    var t2 := f.topic + [SPACE] + t3;
    var h := Header(f);
    assert h == BATCH_START + (Digits(|f.body|) + [SPACE] + t2);
    assert h[6..] == Digits(|f.body|) + [SPACE] + t2;
    assert BATCH_START == BATCH_START[..5] + [SPACE];
    NumberWord(|f.body|);
    NumberWord(f.checksum);
    NumberWord(m);
    NoArgs([]);
    ArgsOfText(Digits(m) + [RETURN], NEWLINE, [], 0);
    ArgsOfText(Digits(f.checksum), SPACE, Digits(m) + [RETURN] + [NEWLINE] + [], 1);
    ArgsOfText(f.topic, SPACE, t3, 2);
    ArgsOfText(Digits(|f.body|), SPACE, t2, 3);
    var a, b, c, d := Digits(|f.body|), f.topic, Digits(f.checksum), Digits(m);
    assert [a] + ([b] + ([c] + ([d] + []))) == [a, b, c, d];
  }

  lemma AnnouncedLine(cfg: Config, f: Frame, u: Bytes)
    requires Announced(cfg, f)
    ensures ReadLine(cfg, Header(f) + u) == Parsed(Header(f), u)
  {
    hide Digits, Trim, ReadLine;
    NumberWord(|f.body|);
    NumberWord(f.checksum);
    NumberWord(f.messages % TWO_64);
    DigitsOfUint64(|f.body|);
    DigitsOfUint64(f.checksum);
    DigitsOfUint64(f.messages % TWO_64);
    var init := BATCH_START + Digits(|f.body|) + [SPACE] + f.topic + [SPACE] + Digits(f.checksum) + [SPACE]
              + Digits(f.messages % TWO_64);
    assert Header(f) == init + CRLF;
    assert NEWLINE !in init;
    LineOfText(cfg, init, u);
  }

  lemma AnnouncedRequest(cfg: Config, f: Frame, u: Bytes)
    requires Announced(cfg, f)
    ensures ReadRequest(cfg, Header(f) + u)
            == ReadBatchRequest(cfg, Header(f),
                                [Digits(|f.body|), f.topic, Digits(f.checksum), Digits(f.messages % TWO_64)], u)
  {
    hide ReadLine, ParseWord, ParseArgs, Digits, Trim, ReadBatchRequest, Announced, Header;
    var h := Header(f);
    AnnouncedWords(cfg, f);
    AnnouncedLine(cfg, f, u);
    WordOfText(BATCH_START[..5], SPACE, h[6..]);
    assert Trim(BATCH_START[..5]) == BATCH_START[..5] by { TrimIdle(BATCH_START[..5]); }
  }

  /** What the server makes of a printed first line and whatever follows it: it takes as many bytes as the line
      announces and accepts them if their checksum is the announced one. More than MaxBatchSize bytes with the
      line, a missing body, a short one and another checksum each have their own error; a size that does not fit
      a Go int panics. */
  lemma AcceptDecides(cfg: Config, f: Frame, u: Bytes)
    requires Announced(cfg, f)
    ensures var h, n := Header(f), |f.body|;
            Accept(cfg, h + u) ==
            if |h| + n >= TWO_63 then Refused(Panic)
            else if |h| + n > cfg.maxBatchSize then Refused(TooLarge)
            else if u == [] && n > 0 then Refused(BodyTooSmall)
            else if |u| < n then Refused(UnexpectedEOF)
            else if cfg.crc(u[..n]) != f.checksum then Refused(CrcMismatch)
            else Accepted(h + u[..n], f.(messages := ToInt(f.messages % TWO_64), body := u[..n]), u[n..])
  {
    hide ReadLine, ParseWord, ParseArgs, ParseUint, Digits, Trim, ReadRequest, Announced, Header;
    AnnouncedRequest(cfg, f, u);
    assert |f.body| < TWO_63 by { AnnouncedSize(cfg, f); }
    ParseUintOfDigits(|f.body|);
    ParseUintOfDigits(f.checksum);
    ParseUintOfDigits(f.messages % TWO_64);
  }

  lemma AnnouncedSize(cfg: Config, f: Frame)
    requires Announced(cfg, f)
    ensures |f.body| < TWO_63
  {
    hide Digits, Trim;
  }

  /** A first line without a message count. */
  function NoCountLine(f: Frame): Bytes
  {
    BATCH_START + (Digits(|f.body|) + [SPACE] + (f.topic + [SPACE] + (Digits(f.checksum) + [SPACE] + CRLF)))
  }

  lemma NoCountRequest(cfg: Config, f: Frame, u: Bytes)
    requires Announced(cfg, f) && |NoCountLine(f)| <= cfg.maxBatchSize
    ensures ReadRequest(cfg, NoCountLine(f) + u)
            == ReadBatchRequest(cfg, NoCountLine(f), [Digits(|f.body|), f.topic, Digits(f.checksum), [RETURN]], u)
  {
    hide ParseWord, ParseArgs, Digits, IndexOf, ReadLine, ReadBatchRequest;
    var t3 := Digits(f.checksum) + [SPACE] + ([RETURN] + [NEWLINE] + []);
    var t2 := f.topic + [SPACE] + t3;
    var words := Digits(|f.body|) + [SPACE] + t2;
    var line := NoCountLine(f);
    assert line == BATCH_START[..5] + [SPACE] + words;
    NumberWord(|f.body|);
    NumberWord(f.checksum);
    DigitsOfUint64(|f.body|);
    DigitsOfUint64(f.checksum);
    NoArgs([]);
    ArgsOfText([RETURN], NEWLINE, [], 0);
    ArgsOfText(Digits(f.checksum), SPACE, [RETURN] + [NEWLINE] + [], 1);
    ArgsOfText(f.topic, SPACE, t3, 2);
    ArgsOfText(Digits(|f.body|), SPACE, t2, 3);
    var a, b, c := Digits(|f.body|), f.topic, Digits(f.checksum);
    assert [a] + ([b] + ([c] + ([[RETURN]] + []))) == [a, b, c, [RETURN]];
    var init := BATCH_START + (a + [SPACE] + (b + [SPACE] + (c + [SPACE])));
    assert line == init + CRLF;
    LineOfText(cfg, init, u);
    WordOfText(BATCH_START[..5], SPACE, words);
    assert Trim(BATCH_START[..5]) == BATCH_START[..5] by { TrimIdle(BATCH_START[..5]); }
  }

  /** Its last word is the carriage return, which is no number, and the request is refused although its body is
      there. */
  lemma NoCountRefused(cfg: Config, f: Frame, u: Bytes)
    requires Announced(cfg, f) && |u| >= |f.body| && |NoCountLine(f)| + |f.body| <= cfg.maxBatchSize
    ensures Accept(cfg, NoCountLine(f) + u) == Refused(InvalidByte)
  {
    hide ParseUint, Digits, ReadRequest, Announced, NoCountLine, IndexOf;
    NoCountRequest(cfg, f, u);
    assert |f.body| < TWO_63 by { AnnouncedSize(cfg, f); }
    ParseUintOfDigits(|f.body|);
    ParseUintOfDigits(f.checksum);
    ReturnIsNoNumber();
  }

  lemma ReturnIsNoNumber()
    ensures ParseUint([RETURN]) == None
  {}

  /** A refused request is answered with the error and changes neither table nor files. */
  lemma RefusedChangesNothing(cfg: Config, s: State, f: Frame, u: Bytes)
    requires WellFormed(s.table) && Announced(cfg, f)
    requires |Header(f)| + |f.body| > cfg.maxBatchSize || |u| < |f.body| || cfg.crc(u[..|f.body|]) != f.checksum
    ensures var (s', reply) := HandleBatch(cfg, s, Header(f) + u);
            && s' == s
            && reply == Refusal(if |Header(f)| + |f.body| >= TWO_63 then Panic
                                else if |Header(f)| + |f.body| > cfg.maxBatchSize then TooLarge
                                else if u == [] && |f.body| > 0 then BodyTooSmall
                                else if |u| < |f.body| then UnexpectedEOF
                                else CrcMismatch)
  {
    hide Accept, Announced, Header, HandleAccepted;
    AcceptDecides(cfg, f, u);
  }

  /** A batch is counted in the newest record, and in no other. */
  lemma BatchIsCounted(cfg: Config, s: State, g: Segments, raw: Bytes)
    requires Represents(cfg, s, g) && cfg.maxPartitions >= 1 && (Last(g) != [] || |raw| < cfg.partitionSize)
    ensures WellFormed(s.table)
    ensures var t := HandleAccepted(cfg, s, raw).0.table;
            t.parts[t.head].nbatches
            == if |raw| >= cfg.partitionSize - |Last(g)| then 1 else s.table.parts[s.table.head].nbatches + 1
  {
    hide Offset, DiskRep;
    HeadRep(cfg.maxPartitions, s.table, g);
    BatchRefines(cfg, s, g, raw);
  }

  /** When the file of the oldest partition is missing, a batch that needs its place is written to a new file
      and then refused, and the table does not know of it. */
  lemma RefusedAfterWriting(cfg: Config, s: State, raw: Bytes)
    requires WellFormed(s.table) && ShouldRotate(cfg, s.table, |raw|) && IsFull(s.table)
    requires s.table.parts[0].start !in s.files && NextOffset(s.table) != s.table.parts[0].start
    ensures var (s', reply) := HandleAccepted(cfg, s, raw);
            && reply == Refusal(NoSuchFile) && s'.table == s.table && s'.open == NextOffset(s.table)
            && s'.files == WriteFile(OpenFile(s.files, s'.open), s'.open, raw)
  {}

  // ----- first lines

  /** What is refused by its first line alone: a bare newline panics, and so does a line that is longer than
      MaxBatchSize; a line without a carriage return is invalid, one without a known command unknown, and one
      with too few words invalid. */
  lemma LineRefused(cfg: Config, init: Bytes, u: Bytes)
    requires NEWLINE !in init && |init| < BUF_SIZE
    ensures var line := init + [NEWLINE];
            var r, first := ReadRequest(cfg, line + u), ParseWord(line);
            if init == [] || |line| > cfg.maxBatchSize then r == Failed(Panic, u)
            else if init[|init| - 1] != RETURN then r == Failed(InvalidLine, u)
            else
              && first.Some?
              && match CommandOf(first.value.0)
                 case None => r == Failed(UnknownCommand, u)
                 case Some(c) => ParseArgs(first.value.1, ArgCount(c)) == None ==> r == Failed(InvalidLine, u)
  {
    hide ParseArgs, CommandOf, IndexOf, Trim;
    var line := init + [NEWLINE];
    SliceOfText(BUF_SIZE, init, NEWLINE, u);
    assert |init| >= 1 ==> line[|line| - 2] == init[|init| - 1];
    IndexOfIs(line, NEWLINE, |init|);
  }

  /** An input that ends before the first line does is refused with io.EOF. */
  lemma NoLineRefused(cfg: Config, s: Bytes)
    requires NEWLINE !in s && |s| < BUF_SIZE && |s| <= cfg.maxBatchSize
    ensures Accept(cfg, s) == Refused(EOF)
  {
    hide IndexOf, ParseWord, ParseArgs;
    IndexOfIs(s, NEWLINE, |s|);
  }

  /** One that fills the buffer without a newline is refused as too long for it, even if it ends there. */
  lemma LongLineRefused(cfg: Config, s: Bytes)
    requires |s| >= BUF_SIZE && NEWLINE !in s[..BUF_SIZE] && BUF_SIZE <= cfg.maxBatchSize
    ensures Accept(cfg, s) == Refused(BufferFull)
  {
    hide ParseWord, ParseArgs, IndexOf;
    IndexOfFirst(s, NEWLINE);
    assert forall j :: 0 <= j < BUF_SIZE ==> s[j] == s[..BUF_SIZE][j];
  }

  // ----- stored batches

  /** The first line of a batch with any numbers in it. */
  function LineText(n: uint64, topic: Bytes, c: uint32, m: uint64): Bytes
  {
    BATCH_START + (Digits(n) + [SPACE] + (topic + [SPACE] + (Digits(c) + [SPACE] + (Digits(m) + CRLF))))
  }

  /** What the scanner and start-up make of such a line and whatever follows it. A size beyond 2^63 panics, one
      beyond MaxBatchSize is too large, and otherwise as many bytes are the body, whatever they are. */
  lemma ReadDecides(cfg: Config, n: uint64, topic: Bytes, c: uint32, m: uint64, u: Bytes)
    requires SPACE !in topic && |topic| <= MAX_TOPIC_SIZE
    ensures var r := ReadBatch(cfg, BUF_SIZE, LineText(n, topic, c, m) + u);
            if n >= TWO_63 then r == Failed(Panic, u)
            else if n > cfg.maxBatchSize then r == Failed(TooLarge, u)
            else if |u| < n then r == Failed(if u == [] then EOF else UnexpectedEOF, [])
            else r == Parsed(Frame(topic, c, ToInt(m), u[..n]), u[n..])
  {
    hide ReadSlice, ParseUint, Digits, ReadStart, IndexOf;
    DigitsOfUint64(n);
    DigitsOfUint64(c);
    DigitsOfUint64(m);
    NumberWord(n);
    NumberWord(c);
    NumberWord(m);
    var s4 := Digits(m) + [RETURN] + [NEWLINE] + u;
    var s3 := Digits(c) + [SPACE] + s4;
    var s2 := topic + [SPACE] + s3;
    var s1 := Digits(n) + [SPACE] + s2;
    assert LineText(n, topic, c, m) + u == BATCH_START + s1;
    StartOfText(BUF_SIZE, s1);
    SliceOfText(BUF_SIZE, Digits(n), SPACE, s2);
    SliceOfText(BUF_SIZE, topic, SPACE, s3);
    SliceOfText(BUF_SIZE, Digits(c), SPACE, s4);
    SliceOfText(BUF_SIZE, Digits(m) + [RETURN], NEWLINE, u);
    assert (Digits(n) + [SPACE])[..|Digits(n)|] == Digits(n);
    assert (topic + [SPACE])[..|topic|] == topic;
    assert (Digits(c) + [SPACE])[..|Digits(c)|] == Digits(c);
    assert (Digits(m) + [RETURN] + [NEWLINE])[..|Digits(m)|] == Digits(m);
    ParseUintOfDigits(n);
    ParseUintOfDigits(c);
    ParseUintOfDigits(m);
  }

  // ----- messages

  /** What the client makes of the first line of a message and whatever follows it: as many bytes as announced
      and a line end, or an error; a size beyond the buffer panics. */
  lemma MessageDecides(max: nat, buf: nat, n: nat, u: Bytes)
    requires n < TWO_63 && buf >= 32
    ensures var r := ReadMessage(max, buf, MSG_START + Digits(n) + CRLF + u);
            if n > max then r == Failed(Panic, u)
            else if |u| < n then r == Failed(if u == [] then EOF else UnexpectedEOF, [])
            else if CRLF <= u[n..] then r == Parsed(u[..n], u[n + 2..])
            else r.Failed? && r.err == if u[n..] == [] || u[n..] == [RETURN] then EOF else InvalidNewline
  {
    hide Digits, ParseUint, ReadSlice, IndexOf;
    DigitsOfUint64(n);
    NumberWord(n);
    var line := Digits(n) + [RETURN];
    assert MSG_START + Digits(n) + CRLF + u == MSG_START[..3] + [SPACE] + (line + [NEWLINE] + u);
    SliceOfText(buf, MSG_START[..3], SPACE, line + [NEWLINE] + u);
    assert MSG_START[..3] + [SPACE] == MSG_START;
    SliceOfText(buf, line, NEWLINE, u);
    assert (line + [NEWLINE])[..|Digits(n)|] == Digits(n);
    ParseUintOfDigits(n);
    if |u| >= n { NewlineDecides(u[n..]); }
  }

  lemma NewlineDecides(s: Bytes)
    ensures if CRLF <= s then ReadNewline(s) == Parsed((), s[2..])
            else
              && ReadNewline(s).Failed?
              && ReadNewline(s).err == if s == [] || s == [RETURN] then EOF else InvalidNewline
  {
    assert |s| >= 2 ==> s == [s[0], s[1]] + s[2..];
    assert |s| == 1 ==> s == [s[0]];
  }

  /** Anything but "MSG " in front is no message. */
  lemma NoMessage(max: nat, buf: nat, word: Bytes, t: Bytes)
    requires SPACE !in word && |word| < buf && word + [SPACE] != MSG_START
    ensures ReadMessage(max, buf, word + [SPACE] + t) == Failed(InvalidLine, t)
  {
    hide ReadSlice, ReadNumber;
    SliceOfText(buf, word, SPACE, t);
  }

  // ----- start-up

  /** Start-up fails if and only if the parser panics in the newest file. */
  lemma StartFailsIff(cfg: Config, files: Files, g: Segments)
    requires cfg.maxPartitions >= 2 && g.parts != [] && Solid(g) && DiskRep(files, g)
    ensures Setup(cfg, files) == StartFailed(Panic) <==> Check(cfg, Last(g)) == Crashes
    ensures Setup(cfg, files).StartFailed? <==> Check(cfg, Last(g)) == Crashes
  {
    hide Check, DiskRep, Solid, Load, TableRep, Newest, StartSteps;
    if Check(cfg, Last(g)) != Crashes {
      SetupRefines(cfg, files, g);
    } else {
      var max, offs := cfg.maxPartitions, OffsetsOf(g);
      LoadedRep(cfg, files, g);
      var l := Load(EmptyTable(max), files, files, offs);
      var w := Newest(max, g);
      NewestLast(max, g);
      HeadRep(max, l.table, w);
      OpenHead(l.files, w);
      ListingOfDisk(files, g);
      assert Last(g) != [] by { EmptyIsIntact(cfg); }
    }
  }

  /** The first line of a batch with nothing at all for the message count. */
  function BareLine(f: Frame): Bytes
  {
    BATCH_START + (Digits(|f.body|) + [SPACE] + (f.topic + [SPACE] + (Digits(f.checksum) + [SPACE] + [NEWLINE])))
  }

  /** The batch parser panics on such a line, whatever follows. */
  lemma BareCountPanics(cfg: Config, f: Frame, t: Bytes)
    requires SPACE !in f.topic && |f.topic| <= MAX_TOPIC_SIZE && |f.body| < TWO_63
    ensures var r := ReadBatch(cfg, BUF_SIZE, BareLine(f) + t); r.Failed? && r.err == Panic
  {
    hide ReadSlice, ParseUint, Digits, ReadStart, IndexOf;
    DigitsOfUint64(|f.body|);
    DigitsOfUint64(f.checksum);
    NumberWord(|f.body|);
    NumberWord(f.checksum);
    var s4 := [NEWLINE] + t;
    var s3 := Digits(f.checksum) + [SPACE] + s4;
    var s2 := f.topic + [SPACE] + s3;
    var s1 := Digits(|f.body|) + [SPACE] + s2;
    assert BareLine(f) + t == BATCH_START + s1;
    StartOfText(BUF_SIZE, s1);
    SliceOfText(BUF_SIZE, Digits(|f.body|), SPACE, s2);
    SliceOfText(BUF_SIZE, f.topic, SPACE, s3);
    SliceOfText(BUF_SIZE, Digits(f.checksum), SPACE, s4);
    assert s4 == [] + [NEWLINE] + t;
    SliceOfText(BUF_SIZE, [], NEWLINE, t);
    assert (Digits(|f.body|) + [SPACE])[..|Digits(|f.body|)|] == Digits(|f.body|);
    assert (Digits(f.checksum) + [SPACE])[..|Digits(f.checksum)|] == Digits(f.checksum);
    ParseUintOfDigits(|f.body|);
    ParseUintOfDigits(f.checksum);
    assert |[] + [NEWLINE]| == 1;
  }

  /** A newest file with such a line behind whole batches keeps the server from starting. */
  lemma BareCountStopsStart(cfg: Config, files: Files, g: Segments, bs: seq<Bytes>, f: Frame, t: Bytes)
    requires cfg.maxPartitions >= 2 && g.parts != [] && Solid(g) && DiskRep(files, g)
    requires AllWhole(cfg, bs) && SPACE !in f.topic && |f.topic| <= MAX_TOPIC_SIZE && |f.body| < TWO_63
    requires Last(g) == Flat(bs) + (BareLine(f) + t)
    ensures Setup(cfg, files) == StartFailed(Panic)
  {
    hide Setup, AllWhole, ReadBatch, BareLine, DiskRep, Solid, Flat;
    var good, bad := Flat(bs), BareLine(f) + t;
    BareCountPanics(cfg, f, t);
    assert |bad| > 0 by { BareIsLong(f); }
    CheckSkips(cfg, [], bs, bad);
    assert [] + good + bad == good + bad && [] + good == good;
    CheckStops(cfg, good, bad);
    StartFailsIff(cfg, files, g);
  }

  lemma BareIsLong(f: Frame)
    ensures |BareLine(f)| > 0
  {
    hide Digits;
  }

  // ----- offsets

  /** An offset so far behind the last partition's start that the distance does not fit a Go int is not even
      looked for. */
  lemma ReadBeyondInt(cfg: Config, s: State, g: Segments, off: uint64, want: int)
    requires Represents(cfg, s, g) && want >= 1 && off - Offset(g, |g.parts| - 1) >= TWO_63
    ensures WellFormed(s.table) && HandleRead(cfg, s, off, want) == ReadError(BadSeek)
  {
    hide Offset, TableRep, Lookup, WellFormed, DiskRep, ScanPart, Serve;
    var n := |g.parts|;
    OffsetMonotone(g, 0, n - 1);
    assert Offset(g, 0) == g.base by { FirstOffset(g); }
    var i := LookupIs(cfg.maxPartitions, s.table, g, off);
    HolderUnique(g, off, i, n - 1);
    OpenHead(s.files, g);
  }

  /** READ for no messages is refused, TAIL for no messages answers with none. */
  lemma NothingAskedFor(cfg: Config, s: State, off: uint64, want: int)
    requires WellFormed(s.table) && want < 1 && s.table.parts[0].start < TWO_64 && s.table.nparts > 0
    ensures HandleRead(cfg, s, off, want) == ReadError(InvalidRequest)
    ensures HandleTail(cfg, s, want)
            == if s.table.parts[0].size == 0 then ReadError(NotFound) else ReadOk(s.table.parts[0].start, 0, [])
  {
    FirstIsFound(s.table, s.table.nparts);
  }

  lemma {:induction false} FirstIsFound(t: Table, i: nat)
    requires WellFormed(t) && i < |t.parts| && t.parts[0].start < TWO_64
    ensures LookupFrom(t, t.parts[0].start, i).Found?
    decreases i
  {
    if i > 0 { FirstIsFound(t, i - 1); }
  }
}
