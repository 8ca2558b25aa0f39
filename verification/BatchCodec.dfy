/** The batch wire format of protocol/batch.go: one printer, one parser, and what cutting or
    extending the input does to the parser. */
module BatchCodec {
  import opened ByteSeqs
  import opened Decimal
  import opened Streams
  import opened Configs

  const BATCH_START: Bytes := [66, 65, 84, 67, 72, 32]  // "BATCH "
  const MAX_TOPIC_SIZE := 255

  type int64 = x: int | -0x8000_0000_0000_0000 <= x < 0x8000_0000_0000_0000

  /** The contents of a batch: its size field is |body|. */
  datatype Frame = Frame(topic: Bytes, checksum: uint32, messages: int64, body: Bytes)

  /** The envelope as parsed, before the body is read. */
  datatype Envelope = Envelope(size: int64, topic: Bytes, checksum: uint32, messages: int64)

  // ----- printing

  function Header(f: Frame): Bytes
  {
    BATCH_START + Digits(|f.body|) + [SPACE] + f.topic + [SPACE] + Digits(f.checksum) + [SPACE]
    + Digits(f.messages % TWO_64) + CRLF
  }

  function Print(f: Frame): Bytes
  {
    Header(f) + f.body
  }

  /** What the printer needs so that its output can be split at the spaces again. */
  predicate Printable(cfg: Config, f: Frame)
  {
    && SPACE !in f.topic
    && |f.topic| <= MAX_TOPIC_SIZE
    && |f.body| <= cfg.maxBatchSize
  }

  // ----- parsing

  /** The first word of an envelope, which has to be "BATCH ". */
  function ReadStart(buf: nat, s: Bytes): Parsed<()>
  {
    var r := ReadSlice(buf, s, SPACE);
    if r.word == [] then Failed(if r.err == Some(EOF) then EOF else InvalidLine, r.rest)
    else if r.word != BATCH_START then Failed(InvalidLine, r.rest)
    else if r.err.Some? then Failed(r.err.value, r.rest)
    else Parsed((), r.rest)
  }

  function ReadFields(buf: nat, s: Bytes): Parsed<Envelope>
  {
    var (n, s) :- ReadNumber(buf, s, SPACE, 1);
    var (topic, s) :- ReadToken(buf, s, SPACE, 1);
    var (crc, s) :- ReadNumber(buf, s, SPACE, 1);
    var (messages, s) :- ReadNumber(buf, s, NEWLINE, 2);
    Parsed(Envelope(ToInt(n), topic, crc % TWO_32, ToInt(messages)), s)
  }

  function ReadEnvelope(buf: nat, s: Bytes): Parsed<Envelope>
  {
    var (_, s) :- ReadStart(buf, s);
    ReadFields(buf, s)
  }

  function ReadData(cfg: Config, s: Bytes, size: int): Parsed<Bytes>
  {
    if size > cfg.maxBatchSize then Failed(TooLarge, s)
    else if size < 0 then Failed(Panic, s)
    else ReadFull(s, size)
  }

  lemma EnvelopeShrinks(buf: nat, s: Bytes)
    ensures var e := ReadEnvelope(buf, s); e.Parsed? ==> |e.rest| < |s|
  {
    hide ReadNumber, ReadToken;
    if ReadEnvelope(buf, s).Parsed? {
      var p0 := ReadStart(buf, s);
      var p1 := ReadNumber(buf, p0.rest, SPACE, 1);
      var p2 := ReadToken(buf, p1.rest, SPACE, 1);
      var p3 := ReadNumber(buf, p2.rest, SPACE, 1);
      var p4 := ReadNumber(buf, p3.rest, NEWLINE, 2);
      assert |p0.rest| < |s|;
      NumberShrinks(buf, p0.rest, SPACE, 1);
      TokenShrinks(buf, p1.rest, SPACE, 1);
      NumberShrinks(buf, p2.rest, SPACE, 1);
      NumberShrinks(buf, p3.rest, NEWLINE, 2);
    }
  }

  /** Batch.ReadFrom. */
  function ReadBatch(cfg: Config, buf: nat, s: Bytes): (r: Parsed<Frame>)
    ensures r.Parsed? ==> |r.rest| < |s|
  {
    EnvelopeShrinks(buf, s);
    var (e, s) :- ReadEnvelope(buf, s);
    var (body, s) :- ReadData(cfg, s, e.size);
    Parsed(Frame(e.topic, e.checksum, e.messages, body), s)
  }

  /** Batch.Validate. */
  function Validate(cfg: Config, f: Frame): Option<Error>
  {
    if |f.body| > cfg.maxBatchSize then Some(TooLarge)
    else if f.checksum != cfg.crc(f.body) then Some(CrcMismatch)
    else None
  }

  /** `b` is exactly one batch on the wire, and its checksum is right. */
  predicate Whole(cfg: Config, b: Bytes)
  {
    var r := ReadBatch(cfg, BUF_SIZE, b);
    r.Parsed? && r.rest == [] && Validate(cfg, r.value) == None
  }

  function FrameOf(cfg: Config, b: Bytes): Frame
    requires Whole(cfg, b)
  {
    ReadBatch(cfg, BUF_SIZE, b).value
  }

  /** The length of the envelope line of a whole batch. */
  function HeaderLength(cfg: Config, b: Bytes): (n: int)
    requires Whole(cfg, b)
  {
    |b| - |FrameOf(cfg, b).body|
  }

  // ----- the parser undoes the printer

  lemma StartOfText(buf: nat, t: Bytes)
    requires buf >= 6
    ensures ReadStart(buf, BATCH_START + t) == Parsed((), t)
  {
    IndexOfIs(BATCH_START + t, SPACE, 5);
    assert (BATCH_START + t)[..6] == BATCH_START;
    assert (BATCH_START + t)[6..] == t;
  }

  lemma FieldsOfText(buf: nat, f: Frame, t: Bytes)
    requires |f.body| < TWO_63 && SPACE !in f.topic
    requires |f.topic| + 1 <= buf && 22 <= buf
    ensures ReadFields(buf, Header(f)[6..] + t)
            == Parsed(Envelope(|f.body|, f.topic, f.checksum, f.messages), t)
  {
    hide ReadNumber, ReadToken, Digits;
    var m := f.messages % TWO_64;
    var t4 := Digits(m) + CRLF + t;
    var t3 := Digits(f.checksum) + [SPACE] + t4;
    var t2 := f.topic + [SPACE] + t3;
    var t1 := Digits(|f.body|) + [SPACE] + t2;
    assert Header(f)[6..] + t == t1;
    NumberOfText(buf, |f.body|, [SPACE], SPACE, t2);
    TokenOfText(buf, f.topic, [SPACE], SPACE, t3);
    NumberOfText(buf, f.checksum, [SPACE], SPACE, t4);
    NumberOfText(buf, m, CRLF, NEWLINE, t);
    assert ToInt(m) == f.messages;
  }

  /** The batch codec is an exact prefix code: printed bytes followed by anything give back every
      field, and exactly the printed bytes are consumed. */
  lemma ReadPrinted(cfg: Config, buf: nat, f: Frame, t: Bytes)
    requires Printable(cfg, f)
    requires |f.topic| + 1 <= buf && 22 <= buf
    ensures ReadBatch(cfg, buf, Print(f) + t) == Parsed(f, t)
  {
    var s := Header(f)[6..] + (f.body + t);
    assert Header(f) == BATCH_START + Header(f)[6..];
    assert Print(f) + t == BATCH_START + s;
    StartOfText(buf, s);
    FieldsOfText(buf, f, f.body + t);
    assert (f.body + t)[..|f.body|] == f.body;
    assert (f.body + t)[|f.body|..] == t;
  }

  /** No two different frames print alike, not even as prefixes of each other. */
  lemma PrintIsPrefixFree(cfg: Config, f: Frame, g: Frame)
    requires Printable(cfg, f) && Printable(cfg, g)
    requires Print(f) <= Print(g)
    ensures f == g
  {
    hide ReadBatch, Print;
    ReadPrinted(cfg, BUF_SIZE, g, []);
    ReadPrinted(cfg, BUF_SIZE, f, Print(g)[|Print(f)|..]);
    assert Print(g) + [] == Print(g) == Print(f) + Print(g)[|Print(f)|..];
  }

  lemma PrintedIsWhole(cfg: Config, f: Frame)
    requires Printable(cfg, f) && f.checksum == cfg.crc(f.body)
    ensures Whole(cfg, Print(f)) && FrameOf(cfg, Print(f)) == f
    ensures HeaderLength(cfg, Print(f)) == |Header(f)|
  {
    ReadPrinted(cfg, BUF_SIZE, f, []);
    assert Print(f) + [] == Print(f);
  }

  // ----- extending and cutting the input of a successful read

  lemma FieldsExtend(buf: nat, s: Bytes, t: Bytes)
    requires ReadFields(buf, s).Parsed?
    ensures var p := ReadFields(buf, s); ReadFields(buf, s + t) == Parsed(p.value, p.rest + t)
  {
    hide ReadNumber, ReadToken;
    var p1 := ReadNumber(buf, s, SPACE, 1);
    var p2 := ReadToken(buf, p1.rest, SPACE, 1);
    var p3 := ReadNumber(buf, p2.rest, SPACE, 1);
    NumberExtend(buf, s, SPACE, 1, t);
    TokenExtend(buf, p1.rest, SPACE, 1, t);
    NumberExtend(buf, p2.rest, SPACE, 1, t);
    NumberExtend(buf, p3.rest, NEWLINE, 2, t);
  }

  lemma FieldsCut(buf: nat, s: Bytes, k: nat)
    requires ReadFields(buf, s).Parsed? && k <= |s|
    ensures var p := ReadFields(buf, s);
            var w := Used(s, p);
            && 4 <= w <= |s|
            && (k < w ==> ReadFields(buf, s[..k]) == Failed(EOF, []))
            && (k >= w ==> ReadFields(buf, s[..k]) == Parsed(p.value, p.rest[..k - w]))
  {
    hide ReadNumber, ReadToken;
    var p1 := ReadNumber(buf, s, SPACE, 1);
    var p2 := ReadToken(buf, p1.rest, SPACE, 1);
    var p3 := ReadNumber(buf, p2.rest, SPACE, 1);
    var p4 := ReadNumber(buf, p3.rest, NEWLINE, 2);
    var u1 := |s| - |p1.rest|;
    var u2 := |s| - |p2.rest|;
    var u3 := |s| - |p3.rest|;
    NumberCut(buf, s, SPACE, 1, k);
    TokenCut(buf, p1.rest, SPACE, 1, if k >= u1 then k - u1 else 0);
    NumberCut(buf, p2.rest, SPACE, 1, if k >= u2 then k - u2 else 0);
    NumberCut(buf, p3.rest, NEWLINE, 2, if k >= u3 then k - u3 else 0);
  }

  lemma StartIs(buf: nat, s: Bytes)
    requires ReadStart(buf, s).Parsed?
    ensures buf >= 6 && |s| >= 6 && s == BATCH_START + s[6..] && ReadStart(buf, s).rest == s[6..]
  {
    var r := ReadSlice(buf, s, SPACE);
    assert r.word[5] == SPACE;
    assert s[..6] == r.word;
  }

  /** A read that succeeds does not depend on what follows. */
  lemma ReadBatchExtend(cfg: Config, buf: nat, s: Bytes, t: Bytes)
    requires ReadBatch(cfg, buf, s).Parsed?
    ensures var p := ReadBatch(cfg, buf, s); ReadBatch(cfg, buf, s + t) == Parsed(p.value, p.rest + t)
  {
    hide ReadFields, ReadStart;
    StartIs(buf, s);
    StartOfText(buf, s[6..] + t);
    assert s + t == BATCH_START + (s[6..] + t);
    FieldsExtend(buf, s[6..], t);
    var e := ReadFields(buf, s[6..]);
    var n := e.value.size;
    assert (e.rest + t)[..n] == e.rest[..n];
    assert (e.rest + t)[n..] == e.rest[n..] + t;
  }

  lemma StartCut(buf: nat, k: nat)
    requires buf >= 6 && k < 6
    ensures ReadStart(buf, BATCH_START[..k]) == Failed(if k == 0 then EOF else InvalidLine, [])
  {
    IndexOfIs(BATCH_START[..k], SPACE, k);
  }

  /** Reading a batch cut after k bytes: the error is io.EOF exactly when the cut falls between
      the end of "BATCH " and the first byte of the body. */
  lemma ReadBatchCut(cfg: Config, b: Bytes, k: nat)
    requires Whole(cfg, b) && k < |b|
    ensures 10 <= HeaderLength(cfg, b) <= |b|
    ensures ReadBatch(cfg, BUF_SIZE, b[..k]) ==
            Failed(if k == 0 || 6 <= k <= HeaderLength(cfg, b) then EOF
                   else if k < 6 then InvalidLine
                   else UnexpectedEOF, [])
  {
    hide ReadFields, ReadStart;
    StartIs(BUF_SIZE, b);
    var s := b[6..];
    var e := ReadFields(BUF_SIZE, s);
    FieldsCut(BUF_SIZE, s, if k >= 6 then k - 6 else 0);
    if k < 6 {
      StartCut(BUF_SIZE, k);
      assert b[..k] == BATCH_START[..k];
    } else {
      StartOfText(BUF_SIZE, s[..k - 6]);
      assert b[..k] == BATCH_START + s[..k - 6];
    }
  }

  lemma WholeExtend(cfg: Config, b: Bytes, t: Bytes)
    requires Whole(cfg, b)
    ensures ReadBatch(cfg, BUF_SIZE, b + t) == Parsed(FrameOf(cfg, b), t)
  {
    ReadBatchExtend(cfg, BUF_SIZE, b, t);
    assert [] + t == t;
  }

  /** What is left after the fields is a suffix of the input. */
  lemma FieldsRest(buf: nat, s: Bytes)
    requires ReadFields(buf, s).Parsed?
    ensures var r := ReadFields(buf, s).rest;
            && |r| <= |s| - 4 && r == s[|s| - |r|..]
            && ReadFields(buf, s[..|s| - |r|]) == Parsed(ReadFields(buf, s).value, [])
  {
    hide ReadFields;
    var p := ReadFields(buf, s);
    FieldsCut(buf, s, |s|);
    var w := |s| - |p.rest|;
    FieldsCut(buf, s, w);
    FieldsExtend(buf, s[..w], s[w..]);
    assert s[..w] + s[w..] == s;
    assert [] + s[w..] == s[w..];
  }

  /** Successful reads consume a prefix that is itself one whole batch. */
  lemma ReadIsPrefix(cfg: Config, s: Bytes)
    requires ReadBatch(cfg, BUF_SIZE, s).Parsed?
    requires Validate(cfg, ReadBatch(cfg, BUF_SIZE, s).value) == None
    ensures var p := ReadBatch(cfg, BUF_SIZE, s);
            var n := Used(s, p);
            && 10 <= n <= |s|
            && Whole(cfg, s[..n])
            && FrameOf(cfg, s[..n]) == p.value
            && p.rest == s[n..]
  {
    hide ReadFields, ReadStart;
    StartIs(BUF_SIZE, s);
    var e := ReadFields(BUF_SIZE, s[6..]);
    FieldsRest(BUF_SIZE, s[6..]);
    var d := e.value.size;
    var w := |s| - |e.rest|;
    var n := w + d;
    assert s[6..][..w - 6] == s[6..w];
    FieldsExtend(BUF_SIZE, s[6..w], s[w..n]);
    assert s[6..w] + s[w..n] == s[6..n];
    StartOfText(BUF_SIZE, s[6..n]);
    assert s[..n] == BATCH_START + s[6..n];
    assert [] + s[w..n] == s[w..n] == e.rest[..d];
    assert s[w..n][..d] == s[w..n] && s[w..n][d..] == [];
    assert e.rest[d..] == s[n..];
  }

  /** Two whole batches at the start of the same bytes are the same batch. */
  lemma WholeUnique(cfg: Config, s: Bytes, a: Bytes, b: Bytes)
    requires Whole(cfg, a) && Whole(cfg, b) && a <= s && b <= s
    ensures a == b
  {
    hide ReadBatch, Whole;
    WholeExtend(cfg, a, s[|a|..]);
    WholeExtend(cfg, b, s[|b|..]);
    assert a + s[|a|..] == s == b + s[|b|..];
    assert |s[|a|..]| == |s[|b|..]|;
  }
}
