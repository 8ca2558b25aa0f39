/** The Batch object of protocol/batch.go: filled by appending or by parsing, then printed. */
module Batches {
  import opened ByteSeqs
  import opened Decimal
  import opened Streams
  import opened Configs
  import opened MessageCodec
  import opened BatchCodec
  import opened Requests

  /** The longest decimal notation of a uint32. */
  const MAX_CRC_SIZE := 10

  /** What CalcSize charges for a batch of `count` messages with `bytes` body bytes. */
  function EstimatedSize(ntopic: nat, count: nat, bytes: nat): nat
  {
    6 + |Digits(bytes)| + 1 + ntopic + 1 + MAX_CRC_SIZE + 1 + |Digits(count)| + 2 + bytes
  }

  class Batch {
    const cfg: Config
    var size: int64
    var checksum: uint32
    var messages: int64
    var topic: Bytes
    var msgs: seq<Bytes>  // the bodies appended so far
    var body: Bytes       // the used part of the body buffer
    var wasRead: bool
    var nread: nat

    constructor (cfg: Config)
      ensures this.cfg == cfg
      ensures size == 0 && messages == 0 && topic == [] && msgs == [] && !wasRead
      ensures Pending()
    {
      this.cfg := cfg;
      size, checksum, messages, topic, msgs, body, wasRead, nread := 0, 0, 0, [], [], [], false, 0;
      new;
      assert PrintMessages([]) == [];
    }

    /** The batch holds appended messages, and its running size is what they will print to. */
    ghost predicate Pending()
      reads this
    {
      !wasRead && messages == |msgs| && size == |PrintMessages(msgs)|
    }

    /** The frame the fields describe. */
    function Contents(): Frame
      reads this
    {
      Frame(topic, checksum, messages, body)
    }

    method Reset()
      modifies this
      ensures size == 0 && messages == 0 && topic == [] && msgs == [] && !wasRead
      ensures Pending()
      ensures checksum == 0 && body == []
    {
      size, checksum, messages, topic, msgs, body, wasRead := 0, 0, 0, [], [], [], false;
      assert PrintMessages([]) == [];
    }

    method SetTopic(t: Bytes)
      modifies this`topic
      ensures topic == t
    {
      topic := t;
    }

    /** Append keeps the running size equal to the bytes that buildBodyBytes will produce. */
    method Append(p: Bytes)
      requires Pending()
      requires |msgs| + 1 < TWO_63 && |PrintMessages(msgs + [p])| < TWO_63
      modifies this`msgs, this`messages, this`size
      ensures Pending() && msgs == old(msgs) + [p]
    {
      PrintMessagesSnoc(msgs, p);
      var l := MessageSize(|p|);
      msgs := msgs + [p];
      messages := messages + 1;
      size := size + l;
    }

    /** CalcSize. */
    method CalcSize() returns (l: nat)
      requires size >= 0 && messages >= 0
      ensures l == EstimatedSize(|topic|, messages, size)
    {
      var a := AsciiSize(size);
      var b := AsciiSize(messages);
      l := |BATCH_START| + a + 1 + |topic| + 1 + MAX_CRC_SIZE + 1 + b + 2 + size;
    }

    /** buildBodyBytes: prints every message, in order, into the body buffer. */
    method BuildBodyBytes() returns (err: Option<Error>)
      requires Pending()
      requires forall m :: m in msgs ==> |m| < TWO_63
      modifies this`size, this`body
      ensures size == old(size)
      ensures err == if old(size) > cfg.maxBatchSize then Some(TooLarge) else None
      ensures err == None ==> body == PrintMessages(msgs)
    {
      var msgBuf: Bytes := [];
      for i := 0 to |msgs|
        invariant msgBuf == PrintMessages(msgs[..i])
      {
        var out := WriteMessage(msgs[i]);
        msgBuf := msgBuf + out;
        PrintMessagesSnoc(msgs[..i], msgs[i]);
        assert msgs[..i + 1] == msgs[..i] + [msgs[i]];
      }
      assert msgs[..|msgs|] == msgs;
      size := |msgBuf|;
      if |msgBuf| > cfg.maxBatchSize {
        return Some(TooLarge);
      }
      body := msgBuf;
      return None;
    }

    /** WriteTo: what reaches the wire is the printed frame of the fields; a batch that was
        appended to carries the printed messages and their checksum. */
    method WriteTo() returns (out: Bytes, err: Option<Error>)
      requires wasRead || Pending()
      requires wasRead ==> size == |body|
      requires forall m :: m in msgs ==> |m| < TWO_63
      requires |topic| <= MAX_TOPIC_SIZE
      modifies this`size, this`body, this`checksum
      ensures size == old(size)
      ensures old(wasRead) ==> checksum == old(checksum) && body == old(body) && err == None
      ensures !old(wasRead) ==> err == (if old(size) > cfg.maxBatchSize then Some(TooLarge) else None)
      ensures !old(wasRead) && err == None ==> body == PrintMessages(msgs) && checksum == cfg.crc(body)
      ensures err == None ==> out == Print(Contents())
      ensures err.Some? ==> out == []
    {
      out, err := [], None;
      if !wasRead {
        err := BuildBodyBytes();
        if err.Some? { return; }
        checksum := cfg.crc(body);
      }
      assert size == |body|;
      var digitbuf := new byte[32](_ => 0);
      out := BATCH_START;
      var l := UintToAscii(size, digitbuf);
      out := out + digitbuf[l..];
      out := out + [SPACE];
      out := out + topic;
      out := out + [SPACE];
      l := UintToAscii(checksum, digitbuf);
      out := out + digitbuf[l..];
      out := out + [SPACE];
      l := UintToAscii(messages % TWO_64, digitbuf);
      out := out + digitbuf[l..];
      out := out + CRLF;
      assert out == Header(Contents());
      out := out + body;
    }

    /** ReadFrom, field by field over the buffered reader. */
    method ReadFrom(r: Reader) returns (n: nat, err: Option<Error>)
      modifies this, r
      ensures match ReadBatch(cfg, r.buf, old(r.rest))
              case Parsed(f, rest) =>
                err == None && Contents() == f && size == |f.body| && wasRead && r.rest == rest
              case Failed(e, rest) => err == Some(e) && r.rest == rest
      ensures n + |r.rest| == |old(r.rest)| && nread == n && msgs == old(msgs)
    {
      hide ReadSlice, ParseUint, ReadFields;
      var available := |r.rest|;
      err := ReadEnvelopeFrom(r);
      if err.Some? {
        n := available - |r.rest|;
        nread := n;
        return;
      }
      if size > cfg.maxBatchSize {
        err := Some(TooLarge);
      } else if size < 0 {
        err := Some(Panic);
      } else {
        body, err := r.TakeFull(size);
      }
      n := available - |r.rest|;
      nread := n;
      wasRead := wasRead || err == None;
    }

    method ReadEnvelopeFrom(r: Reader) returns (err: Option<Error>)
      modifies this`size, this`topic, this`checksum, this`messages, r
      ensures match ReadEnvelope(r.buf, old(r.rest))
              case Parsed(e, rest) => err == None && Envelope(size, topic, checksum, messages) == e && r.rest == rest
              case Failed(e, rest) => err == Some(e) && r.rest == rest
      ensures |r.rest| <= |old(r.rest)|
    {
      hide ReadSlice, ParseUint;
      var word;
      word, err := r.TakeSlice(SPACE);
      if word == [] { return Some(if err == Some(EOF) then EOF else InvalidLine); }
      if word != BATCH_START { return Some(InvalidLine); }
      if err.Some? { return; }

      word, err := r.TakeSlice(SPACE);
      if err.Some? { return; }
      if |word| < 1 { return Some(Panic); }
      var n := AsciiToUint(word[..|word| - 1]);
      if n.None? { return Some(InvalidByte); }
      size := ToInt(n.value);

      word, err := r.TakeSlice(SPACE);
      if err.Some? { return; }
      if |word| < 1 { return Some(Panic); }
      topic := word[..|word| - 1];

      word, err := r.TakeSlice(SPACE);
      if err.Some? { return; }
      if |word| < 1 { return Some(Panic); }
      n := AsciiToUint(word[..|word| - 1]);
      if n.None? { return Some(InvalidByte); }
      checksum := n.value % TWO_32;

      word, err := r.TakeSlice(NEWLINE);
      if err.Some? { return; }
      if |word| < 2 { return Some(Panic); }
      n := AsciiToUint(word[..|word| - 2]);
      if n.None? { return Some(InvalidByte); }
      messages := ToInt(n.value);
    }

    /** FromRequest: the server's route to the fields. */
    method FromRequest(req: Request) returns (err: Option<Error>)
      requires req.cfg == cfg
      requires req.WellRead()
      modifies this
      ensures match RequestCodec.FromRequest(cfg, req.Contents())
              case Decoded(f) => err == None && Contents() == f
              case Rejected(e) => err == Some(e)
    {
      hide ParseUint;
      if |req.args| != 4 { return Some(InvalidNumArgs); }
      var n := AsciiToUint(req.args[0]);
      if n.None? { return Some(InvalidByte); }
      size := ToInt(n.value);
      topic := req.args[1];
      n := AsciiToUint(req.args[2]);
      if n.None? { return Some(InvalidByte); }
      checksum := n.value % TWO_32;
      n := AsciiToUint(req.args[3]);
      if n.None? { return Some(InvalidByte); }
      messages := ToInt(n.value);
      var received := if req.body.Some? then req.body.value else [];
      if |received| < req.bodySize { return Some(BodyTooSmall); }
      body := received;
      err := Check();
    }

    /** Validate. */
    method Check() returns (err: Option<Error>)
      requires size == |body|
      ensures err == Validate(cfg, Contents())
    {
      if size > cfg.maxBatchSize { return Some(TooLarge); }
      if checksum != cfg.crc(body) { return Some(CrcMismatch); }
      return None;
    }
  }

  /** CalcSize is an upper bound for the bytes printed, and only the checksum's width is guessed. */
  lemma EstimateBoundsPrint(f: Frame)
    requires |f.body| < TWO_63 && f.messages >= 0
    ensures |Print(f)| <= EstimatedSize(|f.topic|, f.messages, |f.body|)
    ensures EstimatedSize(|f.topic|, f.messages, |f.body|) - |Print(f)| == MAX_CRC_SIZE - |Digits(f.checksum)|
  {
    DigitsShort(f.checksum, 10);
  }

  /** Parsing printed bytes and printing the result reproduces the bytes: what the client
      re-encodes after a READ has the length the server counted. */
  lemma ReprintIsIdentity(cfg: Config, buf: nat, f: Frame, t: Bytes)
    requires Printable(cfg, f) && |f.topic| + 1 <= buf && 22 <= buf
    ensures var p := ReadBatch(cfg, buf, Print(f) + t);
            p.Parsed? && Print(p.value) + p.rest == Print(f) + t
  {
    ReadPrinted(cfg, buf, f, t);
  }
}
