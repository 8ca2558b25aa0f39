/** What the client's Scanner relies on and computes, on values: the answers to a READ, the way a response
    is re-encoded, and the way to the first message. */
module ClientRead {
  import opened ByteSeqs
  import opened Decimal
  import opened Streams
  import opened Configs
  import opened MessageCodec
  import opened BatchCodec
  import opened Reading
  import opened ClientLog

  // ----- the server's answers

  /** The answer to a READ at `off`, for a log that starts at `base`: at the start of an entry some of the
      entries from there on, at or behind the end not-found. Inside a batch, or before the log, it may be
      anything. */
  predicate Answers(cfg: Config, base: nat, log: seq<Entry>, off: nat, reply: ReadReply)
  {
    match Seek(cfg, base, log, off)
    case Some(i) =>
      && i < |log| && reply.ReadOk? && reply.offset == off && 1 <= reply.nbatches <= |log| - i
      && reply.data == Printed(cfg, log[i..i + reply.nbatches])
    case None => Boundary(cfg, base, log, |log|) <= off < TWO_63 ==> reply == ReadError(NotFound)
  }

  ghost predicate Serves(cfg: Config, base: nat, log: seq<Entry>, server: nat -> ReadReply)
  {
    forall off: nat :: Answers(cfg, base, log, off, server(off))
  }

  lemma AnswerAt(cfg: Config, base: nat, log: seq<Entry>, server: nat -> ReadReply, off: nat)
    requires Serves(cfg, base, log, server)
    ensures Answers(cfg, base, log, off, server(off))
  {}

  lemma SeekEnd(cfg: Config, base: nat, log: seq<Entry>)
    ensures Seek(cfg, base, log, Boundary(cfg, base, log, |log|)) == None
  {
    hide Printed;
    SeekIs(cfg, base, log, Boundary(cfg, base, log, |log|));
    var r := Seek(cfg, base, log, Boundary(cfg, base, log, |log|));
    if r.Some? {
      BoundaryStrict(cfg, base, log, r.value, |log|);
    }
  }

  /** The server that always answers with everything it has. */
  function Generous(cfg: Config, base: nat, log: seq<Entry>): nat -> ReadReply
  {
    (off: nat) =>
      match Seek(cfg, base, log, off)
      case None => ReadError(NotFound)
      case Some(i) => if i < |log| then ReadOk(off, |log| - i, Printed(cfg, log[i..])) else ReadError(NotFound)
  }

  lemma GenerousServes(cfg: Config, base: nat, log: seq<Entry>)
    ensures Serves(cfg, base, log, Generous(cfg, base, log))
  {
    hide Printed, Wire;
    forall off: nat
      ensures Answers(cfg, base, log, off, Generous(cfg, base, log)(off))
    {
      SeekIs(cfg, base, log, off);
      var r := Seek(cfg, base, log, off);
      if r.Some? { assert log[r.value..] == log[r.value..|log|]; }
    }
  }

  // ----- re-encoding a response

  /** readBatches: what is appended to the batch buffer for a response of `n` batches, and the error that
      stopped it. */
  function Relay(cfg: Config, buf: nat, n: nat, data: Bytes): (Bytes, Option<Error>)
  {
    if n == 0 then ([], None)
    else
      match ReadBatch(cfg, buf, data)
      case Failed(e, _) => ([], Some(e))
      case Parsed(f, rest) =>
        if |f.topic| > MAX_TOPIC_SIZE then ([], Some(Panic))
        else
          var (out, err) := Relay(cfg, buf, n - 1, rest);
          (Print(f) + out, err)
  }

  /** Re-encoding printed batches reproduces them. */
  lemma {:induction false} RelayPrinted(cfg: Config, buf: nat, entries: seq<Entry>)
    requires GoodEntries(cfg, entries) && buf >= 256
    ensures Relay(cfg, buf, |entries|, Printed(cfg, entries)) == (Printed(cfg, entries), None)
    decreases |entries|
  {
    hide ReadBatch, Print, Printed;
    if entries == [] {
      PrintedNone(cfg, entries, 0);
    } else {
      var e, rest := entries[0], entries[1..];
      assert GoodEntry(cfg, e);
      assert entries[0..|entries|] == entries && entries[1..|entries|] == rest;
      PrintedSlice(cfg, entries, 0, |entries|);
      ReadPrinted(cfg, buf, FrameFor(cfg, e), Printed(cfg, rest));
      RelayPrinted(cfg, buf, rest);
    }
  }

  /** Re-encoding stops at bytes that are no batch, with their error, behind the batches before them. */
  lemma {:induction false} RelayStops(cfg: Config, buf: nat, entries: seq<Entry>, t: Bytes, n: nat)
    requires GoodEntries(cfg, entries) && buf >= 256 && n > |entries| && ReadBatch(cfg, buf, t).Failed?
    ensures Relay(cfg, buf, n, Printed(cfg, entries) + t) == (Printed(cfg, entries), Some(ReadBatch(cfg, buf, t).err))
    decreases |entries|
  {
    hide ReadBatch, Print, Printed;
    if entries == [] {
      PrintedNone(cfg, entries, 0);
      assert entries[0..0] == entries;
      assert [] + t == t;
    } else {
      var e, rest := entries[0], entries[1..];
      assert GoodEntry(cfg, e);
      assert entries[0..|entries|] == entries && entries[1..|entries|] == rest;
      PrintedSlice(cfg, entries, 0, |entries|);
      var more := Printed(cfg, rest) + t;
      assert Printed(cfg, entries) + t == Wire(cfg, e) + more;
      ReadPrinted(cfg, buf, FrameFor(cfg, e), more);
      RelayStops(cfg, buf, rest, t, n - 1);
    }
  }

  /** The answer to a READ at the start of entry i, or at the end of the log, and what becomes of it. */
  lemma AnswerForEntry(cfg: Config, base: nat, log: seq<Entry>, server: nat -> ReadReply, i: nat, buf: nat)
    requires Serves(cfg, base, log, server) && GoodEntries(cfg, log) && buf >= 256
    requires i <= |log| && Boundary(cfg, base, log, |log|) < TWO_63
    ensures var off := Boundary(cfg, base, log, i);
            var reply := server(off);
            && (i == |log| ==> reply == ReadError(NotFound))
            && (i < |log| ==>
                  && reply.ReadOk? && reply.offset == off && 1 <= reply.nbatches <= |log| - i
                  && Relay(cfg, buf, reply.nbatches, reply.data) == (Printed(cfg, log[i..i + reply.nbatches]), None))
  {
    hide Boundary, Printed, Serves, GoodEntries, Relay, Wire, Seek;
    var off := Boundary(cfg, base, log, i);
    SeekIs(cfg, base, log, off);
    SeekEnd(cfg, base, log);
    AnswerAt(cfg, base, log, server, off);
    if i < |log| {
      var k := server(off).nbatches;
      SliceGood(cfg, log, i, i + k);
      RelayPrinted(cfg, buf, log[i..i + k]);
    }
  }

  /** The same by the offset. */
  lemma AnswerFound(cfg: Config, base: nat, log: seq<Entry>, server: nat -> ReadReply, off: nat, buf: nat)
    requires Serves(cfg, base, log, server) && GoodEntries(cfg, log) && buf >= 256
    requires Boundary(cfg, base, log, |log|) < TWO_63 && Seek(cfg, base, log, off).Some?
    ensures var i, reply := Seek(cfg, base, log, off).value, server(off);
            && i < |log| && off == Boundary(cfg, base, log, i)
            && reply.ReadOk? && reply.offset == off && 1 <= reply.nbatches <= |log| - i
            && Relay(cfg, buf, reply.nbatches, reply.data).0 == Printed(cfg, log[i..i + reply.nbatches])
            && Relay(cfg, buf, reply.nbatches, reply.data).1 == None
  {
    hide Boundary, Printed, Serves, GoodEntries, Relay, Seek;
    SeekIs(cfg, base, log, off);
    AnswerForEntry(cfg, base, log, server, Seek(cfg, base, log, off).value, buf);
  }

  lemma SliceGood(cfg: Config, log: seq<Entry>, i: nat, j: nat)
    requires GoodEntries(cfg, log) && i <= j <= |log|
    ensures GoodEntries(cfg, log[i..j])
  {
    hide GoodEntry;
  }

  // ----- messages of a batch

  lemma MessageShrinks(max: nat, buf: nat, s: Bytes)
    ensures var r := ReadMessage(max, buf, s); r.Parsed? ==> |r.rest| < |s|
  {}

  lemma {:induction false} PrefixShorter(ms: seq<Bytes>, a: nat, b: nat)
    requires a < b <= |ms|
    ensures |PrintMessages(ms[..a])| < |PrintMessages(ms[..b])|
  {
    hide PrintMessage;
    assert ms[..b] == ms[..a] + ms[a..b];
    PrintMessagesConcat(ms[..a], ms[a..b]);
    MessageLength(ms[a]);
    assert PrintMessages(ms[a..b]) == PrintMessage(ms[a]) + PrintMessages(ms[a..b][1..]);
  }

  lemma MessageStep(cfg: Config, e: Entry, d: nat)
    requires GoodEntry(cfg, e) && d < |e.msgs|
    ensures ReadMessage(cfg.maxBatchSize, BUF_SIZE, PrintMessages(e.msgs[d..]))
            == Parsed(e.msgs[d], PrintMessages(e.msgs[d + 1..]))
    ensures |PrintMessages(e.msgs[..d + 1])|
            == |PrintMessages(e.msgs[..d])| + |PrintMessages(e.msgs[d..])| - |PrintMessages(e.msgs[d + 1..])|
  {
    hide ReadMessage, Print;
    var ms := e.msgs;
    assert ms[d..][1..] == ms[d + 1..];
    assert ms == ms[..d] + ms[d..];
    PrintMessagesConcat(ms[..d], ms[d..]);
    MessageLength(ms[d]);
    ReadPrintedMessage(cfg.maxBatchSize, BUF_SIZE, ms[d], PrintMessages(ms[d + 1..]));
    assert ms[..d + 1] == ms[..d] + [ms[d]];
    PrintMessagesSnoc(ms[..d], ms[d]);
  }

  /** All of a body is read exactly when all its messages are. */
  lemma BodyEnd(e: Entry, d: nat)
    requires d <= |e.msgs|
    ensures |PrintMessages(e.msgs[..d])| >= |Body(e)| <==> d == |e.msgs|
  {
    assert e.msgs[..|e.msgs|] == e.msgs;
    if d < |e.msgs| { PrefixShorter(e.msgs, d, |e.msgs|); }
  }

  /** The loop of doInitialRead: messages are read until `delta` bytes of the body are behind. The value is
      the number of bytes and of messages read. */
  function SkipTo(max: nat, s: Bytes, read: nat, count: nat, delta: nat): Parsed<(nat, nat)>
    decreases |s|
  {
    if read >= delta then Parsed((read, count), s)
    else
      MessageShrinks(max, BUF_SIZE, s);
      match ReadMessage(max, BUF_SIZE, s)
      case Failed(e, rest) => Failed(e, rest)
      case Parsed(_, rest) => SkipTo(max, rest, read + |s| - |rest|, count + 1, delta)
  }

  /** Skipping to behind `d` messages of an entry. */
  lemma {:induction false} SkipPrinted(cfg: Config, e: Entry, x: nat, d: nat)
    requires GoodEntry(cfg, e) && x <= d <= |e.msgs|
    ensures var delta := |PrintMessages(e.msgs[..d])|;
            SkipTo(cfg.maxBatchSize, PrintMessages(e.msgs[x..]), |PrintMessages(e.msgs[..x])|, x, delta)
            == Parsed((delta, d), PrintMessages(e.msgs[d..]))
    decreases d - x
  {
    hide ReadMessage, PrintMessages, GoodEntry;
    if x < d {
      PrefixShorter(e.msgs, x, d);
      MessageStep(cfg, e, x);
      SkipPrinted(cfg, e, x + 1, d);
    }
  }

  /** How many messages of an entry take `delta` bytes, or more if they do not end there. */
  function SkipCount(msgs: seq<Bytes>, delta: nat): (d: nat)
    ensures d <= |msgs|
    decreases |msgs|
  {
    if delta == 0 || msgs == [] then 0
    else
      var n := |PrintMessage(msgs[0])|;
      1 + SkipCount(msgs[1..], if n <= delta then delta - n else 0)
  }

  /** Skipping by any number of bytes, whether a message ends there or not, ends behind the first messages that
      take as many; by more than the whole body it fails. */
  lemma {:induction false} SkipAnywhere(cfg: Config, e: Entry, x: nat, delta: nat)
    requires GoodEntry(cfg, e) && x <= |e.msgs|
    ensures var read := |PrintMessages(e.msgs[..x])|;
            var left := if delta <= read then 0 else delta - read;
            var r := SkipTo(cfg.maxBatchSize, PrintMessages(e.msgs[x..]), read, x, delta);
            if delta > |Body(e)| then r.Failed? && r.err == EOF
            else
              var d := x + SkipCount(e.msgs[x..], left);
              r == Parsed((|PrintMessages(e.msgs[..d])|, d), PrintMessages(e.msgs[d..]))
    decreases |e.msgs| - x
  {
    hide ReadMessage, PrintMessages, PrintMessage, GoodEntry;
    var read := |PrintMessages(e.msgs[..x])|;
    BodySplits(e, x);
    if read < delta {
      if x == |e.msgs| {
        assert e.msgs[x..] == [] && e.msgs[..x] == e.msgs;
        NothingToRead(cfg.maxBatchSize);
      } else {
        MessageStep(cfg, e, x);
        SkipAnywhere(cfg, e, x + 1, delta);
        OneMoreRead(e.msgs, x);
        assert e.msgs[x..][0] == e.msgs[x] && e.msgs[x..][1..] == e.msgs[x + 1..];
      }
    }
  }

  lemma BodySplits(e: Entry, x: nat)
    requires x <= |e.msgs|
    ensures |Body(e)| == |PrintMessages(e.msgs[..x])| + |PrintMessages(e.msgs[x..])|
  {
    PrintMessagesConcat(e.msgs[..x], e.msgs[x..]);
    assert e.msgs[..x] + e.msgs[x..] == e.msgs;
  }

  lemma NothingToRead(max: nat)
    ensures PrintMessages([]) == [] && ReadMessage(max, BUF_SIZE, []) == Failed(EOF, [])
  {}

  lemma OneMoreRead(msgs: seq<Bytes>, x: nat)
    requires x < |msgs|
    ensures |PrintMessages(msgs[..x + 1])| == |PrintMessages(msgs[..x])| + |PrintMessage(msgs[x])|
  {
    hide PrintMessage;
    PrintMessagesSnoc(msgs[..x], msgs[x]);
    assert msgs[..x] + [msgs[x]] == msgs[..x + 1];
  }

  /** How reading starts: the first batch of the buffer, what follows it, and its messages from `delta` on,
      behind `read` bytes and `count` messages. */
  datatype Begin = Begun(frame: Frame, rest: Bytes, read: nat, count: nat, body: Bytes) | NotBegun(err: Error)

  function StartRead(cfg: Config, buffer: Bytes, delta: nat): Begin
  {
    match ReadBatch(cfg, BUF_SIZE, buffer)
    case Failed(e, _) => NotBegun(e)
    case Parsed(f, rest) =>
      match SkipTo(cfg.maxBatchSize, f.body, 0, 0, delta)
      case Failed(e, _) => NotBegun(e)
      case Parsed(v, body) => Begun(f, rest, v.0, v.1, body)
  }

  lemma NoMessages(ms: seq<Bytes>)
    ensures PrintMessages(ms[..0]) == [] && ms[0..] == ms
  {}

  /** A buffer that starts with entry e leads to the message behind `d` messages of e, whatever follows. */
  lemma StartPrinted(cfg: Config, e: Entry, d: nat, t: Bytes)
    requires GoodEntry(cfg, e) && d <= |e.msgs|
    ensures var delta := |PrintMessages(e.msgs[..d])|;
            StartRead(cfg, Wire(cfg, e) + t, delta) == Begun(FrameFor(cfg, e), t, delta, d, PrintMessages(e.msgs[d..]))
  {
    hide ReadBatch, PrintMessages, Print, SkipTo;
    ReadPrinted(cfg, BUF_SIZE, FrameFor(cfg, e), t);
    NoMessages(e.msgs);
    SkipPrinted(cfg, e, 0, d);
  }

  /** What a Scan delivers that starts on `buffer`. */
  function FirstMessage(cfg: Config, buffer: Bytes, delta: nat): Parsed<Bytes>
  {
    match StartRead(cfg, buffer, delta)
    case NotBegun(e) => Failed(e, [])
    case Begun(_, _, _, _, body) => ReadMessage(cfg.maxBatchSize, BUF_SIZE, body)
  }

  // ----- the stream

  /** The message behind `d` messages of entry h, in the stream. */
  lemma StreamHere(log: seq<Entry>, h: nat, d: nat)
    requires h < |log| && d <= |log[h].msgs|
    ensures var p := |Stream(log[..h])| + d;
            p <= |Stream(log)| && (d < |log[h].msgs| ==> p < |Stream(log)| && Stream(log)[p] == log[h].msgs[d])
  {
    hide Stream;
    assert log == log[..h] + ([log[h]] + log[h + 1..]);
    StreamConcat(log[..h], [log[h]] + log[h + 1..]);
    StreamConcat([log[h]], log[h + 1..]);
    StreamOne(log[h]);
  }

  /** Behind the last message of entry h the stream goes on with entry h + 1, if there is one. */
  lemma StreamNext(cfg: Config, log: seq<Entry>, h: nat)
    requires h < |log| && GoodEntries(cfg, log)
    ensures |Stream(log[..h + 1])| == |Stream(log[..h])| + |log[h].msgs|
    ensures h + 1 == |log| ==> |Stream(log[..h + 1])| == |Stream(log)|
    ensures h + 1 < |log| ==> |Stream(log[..h + 1])| < |Stream(log)| && |log[h + 1].msgs| > 0
  {
    hide FrameFor, Stream, Printable;
    assert log[..h + 1] == log[..h] + [log[h]];
    StreamConcat(log[..h], [log[h]]);
    StreamOne(log[h]);
    if h + 1 < |log| {
      assert GoodEntry(cfg, log[h + 1]);
      StreamHere(log, h + 1, 0);
    } else {
      assert log[..h + 1] == log;
    }
  }

  lemma StartInStream(log: seq<Entry>, i: nat, d: nat)
    ensures i < |log| && d < |log[i].msgs| ==> |Stream(log[..i])| + d < |Stream(log)|
    ensures i == |log| ==> |Stream(log[..i])| == |Stream(log)|
  {
    hide Stream;
    if i < |log| && d < |log[i].msgs| {
      StreamHere(log, i, d);
    } else if i == |log| {
      assert log[..i] == log;
    }
  }

  /** `off` is where the entry begins whose first message has `pos` messages before it. */
  ghost predicate AtStart(cfg: Config, base: nat, log: seq<Entry>, off: nat, pos: int)
  {
    exists e :: 0 <= e <= |log| && off == Boundary(cfg, base, log, e) && pos == |Stream(log[..e])|
  }

  lemma AtEntry(cfg: Config, base: nat, log: seq<Entry>, e: nat)
    requires e <= |log|
    ensures AtStart(cfg, base, log, Boundary(cfg, base, log, e), |Stream(log[..e])|)
  {}

  // ----- slices of the log

  lemma SliceStep(cfg: Config, log: seq<Entry>, i: nat, end: nat)
    requires GoodEntries(cfg, log) && i < end <= |log|
    ensures ReadBatch(cfg, BUF_SIZE, Printed(cfg, log[i..end]))
            == Parsed(FrameFor(cfg, log[i]), Printed(cfg, log[i + 1..end]))
    ensures |Printed(cfg, log[i..end])| == |Wire(cfg, log[i])| + |Printed(cfg, log[i + 1..end])|
  {
    hide ReadBatch, Printed, Print;
    assert GoodEntry(cfg, log[i]);
    PrintedSlice(cfg, log, i, end);
    ReadPrinted(cfg, BUF_SIZE, FrameFor(cfg, log[i]), Printed(cfg, log[i + 1..end]));
  }

  lemma OneScanned(cfg: Config, log: seq<Entry>, i: nat)
    requires i < |log|
    ensures |Printed(cfg, log[i..i + 1])| == |Wire(cfg, log[i])|
  {
    hide Wire, Printed;
    assert log[i..i + 1] == [log[i]];
    PrintedOne(cfg, log[i]);
  }

  lemma ScannedMore(cfg: Config, log: seq<Entry>, first: nat, i: nat)
    requires first <= i < |log|
    ensures |Printed(cfg, log[first..i + 1])| == |Printed(cfg, log[first..i])| + |Wire(cfg, log[i])|
  {
    hide Wire, Printed;
    PrintedSnoc(cfg, log, first, i);
  }

  /** A READ behind the end of a log by `x` bytes, after more was appended: it finds the entry before which
      exactly x bytes were appended, if there is one, and passes over the appended entries before it. */
  lemma SeekBehindEnd(cfg: Config, base: nat, log: seq<Entry>, more: seq<Entry>, x: nat, i: nat)
    requires i < |log + more|
    ensures Seek(cfg, base, log + more, Boundary(cfg, base, log, |log|) + x) == Some(i)
            <==> i >= |log| && |Printed(cfg, more[..i - |log|])| == x
  {
    hide Printed, Wire;
    var all, off := log + more, Boundary(cfg, base, log, |log|) + x;
    SeekIs(cfg, base, all, off);
    if i >= |log| {
      assert all[..i] == log[..|log|] + more[..i - |log|];
      PrintedConcat(cfg, log[..|log|], more[..i - |log|]);
    } else {
      assert all[..|log|] == log[..|log|];
      BoundaryStrict(cfg, base, all, i, |log|);
    }
  }
}
