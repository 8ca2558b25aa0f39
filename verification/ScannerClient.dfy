/** The client's Scanner (logd/scanner.go) over the response handling of logd/client.go: many READ
    responses become one stream of messages. */
module ScannerClient {
  import opened ByteSeqs
  import opened Decimal
  import opened Streams
  import opened Configs
  import opened MessageCodec
  import opened BatchCodec
  import opened Batches
  import opened Scanning
  import opened Reading
  import opened ClientLog
  import opened ClientRead
  import opened BatchBuffer

  class Scanner {
    const cfg: Config
    const base: nat
    const limit: int
    const conn: Reader      // Client.br, with a buffer of BatchSize bytes like Client.batchbr
    const relay: Batch      // Client.batch
    const bs: BatchScanner  // Client.bs, over Client.batchbr and Client.batchbuf
    const msgs: Reader      // batchBufBr

    var log: seq<Entry>     // what the server holds
    var pipe: Pipe          // where the unread bytes of bs.br.rest are
    var started: bool       // s.s != nil
    var curr: nat
    var batchRead: nat
    var batchesRead: nat
    var nbatches: nat
    var totalRead: nat
    var msg: Bytes
    var err: Option<Error>
    var startOff: nat       // where the first READ goes, and the offset inside that batch
    var startDelta: nat

    ghost var startEntry: nat
    ghost var startDone: nat
    ghost var first: nat    // the entry the current response starts with
    ghost var done: nat     // messages read from the current entry
    ghost var asked: seq<nat>  // the offsets of all READ requests sent

    ghost predicate Wired()
      reads this`log, bs, bs.batch
    {
      && bs.cfg == cfg && bs.batch.cfg == cfg && relay.cfg == cfg && relay != bs.batch
      && bs.br.buf == BUF_SIZE && msgs.buf == BUF_SIZE && conn.buf == cfg.maxBatchSize >= 256
      && conn != bs.br && conn != msgs && bs.br != msgs
      && GoodEntries(cfg, log) && Boundary(cfg, base, log, |log|) < TWO_63
    }

    ghost predicate Piped()
      reads this`pipe, bs, bs.br
    {
      pipe.near <= BUF_SIZE && Total(pipe) == |bs.br.rest|
    }

    /** The bytes that neither of the readers over the batch buffer has pulled yet. */
    ghost function Unpulled(): Bytes
      requires Piped()
      reads this`pipe, bs, bs.br
    {
      bs.br.rest[|bs.br.rest| - pipe.store..]
    }

    /** The entry whose messages are being read. */
    ghost function Here(): int
      reads this`first, this`batchesRead
    {
      first + batchesRead - 1
    }

    /** The bytes of the current response. */
    ghost function Response(): Bytes
      requires first + nbatches <= |log|
      reads this`log, this`first, this`nbatches
    {
      Printed(cfg, log[first..first + nbatches])
    }

    /** In the middle of a response: the buffers are behind entry Here() of it. While the first batch is being
        read it is known what was pulled. */
    ghost predicate AtBatch()
      reads this`log, this`pipe, this`first, this`batchesRead, this`nbatches, bs, bs.batch, bs.br
    {
      && Wired() && Piped()
      && 1 <= batchesRead <= nbatches && first + nbatches <= |log|
      && bs.br.rest == Printed(cfg, log[Here() + 1..first + nbatches])
      && bs.scanned == |Printed(cfg, log[first..Here() + 1])|
      && bs.batch.Contents() == FrameFor(cfg, log[Here()]) && bs.batch.size == |Body(log[Here()])|
      && bs.batch.nread == |Wire(cfg, log[Here()])|
      && (batchesRead == 1 ==>
            pipe.store == |Response()| - Min(Pulled(conn.buf, |Wire(cfg, log[first])|), |Response()|))
    }

    /** ... and `done` messages of that entry are read. */
    ghost predicate Cursor()
      reads this`log, this`pipe, this`first, this`done, this`batchRead, this`batchesRead, this`nbatches, bs, bs.batch
      reads bs.br, msgs
    {
      && AtBatch() && done <= |log[Here()].msgs|
      && batchRead == |PrintMessages(log[Here()].msgs[..done])|
      && msgs.rest == PrintMessages(log[Here()].msgs[done..])
    }

    ghost predicate Reading()
      reads this`log, this`pipe, this`first, this`done, this`batchRead, this`batchesRead, this`nbatches, this`started
      reads this`curr, bs, bs.batch, bs.br, msgs
    {
      started && Cursor() && curr == Boundary(cfg, base, log, first)
    }

    /** The response is used up, and so is its last batch. */
    ghost predicate Exhausted()
      reads this`log, this`pipe, this`started, this`batchRead, this`batchesRead, this`nbatches, bs, bs.batch, bs.br
    {
      && started && Wired() && pipe == Pipe(0, 0, 0) && bs.br.rest == []
      && batchesRead >= nbatches && batchRead >= bs.batch.size
    }

    /** A client's MaxBatchSize is its BatchSize. */
    constructor (cfg: Config, base: nat, log: seq<Entry>, limit: int)
      requires GoodEntries(cfg, log) && Boundary(cfg, base, log, |log|) < TWO_63 && cfg.maxBatchSize >= 256
      ensures this.cfg == cfg && this.base == base && this.log == log && this.limit == limit
      ensures Wired() && Piped() && !started && batchesRead == 0 && totalRead == 0 && asked == []
      ensures pipe == Pipe(0, 0, 0) && bs.br.rest == []
      ensures fresh(conn) && fresh(relay) && fresh(bs) && fresh(bs.br) && fresh(bs.batch) && fresh(msgs)
    {
      this.cfg, this.base, this.log, this.limit := cfg, base, log, limit;
      conn := new Reader(cfg.maxBatchSize, []);
      relay := new Batch(cfg);
      var br := new Reader(BUF_SIZE, []);
      bs := new BatchScanner(cfg, br);
      msgs := new Reader(BUF_SIZE, []);
      pipe := Pipe(0, 0, 0);
      started, curr, batchRead, batchesRead, nbatches, totalRead, msg, err := false, 0, 0, 0, 0, 0, [], None;
      first, done, asked := 0, 0, [];
      startOff, startDelta, startEntry, startDone := 0, 0, 0, 0;
    }

    /** readBatches: every batch of the response is parsed and printed again. */
    method ReadBatches(n: nat) returns (out: Bytes, failed: Option<Error>)
      requires relay.cfg == cfg
      modifies conn, relay
      ensures (out, failed) == Relay(cfg, conn.buf, n, old(conn.rest))
    {
      hide ReadBatch, Print;
      out, failed := [], None;
      assert [] + Relay(cfg, conn.buf, n, conn.rest).0 == Relay(cfg, conn.buf, n, conn.rest).0;
      var i := 0;
      while i < n
        invariant 0 <= i <= n && failed == None
        invariant var (more, e) := Relay(cfg, conn.buf, n - i, conn.rest);
                  Relay(cfg, conn.buf, n, old(conn.rest)) == (out + more, e)
      {
        relay.Reset();
        var k;
        k, failed := relay.ReadFrom(conn);
        if failed.Some? { assert out + [] == out; return; }
        if |relay.topic| > MAX_TOPIC_SIZE { assert out + [] == out; return out, Some(Panic); }
        var bytes, werr := relay.WriteTo();
        Associate(out, bytes, Relay(cfg, conn.buf, n - i - 1, conn.rest).0);
        out := out + bytes;
        i := i + 1;
      }
      assert out + [] == out;
    }

    /** ReadOffset: one READ at `off`. Whatever was left in the batch buffer comes before the batches of the
        response. */
    method ReadOffset(off: nat, server: nat -> ReadReply) returns (n: nat, failed: Option<Error>)
      requires Wired() && Piped()
      modifies conn, relay, bs, bs.br, this`asked, this`pipe
      ensures asked == old(asked) + [off] && Wired() && Piped()
      ensures match server(off)
              case ReadError(e) =>
                && failed == Some(e) && pipe == old(pipe)
                && bs.br.rest == old(bs.br.rest) && bs.scanned == old(bs.scanned)
              case ReadOk(o, k, data) =>
                var (out, e) := Relay(cfg, conn.buf, k, data);
                && (failed == None <==> o == off && e == None)
                && (failed == None ==>
                      && n == k && bs.br.rest == old(Unpulled()) + out && bs.scanned == 0
                      && pipe == Pipe(0, 0, |bs.br.rest|) && (old(pipe.store) == 0 ==> bs.br.rest == out))
    {
      hide Relay, GoodEntries, Boundary;
      asked := asked + [off];
      n := 0;
      var reply := server(off);
      if reply.ReadError? { return 0, Some(reply.err); }
      if reply.offset != off { return 0, Some(Internal); }
      conn.Reset(reply.data);
      var out;
      out, failed := ReadBatches(reply.nbatches);
      if failed.Some? {
        bs.br.Reset(bs.br.rest + out);
        pipe := pipe.(store := pipe.store + |out|);
        return;
      }
      n := reply.nbatches;
      var stale := bs.br.rest[|bs.br.rest| - pipe.store..];
      assert pipe.store == 0 ==> stale == [] && stale + out == out;
      bs.Reset(stale + out);
      pipe := Pipe(0, 0, |bs.br.rest|);
    }

    /** One scan of the batch scanner. */
    method ScanBatch() returns (failed: Option<Error>)
      requires Wired() && Piped()
      modifies bs, bs.br, bs.batch, this`pipe
      ensures Wired() && bs.scanned == old(bs.scanned) + |old(bs.br.rest)| - |bs.br.rest|
      ensures match ReadBatch(cfg, BUF_SIZE, old(bs.br.rest))
              case Failed(e, _) => failed == Some(e)
              case Parsed(f, rest) =>
                && failed == None && bs.batch.Contents() == f && bs.batch.size == |f.body| && bs.br.rest == rest
                && Piped()
                && bs.batch.nread == |old(bs.br.rest)| - |rest|
                && (old(pipe) == Pipe(0, 0, |old(bs.br.rest)|) && bs.batch.nread - |f.body| <= BUF_SIZE ==>
                      pipe.store == |old(bs.br.rest)| - Min(Pulled(conn.buf, bs.batch.nread), |old(bs.br.rest)|))
    {
      hide ReadBatch, LineWords, PullBatch, GoodEntries, Boundary;
      ghost var before := bs.br.rest;
      var words := LineWords(BUF_SIZE, bs.br.rest);
      var ok := bs.Scan();
      failed := bs.err;
      if ok {
        WordsOfBatch(cfg, before);
        if pipe == Pipe(0, 0, |before|) && SumOf(words) <= BUF_SIZE {
          BodyFits(cfg, before);
          FirstScanPulls(conn.buf, |before|, words, |bs.batch.body|);
        }
        pipe := PullBatch(conn.buf, pipe, words, |bs.batch.body|);
      }
    }

    /** setNextBatch, after a successful scan of the batch scanner. */
    method SetNextBatch()
      requires bs.batch.size == |bs.batch.body|
      modifies this`batchRead, this`batchesRead, this`done, msgs
      ensures batchRead == 0 && batchesRead == old(batchesRead) + 1 && done == 0
      ensures msgs.rest == bs.batch.body
    {
      batchRead, batchesRead, done := 0, batchesRead + 1, 0;
      msgs.Reset(bs.batch.body);
    }

    /** readMessage: the next message of the body, and in step with the log the next one of the entry. */
    method ReadMessage() returns (failed: Option<Error>)
      requires Wired()
      modifies this`msg, this`batchRead, this`totalRead, this`done, msgs
      ensures Wired()
      ensures match MessageCodec.ReadMessage(cfg.maxBatchSize, BUF_SIZE, old(msgs.rest))
              case Failed(e, _) => failed == Some(e)
              case Parsed(b, rest) =>
                && failed == None && msg == b && msgs.rest == rest && totalRead == old(totalRead) + 1
                && done == old(done) + 1
                && batchRead == old(batchRead) + |old(msgs.rest)| - |rest|
      ensures old(Reading() && done < |log[Here()].msgs|) ==>
                failed == None && Reading() && done == old(done) + 1 && msg == log[Here()].msgs[old(done)]
    {
      hide PrintMessages, MessageCodec.ReadMessage, Boundary, Scanner.AtBatch;
      var before := |msgs.rest|;
      MessageShrinks(cfg.maxBatchSize, BUF_SIZE, msgs.rest);
      if Reading() {
        GoodHere();
        if done < |log[Here()].msgs| { MessageStep(cfg, log[Here()], done); }
      }
      msg, failed := ReadMessageFrom(cfg.maxBatchSize, msgs);
      if failed.Some? { return; }
      batchRead := batchRead + (before - |msgs.rest|);
      totalRead := totalRead + 1;
      done := done + 1;
    }

    lemma GoodHere()
      requires AtBatch()
      ensures 0 <= Here() < |log| && GoodEntry(cfg, log[Here()])
    {
      hide Printed, Wire, FrameFor, Boundary, Pulled, Min, GoodEntry;
    }

    /** The next batch of the buffer. */
    method Load() returns (failed: Option<Error>)
      requires Wired() && Piped()
      modifies bs, bs.br, bs.batch, this`pipe, this`batchRead, this`batchesRead, this`done, msgs
      ensures Wired()
      ensures match ReadBatch(cfg, BUF_SIZE, old(bs.br.rest))
              case Failed(e, _) => failed == Some(e)
              case Parsed(f, rest) =>
                && failed == None && Piped() && bs.br.rest == rest && bs.batch.Contents() == f
                && bs.batch.size == |f.body|
                && bs.scanned == old(bs.scanned) + |old(bs.br.rest)| - |rest|
                && bs.batch.nread == |old(bs.br.rest)| - |rest|
                && batchRead == 0 && batchesRead == old(batchesRead) + 1 && done == 0 && msgs.rest == f.body
                && (old(pipe) == Pipe(0, 0, |old(bs.br.rest)|) && bs.batch.nread - |f.body| <= BUF_SIZE ==>
                      pipe.store == |old(bs.br.rest)| - Min(Pulled(conn.buf, bs.batch.nread), |old(bs.br.rest)|))
    {
      hide ReadBatch, GoodEntries, Boundary, Pulled, Min;
      failed := ScanBatch();
      if failed.Some? { return; }
      SetNextBatch();
    }

    /** A READ at the start of entry i, or at the end of the log. */
    method Request(off: nat, server: nat -> ReadReply, ghost i: nat) returns (n: nat, failed: Option<Error>)
      requires Wired() && Piped() && Serves(cfg, base, log, server)
      requires i <= |log| && off == Boundary(cfg, base, log, i)
      modifies this`asked, this`pipe, conn, relay, bs, bs.br
      ensures Wired() && Piped() && asked == old(asked) + [off]
      ensures i == |log| ==>
                && failed == Some(NotFound) && pipe == old(pipe)
                && bs.br.rest == old(bs.br.rest) && bs.scanned == old(bs.scanned)
      ensures i < |log| ==>
                && failed == None && 1 <= n <= |log| - i && bs.scanned == 0 && server(off).ReadOk?
                && n == server(off).nbatches
                && bs.br.rest == old(Unpulled()) + Printed(cfg, log[i..i + n]) && pipe == Pipe(0, 0, |bs.br.rest|)
    {
      hide Printed, Boundary, GoodEntries, Relay, Serves;
      AnswerForEntry(cfg, base, log, server, i, conn.buf);
      n, failed := ReadOffset(off, server);
    }

    /** The loop that skips the messages before a checkpoint. */
    method SkipMessages(delta: nat) returns (failed: Option<Error>)
      requires Wired() && done == 0
      modifies this`msg, this`batchRead, this`totalRead, this`done, msgs
      ensures match SkipTo(cfg.maxBatchSize, old(msgs.rest), old(batchRead), 0, delta)
              case Failed(e, _) => failed == Some(e)
              case Parsed(v, rest) =>
                && failed == None && batchRead == v.0 && done == v.1
                && totalRead == old(totalRead) + v.1 && msgs.rest == rest
    {
      hide MessageCodec.ReadMessage, Scanner.Reading;
      failed := None;
      while batchRead < delta
        invariant failed == None && totalRead == old(totalRead) + done
        invariant SkipTo(cfg.maxBatchSize, msgs.rest, batchRead, done, delta)
                  == SkipTo(cfg.maxBatchSize, old(msgs.rest), old(batchRead), 0, delta)
        decreases |msgs.rest|
      {
        MessageShrinks(cfg.maxBatchSize, BUF_SIZE, msgs.rest);
        failed := ReadMessage();
        if failed.Some? { return; }
      }
    }

    /** Reading began as `b` says, on a buffer of `length` bytes and behind `total` messages. */
    ghost predicate Follows(b: Begin, length: nat, total: nat, failed: Option<Error>)
      reads this, bs, bs.batch, bs.br, msgs
    {
      match b
      case NotBegun(e) => failed == Some(e)
      case Begun(f, rest, read, count, body) =>
        && failed == None && Piped() && batchesRead == 1 && done == count && totalRead == total + count
        && bs.batch.Contents() == f && bs.batch.size == |f.body| && bs.br.rest == rest
        && batchRead == read && msgs.rest == body
        && bs.scanned == length - |rest| && bs.batch.nread == bs.scanned
        && (bs.scanned - |f.body| <= BUF_SIZE ==> pipe.store == length - Min(Pulled(conn.buf, bs.scanned), length))
    }

    /** The first batch of the buffer, and its messages up to the checkpoint. */
    method Begin(delta: nat) returns (failed: Option<Error>)
      requires Wired() && Piped() && batchesRead == 0 && pipe == Pipe(0, 0, |bs.br.rest|) && bs.scanned == 0
      modifies this`msg, this`batchRead, this`totalRead, this`batchesRead, this`done, this`pipe, bs, bs.br, bs.batch
      modifies msgs
      ensures Wired()
      ensures Follows(StartRead(cfg, old(bs.br.rest), delta), |old(bs.br.rest)|, old(totalRead), failed)
    {
      hide ReadBatch, SkipTo, GoodEntries, Boundary, Pulled, Min;
      failed := Load();
      if failed.Some? { return; }
      failed := SkipMessages(delta);
    }

    /** doInitialRead at a checkpoint: entry i with d of its messages already handled. Reading starts with the
        first batch of the buffer, which is the one asked for only if nothing was left in it. */
    method DoInitialRead(off: nat, delta: nat, server: nat -> ReadReply, ghost i: nat) returns (failed: Option<Error>)
      requires Wired() && Piped() && !started && batchesRead == 0 && Serves(cfg, base, log, server)
      requires i <= |log| && off == Boundary(cfg, base, log, i)
      modifies this`started, this`curr, this`asked, this`nbatches, this`first, this`msg, this`batchRead
      modifies this`totalRead, this`batchesRead, this`done, this`pipe, conn, relay, bs, bs.br, bs.batch, msgs
      ensures Wired() && asked == old(asked) + [off]
      ensures i == |log| ==>
                && failed == Some(NotFound) && !started && batchesRead == 0 && totalRead == old(totalRead)
                && pipe == old(pipe) && bs.br.rest == old(bs.br.rest)
      ensures i < |log| ==>
                && started && curr == off && first == i && 1 <= nbatches <= |log| - i
                && server(off).ReadOk? && nbatches == server(off).nbatches
      ensures i < |log| ==>
                var buffer := old(Unpulled()) + Response();
                Follows(StartRead(cfg, buffer, delta), |buffer|, old(totalRead), failed)
    {
      hide Printed, Boundary, GoodEntries, Serves, StartRead, Scanner.Follows;
      curr := off;
      var n;
      n, failed := Request(off, server, i);
      if failed.Some? { return; }
      started, nbatches, first := true, n, i;
      assert bs.br.rest == old(Unpulled()) + Response();
      failed := Begin(delta);
    }

    /** With nothing left over, reading starts in step with the log. */
    lemma BegunIsCursor(d: nat, total: nat, failed: Option<Error>)
      requires Wired() && 1 <= nbatches && first + nbatches <= |log| && d <= |log[first].msgs|
      requires Follows(StartRead(cfg, Response(), |PrintMessages(log[first].msgs[..d])|), |Response()|, total, failed)
      ensures failed == None && Cursor() && batchesRead == 1 && done == d && totalRead == total + d
    {
      hide Printed, Wire, PrintMessages, Boundary, GoodEntries, StartRead, Pulled, Min, FrameFor;
      StartsWith(cfg, log, first, first + nbatches, d);
      OneScanned(cfg, log, first);
      FrameBody(cfg, log[first]);
      HeaderIsShort(cfg, log, first);
    }

    /** requestMoreBatches. The READ goes to where the last one went, moved on by what was scanned since a
        READ was last answered. */
    method AskMore(server: nat -> ReadReply) returns (n: nat, failed: Option<Error>)
      requires Exhausted() && Serves(cfg, base, log, server)
      modifies this`curr, this`asked, this`pipe, conn, relay, bs, bs.br
      ensures Wired() && Piped() && curr == old(curr + bs.scanned) && asked == old(asked) + [curr]
      ensures failed == None ==> pipe == Pipe(0, 0, |bs.br.rest|) && bs.scanned == 0
      ensures match Seek(cfg, base, log, curr)
              case Some(_) =>
                && server(curr).ReadOk? && failed == None && n == server(curr).nbatches
                && bs.br.rest == Relay(cfg, conn.buf, n, server(curr).data).0
              case None =>
                server(curr).ReadError? ==>
                  failed == Some(server(curr).err) && Exhausted() && bs.scanned == old(bs.scanned)
    {
      hide Printed, Boundary, Seek, GoodEntries, Serves, Relay;
      curr := curr + bs.scanned;
      if Seek(cfg, base, log, curr).Some? {
        AnswerFound(cfg, base, log, server, curr, conn.buf);
      }
      n, failed := ReadOffset(curr, server);
    }

    /** requestMoreBatches and the batch after it. */
    method RequestMore(server: nat -> ReadReply) returns (failed: Option<Error>)
      requires Exhausted() && Serves(cfg, base, log, server)
      modifies this`curr, this`asked, this`nbatches, this`first, this`batchRead, this`batchesRead, this`done
      modifies this`pipe, conn, relay, bs, bs.br, bs.batch, msgs
      ensures Wired() && started && curr == old(curr + bs.scanned) && asked == old(asked) + [curr]
      ensures match Seek(cfg, base, log, curr)
              case Some(i) => failed == None && Reading() && Here() == i && done == 0 && batchesRead == 1
              case None =>
                server(curr).ReadError? ==>
                  && failed == Some(server(curr).err) && Exhausted()
                  && bs.scanned == old(bs.scanned) && first == old(first)
    {
      hide Printed, Boundary, PrintMessages, Seek, Serves, StartRead, Relay, Scanner.Follows, Scanner.Cursor,
        Scanner.Wired, Scanner.Exhausted;
      StillStarted();
      var n;
      n, failed := AskMore(server);
      if failed.Some? { return; }
      batchesRead, nbatches := 0, n;
      ghost var at := Seek(cfg, base, log, curr);
      if at.Some? {
        AnswerHere(server);
        first := at.value;
      }
      failed := LoadFirst();
      if at.Some? {
        NoMessages(log[first].msgs);
        BegunIsCursor(0, totalRead, failed);
      }
    }

    lemma StillStarted()
      requires Exhausted()
      ensures started
    {}

    lemma AnswerHere(server: nat -> ReadReply)
      requires Wired() && Serves(cfg, base, log, server) && Seek(cfg, base, log, curr).Some?
      ensures var i, reply := Seek(cfg, base, log, curr).value, server(curr);
              && i < |log| && curr == Boundary(cfg, base, log, i) && reply.ReadOk? && 1 <= reply.nbatches <= |log| - i
              && Relay(cfg, conn.buf, reply.nbatches, reply.data).0 == Printed(cfg, log[i..i + reply.nbatches])
    {
      hide Boundary, Printed, Seek, GoodEntries, Serves, Relay;
      AnswerFound(cfg, base, log, server, curr, conn.buf);
    }

    /** The first batch of a response. */
    method LoadFirst() returns (failed: Option<Error>)
      requires Wired() && Piped() && batchesRead == 0 && pipe == Pipe(0, 0, |bs.br.rest|) && bs.scanned == 0
      modifies this`batchRead, this`batchesRead, this`done, this`pipe, bs, bs.br, bs.batch, msgs
      ensures Wired() && Follows(StartRead(cfg, old(bs.br.rest), 0), |old(bs.br.rest)|, totalRead, failed)
    {
      hide ReadBatch, GoodEntries, Boundary, Pulled, Min;
      failed := Load();
    }

    /** The next batch of the same response. */
    method NextInResponse() returns (failed: Option<Error>)
      requires Reading() && batchesRead < nbatches && done == |log[Here()].msgs|
      modifies this`batchRead, this`batchesRead, this`done, this`pipe, bs, bs.br, bs.batch, msgs
      ensures failed == None && Reading() && Here() == old(Here()) + 1 && done == 0
    {
      hide Printed, ReadBatch, Wire, FrameFor, PrintMessages, Boundary, GoodEntries, Pulled, Min;
      ghost var i := Here() + 1;
      SliceStep(cfg, log, i, first + nbatches);
      failed := Load();
      ScannedMore(cfg, log, first, i);
      NoMessages(log[i].msgs);
      FrameBody(cfg, log[i]);
    }

    // ----- Scan

    /** Not started, and about to start at entry startEntry behind startDone of its messages. */
    ghost predicate Ready()
      reads this`log, this`pipe, this`started, this`batchesRead, this`startOff, this`startDelta, this`startEntry
      reads this`startDone, bs, bs.batch, bs.br
    {
      && Wired() && Piped() && !started && batchesRead == 0
      && startEntry <= |log| && startOff == Boundary(cfg, base, log, startEntry)
      && (startEntry < |log| ==>
            startDone < |log[startEntry].msgs| && startDelta == |PrintMessages(log[startEntry].msgs[..startDone])|)
      && (startEntry == |log| ==> startDone == 0)
    }

    /** The scanner is at a known place of the log. */
    ghost predicate Placed()
      reads this`log, this`pipe, this`first, this`done, this`batchRead, this`batchesRead, this`nbatches, this`started
      reads this`curr, this`startOff, this`startDelta, this`startEntry, this`startDone, bs, bs.batch, bs.br, msgs
    {
      if started then Reading() else Ready()
    }

    /** ... and nothing else is in its buffer. */
    ghost predicate Valid()
      reads this`log, this`pipe, this`first, this`done, this`batchRead, this`batchesRead, this`nbatches, this`started
      reads this`curr, this`startOff, this`startDelta, this`startEntry, this`startDone, bs, bs.batch, bs.br, msgs
    {
      Placed() && (started || pipe.store == 0)
    }

    /** The index in the stream of the message that comes next. */
    ghost function Next(): nat
      requires Placed()
      reads this`log, this`pipe, this`first, this`done, this`batchRead, this`batchesRead, this`nbatches, this`started
      reads this`curr, this`startOff, this`startDelta, this`startEntry, this`startDone, bs, bs.batch, bs.br, msgs
    {
      if started then |Stream(log[..Here()])| + done else |Stream(log[..startEntry])| + startDone
    }

    /** The messages the first Scan will skip. */
    ghost function Skipped(): nat
      reads this`started, this`startDone
    {
      if started then 0 else startDone
    }

    /** SetOffset, or a checkpoint from the state handler. */
    method SetStart(off: nat, delta: nat, ghost i: nat, ghost d: nat)
      requires Wired() && Piped() && !started && batchesRead == 0
      requires i <= |log| && off == Boundary(cfg, base, log, i)
      requires i < |log| ==> d < |log[i].msgs| && delta == |PrintMessages(log[i].msgs[..d])|
      requires i == |log| ==> d == 0
      modifies this`startOff, this`startDelta, this`startEntry, this`startDone
      ensures Ready() && startEntry == i && startDone == d && Next() == |Stream(log[..i])| + d
    {
      startOff, startDelta, startEntry, startDone := off, delta, i, d;
    }

    lemma UsedUp()
      requires Reading() && batchesRead == nbatches && done == |log[Here()].msgs|
      ensures Exhausted() && curr + bs.scanned == Boundary(cfg, base, log, Here() + 1)
    {
      hide Scanner.Reading, Scanner.Wired, Boundary, Printed;
      InBatch();
      BufferEmpty();
      ScannedTo();
      BoundarySplit(cfg, base, log, first, Here() + 1);
    }

    lemma BufferEmpty()
      requires Reading() && batchesRead == nbatches
      ensures pipe == Pipe(0, 0, 0) && bs.br.rest == []
    {
      hide Printed, Wire, FrameFor, PrintMessages, Boundary, GoodEntries, Pulled, Min;
      PrintedNone(cfg, log, Here() + 1);
      assert log[Here() + 1..first + nbatches] == log[Here() + 1..Here() + 1];
    }

    lemma ScannedTo()
      requires Reading()
      ensures first <= Here() < |log| && bs.scanned == |Printed(cfg, log[first..Here() + 1])|
      ensures curr == Boundary(cfg, base, log, first)
    {
      hide Printed, Wire, FrameFor, PrintMessages, Boundary, GoodEntries, Pulled, Min;
    }

    /** scanNextBatch: nothing to do inside a batch; otherwise the next batch of the response, or another
        READ. */
    method ScanNextBatch(server: nat -> ReadReply) returns (failed: Option<Error>)
      requires (Reading() || Exhausted()) && Serves(cfg, base, log, server)
      modifies this`curr, this`asked, this`nbatches, this`first, this`batchRead, this`batchesRead, this`done
      modifies this`pipe, conn, relay, bs, bs.br, bs.batch, msgs
      ensures Wired() && started
      ensures old(Reading()) && old(Next()) < |Stream(log)| ==>
                failed == None && Reading() && Next() == old(Next()) && done < |log[Here()].msgs|
      ensures old(Reading()) && old(Next()) >= |Stream(log)| ==>
                && failed == Some(NotFound) && Exhausted() && curr == Boundary(cfg, base, log, |log|)
                && old(first) < |log| && bs.scanned == |Printed(cfg, log[old(first)..])| && asked == old(asked) + [curr]
      ensures old(Reading()) ==>
                asked == old(asked) || (asked == old(asked) + [curr] && AtStart(cfg, base, log, curr, old(Next())))
      ensures old(Exhausted()) ==>
                && curr == old(curr + bs.scanned) && asked == old(asked) + [curr]
                && match Seek(cfg, base, log, curr)
                   case Some(i) => failed == None && Reading() && Here() == i && done == 0
                   case None =>
                     server(curr).ReadError? ==>
                       failed == Some(server(curr).err) && Exhausted() && bs.scanned == old(bs.scanned)
    {
      hide Boundary, Stream, Printed, Serves, AtStart, Seek, GoodEntries, Scanner.Reading;
      ghost var h, reading := Here(), Reading();
      if reading { InBatch(); }
      failed := None;
      if batchRead >= bs.batch.size {
        if reading { BatchDone(); }
        if batchesRead >= nbatches {
          if reading {
            UsedUp();
            EntryAfter(cfg, base, log, server, h);
            if h + 1 == |log| { ScannedToEnd(); }
          }
          failed := RequestMore(server);
        } else {
          Unfinished();
          failed := NextInResponse();
          InBatch();
        }
      }
    }

    /** Where the scanner is inside its batch. */
    lemma InBatch()
      requires Reading()
      ensures Wired() && started && 0 <= Here() < |log| && done <= |log[Here()].msgs| && batchesRead <= nbatches
      ensures batchRead >= bs.batch.size <==> done == |log[Here()].msgs|
      ensures done < |log[Here()].msgs| ==> Next() < |Stream(log)|
    {
      hide Printed, Wire, FrameFor, PrintMessages, Boundary, Stream, GoodEntries, Pulled, Min;
      StreamHere(log, Here(), done);
      BodyEnd(log[Here()], done);
    }

    /** Behind the last message of a batch. */
    lemma BatchDone()
      requires Reading() && done == |log[Here()].msgs|
      ensures 0 <= Here() < |log| && Next() == |Stream(log[..Here() + 1])|
      ensures Here() + 1 == |log| <==> Next() >= |Stream(log)|
      ensures Here() + 1 < |log| ==> |log[Here() + 1].msgs| > 0
      ensures AtStart(cfg, base, log, Boundary(cfg, base, log, Here() + 1), Next())
    {
      hide Printed, Wire, FrameFor, PrintMessages, Boundary, Stream, GoodEntries, Pulled, Min, AtStart;
      StreamNext(cfg, log, Here());
      AtEntry(cfg, base, log, Here() + 1);
    }

    lemma ScannedToEnd()
      requires Reading() && Here() + 1 == |log|
      ensures first < |log| && bs.scanned == |Printed(cfg, log[first..])|
    {
      hide Printed, Scanner.Reading;
      ScannedTo();
      assert log[first..Here() + 1] == log[first..];
    }

    /** A scanner with batches left in its response is in the middle of it. */
    lemma Unfinished()
      requires Exhausted() || Reading()
      ensures batchesRead < nbatches ==> Reading()
    {}

    /** The same for a scanner in step with the log, and -1 for any other. */
    ghost function Pos(): (r: int)
      reads this`log, this`pipe, this`first, this`done, this`batchRead, this`batchesRead, this`nbatches, this`started
      reads this`curr, this`startOff, this`startDelta, this`startEntry, this`startDone, bs, bs.batch, bs.br, msgs
      ensures r >= 0 <==> Valid()
    {
      if Valid() then Next() else -1
    }

    /** What was left in the buffer of a scanner that is about to start. */
    ghost function Left(): Bytes
      reads this`log, this`pipe, this`started, this`batchesRead, this`startOff, this`startDelta, this`startEntry
      reads this`startDone, bs, bs.batch, bs.br
    {
      if Ready() then Unpulled() else []
    }

    /** About to read message `pos` of the stream. */
    ghost predicate AtMessage(pos: int)
      reads this`log, this`pipe, this`first, this`done, this`batchRead, this`batchesRead, this`nbatches, this`started
      reads this`curr, this`startOff, this`startDelta, this`startEntry, this`startDone, bs, bs.batch, bs.br, msgs
    {
      Reading() && done < |log[Here()].msgs| && Next() == pos
    }

    /** About to read the first message of entry i. */
    ghost predicate AtEntryStart(i: nat)
      reads this`log, this`pipe, this`first, this`done, this`batchRead, this`batchesRead, this`nbatches, this`started
      reads this`curr, bs, bs.batch, bs.br, msgs
    {
      Reading() && Here() == i && done == 0
    }

    /** The first message of entry i was delivered. */
    ghost predicate Delivered(i: nat)
      reads this`log, this`pipe, this`first, this`done, this`batchRead, this`batchesRead, this`nbatches, this`started
      reads this`curr, this`msg, this`startOff, this`startDelta, this`startEntry, this`startDone, bs, bs.batch, bs.br
      reads msgs
    {
      started && i < |log| && |log[i].msgs| > 0 && msg == log[i].msgs[0] && Pos() == |Stream(log[..i])| + 1
    }

    /** At most one READ went out, to the entry whose first message has `pos` messages before it. */
    ghost predicate AskedFor(before: seq<nat>, pos: int)
      reads this`asked, this`log
    {
      asked == before ||
      (|asked| == |before| + 1 && asked[..|before|] == before && AtStart(cfg, base, log, asked[|before|], pos))
    }

    /** The end of the log was met by a scanner whose last response started with entry `from`. */
    ghost predicate Ended(from: nat)
      reads this`log, this`pipe, this`started, this`curr, this`batchRead, this`batchesRead, this`nbatches, bs
      reads bs.batch, bs.br
    {
      && Exhausted() && from < |log| && curr == Boundary(cfg, base, log, |log|)
      && bs.scanned == |Printed(cfg, log[from..])|
    }

    /** A READ at the start of entry `entry` was answered with `reply`. */
    ghost predicate Answered(entry: nat, reply: ReadReply)
      reads this`log, this`first, this`nbatches
    {
      first == entry && 1 <= nbatches && first + nbatches <= |log| && reply.ReadOk? && nbatches == reply.nbatches
    }

    /** In the first batch of a response, with `extra` more bytes in the buffer than the response has. */
    ghost predicate OverFull(extra: nat)
      reads this`log, this`started, this`curr, this`first, this`batchesRead, this`nbatches, bs, bs.br
    {
      && started && batchesRead == 1 && first + nbatches <= |log| && curr == Boundary(cfg, base, log, first)
      && bs.scanned + |bs.br.rest| == extra + |Response()|
    }

    /** The first half of Scan: to the next message, wherever it is. */
    method Advance(server: nat -> ReadReply) returns (failed: Option<Error>)
      requires (Placed() || Exhausted()) && Serves(cfg, base, log, server)
      modifies this`started, this`curr, this`asked, this`nbatches, this`first, this`msg, this`batchRead
      modifies this`totalRead, this`batchesRead, this`done, this`pipe, conn, relay, bs, bs.br, bs.batch, msgs
      ensures Wired()
      ensures 0 <= old(Pos()) < |Stream(log)| ==>
                failed == None && AtMessage(old(Pos())) && totalRead == old(totalRead + Skipped())
      ensures old(Pos()) >= |Stream(log)| ==>
                && failed == Some(NotFound) && totalRead == old(totalRead)
                && if old(started) then Ended(old(first)) && asked == old(asked) + [curr] else Pos() == old(Pos())
      ensures old(Pos()) >= 0 ==> AskedFor(old(asked), old(Pos() - Skipped()))
      ensures old(Exhausted()) ==>
                && curr == old(curr + bs.scanned) && asked == old(asked) + [curr] && totalRead == old(totalRead)
                && match Seek(cfg, base, log, curr)
                   case Some(i) => failed == None && AtEntryStart(i)
                   case None =>
                     server(curr).ReadError? ==>
                       failed == Some(server(curr).err) && Exhausted() && bs.scanned == old(bs.scanned)
      ensures old(Ready() && startEntry < |log|) ==>
                && Answered(old(startEntry), server(old(startOff)))
                && match StartRead(cfg, old(Left()) + Response(), old(startDelta))
                   case NotBegun(e) => failed == Some(e)
                   case Begun(_, _, _, _, body) => failed == None && msgs.rest == body && OverFull(|old(Left())|)
    {
      hide Boundary, Stream, Printed, Serves, AtStart, Seek, GoodEntries, PrintMessages, StartRead, Scanner.Reading,
        Scanner.Cursor;
      ghost var total, stale := totalRead, Left();
      if !started {
        StartInStream(log, startEntry, startDone);
        AtEntry(cfg, base, log, startEntry);
        failed := DoInitialRead(startOff, startDelta, server, startEntry);
        if stale == [] && startEntry < |log| {
          assert stale + Response() == Response();
          BegunIsCursor(startDone, total, failed);
          BeginsReading();
        }
      } else {
        failed := ScanNextBatch(server);
      }
    }

    /** The next message, without the limit. */
    method ScanOne(server: nat -> ReadReply) returns (failed: Option<Error>)
      requires (Placed() || Exhausted()) && Serves(cfg, base, log, server)
      modifies this`started, this`curr, this`asked, this`nbatches, this`first, this`msg, this`batchRead
      modifies this`totalRead, this`batchesRead, this`done, this`pipe, conn, relay, bs, bs.br, bs.batch, msgs
      ensures 0 <= old(Pos()) < |Stream(log)| ==>
                && failed == None && Pos() == old(Pos()) + 1 && started && msg == Stream(log)[old(Pos())]
                && totalRead == old(totalRead + Skipped()) + 1
      ensures old(Pos()) >= |Stream(log)| ==>
                && failed == Some(NotFound) && totalRead == old(totalRead)
                && if old(started) then Ended(old(first)) && asked == old(asked) + [curr] else Pos() == old(Pos())
      ensures old(Pos()) >= 0 ==> AskedFor(old(asked), old(Pos() - Skipped()))
      ensures old(Exhausted()) ==>
                && curr == old(curr + bs.scanned) && asked == old(asked) + [curr]
                && match Seek(cfg, base, log, curr)
                   case Some(i) => failed == None && Delivered(i)
                   case None =>
                     server(curr).ReadError? ==>
                       failed == Some(server(curr).err) && Exhausted() && bs.scanned == old(bs.scanned)
      ensures old(Ready() && startEntry < |log|) ==>
                && Answered(old(startEntry), server(old(startOff)))
                && match FirstMessage(cfg, old(Left()) + Response(), old(startDelta))
                   case Failed(e, _) => failed == Some(e)
                   case Parsed(b, _) => failed == None && msg == b && OverFull(|old(Left())|)
    {
      hide Boundary, Stream, Printed, Serves, Seek, StartRead, MessageCodec.ReadMessage, Scanner.Reading,
        Scanner.Exhausted, Scanner.Ready, Scanner.AskedFor, Scanner.Ended, Scanner.OverFull, Scanner.Left,
        Scanner.Response, Scanner.Pos, GoodEntries;
      failed := Advance(server);
      if failed.Some? { return; }
      if Reading() { MessageHere(); }
      failed := ReadMessage();
      if Reading() { MessageRead(); }
    }

    /** The message a scanner in step with the log is about to read. */
    lemma MessageHere()
      requires Reading()
      ensures 0 <= Here() < |log| && |log[Here()].msgs| > 0 && started
      ensures done < |log[Here()].msgs| ==>
                var pos := |Stream(log[..Here()])| + done;
                pos < |Stream(log)| && Stream(log)[pos] == log[Here()].msgs[done]
    {
      hide Boundary, Stream, Printed, GoodEntries, Scanner.AtBatch;
      InBatch();
      EntryNotEmpty(Here());
      StreamHere(log, Here(), done);
    }

    lemma MessageRead()
      requires Reading()
      ensures started && Pos() == |Stream(log[..Here()])| + done
    {
      hide Stream, Boundary, Scanner.Cursor;
    }

    /** Scan. Whatever part of the rest of the log the server puts into a response, a true result is the next
        message of the stream, and a false one means the limit or the end of the log. A Scan after that asks
        again, and further on; a scanner that starts with bytes left in its buffer delivers from those. */
    method Scan(server: nat -> ReadReply) returns (ok: bool)
      requires (Placed() || Exhausted()) && Serves(cfg, base, log, server)
      modifies this`err, this`started, this`curr, this`asked, this`nbatches, this`first, this`msg, this`batchRead
      modifies this`totalRead, this`batchesRead, this`done, this`pipe, conn, relay, bs, bs.br, bs.batch, msgs
      // the limit
      ensures old(totalRead) >= limit ==>
                !ok && err == None && asked == old(asked) && totalRead == old(totalRead) && Pos() == old(Pos())
      // in step with the log
      ensures old(totalRead) < limit && 0 <= old(Pos()) < |Stream(log)| ==>
                && ok && Pos() == old(Pos()) + 1 && started && msg == Stream(log)[old(Pos())]
                && totalRead == old(totalRead + Skipped()) + 1
      ensures old(totalRead) < limit && old(Pos()) >= |Stream(log)| ==>
                && !ok && err == Some(NotFound) && totalRead == old(totalRead)
                && if old(started) then Ended(old(first)) && asked == old(asked) + [curr] else Pos() == old(Pos())
      ensures old(Pos()) >= 0 ==> AskedFor(old(asked), old(Pos() - Skipped()))
      // again, after the end of the log was met
      ensures old(totalRead) < limit && old(Exhausted()) ==>
                && curr == old(curr + bs.scanned) && asked == old(asked) + [curr]
                && match Seek(cfg, base, log, curr)
                   case Some(i) => ok && Delivered(i)
                   case None =>
                     server(curr).ReadError? ==>
                       !ok && err == Some(server(curr).err) && Exhausted() && bs.scanned == old(bs.scanned)
      // from the start, with whatever was left in the buffer
      ensures old(totalRead) < limit && old(Ready() && startEntry < |log|) ==>
                && Answered(old(startEntry), server(old(startOff)))
                && match FirstMessage(cfg, old(Left()) + Response(), old(startDelta))
                   case Failed(e, _) => !ok && err == Some(e)
                   case Parsed(b, _) => ok && msg == b && OverFull(|old(Left())|)
    {
      hide Boundary, Stream, Printed, Serves, AtStart, Seek, FirstMessage, Scanner.Wired, Scanner.Reading,
        Scanner.Exhausted, Scanner.Ended, Scanner.OverFull, Scanner.Left, Scanner.Response, Scanner.Pos, Scanner.Ready;
      if totalRead >= limit {
        err := None;
        return false;
      }
      var failed := ScanOne(server);
      if failed.Some? {
        err := failed;
        return false;
      }
      return true;
    }

    lemma BeginsReading()
      requires started && Cursor() && curr == Boundary(cfg, base, log, first)
      ensures Reading()
    {}

    lemma EntryNotEmpty(i: nat)
      requires Wired() && i < |log|
      ensures |log[i].msgs| > 0
    {
      assert GoodEntry(cfg, log[i]);
    }

    /** Every server of a row of servers holds the log. */
    ghost predicate AllServe(servers: nat -> nat -> ReadReply)
      reads this`log
    {
      forall i: nat :: Serves(cfg, base, log, servers(i))
    }

    /** Scan, in step with the log. */
    method ScanInStep(server: nat -> ReadReply) returns (ok: bool)
      requires Pos() >= 0 && Serves(cfg, base, log, server)
      modifies this`err, this`started, this`curr, this`asked, this`nbatches, this`first, this`msg, this`batchRead
      modifies this`totalRead, this`batchesRead, this`done, this`pipe, conn, relay, bs, bs.br, bs.batch, msgs
      ensures ok <==> old(totalRead) < limit && old(Pos()) < |Stream(log)|
      ensures ok ==>
                && Pos() == old(Pos()) + 1 && Skipped() == 0 && msg == Stream(log)[old(Pos())]
                && totalRead == old(totalRead + Skipped()) + 1
      ensures AskedFor(old(asked), old(Pos() - Skipped()))
    {
      hide Stream, AtStart, Serves, FirstMessage, Seek, Scanner.Placed, Scanner.Ready, Scanner.Exhausted,
        Scanner.Ended, Scanner.Pos, Scanner.Answered, Scanner.OverFull, Scanner.Delivered, Scanner.Left,
        Scanner.Response, Scanner.Wired;
      PosInRange();
      ok := Scan(server);
    }

    /** Scanning to the end; `servers` answer the successive Scans, each in its own way. The messages delivered
        are exactly the stream from the starting point on, none skipped and none repeated; only the limit cuts
        it short, and messages skipped over at a checkpoint count towards it. READ i is sent when at[i] messages
        were delivered, and asks for what follows the batches they came in. */
    method Drain(servers: nat -> nat -> ReadReply) returns (all: seq<Bytes>, ghost at: seq<nat>)
      requires Pos() >= 0 && AllServe(servers)
      modifies this`err, this`started, this`curr, this`asked, this`nbatches, this`first, this`msg, this`batchRead
      modifies this`totalRead, this`batchesRead, this`done, this`pipe, conn, relay, bs, bs.br, bs.batch, msgs
      ensures 0 <= old(Pos()) <= |Stream(log)| && all <= Stream(log)[old(Pos())..]
      ensures all == Stream(log)[old(Pos())..] || old(totalRead + Skipped()) + |all| >= limit
      ensures all != [] ==> old(totalRead) < limit && (|all| == 1 || old(totalRead + Skipped()) + |all| <= limit)
      ensures old(asked) <= asked && Sent(cfg, base, log, asked[|old(asked)|..], at, old(Pos()), old(Skipped()), |all|)
    {
      hide Scanner.Pos, Scanner.Placed, Scanner.Ready, Scanner.Exhausted, Scanner.Wired, Scanner.AskedFor, Stream,
        Sent, Serves;
      ghost var start, skipped, reqs: seq<nat> := Pos(), Skipped(), [];
      PosInRange();
      all, at := [], [];
      NothingSent(cfg, base, log, start, skipped);
      var going := true;
      while going
        invariant going ==> Pos() == start + |all| && Skipped() == (if all == [] then skipped else 0)
        invariant going ==> totalRead + Skipped() == old(totalRead + Skipped()) + |all|
        invariant start + |all| <= |Stream(log)| && all == Stream(log)[start..start + |all|]
        invariant !going ==> start + |all| == |Stream(log)| || old(totalRead + Skipped()) + |all| >= limit
        invariant all != [] ==> old(totalRead) < limit && (|all| == 1 || old(totalRead + Skipped()) + |all| <= limit)
        invariant asked == old(asked) + reqs && Sent(cfg, base, log, reqs, at, start, skipped, |all|)
        decreases going, |Stream(log)| - |all|
      {
        ghost var before := asked;
        going := ScanInStep(servers(|all|));
        reqs, at := AlsoSent(old(asked), before, reqs, at, start, skipped, |all|);
        if going {
          OneMore(Stream(log), start, |all|);
          StillSent(cfg, base, log, reqs, at, start, skipped, |all|);
          all := all + [msg];
        }
      }
    }

    lemma AlsoSent(prior: seq<nat>, before: seq<nat>, reqs: seq<nat>, at: seq<nat>, start: nat, skipped: nat, n: nat)
      returns (reqs': seq<nat>, at': seq<nat>)
      requires before == prior + reqs && AskedFor(before, SentAt(start, skipped, n))
      requires Sent(cfg, base, log, reqs, at, start, skipped, n)
      ensures asked == prior + reqs' && Sent(cfg, base, log, reqs', at', start, skipped, n)
    {
      hide AtStart;
      reqs', at' := reqs, at;
      if asked != before {
        reqs', at' := reqs + [asked[|before|]], at + [n];
        assert asked == before + [asked[|before|]] == prior + reqs';
      }
    }

    lemma PosInRange()
      requires Pos() >= 0
      ensures Pos() <= |Stream(log)|
    {
      hide Stream, Printed, Wire, PrintMessages, GoodEntries, Boundary, Pulled, Min;
      if started {
        StreamHere(log, Here(), done);
      } else {
        StartInStream(log, startEntry, startDone);
      }
    }

    // ----- a log that grows

    /** Batches are appended while the scanner is at the end. */
    method Grow(more: seq<Entry>)
      requires Exhausted() && GoodEntries(cfg, log + more) && Boundary(cfg, base, log + more, |log + more|) < TWO_63
      modifies this`log
      ensures log == old(log) + more && Exhausted()
    {
      log := log + more;
    }

    /** A Scan that meets the end of the log, and another one after `more` was appended. The second READ goes
        further by all the bytes of the last response: it finds the entry before which exactly that many bytes
        were appended, if there is one, and otherwise nothing. */
    method Retry(more: seq<Entry>, server: nat -> ReadReply, later: nat -> ReadReply) returns (found: bool)
      requires started && Pos() == |Stream(log)| && totalRead < limit && Serves(cfg, base, log, server)
      requires GoodEntries(cfg, log + more) && Boundary(cfg, base, log + more, |log + more|) < TWO_63
      requires Serves(cfg, base, log + more, later)
      modifies this`log, this`err, this`started, this`curr, this`asked, this`nbatches, this`first, this`msg
      modifies this`batchRead, this`totalRead, this`batchesRead, this`done, this`pipe, conn, relay, bs, bs.br
      modifies bs.batch, msgs
      ensures log == old(log) + more && old(first) < |old(log)|
      ensures var end := Boundary(cfg, base, old(log), |old(log)|);
              var off := end + |Printed(cfg, old(log)[old(first)..])|;
              && asked == old(asked) + [end, off]
              && match Seek(cfg, base, log, off)
                 case Some(i) =>
                   && |old(log)| < i < |log| && |Printed(cfg, more[..i - |old(log)|])| == off - end
                   && found && Delivered(i)
                 case None => later(off).ReadError? ==> !found && err == Some(later(off).err)
    {
      hide Boundary, Stream, Printed, Serves, Seek, GoodEntries, FirstMessage, AtStart, Scanner.Placed, Scanner.Ready,
        Scanner.Pos, Scanner.Wired, Scanner.Answered, Scanner.OverFull, Scanner.Delivered, Scanner.Left,
        Scanner.Response, Scanner.AskedFor;
      ghost var before, from := log, first;
      found := Scan(server);
      Grow(more);
      assert asked == old(asked) + [curr];
      found := Scan(later);
      var off := curr;
      BehindEnd(cfg, base, before, more, from, off);
      assert old(asked) + [Boundary(cfg, base, before, |before|)] + [off]
        == old(asked) + [Boundary(cfg, base, before, |before|), off];
    }

    // ----- checkpoints

    /** Where the message after the current one starts: its batch's offset and the bytes before it. */
    ghost function AfterCurrent(): (nat, nat)
      requires Reading()
      reads this`log, this`pipe, this`first, this`done, this`batchRead, this`batchesRead, this`nbatches, this`started
      reads this`curr, bs, bs.batch, bs.br, msgs
    {
      if done == |log[Here()].msgs| then (Boundary(cfg, base, log, Here() + 1), 0)
      else (Boundary(cfg, base, log, Here()), batchRead)
    }

    /** Complete. It counts from the start of the response, so the checkpoint it stores is right if and
        only if the current batch is the first one of its response. */
    method Complete(state: MemoryStatePuller)
      requires Reading()
      modifies state
      ensures state.initialized && ((state.off, state.delta) == AfterCurrent() <==> batchesRead == 1)
    {
      hide Printed, Wire, FrameFor, PrintMessages, GoodEntries, Pulled, Min;
      var off, delta := curr, batchRead;
      if batchRead >= bs.batch.size {
        off, delta := curr + bs.batch.nread, 0;
      }
      state.Complete(off, delta);
      ghost var h := Here();
      BodyEnd(log[h], done);
      BoundarySplit(cfg, base, log, first, h);
      BoundarySplit(cfg, base, log, h, h + 1);
      OneScanned(cfg, log, h);
      if first < h {
        BoundaryStrict(cfg, base, log, first, h);
      } else {
        PrintedNone(cfg, log, h);
      }
    }

    /** The checkpoint behind the current message as an entry and a number of messages. */
    lemma StartAfterCurrent() returns (i: nat, d: nat)
      requires Reading()
      ensures i <= |log| && AfterCurrent().0 == Boundary(cfg, base, log, i) && Pos() == |Stream(log[..i])| + d
      ensures i < |log| ==> d < |log[i].msgs| && AfterCurrent().1 == |PrintMessages(log[i].msgs[..d])|
      ensures i == |log| <==> Pos() >= |Stream(log)|
      ensures i == |log| ==> d == 0
    {
      hide Printed, Wire, FrameFor, PrintMessages, Stream, GoodEntries, Boundary, Pulled, Min;
      var h := Here();
      StreamNext(cfg, log, h);
      StreamHere(log, h, done);
      MessageRead();
      i := if done == |log[h].msgs| then h + 1 else h;
      d := if done == |log[h].msgs| then 0 else done;
      if i == h + 1 && i < |log| { NoMessages(log[i].msgs); }
    }

    /** Reset: the scanner starts anew, on the same client with whatever is in its batch buffer. */
    method Reset()
      requires Wired() && Piped()
      modifies this`started, this`curr, this`batchRead, this`batchesRead, this`nbatches, this`totalRead, this`msg
      modifies bs.batch, msgs
      ensures Wired() && Piped() && !started && batchesRead == 0 && totalRead == 0
      ensures bs.br.rest == old(bs.br.rest)
    {
      hide GoodEntries, Boundary;
      msg, curr, totalRead := [], 0, 0;
      bs.batch.Reset();
      msgs.Reset([]);
      batchRead, batchesRead, nbatches, started := 0, 0, 0, false;
    }

    /** Reset, and a Scan from a checkpoint behind the current message. The scanner is in step with the log
        again if and only if nothing was left in the batch buffer that its readers had not pulled, and then it
        delivers exactly the following message, also when that is the first of the next batch. Otherwise it
        delivers from the bytes that were left. In the first batch of a response nothing is left if and only if
        the response has no more than max(BatchSize, 4096) bytes, or twice as many if that batch alone has more;
        in the last batch nothing ever is. */
    method Resume(state: MemoryStatePuller, server: nat -> ReadReply) returns (ok: bool)
      requires Reading() && limit > 0 && Serves(cfg, base, log, server)
      requires state.initialized && (state.off, state.delta) == AfterCurrent()
      modifies this`err, this`started, this`curr, this`asked, this`nbatches, this`first, this`msg, this`batchRead
      modifies this`totalRead, this`batchesRead, this`done, this`pipe, conn, relay, bs, bs.br, bs.batch, msgs
      modifies this`startOff, this`startDelta, this`startEntry, this`startDone
      ensures old(pipe.store) == 0 && old(Pos()) < |Stream(log)| ==>
                ok && started && Pos() == old(Pos()) + 1 && msg == Stream(log)[old(Pos())]
      ensures old(pipe.store) == 0 && old(Pos()) >= |Stream(log)| ==> !ok && err == Some(NotFound)
      ensures old(Pos()) < |Stream(log)| ==> ((ok && Reading()) <==> old(pipe.store) == 0)
      ensures old(Pos()) < |Stream(log)| ==>
                && 1 <= nbatches && first + nbatches <= |log| && old(state.off) == Boundary(cfg, base, log, first)
                && server(old(state.off)).ReadOk? && nbatches == server(old(state.off)).nbatches
                && match FirstMessage(cfg, old(Unpulled()) + Response(), old(state.delta))
                   case Failed(e, _) => !ok && err == Some(e)
                   case Parsed(b, _) => ok && msg == b
      ensures old(batchesRead) == 1 ==>
                (old(pipe.store) == 0 <==> |old(Response())| <= old(Pulled(conn.buf, |Wire(cfg, log[first])|)))
      ensures old(batchesRead == nbatches) ==> old(pipe.store) == 0
    {
      hide Printed, Wire, PrintMessages, Stream, GoodEntries, Boundary, Serves, Seek, FirstMessage, Pulled,
        Scanner.Reading, Scanner.AskedFor, Scanner.Ended;
      PulledSoFar();
      ghost var left, store := Unpulled(), pipe.store;
      ghost var i, d := StartAfterCurrent();
      var off, delta := state.off, state.delta;
      Reset();
      SetStart(off, delta, i, d);
      assert Left() == left;
      ok := Scan(server);
      if ok && i < |log| && Reading() {
        NotOverFull(|left|);
      }
      if ok && i < |log| && store == 0 {
        Reads();
      }
    }

    lemma PulledSoFar()
      requires Reading()
      ensures Wired() && Piped() && first + nbatches <= |log| && first < |log|
      ensures batchesRead == 1 ==> (pipe.store == 0 <==> |Response()| <= Pulled(conn.buf, |Wire(cfg, log[first])|))
      ensures batchesRead == nbatches ==> pipe.store == 0
    {
      hide Printed, Wire, PrintMessages, GoodEntries, Boundary, FrameFor;
      if batchesRead == nbatches { PrintedNone(cfg, log, Here() + 1); }
    }

    lemma NotOverFull(extra: nat)
      requires Reading() && OverFull(extra)
      ensures extra == 0
    {
      hide Printed, Wire, PrintMessages, GoodEntries, Boundary, FrameFor, Pulled, Min;
      var mid, end := Here() + 1, first + nbatches;
      assert log[first..end] == log[first..mid] + log[mid..end];
      PrintedConcat(cfg, log[first..mid], log[mid..end]);
    }

    lemma Reads()
      requires started && Pos() >= 0
      ensures Reading()
    {}

    /** With a first batch as large as the buffer, the second one is still in the store. */
    lemma SecondUnpulled(a: Entry, b: Entry)
      requires Reading() && log == [a, b] && first == 0 && nbatches == 2 && batchesRead == 1 && Pos() == 1
      requires |Wire(cfg, a)| == cfg.maxBatchSize >= BUF_SIZE && |a.msgs| >= 2
      ensures Piped() && Unpulled() == Wire(cfg, b) && pipe.store > 0
      ensures AfterCurrent() == (base, |PrintMessages(a.msgs[..1])|)
    {
      hide Printed, Wire, PrintMessages, Boundary, Stream, FrameFor, GoodEntry;
      assert GoodEntry(cfg, log[0]) && GoodEntry(cfg, log[1]);
      TwoEntries(cfg, base, a, b);
      WireIsLong(cfg, b);
      assert log[0..2] == log;
      MessageRead();
    }
  }

  /** logd/state.go: the last completed checkpoint. */
  class MemoryStatePuller {
    var off: nat
    var delta: nat
    var initialized: bool

    constructor ()
      ensures !initialized
    {
      off, delta, initialized := 0, 0, false;
    }

    method Complete(off: nat, delta: nat)
      modifies this
      ensures initialized && this.off == off && this.delta == delta
    {
      this.off, this.delta, initialized := off, delta, true;
    }
  }

  /** Two batches in one response, the first as large as the client's buffer: after the first message of the
      first batch was completed and the scanner reset, the next Scan delivers the second message of the second
      batch instead of the first. */
  method ResumesInWrongBatch(cfg: Config, base: nat, a: Entry, b: Entry) returns (s: Scanner, ok: bool)
    requires GoodEntry(cfg, a) && GoodEntry(cfg, b) && |a.msgs| >= 2 && |b.msgs| >= 2
    requires |a.msgs[0]| == |b.msgs[0]| && |Wire(cfg, a)| == cfg.maxBatchSize >= BUF_SIZE
    requires base + |Wire(cfg, a)| + |Wire(cfg, b)| < TWO_63
    ensures s.log == [a, b] && ok && s.msg == b.msgs[1]
  {
    hide Printed, Wire, PrintMessages, FirstMessage, GoodEntry, GoodEntries, Serves, Seek, Stream, Boundary, Generous,
      Scanner.Reading, Scanner.Ended, Scanner.AskedFor, Scanner.Wired, Scanner.Piped, Scanner.Exhausted,
      Scanner.Delivered;
    var server := Generous(cfg, base, [a, b]);
    var state;
    s, state := FirstOfTwo(cfg, base, a, b);
    GenerousServes(cfg, base, [a, b]);
    s.SecondUnpulled(a, b);
    TwoEntries(cfg, base, a, b);
    ok := s.Resume(state, server);
    FromSecond(cfg, a, b, s.Response());
  }

  /** The first message of the first of two batches, both in one response, is delivered and completed. */
  method FirstOfTwo(cfg: Config, base: nat, a: Entry, b: Entry) returns (s: Scanner, state: MemoryStatePuller)
    requires GoodEntry(cfg, a) && GoodEntry(cfg, b) && |a.msgs| >= 2 && |Wire(cfg, a)| == cfg.maxBatchSize >= BUF_SIZE
    requires base + |Wire(cfg, a)| + |Wire(cfg, b)| < TWO_63
    ensures fresh(s) && fresh(state) && fresh(s.conn) && fresh(s.relay) && fresh(s.bs) && fresh(s.bs.br)
    ensures fresh(s.bs.batch) && fresh(s.msgs)
    ensures s.cfg == cfg && s.base == base && s.log == [a, b] && s.limit == 3
    ensures s.Reading() && s.Pos() == 1 && s.first == 0 && s.nbatches == 2 && s.batchesRead == 1
    ensures state.initialized && (state.off, state.delta) == s.AfterCurrent()
  {
    hide Printed, Wire, PrintMessages, FirstMessage, GoodEntry, GoodEntries, Serves, Seek, Stream, Boundary, Generous,
      Scanner.Reading, Scanner.Ended, Scanner.AskedFor, Scanner.Exhausted, Scanner.Delivered, Scanner.Ready,
      Scanner.Pos;
    TwoEntries(cfg, base, a, b);
    GenerousServes(cfg, base, [a, b]);
    s := ScannerAt(cfg, base, [a, b], 3);
    var ok := s.Scan(Generous(cfg, base, [a, b]));
    s.Reads();
    state := new MemoryStatePuller();
    s.Complete(state);
  }

  /** A new client, and a scanner that starts with the first of the messages. */
  method ScannerAt(cfg: Config, base: nat, log: seq<Entry>, limit: int) returns (s: Scanner)
    requires GoodEntries(cfg, log) && Boundary(cfg, base, log, |log|) < TWO_63 && cfg.maxBatchSize >= 256
    ensures fresh(s) && fresh(s.conn) && fresh(s.relay) && fresh(s.bs) && fresh(s.bs.br)
    ensures fresh(s.bs.batch) && fresh(s.msgs)
    ensures s.cfg == cfg && s.base == base && s.log == log && s.limit == limit
    ensures s.Ready() && s.startEntry == 0 && s.startOff == base && s.Pos() == 0
    ensures s.totalRead == 0 && s.Skipped() == 0 && s.asked == []
  {
    hide Printed, PrintMessages, Stream, GoodEntries, Boundary, Scanner.Wired, Scanner.Piped;
    StartOfLog(cfg, base, log);
    s := new Scanner(cfg, base, log, limit);
    s.SetStart(base, 0, 0, 0);
  }

  lemma StartOfLog(cfg: Config, base: nat, log: seq<Entry>)
    requires GoodEntries(cfg, log)
    ensures Boundary(cfg, base, log, 0) == base && Stream(log[..0]) == []
    ensures log != [] ==> |log[0].msgs| > 0 && PrintMessages(log[0].msgs[..0]) == []
  {
    hide Wire, PrintMessages, FrameFor, Printable;
    assert log[..0] == [] && Wires(cfg, []) == [] && MessageLists([]) == [];
    if log != [] {
      assert GoodEntry(cfg, log[0]);
      NoMessages(log[0].msgs);
    }
  }

  lemma TwoEntries(cfg: Config, base: nat, a: Entry, b: Entry)
    requires GoodEntry(cfg, a) && GoodEntry(cfg, b)
    ensures var log := [a, b];
            && GoodEntries(cfg, log) && Boundary(cfg, base, log, 0) == base
            && Boundary(cfg, base, log, 2) == base + |Wire(cfg, a)| + |Wire(cfg, b)|
            && Printed(cfg, log) == Wire(cfg, a) + Wire(cfg, b) && Printed(cfg, log[1..2]) == Wire(cfg, b)
            && |Stream(log[..0])| == 0 && |Stream(log)| == |a.msgs| + |b.msgs|
            && Generous(cfg, base, log)(base) == ReadOk(base, 2, Printed(cfg, log))
            && PrintMessages(a.msgs[..0]) == []
  {
    hide Wire, GoodEntry, Flat, PrintMessages;
    var log := [a, b];
    assert log[..0] == [] && log[..2] == log && log == [a] + [b] && log[1..2] == [b] && log[0..] == log;
    assert Wires(cfg, []) == [] && MessageLists([]) == [];
    FlatEmpty<byte>();
    FlatEmpty<Bytes>();
    PrintedConcat(cfg, [a], [b]);
    PrintedOne(cfg, a);
    PrintedOne(cfg, b);
    StreamConcat([a], [b]);
    StreamOne(a);
    StreamOne(b);
    NoMessages(a.msgs);
  }

  /** Behind as many bytes of the second batch as the first message of the first one takes. */
  lemma FromSecond(cfg: Config, a: Entry, b: Entry, t: Bytes)
    requires GoodEntry(cfg, b) && |a.msgs| >= 2 && |b.msgs| >= 2 && |a.msgs[0]| == |b.msgs[0]|
    ensures var r := FirstMessage(cfg, Wire(cfg, b) + t, |PrintMessages(a.msgs[..1])|);
            r.Parsed? && r.value == b.msgs[1]
  {
    hide Wire, GoodEntry, StartRead, PrintMessage, ReadMessage;
    assert a.msgs[..1] == [a.msgs[0]] && b.msgs[..1] == [b.msgs[0]];
    assert PrintMessages([a.msgs[0]]) == PrintMessage(a.msgs[0])
      && PrintMessages([b.msgs[0]]) == PrintMessage(b.msgs[0]) by {
      PrintMessagesSnoc([], a.msgs[0]);
      PrintMessagesSnoc([], b.msgs[0]);
      assert [] + [a.msgs[0]] == [a.msgs[0]] && [] + [b.msgs[0]] == [b.msgs[0]];
    }
    MessageLength(a.msgs[0]);
    MessageLength(b.msgs[0]);
    StartPrinted(cfg, b, 1, t);
    MessageStep(cfg, b, 1);
  }

  /** Where a READ behind the end of the old log by the bytes from `from` on leads. */
  lemma BehindEnd(cfg: Config, base: nat, log: seq<Entry>, more: seq<Entry>, from: nat, off: nat)
    requires from < |log| && off == Boundary(cfg, base, log, |log|) + |Printed(cfg, log[from..])|
    ensures var r := Seek(cfg, base, log + more, off);
            r.Some? ==>
              && |log| < r.value < |log + more|
              && |Printed(cfg, more[..r.value - |log|])| == |Printed(cfg, log[from..])|
  {
    hide Boundary, Printed, Seek, Wire;
    SeekIs(cfg, base, log + more, off);
    var r := Seek(cfg, base, log + more, off);
    if r.Some? {
      SeekBehindEnd(cfg, base, log, more, |Printed(cfg, log[from..])|, r.value);
      assert log[from..|log|] == log[from..];
      PrintedSlice(cfg, log, from, |log|);
      WireIsLong(cfg, log[from]);
      if r.value == |log| {
        assert more[..0] == more[0..0];
        PrintedNone(cfg, more, 0);
      }
    }
  }

  lemma OneMore(ms: seq<Bytes>, start: nat, n: nat)
    requires start + n < |ms|
    ensures ms[start..start + n] + [ms[start + n]] == ms[start..start + n + 1]
  {}

  /** The position in the stream a READ asks for that is sent when `n` messages were delivered: behind them,
      or at the start of the entry of the first one. */
  function SentAt(start: nat, skipped: nat, n: nat): int { if n == 0 then start - skipped else start + n }

  /** READ i was sent to reqs[i] when at[i] messages were delivered, of `total` by now. */
  ghost predicate Sent(cfg: Config, base: nat, log: seq<Entry>, reqs: seq<nat>, at: seq<nat>, start: nat, skipped: nat,
                       total: nat)
  {
    && |reqs| == |at|
    && forall i :: 0 <= i < |at| ==> at[i] <= total && AtStart(cfg, base, log, reqs[i], SentAt(start, skipped, at[i]))
  }

  lemma NothingSent(cfg: Config, base: nat, log: seq<Entry>, start: nat, skipped: nat)
    ensures Sent(cfg, base, log, [], [], start, skipped, 0)
  {}

  lemma StillSent(cfg: Config, base: nat, log: seq<Entry>, reqs: seq<nat>, at: seq<nat>, start: nat, skipped: nat,
                  n: nat)
    requires Sent(cfg, base, log, reqs, at, start, skipped, n)
    ensures Sent(cfg, base, log, reqs, at, start, skipped, n + 1)
  {
    hide AtStart;
  }

  /** What a READ behind entry h meets. */
  lemma EntryAfter(cfg: Config, base: nat, log: seq<Entry>, server: nat -> ReadReply, h: nat)
    requires Serves(cfg, base, log, server) && h < |log| && Boundary(cfg, base, log, |log|) < TWO_63
    ensures var off := Boundary(cfg, base, log, h + 1);
            && (h + 1 < |log| ==> Seek(cfg, base, log, off) == Some(h + 1))
            && (h + 1 == |log| ==> Seek(cfg, base, log, off) == None && server(off) == ReadError(NotFound))
  {
    hide Printed, Serves, Wire, Seek, Boundary;
    var off := Boundary(cfg, base, log, h + 1);
    SeekIs(cfg, base, log, off);
    SeekEnd(cfg, base, log);
    AnswerAt(cfg, base, log, server, off);
  }

  /** The first line of a batch fits into the batch scanner's buffer. */
  lemma HeaderIsShort(cfg: Config, log: seq<Entry>, i: nat)
    requires GoodEntries(cfg, log) && i < |log|
    ensures |Wire(cfg, log[i])| - |FrameFor(cfg, log[i]).body| <= BUF_SIZE
  {
    hide FrameFor, Digits;
    var f := FrameFor(cfg, log[i]);
    assert GoodEntry(cfg, log[i]);
    DigitsOfUint64(|f.body|);
    DigitsOfUint64(f.checksum);
    DigitsOfUint64(f.messages % TWO_64);
  }

  lemma BodyFits(cfg: Config, s: Bytes)
    requires ReadBatch(cfg, BUF_SIZE, s).Parsed?
    ensures |ReadBatch(cfg, BUF_SIZE, s).value.body| <= cfg.maxBatchSize
  {
    hide ReadEnvelope;
  }

  lemma FrameBody(cfg: Config, e: Entry)
    ensures FrameFor(cfg, e).body == Body(e)
  {}

  /** A response that starts with entry i leads to the message behind `d` of its messages. */
  lemma StartsWith(cfg: Config, log: seq<Entry>, i: nat, end: nat, d: nat)
    requires GoodEntries(cfg, log) && i < end <= |log| && d <= |log[i].msgs|
    ensures var delta := |PrintMessages(log[i].msgs[..d])|;
            StartRead(cfg, Printed(cfg, log[i..end]), delta)
            == Begun(FrameFor(cfg, log[i]), Printed(cfg, log[i + 1..end]), delta, d, PrintMessages(log[i].msgs[d..]))
    ensures |Printed(cfg, log[i..end])| == |Wire(cfg, log[i])| + |Printed(cfg, log[i + 1..end])|
  {
    hide Printed, Wire, StartRead, PrintMessages;
    assert GoodEntry(cfg, log[i]);
    PrintedSlice(cfg, log, i, end);
    StartPrinted(cfg, log[i], d, Printed(cfg, log[i + 1..end]));
  }
}
