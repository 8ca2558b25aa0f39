/** The server's answer to a READ is what the client's Scanner assumes. */
module EndToEnd {
  import opened ByteSeqs
  import opened Decimal
  import opened Configs
  import opened BatchCodec
  import opened RequestCodec
  import opened PartitionTable
  import opened TopicState
  import opened LogHistory
  import opened Reading
  import opened ReadTheorems
  import opened ReadCodec
  import opened ClientLog
  import opened ClientRead
  import opened ScannerClient

  /** Wherever partition boundaries fall, READ at the offset of a retained batch answers with the next n
      batches of the log, n >= 1, as the client expects them: a header that counts them and their printed
      bytes. */
  lemma ServerAnswersClient(cfg: Config, s: State, a: Log, j: nat, want: int, client: Config, log: seq<Entry>)
    returns (n: nat)
    requires ReadableState(cfg, s, a) && want >= 1
    requires |a.evicted| <= j < |History(a)| && a.live != [] && a.live[|a.live| - 1] != []
    requires History(a)[j..] == Wires(client, log)
    ensures WellFormed(s.table) && 1 <= n <= |log|
    ensures var off := |Flat(History(a)[..j])|;
            off < TWO_64 && HandleRead(cfg, s, off, want) == ReadOk(off, n, Printed(client, log[..n]))
  {
    hide ReadableState, HandleRead, Wire, Shortest, Flat, Messages;
    ReadReturnsShortestRun(cfg, s, a, j, want);
    var rest := History(a)[j..];
    RestIsCounted(cfg, s, a, j);
    RunIsPrefix(cfg, rest, want);
    ShortestIs(cfg, rest, want);
    var run := Shortest(cfg, rest, want);
    n := |run|;
    assert run == rest[..n] == Wires(client, log)[..n];
    assert Wires(client, log)[..n] == Wires(client, log[..n]);
  }

  lemma RestIsCounted(cfg: Config, s: State, a: Log, j: nat)
    requires ReadableState(cfg, s, a) && |a.evicted| <= j <= |History(a)|
    ensures Counted(cfg, History(a)[j..])
  {
    hide Represents, Counted, Flat;
    MoreIsCounted(cfg, a.live, 0);
    assert a.live[0..] == a.live;
    SuffixCounted(cfg, Flat(a.live), j - |a.evicted|);
    assert History(a)[j..] == Flat(a.live)[j - |a.evicted|..];
  }

  // ----- the client's scanner against the server

  /** READ requests to the server as the client prints them, each for `want` messages. */
  function Service(cfg: Config, s: State, topic: Bytes, want: int): nat -> ReadReply
    requires WellFormed(s.table)
  {
    (off: nat) =>
      if off < TWO_64 then AnswerRead(cfg, s, PrintRead(topic, off, want)) else ReadError(InvalidRequest)
  }

  /** The server can read such requests. */
  predicate Sendable(cfg: Config, topic: Bytes, want: int)
  {
    TopicWord(topic) && |topic| + 49 <= cfg.maxBatchSize && 1 <= want < TWO_63
  }

  lemma ServiceReads(cfg: Config, s: State, topic: Bytes, off: uint64, want: int)
    requires WellFormed(s.table) && Sendable(cfg, topic, want)
    ensures Service(cfg, s, topic, want)(off) == HandleRead(cfg, s, off, want)
  {
    hide AnswerRead, PrintRead, HandleRead;
    PrintedReadIsAnswered(cfg, s, topic, off, want, []);
    assert PrintRead(topic, off, want) + [] == PrintRead(topic, off, want);
  }

  /** The server answers every READ as the scanner needs it, for what it retains from batch j on. */
  lemma ServiceServes(cfg: Config, s: State, a: Log, j: nat, topic: Bytes, want: int, client: Config, log: seq<Entry>)
    requires ReadableState(cfg, s, a) && Sendable(cfg, topic, want)
    requires |a.evicted| <= j <= |History(a)| && a.live != [] && a.live[|a.live| - 1] != []
    requires History(a)[j..] == Wires(client, log)
    ensures WellFormed(s.table)
    ensures Boundary(client, |Flat(History(a)[..j])|, log, |log|) == |Flat(History(a))|
    ensures Serves(client, |Flat(History(a)[..j])|, log, Service(cfg, s, topic, want))
  {
    hide ReadableState, HandleRead, Boundary, Answers, Service, Wires, Flat;
    EndIsAtEnd(client, a, j, log);
    ReadableIsWellFormed(cfg, s, a);
    forall off: nat
      ensures Answers(client, |Flat(History(a)[..j])|, log, off, Service(cfg, s, topic, want)(off))
    {
      ServiceAnswers(cfg, s, a, j, topic, want, client, log, off);
    }
  }

  lemma ServiceAnswers(cfg: Config, s: State, a: Log, j: nat, topic: Bytes, want: int, client: Config,
                       log: seq<Entry>, off: nat)
    requires ReadableState(cfg, s, a) && Sendable(cfg, topic, want) && WellFormed(s.table)
    requires |a.evicted| <= j <= |History(a)| && a.live != [] && a.live[|a.live| - 1] != []
    requires History(a)[j..] == Wires(client, log)
    ensures Answers(client, |Flat(History(a)[..j])|, log, off, Service(cfg, s, topic, want)(off))
  {
    hide ReadableState, HandleRead, Wires, Flat, Seek, Boundary, Printed, Service, TopicWord;
    var base := |Flat(History(a)[..j])|;
    SeekIs(client, base, log, off);
    match Seek(client, base, log, off)
    case Some(i) => AnswersAtBatch(cfg, s, a, j, topic, want, client, log, i);
    case None =>
      EndIsAtEnd(client, a, j, log);
      if Boundary(client, base, log, |log|) <= off < TWO_63 {
        EndIsNotFound(cfg, s, a, off, want);
        ServiceReads(cfg, s, topic, off, want);
      }
  }

  lemma ReadableIsWellFormed(cfg: Config, s: State, a: Log)
    requires ReadableState(cfg, s, a)
    ensures WellFormed(s.table)
  {
    hide Represents;
    RepresentsDisk(cfg, s, a);
  }

  lemma EndIsNotFound(cfg: Config, s: State, a: Log, off: uint64, want: int)
    requires ReadableState(cfg, s, a) && want >= 1 && |Flat(History(a))| <= off < TWO_63
    ensures WellFormed(s.table) && HandleRead(cfg, s, off, want) == ReadError(NotFound)
  {
    hide Represents, HandleRead, Flat;
    EndIsHistoryLength(a);
    ReadOutsideIsNotFound(cfg, s, Segs(a), off, want);
  }

  lemma EndIsAtEnd(client: Config, a: Log, j: nat, log: seq<Entry>)
    requires j <= |History(a)| && History(a)[j..] == Wires(client, log)
    ensures Boundary(client, |Flat(History(a)[..j])|, log, |log|) == |Flat(History(a))| == End(Segs(a))
  {
    hide Wire, Flat;
    FlatSplit(History(a), j);
    EndIsHistoryLength(a);
    assert log[..|log|] == log;
  }

  lemma AnswersAtBatch(cfg: Config, s: State, a: Log, j: nat, topic: Bytes, want: int, client: Config,
                       log: seq<Entry>, i: nat)
    requires ReadableState(cfg, s, a) && Sendable(cfg, topic, want) && i < |log|
    requires |a.evicted| <= j <= |History(a)| && a.live != [] && a.live[|a.live| - 1] != []
    requires History(a)[j..] == Wires(client, log)
    ensures WellFormed(s.table)
    ensures var off := Boundary(client, |Flat(History(a)[..j])|, log, i);
            var reply := Service(cfg, s, topic, want)(off);
            && reply.ReadOk? && reply.offset == off && 1 <= reply.nbatches <= |log| - i
            && reply.data == Printed(client, log[i..i + reply.nbatches])
  {
    hide ReadableState, HandleRead, Wire, Flat, Service, TopicWord;
    var h := History(a);
    assert h[j + i..] == Wires(client, log[i..]) by { assert h[j + i..] == h[j..][i..]; }
    assert h[..j + i] == h[..j] + Wires(client, log[..i]) by { assert h[j..j + i] == h[j..][..i]; }
    FlatConcat(h[..j], Wires(client, log[..i]));
    var n := ServerAnswersClient(cfg, s, a, j + i, want, client, log[i..]);
    assert log[i..][..n] == log[i..i + n];
    ServiceReads(cfg, s, topic, |Flat(h[..j + i])|, want);
  }

  /** A client that scans the server's log from batch j on gets the messages of the retained batches, all of
      them in order up to its limit, whatever number of messages it asks for in each READ. The client has its
      own configuration; it has to admit the batches. */
  method ClientReadsLog(cfg: Config, s: State, ghost a: Log, ghost j: nat, base: nat, topic: Bytes, client: Config,
                        log: seq<Entry>, wants: nat -> int, limit: int)
    returns (all: seq<Bytes>)
    requires ReadableState(cfg, s, a) && WellFormed(s.table) && GoodEntries(client, log) && client.maxBatchSize >= 256
    requires |a.evicted| <= j <= |History(a)| && a.live != [] && a.live[|a.live| - 1] != []
    requires History(a)[j..] == Wires(client, log) && base == |Flat(History(a)[..j])|
    requires forall i: nat :: Sendable(cfg, topic, wants(i))
    ensures all == Stream(log)[..if limit < 0 then 0 else if limit < |Stream(log)| then limit else |Stream(log)|]
  {
    hide Represents, Service, Serves, Stream, Wires, Flat, GoodEntries, Boundary, Scanner.Pos, Scanner.Ready;
    EndIsAtEnd(client, a, j, log);
    var scanner := ScannerAt(client, base, log, limit);
    var servers := (i: nat) => Service(cfg, s, topic, wants(i));
    forall i: nat
      ensures Serves(client, base, log, servers(i))
    {
      ServiceServes(cfg, s, a, j, topic, wants(i), client, log);
    }
    ghost var at;
    all, at := scanner.Drain(servers);
  }

  // ----- the hypotheses on runs, for what clients print

  /** Every batch that a client prints within the limits is admissible, and so is every crash while it
      is handled unless the cut falls between the end of "BATCH " and the first body byte. */
  lemma PrintedIsAdmissible(cfg: Config, f: Frame, t: Bytes, k: nat)
    requires Canonical(cfg, f) && k <= |Print(f)|
    ensures Admissible(cfg, Receive(Print(f) + t))
    ensures Admissible(cfg, Crash(Print(f) + t, BeforeOpen)) && Admissible(cfg, Crash(Print(f) + t, AfterEviction))
    ensures Admissible(cfg, Crash(Print(f) + t, Torn(k))) <==> k < 6 || k > |Header(f)| || k == |Print(f)|
    ensures f.messages >= 1 ==> Announces(cfg, Print(f) + t)
  {
    hide Accept, Print, Plain, Whole, LineOf, Header, HeaderLength, FrameOf;
    PrintedIsAccepted(cfg, f, t);
    PrintedIsWhole(cfg, f);
    StoredIsWholeIffPlain(cfg, Print(f) + t);
  }
}
