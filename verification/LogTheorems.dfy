/** What the refinement says about the server itself: its files, its offsets, its retention, and
    what survives a crash. */
module LogTheorems {
  import opened ByteSeqs
  import opened Configs
  import opened BatchCodec
  import opened RequestCodec
  import opened Repair
  import opened PartitionTable
  import opened TopicState
  import opened LogHistory

  /** The contents of the files named by the first `n` records, oldest first. */
  function LiveBytes(s: State, n: nat): Bytes
    requires n <= |s.table.parts|
    requires forall i :: 0 <= i < n ==> s.table.parts[i].start in s.files
  {
    if n == 0 then [] else LiveBytes(s, n - 1) + s.files[s.table.parts[n - 1].start]
  }

  /** The first `n` records are the files on disk: same offsets, same sizes, each partition starts
      where the previous one ends, no other files exist, and the writer has the newest one open. */
  ghost predicate TableMatchesDisk(s: State, n: nat)
  {
    && 1 <= n <= |s.table.parts| && s.table.head == n - 1
    && (forall i :: 0 <= i < n ==>
          var p := s.table.parts[i]; p.start in s.files && p.size == |s.files[p.start]|)
    && (forall i :: 0 <= i < n - 1 ==>
          s.table.parts[i + 1].start == s.table.parts[i].start + s.table.parts[i].size)
    && (forall k :: k in s.files ==> exists i :: 0 <= i < n && k == s.table.parts[i].start)
    && s.open == s.table.parts[n - 1].start
  }

  lemma RepresentsMatches(cfg: Config, s: State, g: Segments)
    requires Represents(cfg, s, g)
    ensures TableMatchesDisk(s, |g.parts|)
  {
    hide Flat, Offset;
    forall i | 0 <= i < |g.parts| - 1
      ensures s.table.parts[i + 1].start == s.table.parts[i].start + s.table.parts[i].size
    {
      OffsetStep(g, i);
    }
  }

  lemma {:induction false} LiveBytesAre(cfg: Config, s: State, g: Segments, n: nat)
    requires Represents(cfg, s, g) && n <= |g.parts| && TableMatchesDisk(s, |g.parts|)
    ensures LiveBytes(s, n) == Flat(g.parts[..n])
    decreases n
  {
    hide Flat, Represents;
    if n == 0 {
      assert g.parts[..0] == [];
      FlatEmpty<byte>();
    } else {
      LiveBytesAre(cfg, s, g, n - 1);
      FileOf(cfg, s, g, n - 1);
      FlatSnoc(g.parts[..n - 1], g.parts[n - 1]);
      assert g.parts[..n] == g.parts[..n - 1] + [g.parts[n - 1]];
    }
  }

  lemma FileOf(cfg: Config, s: State, g: Segments, i: nat)
    requires Represents(cfg, s, g) && i < |g.parts|
    ensures i < |s.table.parts|
    ensures var p := s.table.parts[i]; p.start in s.files && s.files[p.start] == g.parts[i]
  {
    hide Flat, Offset;
  }

  /** In every reachable state the live files, oldest first, are the suffix of the bytes of all kept
      batches that begins at the start offset of the first record. */
  lemma FilesAreSuffixOfHistory(cfg: Config, es: seq<Event>) returns (n: nat)
    requires ValidConfig(cfg) && AllAdmissible(cfg, es)
    ensures Run(cfg, es).Started?
    ensures var s, bytes := Run(cfg, es).state, Flat(History(LogRun(cfg, es)));
            && TableMatchesDisk(s, n) && n <= cfg.maxPartitions
            && s.table.parts[0].start <= |bytes|
            && LiveBytes(s, n) == bytes[s.table.parts[0].start..]
  {
    hide Run, LogRun, Admissible, Represents, TableMatchesDisk, GoodLog, History;
    RunRefines(cfg, es);
    n := SuffixOfHistory(cfg, Run(cfg, es).state, LogRun(cfg, es));
  }

  lemma SuffixOfHistory(cfg: Config, s: State, a: Log) returns (n: nat)
    requires Represents(cfg, s, Segs(a))
    ensures var bytes := Flat(History(a));
            && TableMatchesDisk(s, n) && n <= cfg.maxPartitions
            && s.table.parts[0].start <= |bytes|
            && LiveBytes(s, n) == bytes[s.table.parts[0].start..]
  {
    hide Offset, Flats;
    var g := Segs(a);
    n := |g.parts|;
    FullIffAllLive(cfg.maxPartitions, s.table, g);
    RepresentsMatches(cfg, s, g);
    LiveBytesAre(cfg, s, g, n);
    assert g.parts[..n] == g.parts;
    EndIsHistoryLength(a);
    assert (Flat(a.evicted) + Flat(g.parts))[|Flat(a.evicted)|..] == Flat(g.parts);
  }

  // ----- retention

  lemma {:induction false} TotalBelow(parts: seq<Bytes>, bound: nat)
    requires forall i :: 0 <= i < |parts| ==> |parts[i]| < bound
    requires parts != []
    ensures |Flat(parts)| < |parts| * bound
    decreases |parts|
  {
    assert Flat(parts) == parts[0] + Flat(parts[1..]);
    if |parts| > 1 {
      TotalBelow(parts[1..], bound);
    }
    assert |parts| * bound == bound + (|parts| - 1) * bound;
  }

  lemma {:induction false} TotalAtLeast(parts: seq<Bytes>, bound: nat)
    requires forall i :: 0 <= i < |parts| ==> |parts[i]| >= bound
    ensures |Flat(parts)| >= |parts| * bound
    decreases |parts|
  {
    if parts != [] {
      assert Flat(parts) == parts[0] + Flat(parts[1..]);
      TotalAtLeast(parts[1..], bound);
      assert |parts| * bound == bound + (|parts| - 1) * bound;
    }
  }

  /** Each of the first `n` partitions is smaller than PartitionSize and all together are below
      MaxPartitions * PartitionSize; once anything was evicted, at least
      (MaxPartitions - 1) * (PartitionSize - MaxBatchSize) bytes are retained. */
  ghost predicate Retains(cfg: Config, s: State, n: nat)
  {
    && TableMatchesDisk(s, n)
    && (forall i :: 0 <= i < n ==> s.table.parts[i].size < cfg.partitionSize)
    && |LiveBytes(s, n)| < cfg.maxPartitions * cfg.partitionSize
    && (s.table.parts[0].start > 0 ==>
          n == cfg.maxPartitions
          && |LiveBytes(s, n)| >= (cfg.maxPartitions - 1) * (cfg.partitionSize - cfg.maxBatchSize))
  }

  /** The retention bounds hold in every reachable state. */
  lemma RetentionBounds(cfg: Config, es: seq<Event>) returns (n: nat)
    requires ValidConfig(cfg) && AllAdmissible(cfg, es)
    ensures Run(cfg, es).Started? && Retains(cfg, Run(cfg, es).state, n)
  {
    hide Run, LogRun, Admissible, Represents, Retains, GoodLog, Segs;
    RunRefines(cfg, es);
    n := RetainsLog(cfg, Run(cfg, es).state, LogRun(cfg, es));
  }

  lemma RetainsLog(cfg: Config, s: State, a: Log) returns (n: nat)
    requires ValidConfig(cfg) && GoodLog(cfg, a) && Represents(cfg, s, Segs(a))
    ensures Retains(cfg, s, n)
  {
    hide Represents, TableMatchesDisk, GoodLog, Segs;
    var g := Segs(a);
    n := |g.parts|;
    RepresentsMatches(cfg, s, g);
    SegmentBounds(cfg, a);
    LiveTotal(cfg, s, g);
  }

  lemma LiveTotal(cfg: Config, s: State, g: Segments)
    requires Represents(cfg, s, g)
    ensures TableMatchesDisk(s, |g.parts|)
    ensures |LiveBytes(s, |g.parts|)| == |Flat(g.parts)| && s.table.parts[0].start == g.base
    ensures forall i :: 0 <= i < |g.parts| ==> s.table.parts[i].size == |g.parts[i]|
  {
    hide Flat, Offset;
    RepresentsMatches(cfg, s, g);
    LiveBytesAre(cfg, s, g, |g.parts|);
    assert g.parts[..|g.parts|] == g.parts;
    OffsetStep(g, 0);
  }

  lemma SegmentBounds(cfg: Config, a: Log)
    requires ValidConfig(cfg) && GoodLog(cfg, a)
    ensures var g := Segs(a);
            && (forall i :: 0 <= i < |g.parts| ==> |g.parts[i]| < cfg.partitionSize)
            && |Flat(g.parts)| < cfg.maxPartitions * cfg.partitionSize
            && (g.base > 0 ==>
                  |g.parts| == cfg.maxPartitions
                  && |Flat(g.parts)| >= (cfg.maxPartitions - 1) * (cfg.partitionSize - cfg.maxBatchSize))
  {
    hide Flats, Flat, Whole;
    var g := Segs(a);
    var n := |g.parts|;
    TotalBelow(g.parts, cfg.partitionSize);
    MulMonotone(n, cfg.maxPartitions, cfg.partitionSize);
    if g.base > 0 {
      FlatEmpty<byte>();
      var older, last := g.parts[..n - 1], g.parts[n - 1];
      assert g.parts == older + [last];
      FlatSnoc(older, last);
      TotalAtLeast(older, cfg.partitionSize - cfg.maxBatchSize);
    }
  }

  lemma MulMonotone(a: nat, b: nat, c: nat)
    requires a <= b
    ensures a * c <= b * c
  {
    assert b * c == a * c + (b - a) * c;
  }

  // ----- offsets that stay valid

  lemma StepExtendsHistory(cfg: Config, a: Log, e: Event)
    requires a.live != []
    ensures History(a) <= History(LogStep(cfg, a, e))
  {
    hide Accept, AppendLog, PushLog, Rotates, History;
    if !e.Restart? && Accept(cfg, e.input).Accepted? {
      var raw := Accept(cfg, e.input).raw;
      AppendLogSegs(cfg, a, raw);
      PushLogSegs(cfg.maxPartitions, a, []);
    }
  }

  lemma {:induction false} RunExtendsHistory(cfg: Config, es: seq<Event>, fs: seq<Event>)
    ensures History(LogRun(cfg, es)) <= History(LogRun(cfg, es + fs))
    decreases |fs|
  {
    hide LogStep, History;
    if fs == [] {
      assert es + fs == es;
    } else {
      var init, e := fs[..|fs| - 1], fs[|fs| - 1];
      RunExtendsHistory(cfg, es, init);
      assert (es + fs)[..|es + fs| - 1] == es + init;
      StepExtendsHistory(cfg, LogRun(cfg, es + init), e);
    }
  }

  /** The offset acknowledged for a batch is the number of bytes kept before it, and from then on,
      through any later requests, restarts and cleanly cut crashes, the bytes of the history at that
      offset are the batch. */
  lemma AcknowledgedStaysPut(cfg: Config, es: seq<Event>, input: Bytes, fs: seq<Event>)
    requires ValidConfig(cfg) && AllAdmissible(cfg, es + [Receive(input)] + fs)
    requires Accept(cfg, input).Accepted?
    ensures Run(cfg, es).Started?
    ensures var off := |Flat(History(LogRun(cfg, es)))|;
            var raw := Accept(cfg, input).raw;
            var bytes := Flat(History(LogRun(cfg, es + [Receive(input)] + fs)));
            && HandleBatch(cfg, Run(cfg, es).state, input).1 == Acked(off)
            && off + |raw| <= |bytes| && bytes[off..off + |raw|] == raw
            && History(LogRun(cfg, es)) + [raw] <= History(LogRun(cfg, es + [Receive(input)] + fs))
  {
    hide Run, Accept, HandleBatch, History, LogRun, Flat, AllAdmissible;
    var all := es + [Receive(input)] + fs;
    PrefixAdmissible(cfg, es, all);
    PlainAt(cfg, all, |es|, input);
    ReplyIsEnd(cfg, es, input);
    ReceivedStays(cfg, es, input, fs);
    PrefixBytes(History(LogRun(cfg, es)), Accept(cfg, input).raw, History(LogRun(cfg, all)));
  }

  lemma ReplyIsEnd(cfg: Config, es: seq<Event>, input: Bytes)
    requires ValidConfig(cfg) && AllAdmissible(cfg, es)
    requires Accept(cfg, input).Accepted? && Plain(LineOf(Accept(cfg, input).raw))
    ensures Run(cfg, es).Started?
    ensures HandleBatch(cfg, Run(cfg, es).state, input).1 == Acked(|Flat(History(LogRun(cfg, es)))|)
  {
    hide Run, Accept, HandleAccepted, History, LogRun, Flat, Represents, GoodLog, Plain, LineOf, AppendLog, Admissible;
    RunRefines(cfg, es);
    WholeIfPlain(cfg, input);
    ReceiveRefines(cfg, Run(cfg, es).state, LogRun(cfg, es), Accept(cfg, input).raw);
  }

  lemma ReceivedStays(cfg: Config, es: seq<Event>, input: Bytes, fs: seq<Event>)
    requires Accept(cfg, input).Accepted?
    ensures History(LogRun(cfg, es)) + [Accept(cfg, input).raw] <= History(LogRun(cfg, es + [Receive(input)] + fs))
  {
    hide Accept, History, LogRun, AppendLog;
    LogRunReceive(cfg, es, input);
    AppendLogSegs(cfg, LogRun(cfg, es), Accept(cfg, input).raw);
    RunExtendsHistory(cfg, es + [Receive(input)], fs);
  }

  lemma PrefixAdmissible(cfg: Config, es: seq<Event>, all: seq<Event>)
    requires es <= all && AllAdmissible(cfg, all)
    ensures AllAdmissible(cfg, es)
  {
    hide Admissible;
    assert forall i :: 0 <= i < |es| ==> es[i] == all[i];
  }

  lemma PlainAt(cfg: Config, es: seq<Event>, i: nat, input: Bytes)
    requires i < |es| && es[i] == Receive(input) && AllAdmissible(cfg, es) && Accept(cfg, input).Accepted?
    ensures Plain(LineOf(Accept(cfg, input).raw))
  {
    hide Accept, Plain, LineOf;
    assert Admissible(cfg, es[i]);
  }

  lemma LogRunReceive(cfg: Config, es: seq<Event>, input: Bytes)
    requires Accept(cfg, input).Accepted?
    ensures LogRun(cfg, es + [Receive(input)]) == AppendLog(cfg, LogRun(cfg, es), Accept(cfg, input).raw)
  {
    hide Accept, AppendLog;
    var one := es + [Receive(input)];
    assert one[..|one| - 1] == es;
  }

  lemma PrefixBytes(h: seq<Bytes>, raw: Bytes, all: seq<Bytes>)
    requires h + [raw] <= all
    ensures var off, bytes := |Flat(h)|, Flat(all);
            off + |raw| <= |bytes| && bytes[off..off + |raw|] == raw
  {
    var n := |h|;
    assert all == h + [raw] + all[n + 1..];
    FlatConcat(h + [raw], all[n + 1..]);
    FlatSnoc(h, raw);
  }

  // ----- exactly which torn writes are repaired

  lemma {:induction false} StripWhole(cfg: Config, bs: seq<Bytes>, cs: seq<Bytes>, t: Bytes) returns (ds: seq<Bytes>)
    requires AllWhole(cfg, bs) && AllWhole(cfg, cs) && Flat(cs) == Flat(bs) + t
    ensures AllWhole(cfg, ds) && Flat(ds) == t
    decreases |bs|
  {
    hide Whole;
    if bs == [] {
      ds := cs;
    } else {
      WholeIsValid(cfg, bs[0]);
      StripFirst(cfg, bs, cs, t);
      ds := StripWhole(cfg, bs[1..], cs[1..], t);
    }
  }

  lemma StripFirst(cfg: Config, bs: seq<Bytes>, cs: seq<Bytes>, t: Bytes)
    requires bs != [] && |bs[0]| > 0 && AllWhole(cfg, bs) && AllWhole(cfg, cs) && Flat(cs) == Flat(bs) + t
    ensures cs != [] && Flat(cs[1..]) == Flat(bs[1..]) + t
  {
    hide Whole;
    var s := Flat(cs);
    var b, rb := bs[0], Flat(bs[1..]);
    assert Flat(bs) == b + rb;
    assert cs != [];
    var c, rc := cs[0], Flat(cs[1..]);
    assert s == c + rc;
    assert s == b + (rb + t);
    hide Flat;
    WholeUnique(cfg, s, b, c);
    assert rc == s[|c|..] && rb + t == s[|b|..];
  }

  ghost predicate IsRunOfBatches(cfg: Config, data: Bytes)
  {
    exists cs: seq<Bytes> :: AllWhole(cfg, cs) && data == Flat(cs)
  }

  /** Restarting after a write of `raw` that was cut at k bytes leaves whole batches, and nothing
      else, if and only if the cut is clean. Otherwise the torn bytes stay in the file, and the
      next batch is written behind them. */
  lemma RecoveryIsCompleteIffCleanCut(cfg: Config, bs: seq<Bytes>, raw: Bytes, k: nat)
    requires AllWhole(cfg, bs) && Whole(cfg, raw) && k <= |raw|
    requires HeaderLength(cfg, raw) == |LineOf(raw)|
    ensures IsRunOfBatches(cfg, Repaired(cfg, Flat(bs) + raw[..k])) <==> CleanCut(raw, k)
    ensures !CleanCut(raw, k) ==> Repaired(cfg, Flat(bs) + raw[..k]) == Flat(bs) + raw[..k]
  {
    hide Whole, HeaderLength, Check, LineOf;
    if CleanCut(raw, k) {
      RepairedTorn(cfg, bs, raw, k);
      FlatSnoc(bs, raw);
      assert AllWhole(cfg, bs + [raw]);
    } else {
      CheckOfTorn(cfg, bs, raw, k);
      forall cs: seq<Bytes> | AllWhole(cfg, cs)
        ensures Flat(bs) + raw[..k] != Flat(cs)
      {
        TornIsNotWhole(cfg, bs, raw, k, cs);
      }
    }
  }

  lemma TornIsNotWhole(cfg: Config, bs: seq<Bytes>, raw: Bytes, k: nat, cs: seq<Bytes>)
    requires AllWhole(cfg, bs) && AllWhole(cfg, cs) && Whole(cfg, raw) && 0 < k < |raw|
    ensures Flat(bs) + raw[..k] != Flat(cs)
  {
    hide Whole;
    if Flat(bs) + raw[..k] == Flat(cs) {
      var ds := StripWhole(cfg, bs, cs, raw[..k]);
      FirstWhole(cfg, ds, raw, k);
    }
  }

  lemma FirstWhole(cfg: Config, ds: seq<Bytes>, raw: Bytes, k: nat)
    requires AllWhole(cfg, ds) && Whole(cfg, raw) && 0 < k <= |raw| && Flat(ds) == raw[..k]
    ensures k == |raw|
  {
    hide Whole;
    assert ds != [];
    assert Flat(ds) == ds[0] + Flat(ds[1..]);
    assert ds[0] <= raw[..k] && ds[0] <= raw;
    WholeUnique(cfg, raw, ds[0], raw);
  }
}
