/** Whole runs of a topic: every batch, restart and crash, against the history of accepted batches. */
module LogHistory {
  import opened ByteSeqs
  import opened Configs
  import opened BatchCodec
  import opened RequestCodec
  import opened Repair
  import opened PartitionTable
  import opened TopicState
  import opened TopicRefinement
  import opened StartUp

  /** The batches ever kept, in order: those evicted, then those of each live partition. */
  datatype Log = Log(evicted: seq<Bytes>, live: seq<seq<Bytes>>)

  function History(a: Log): seq<Bytes> { a.evicted + Flat(a.live) }

  function Flats(live: seq<seq<Bytes>>): (r: seq<Bytes>)
    ensures |r| == |live| && forall i :: 0 <= i < |live| ==> r[i] == Flat(live[i])
  {
    seq(|live|, i requires 0 <= i < |live| => Flat(live[i]))
  }

  /** The partition contents of a log. */
  function Segs(a: Log): Segments
  {
    Segments(|Flat(a.evicted)|, Flats(a.live))
  }

  lemma {:induction false} FlatOfFlats(live: seq<seq<Bytes>>)
    ensures Flat(Flats(live)) == Flat(Flat(live))
  {
    if live != [] {
      FlatOfFlats(live[1..]);
      assert Flats(live)[1..] == Flats(live[1..]);
      FlatConcat(live[0], Flat(live[1..]));
    }
  }

  /** Where the next batch will go: the number of bytes accepted so far. */
  lemma EndIsHistoryLength(a: Log)
    ensures End(Segs(a)) == |Flat(History(a))|
    ensures Flat(History(a)) == Flat(a.evicted) + Flat(Segs(a).parts)
  {
    FlatConcat(a.evicted, Flat(a.live));
    FlatOfFlats(a.live);
  }

  // ----- steps of the log

  function PushLog(max: nat, a: Log, group: seq<Bytes>): Log
  {
    if |a.live| < max || a.live == [] then Log(a.evicted, a.live + [group])
    else Log(a.evicted + a.live[0], a.live[1..] + [group])
  }

  predicate Rotates(cfg: Config, a: Log, raw: Bytes)
    requires a.live != []
  {
    |raw| >= cfg.partitionSize - |Flat(a.live[|a.live| - 1])|
  }

  function AppendLog(cfg: Config, a: Log, raw: Bytes): Log
    requires a.live != []
  {
    var n := |a.live|;
    if Rotates(cfg, a, raw) then PushLog(cfg.maxPartitions, a, [raw])
    else a.(live := a.live[..n - 1] + [a.live[n - 1] + [raw]])
  }

  lemma FlatsSnoc(live: seq<seq<Bytes>>, group: seq<Bytes>)
    ensures Flats(live + [group]) == Flats(live) + [Flat(group)]
  {}

  lemma PushLogSegs(max: nat, a: Log, group: seq<Bytes>)
    ensures Segs(PushLog(max, a, group)) == Push(max, Segs(a), Flat(group))
    ensures History(PushLog(max, a, group)) == History(a) + group
  {
    PushLogHistory(max, a, group);
    hide Flats, History;
    if |a.live| < max || a.live == [] {
      FlatsSnoc(a.live, group);
    } else {
      FlatConcat(a.evicted, a.live[0]);
      FlatsSnoc(a.live[1..], group);
      assert Flats(a.live)[1..] == Flats(a.live[1..]);
    }
  }

  lemma PushLogHistory(max: nat, a: Log, group: seq<Bytes>)
    ensures History(PushLog(max, a, group)) == History(a) + group
  {
    if |a.live| < max || a.live == [] {
      FlatSnoc(a.live, group);
      assert a.evicted + (Flat(a.live) + group) == History(a) + group;
    } else {
      FlatSnoc(a.live[1..], group);
      assert Flat(a.live) == a.live[0] + Flat(a.live[1..]);
      assert a.evicted + a.live[0] + (Flat(a.live[1..]) + group) == History(a) + group;
    }
  }

  /** Appending a batch appends it to the history and to nothing else. */
  lemma AppendLogSegs(cfg: Config, a: Log, raw: Bytes)
    requires a.live != []
    ensures Segs(AppendLog(cfg, a, raw)) == AppendSegs(cfg, Segs(a), raw)
    ensures History(AppendLog(cfg, a, raw)) == History(a) + [raw]
  {
    hide PushLog, Push;
    var n := |a.live|;
    if Rotates(cfg, a, raw) {
      PushLogSegs(cfg.maxPartitions, a, [raw]);
      FlatSingle(raw);
    } else {
      var init, last := a.live[..n - 1], a.live[n - 1];
      FlatSnoc(last, raw);
      FlatSnoc(init, last);
      FlatSnoc(init, last + [raw]);
      assert a.live == init + [last];
      assert Flats(init + [last + [raw]]) == Flats(a.live)[..n - 1] + [Flat(last) + raw];
    }
  }

  // ----- events

  /** Where handleBatch can be interrupted: before it touched the disk, with `kept` bytes of the
      batch written, or after the oldest partition was removed. */
  datatype Point = BeforeOpen | Torn(kept: nat) | AfterEviction

  datatype Event =
    | Receive(input: Bytes)
    | Restart
    | Crash(input: Bytes, point: Point)

  /** The disk as a crash at `point` leaves it. */
  function CrashFiles(cfg: Config, s: State, raw: Bytes, point: Point): Files
    requires WellFormed(s.table)
  {
    match point
    case BeforeOpen => s.files
    case Torn(k) =>
      var rotate := ShouldRotate(cfg, s.table, |raw|);
      var next := NextOffset(s.table);
      var ready := if rotate then OpenFile(s.files, next) else s.files;
      WriteFile(ready, if rotate then next else s.open, if k <= |raw| then raw[..k] else raw)
    case AfterEviction => HandleAccepted(cfg, s, raw).0.files
  }

  /** The operations that bring the batch to the disk: a new file at `next` if the partition is full, the
      write, and an fsync if `flush`. */
  function PersistTrail(files: Files, synced: Files, open: nat, rotate: bool, next: nat, flush: bool,
                        raw: Bytes): (r: seq<Snapshot>)
    ensures r != []
  {
    var off := if rotate then next else open;
    var first := if rotate then OpenFile(files, next) else files;
    var kept := if rotate then OpenFile(synced, next) else synced;
    var written := WriteFile(first, off, raw);
    (if rotate then [Snapshot(first, kept)] else []) + [Snapshot(written, kept)]
    + (if flush then [Snapshot(written, Flushed(written, kept, off))] else [])
  }

  /** The directory after each operation of handleBatch on it, in order: the batch is written, then the
      oldest file may be removed. */
  function DiskTrail(cfg: Config, s: State, synced: Files, flush: bool, raw: Bytes): (r: seq<Snapshot>)
    requires WellFormed(s.table)
    ensures r != []
  {
    var rotate := ShouldRotate(cfg, s.table, |raw|);
    var written := PersistTrail(s.files, synced, s.open, rotate, NextOffset(s.table), flush, raw);
    var top := written[|written| - 1];
    var last := HandleAccepted(cfg, s, raw).0.files;
    written + if last == top.files then [] else [Snapshot(last, top.synced - (top.files.Keys - last.Keys))]
  }

  /** What is durable when handleBatch has replied. */
  function DurableAfter(cfg: Config, s: State, synced: Files, flush: bool, raw: Bytes): Files
    requires WellFormed(s.table)
  {
    var trail := DiskTrail(cfg, s, synced, flush, raw);
    trail[|trail| - 1].synced
  }

  /** A cut that check repairs: not between the end of "BATCH " and the first body byte. */
  predicate CleanCut(raw: Bytes, k: nat)
  {
    k == |raw| || k < 6 || |LineOf(raw)| < k < |raw|
  }

  /** Accepted requests come with a plain first line; crashes happen while an accepted request is
      being handled, and cut cleanly. */
  predicate Admissible(cfg: Config, e: Event)
  {
    match e
    case Restart => true
    case Receive(input) =>
      (match Accept(cfg, input)
       case Refused(_) => true
       case Accepted(raw, _, _) => Plain(LineOf(raw)))
    case Crash(input, point) =>
      (match Accept(cfg, input)
       case Refused(_) => false
       case Accepted(raw, _, _) =>
         && Plain(LineOf(raw))
         && (point.Torn? ==> point.kept <= |raw| && CleanCut(raw, point.kept)))
  }

  /** One event of the server: a request, a clean restart, or a crash followed by a restart. */
  ghost function Step(cfg: Config, s: State, e: Event): (r: Startup)
    requires WellFormed(s.table) && cfg.maxPartitions >= 1
    ensures r.Started? ==> WellFormed(r.state.table)
  {
    match e
    case Receive(input) => Started(HandleBatch(cfg, s, input).0)
    case Restart => Setup(cfg, s.files)
    case Crash(input, point) =>
      match Accept(cfg, input)
      case Refused(_) => Setup(cfg, s.files)
      case Accepted(raw, _, _) => Setup(cfg, CrashFiles(cfg, s, raw, point))
  }

  function CrashLog(cfg: Config, a: Log, raw: Bytes, point: Point): Log
    requires a.live != []
  {
    if point == BeforeOpen then a
    else if point == AfterEviction || point.kept >= |raw| then AppendLog(cfg, a, raw)
    else if Rotates(cfg, a, raw) then PushLog(cfg.maxPartitions, a, [])
    else a
  }

  function LogStep(cfg: Config, a: Log, e: Event): Log
    requires a.live != []
  {
    match e
    case Restart => a
    case Receive(input) =>
      (match Accept(cfg, input)
       case Refused(_) => a
       case Accepted(raw, _, _) => AppendLog(cfg, a, raw))
    case Crash(input, point) =>
      (match Accept(cfg, input)
       case Refused(_) => a
       case Accepted(raw, _, _) => CrashLog(cfg, a, raw, point))
  }

  // ----- what every step keeps

  predicate ValidConfig(cfg: Config)
  {
    cfg.maxPartitions >= 2 && cfg.maxBatchSize < cfg.partitionSize
  }

  /** The retention bounds and the shape of the log. */
  predicate GoodLog(cfg: Config, a: Log)
  {
    && 1 <= |a.live| <= cfg.maxPartitions
    && (forall i :: 0 <= i < |a.live| ==> AllWhole(cfg, a.live[i]) && |Flat(a.live[i])| < cfg.partitionSize)
    && (forall i :: 0 <= i < |a.live| - 1 ==> |Flat(a.live[i])| >= cfg.partitionSize - cfg.maxBatchSize)
    && (a.evicted != [] ==> |a.live| == cfg.maxPartitions)
    && AllWhole(cfg, a.evicted)
  }

  lemma GoodIsSolid(cfg: Config, a: Log)
    requires ValidConfig(cfg) && GoodLog(cfg, a)
    ensures Solid(Segs(a)) && Segs(a).parts != []
  {}

  lemma AppendKeepsGood(cfg: Config, a: Log, raw: Bytes)
    requires ValidConfig(cfg) && GoodLog(cfg, a)
    requires Whole(cfg, raw) && |raw| <= cfg.maxBatchSize
    ensures GoodLog(cfg, AppendLog(cfg, a, raw))
  {
    hide Whole;
    var n := |a.live|;
    FlatSingle(raw);
    FlatSnoc(a.live[n - 1], raw);
  }

  lemma PushKeepsGood(cfg: Config, a: Log, raw: Bytes)
    requires ValidConfig(cfg) && GoodLog(cfg, a)
    requires |raw| <= cfg.maxBatchSize && Rotates(cfg, a, raw)
    ensures GoodLog(cfg, PushLog(cfg.maxPartitions, a, []))
  {
    hide Whole;
  }

  lemma WholeIfPlain(cfg: Config, input: Bytes)
    requires var r := Accept(cfg, input); r.Accepted? && Plain(LineOf(r.raw))
    ensures var r := Accept(cfg, input);
            Whole(cfg, r.raw) && 2 <= |r.raw| <= cfg.maxBatchSize && HeaderLength(cfg, r.raw) == |LineOf(r.raw)|
  {
    hide Accept, Whole, Plain;
    StoredIsWholeIffPlain(cfg, input);
    AcceptedFits(cfg, input);
  }

  lemma StepKeepsGood(cfg: Config, a: Log, e: Event)
    requires ValidConfig(cfg) && GoodLog(cfg, a) && Admissible(cfg, e)
    ensures GoodLog(cfg, LogStep(cfg, a, e))
  {
    hide Accept, Whole, Plain, GoodLog, AppendLog, PushLog, HeaderLength, LineOf, Rotates;
    assert a.live != [] by { GoodIsNonEmpty(cfg, a); }
    if !e.Restart? && Accept(cfg, e.input).Accepted? {
      var raw := Accept(cfg, e.input).raw;
      WholeIfPlain(cfg, e.input);
      AppendKeepsGood(cfg, a, raw);
      if Rotates(cfg, a, raw) { PushKeepsGood(cfg, a, raw); }
    }
  }

  lemma GoodIsNonEmpty(cfg: Config, a: Log)
    requires GoodLog(cfg, a)
    ensures a.live != []
  {}

  // ----- restarts and crashes

  /** Start-up leaves the disk of a good log as it is. */
  lemma RestartRefines(cfg: Config, files: Files, a: Log)
    requires ValidConfig(cfg) && GoodLog(cfg, a) && DiskRep(files, Segs(a))
    ensures Recoverable(cfg, files, Segs(a), Segs(a))
    ensures var r := Setup(cfg, files); r.Started? && Represents(cfg, r.state, Segs(a))
  {
    hide DiskRep, Setup, Check, Represents, Segs, GoodLog, Recovered, Solid, Last;
    GoodIsSolid(cfg, a);
    RecoveredGood(cfg, a);
    SetupRefines(cfg, files, Segs(a));
  }

  lemma RecoveredGood(cfg: Config, a: Log)
    requires ValidConfig(cfg) && GoodLog(cfg, a)
    ensures Segs(a).parts != []
    ensures Check(cfg, Last(Segs(a))) != Crashes && Recovered(cfg, Segs(a)) == Segs(a)
  {
    hide Check, Flats, Whole;
    var g, last := Segs(a), a.live[|a.live| - 1];
    CheckOfWhole(cfg, last);
    assert Last(g) == Flat(last);
    SetLastTwice(g, Last(g), Last(g));
  }

  /** What start-up makes of a newest file that ends in a cleanly cut batch. */
  lemma RepairedTorn(cfg: Config, bs: seq<Bytes>, raw: Bytes, k: nat)
    requires AllWhole(cfg, bs) && Whole(cfg, raw) && k <= |raw|
    requires HeaderLength(cfg, raw) == |LineOf(raw)| && CleanCut(raw, k)
    ensures Check(cfg, Flat(bs) + raw[..k]) != Crashes
    ensures Repaired(cfg, Flat(bs) + raw[..k]) == if k == |raw| then Flat(bs) + raw else Flat(bs)
  {
    hide Whole, HeaderLength, CheckFrom, LineOf;
    if k == |raw| {
      FlatSnoc(bs, raw);
      CheckOfWhole(cfg, bs + [raw]);
      assert raw[..k] == raw;
    } else if k == 0 {
      CheckOfWhole(cfg, bs);
      assert Flat(bs) + raw[..0] == Flat(bs);
    } else {
      CheckOfTorn(cfg, bs, raw, k);
      assert (Flat(bs) + raw[..k])[..|Flat(bs)|] == Flat(bs);
    }
  }

  function TornSegs(cfg: Config, g: Segments, raw: Bytes, k: nat): Segments
    requires g.parts != [] && k <= |raw|
  {
    if |raw| >= cfg.partitionSize - |Last(g)| then Append(g, [raw[..k]]) else SetLast(g, Last(g) + raw[..k])
  }

  /** The disk after a torn write, as segments; it can hold one file more than the table. */
  lemma TornDisk(cfg: Config, s: State, g: Segments, raw: Bytes, k: nat)
    requires Represents(cfg, s, g) && k <= |raw|
    requires Last(g) != [] || |raw| < cfg.partitionSize
    ensures WellFormed(s.table)
    ensures var h := TornSegs(cfg, g, raw, k);
            h.parts != [] && Solid(h) && DiskRep(CrashFiles(cfg, s, raw, Torn(k)), h)
  {
    hide Offset, Flat, DiskRep, TableRep, HandleAccepted;
    HeadRep(cfg.maxPartitions, s.table, g);
    OpenHead(s.files, g);
    if ShouldRotate(cfg, s.table, |raw|) {
      assert Solid(g.(parts := g.parts + [raw[..k]]));
      DiskPush(s.files, g, raw[..k]);
      RotatedFiles(s.files, End(g), raw[..k]);
    } else {
      DiskSetLast(s.files, g, Last(g) + raw[..k]);
    }
  }

  lemma RecoveredTorn(cfg: Config, a: Log, raw: Bytes, k: nat)
    requires ValidConfig(cfg) && GoodLog(cfg, a)
    requires Whole(cfg, raw) && k <= |raw|
    requires HeaderLength(cfg, raw) == |LineOf(raw)| && CleanCut(raw, k)
    ensures Segs(a).parts != []
    ensures var h := TornSegs(cfg, Segs(a), raw, k);
            Check(cfg, Last(h)) != Crashes && Recovered(cfg, h) == Segs(CrashLog(cfg, a, raw, Torn(k)))
  {
    hide Whole, HeaderLength, Check, LineOf, CleanCut, Flats, PushLog, Flat, Recovered, Append, SetLast, AppendLog;
    GoodIsNonEmpty(cfg, a);
    assert Last(Segs(a)) == Flat(a.live[|a.live| - 1]);
    if Rotates(cfg, a, raw) {
      assert k == |raw| ==> AppendLog(cfg, a, raw) == PushLog(cfg.maxPartitions, a, [raw]) by {
        AppendsPartition(cfg, a, raw);
      }
      RecoveredTornNew(cfg, a, raw, k);
    } else {
      RecoveredTornOld(cfg, a, raw, k);
    }
  }

  lemma AppendsPartition(cfg: Config, a: Log, raw: Bytes)
    requires a.live != [] && Rotates(cfg, a, raw)
    ensures AppendLog(cfg, a, raw) == PushLog(cfg.maxPartitions, a, [raw])
  {}

  /** The torn batch was to open a new partition. */
  lemma RecoveredTornNew(cfg: Config, a: Log, raw: Bytes, k: nat)
    requires ValidConfig(cfg) && GoodLog(cfg, a) && Rotates(cfg, a, raw)
    requires Whole(cfg, raw) && k <= |raw|
    requires HeaderLength(cfg, raw) == |LineOf(raw)| && CleanCut(raw, k)
    ensures Segs(a).parts != []
    ensures var h := Append(Segs(a), [raw[..k]]);
            && Check(cfg, Last(h)) != Crashes
            && Recovered(cfg, h) == Segs(PushLog(cfg.maxPartitions, a, if k == |raw| then [raw] else []))
  {
    hide Whole, HeaderLength, Check, LineOf, CleanCut, Repaired, AllWhole, Flats, PushLog, Flat, Newest, Push;
    var max, g := cfg.maxPartitions, Segs(a);
    NoBatches(cfg);
    RepairedTorn(cfg, [], raw, k);
    FlatEmpty<byte>();
    assert [] + raw[..k] == raw[..k] && [] + raw == raw;
    PushLogSegs(max, a, if k == |raw| then [raw] else []);
    FlatSingle(raw);
    NewestOfOneMore(max, g, raw[..k]);
    PushEnd(max, g, raw[..k]);
    SetLastOfPush(max, g, raw[..k], if k == |raw| then raw else []);
  }

  /** The torn batch was to join the newest partition. */
  lemma RecoveredTornOld(cfg: Config, a: Log, raw: Bytes, k: nat)
    requires ValidConfig(cfg) && GoodLog(cfg, a) && !Rotates(cfg, a, raw)
    requires Whole(cfg, raw) && k <= |raw|
    requires HeaderLength(cfg, raw) == |LineOf(raw)| && CleanCut(raw, k)
    ensures Segs(a).parts != []
    ensures var h := SetLast(Segs(a), Last(Segs(a)) + raw[..k]);
            && Check(cfg, Last(h)) != Crashes
            && Recovered(cfg, h) == Segs(if k == |raw| then AppendLog(cfg, a, raw) else a)
  {
    hide Whole, HeaderLength, Check, LineOf, CleanCut, Repaired, AllWhole, Flats, Flat, AppendLog;
    var g, last := Segs(a), a.live[|a.live| - 1];
    assert Last(g) == Flat(last);
    RepairedTorn(cfg, last, raw, k);
    SetLastTwice(g, Flat(last) + raw[..k], if k == |raw| then Flat(last) + raw else Flat(last));
    AppendLogSegs(cfg, a, raw);
  }

  lemma NoBatches(cfg: Config)
    ensures AllWhole(cfg, [])
  {}

  lemma NewestOfOneMore(max: nat, g: Segments, part: Bytes)
    requires 1 <= |g.parts| <= max
    ensures Newest(max, Append(g, [part])) == Push(max, g, part)
  {
    var h := Append(g, [part]);
    if |g.parts| == max {
      assert h.parts[1..] == g.parts[1..] + [part];
    }
  }

  lemma SetLastOfPush(max: nat, g: Segments, part: Bytes, other: Bytes)
    requires Push(max, g, part).parts != []
    ensures SetLast(Push(max, g, part), other) == Push(max, g, other)
  {
    var r := Room(max, g).parts;
    assert (r + [part])[..|r|] == r;
  }

  lemma SetLastTwice(g: Segments, part: Bytes, other: Bytes)
    requires g.parts != []
    ensures SetLast(SetLast(g, part), other) == SetLast(g, other)
    ensures SetLast(g, Last(g)) == g
  {}

  // ----- every run

  lemma ReceiveRefines(cfg: Config, s: State, a: Log, raw: Bytes)
    requires ValidConfig(cfg) && GoodLog(cfg, a) && Represents(cfg, s, Segs(a))
    requires |raw| <= cfg.maxBatchSize
    ensures WellFormed(s.table)
    ensures var (s', reply) := HandleAccepted(cfg, s, raw);
            reply == Acked(|Flat(History(a))|) && Represents(cfg, s', Segs(AppendLog(cfg, a, raw)))
  {
    hide Represents, HandleAccepted, Segs, History, AppendLog;
    GoodIsSolid(cfg, a);
    BatchRefines(cfg, s, Segs(a), raw);
    AppendLogSegs(cfg, a, raw);
    EndIsHistoryLength(a);
  }

  /** The files after a crash at any of the points are consecutive partitions from which start-up recovers
      the log with or without the one batch that was being written. */
  lemma CrashRecoverable(cfg: Config, s: State, a: Log, raw: Bytes, point: Point) returns (h: Segments)
    requires ValidConfig(cfg) && GoodLog(cfg, a) && Represents(cfg, s, Segs(a))
    requires Whole(cfg, raw) && |raw| <= cfg.maxBatchSize && HeaderLength(cfg, raw) == |LineOf(raw)|
    requires point.Torn? ==> point.kept <= |raw| && CleanCut(raw, point.kept)
    ensures WellFormed(s.table) && a.live != []
    ensures Recoverable(cfg, CrashFiles(cfg, s, raw, point), h, Segs(CrashLog(cfg, a, raw, point)))
  {
    hide HandleAccepted, Segs, AppendLog, DiskRep, TableRep, GoodLog, Setup, Whole, HeaderLength, CleanCut, LineOf,
      PushLog, Offset, Recovered, TornSegs, Check, Solid;
    GoodIsNonEmpty(cfg, a);
    GoodIsSolid(cfg, a);
    ReceiveRefines(cfg, s, a, raw);
    match point
    case BeforeOpen =>
      RestartRefines(cfg, s.files, a);
      h := Segs(a);
    case AfterEviction =>
      AppendKeepsGood(cfg, a, raw);
      RestartRefines(cfg, HandleAccepted(cfg, s, raw).0.files, AppendLog(cfg, a, raw));
      h := Segs(AppendLog(cfg, a, raw));
    case Torn(k) =>
      TornDisk(cfg, s, Segs(a), raw, k);
      RecoveredTorn(cfg, a, raw, k);
      h := TornSegs(cfg, Segs(a), raw, k);
  }

  lemma CrashRefines(cfg: Config, s: State, a: Log, raw: Bytes, point: Point)
    requires ValidConfig(cfg) && GoodLog(cfg, a) && Represents(cfg, s, Segs(a))
    requires Whole(cfg, raw) && |raw| <= cfg.maxBatchSize && HeaderLength(cfg, raw) == |LineOf(raw)|
    requires point.Torn? ==> point.kept <= |raw| && CleanCut(raw, point.kept)
    ensures WellFormed(s.table) && a.live != []
    ensures var r := Setup(cfg, CrashFiles(cfg, s, raw, point));
            r.Started? && Represents(cfg, r.state, Segs(CrashLog(cfg, a, raw, point)))
  {
    hide Represents, GoodLog, Whole, HeaderLength, CleanCut, LineOf, Setup, Recovered, Check, Solid, DiskRep,
      CrashFiles;
    var h := CrashRecoverable(cfg, s, a, raw, point);
    SetupRefines(cfg, CrashFiles(cfg, s, raw, point), h);
  }

  /** Every event follows the log: requests append to it, restarts leave it as it is, and a crash
      either loses or keeps the one batch that was being written. */
  lemma StepRefines(cfg: Config, s: State, a: Log, e: Event)
    requires ValidConfig(cfg) && GoodLog(cfg, a) && Represents(cfg, s, Segs(a)) && Admissible(cfg, e)
    ensures WellFormed(s.table) && a.live != []
    ensures var r := Step(cfg, s, e);
            r.Started? && Represents(cfg, r.state, Segs(LogStep(cfg, a, e)))
    ensures GoodLog(cfg, LogStep(cfg, a, e))
  {
    hide HandleAccepted, Segs, AppendLog, GoodLog, Setup, Whole, HeaderLength, CleanCut, LineOf, Accept, Plain,
      CrashFiles, CrashLog, Represents;
    GoodIsNonEmpty(cfg, a);
    StepKeepsGood(cfg, a, e);
    RepresentsDisk(cfg, s, a);
    if e.Restart? || Accept(cfg, e.input).Refused? {
      RestartRefines(cfg, s.files, a);
    } else {
      WholeIfPlain(cfg, e.input);
      var raw := Accept(cfg, e.input).raw;
      if e.Receive? {
        ReceiveRefines(cfg, s, a, raw);
      } else {
        CrashRefines(cfg, s, a, raw, e.point);
      }
    }
  }

  lemma RepresentsDisk(cfg: Config, s: State, a: Log)
    requires Represents(cfg, s, Segs(a))
    ensures DiskRep(s.files, Segs(a)) && WellFormed(s.table)
  {
    FullIffAllLive(cfg.maxPartitions, s.table, Segs(a));
  }

  const EMPTY_LOG: Log := Log([], [[]])

  /** The server after the events `es`, starting on an empty directory. */
  ghost function Run(cfg: Config, es: seq<Event>): (r: Startup)
    requires cfg.maxPartitions >= 1
    ensures r.Started? ==> WellFormed(r.state.table)
  {
    if es == [] then Setup(cfg, map[])
    else
      match Run(cfg, es[..|es| - 1])
      case StartFailed(e) => StartFailed(e)
      case Started(s) => Step(cfg, s, es[|es| - 1])
  }

  function LogRun(cfg: Config, es: seq<Event>): (a: Log)
    ensures a.live != []
  {
    if es == [] then EMPTY_LOG else LogStep(cfg, LogRun(cfg, es[..|es| - 1]), es[|es| - 1])
  }

  predicate AllAdmissible(cfg: Config, es: seq<Event>)
  {
    forall i :: 0 <= i < |es| ==> Admissible(cfg, es[i])
  }

  /** Over every run of requests, restarts and cleanly cut crashes the server keeps running, and
      its table, its files and its writer represent the log. */
  lemma {:induction false} RunRefines(cfg: Config, es: seq<Event>)
    requires ValidConfig(cfg) && AllAdmissible(cfg, es)
    ensures var r := Run(cfg, es);
            r.Started? && Represents(cfg, r.state, Segs(LogRun(cfg, es)))
    ensures GoodLog(cfg, LogRun(cfg, es))
  {
    hide Step, LogStep, Setup, Admissible, Represents, Segs, GoodLog;
    if es == [] {
      SetupEmpty(cfg);
      EmptyLogSegs(cfg);
    } else {
      var init := es[..|es| - 1];
      RunRefines(cfg, init);
      StepRefines(cfg, Run(cfg, init).state, LogRun(cfg, init), es[|es| - 1]);
    }
  }

  lemma EmptyLogSegs(cfg: Config)
    requires ValidConfig(cfg)
    ensures Segs(EMPTY_LOG) == Segments(0, [[]]) && GoodLog(cfg, EMPTY_LOG)
  {
    assert Flats([[]]) == [[]];
  }
}
