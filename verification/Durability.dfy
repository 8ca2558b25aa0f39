/** What a crash can take back: every file keeps what was synced and any further part of what was written.
    With FlushBatches = 1 this comes down to the crash points of LogHistory, and acknowledged batches
    survive; with any other value they need not. */
module Durability {
  import opened ByteSeqs
  import opened Decimal
  import opened Configs
  import opened BatchCodec
  import opened RequestCodec
  import opened PartitionTable
  import opened TopicState
  import opened TopicRefinement
  import opened StartUp
  import opened LogHistory
  import opened LogTheorems
  import opened Reading
  import opened ReadTheorems

  /** A crash in the state `t` of the directory may leave `left`: the same files, each cut anywhere behind
      what is durable of it. */
  ghost predicate LeftBy(t: Snapshot, left: Files)
  {
    && left.Keys == t.files.Keys
    && forall o :: o in left ==> left[o] <= t.files[o] && (o in t.synced ==> t.synced[o] <= left[o])
  }

  /** The directory after `n` operations of handleBatch. */
  function SnapshotAt(cfg: Config, s: State, synced: Files, flush: bool, raw: Bytes, n: nat): Snapshot
    requires WellFormed(s.table) && n <= |DiskTrail(cfg, s, synced, flush, raw)|
  {
    if n == 0 then Snapshot(s.files, synced) else DiskTrail(cfg, s, synced, flush, raw)[n - 1]
  }

  lemma DurableIsLeft(files: Files, left: Files)
    requires LeftBy(Snapshot(files, files), left)
    ensures left == files
  {
    assert forall o :: o in files ==> left[o] == files[o];
  }

  /** A crash during the write keeps a prefix of the batch. */
  lemma TornIsLeft(first: Files, off: nat, raw: Bytes, left: Files) returns (k: nat)
    requires LeftBy(Snapshot(WriteFile(first, off, raw), first), left)
    ensures k <= |raw| && left == WriteFile(first, off, raw[..k])
  {
    if off in first {
      k := |left[off]| - |first[off]|;
      assert left[off] == first[off] + raw[..k];
      assert forall o :: o in first && o != off ==> left[o] == first[o];
    } else {
      k := 0;
      DurableIsLeft(first, left);
    }
  }

  lemma SyncedIsWritten(first: Files, off: nat, raw: Bytes)
    ensures var written := WriteFile(first, off, raw); Flushed(written, first, off) == written
  {}

  /** When the batch is synced before anything else happens, a crash during handleBatch leaves one of the
      crash points. */
  lemma CrashLeavesPoint(cfg: Config, s: State, raw: Bytes, n: nat, left: Files) returns (point: Point)
    requires WellFormed(s.table) && n <= |DiskTrail(cfg, s, s.files, true, raw)|
    requires LeftBy(SnapshotAt(cfg, s, s.files, true, raw, n), left)
    ensures left == CrashFiles(cfg, s, raw, point) && (point.Torn? ==> point.kept <= |raw|)
  {
    hide LeftBy, WriteFile, OpenFile, Flushed, HandleAccepted;
    var next, rotate := NextOffset(s.table), ShouldRotate(cfg, s.table, |raw|);
    var off, first := if rotate then next else s.open, if rotate then OpenFile(s.files, next) else s.files;
    var written := WriteFile(first, off, raw);
    SyncedIsWritten(first, off, raw);
    if n == 0 {
      point := BeforeOpen;
      DurableIsLeft(s.files, left);
    } else {
      var i := if rotate then n - 1 else n;
      if i == 0 {
        point := Torn(0);
        DurableIsLeft(first, left);
        NothingWritten(first, off, raw);
      } else if i == 1 {
        var k := TornIsLeft(first, off, raw, left);
        point := Torn(k);
      } else if i == 2 {
        point := Torn(|raw|);
        DurableIsLeft(written, left);
        assert raw[..|raw|] == raw;
      } else {
        point := AfterEviction;
        EvictionIsDurable(cfg, s, raw, written);
        DurableIsLeft(HandleAccepted(cfg, s, raw).0.files, left);
      }
    }
  }

  lemma NothingWritten(first: Files, off: nat, raw: Bytes)
    ensures WriteFile(first, off, raw[..0]) == first
  {
    assert off in first ==> first[off] + raw[..0] == first[off];
  }

  lemma EvictionIsDurable(cfg: Config, s: State, raw: Bytes, written: Files)
    requires WellFormed(s.table)
    requires var rotate, next := ShouldRotate(cfg, s.table, |raw|), NextOffset(s.table);
             var ready := if rotate then OpenFile(s.files, next) else s.files;
             written == WriteFile(ready, if rotate then next else s.open, raw)
    ensures var last := HandleAccepted(cfg, s, raw).0.files; written - (written.Keys - last.Keys) == last
  {}

  /** Conversely a crash can leave every one of the points. */
  lemma PointIsLeft(cfg: Config, s: State, raw: Bytes, point: Point) returns (n: nat)
    requires WellFormed(s.table) && (point.Torn? ==> point.kept <= |raw|)
    ensures n <= |DiskTrail(cfg, s, s.files, true, raw)|
    ensures LeftBy(SnapshotAt(cfg, s, s.files, true, raw, n), CrashFiles(cfg, s, raw, point))
  {
    hide HandleAccepted;
    var next, rotate := NextOffset(s.table), ShouldRotate(cfg, s.table, |raw|);
    var off, first := if rotate then next else s.open, if rotate then OpenFile(s.files, next) else s.files;
    var written := WriteFile(first, off, raw);
    var trail := DiskTrail(cfg, s, s.files, true, raw);
    SyncedIsWritten(first, off, raw);
    match point
    case BeforeOpen => n := 0;
    case Torn(k) =>
      n := if rotate then 2 else 1;
      assert trail[n - 1] == Snapshot(written, first);
    case AfterEviction =>
      n := |trail|;
      EvictionIsDurable(cfg, s, raw, written);
  }

  // ----- runs with real crashes

  /** The server and its disk: what is durable, and the batches written since the last flush. */
  datatype Machine = Machine(state: State, synced: Files, batches: nat)

  /** A request that is answered; a crash after `done` disk operations of a request; a crash or a shutdown
      between requests. A crash leaves the files `left` and is followed by start-ups, of which all but the
      last are interrupted after `starts[i]` disk operations of their own. */
  datatype Incident =
    | Served(input: Bytes, timer: bool)
    | Crashed(input: Bytes, timer: bool, done: nat, left: Files, starts: seq<nat>)
    | Stopped(left: Files, starts: seq<nat>)

  /** What the disk allows. */
  ghost predicate Possible(cfg: Config, m: Machine, e: Incident)
    requires WellFormed(m.state.table)
  {
    match e
    case Served(_, _) => true
    case Stopped(left, _) => LeftBy(Snapshot(m.state.files, m.synced), left)
    case Crashed(input, timer, done, left, _) =>
      match Accept(cfg, input)
      case Refused(_) => false
      case Accepted(raw, _, _) =>
        var flush := FlushDue(cfg, m.batches, timer);
        && done <= |DiskTrail(cfg, m.state, m.synced, flush, raw)|
        && LeftBy(SnapshotAt(cfg, m.state, m.synced, flush, raw, done), left)
  }

  /** Requests with plain first lines that announce messages, and cuts that start-up can repair. */
  ghost predicate Manageable(cfg: Config, m: Machine, e: Incident)
    requires WellFormed(m.state.table)
  {
    match e
    case Served(input, _) => Admissible(cfg, Receive(input)) && Announces(cfg, input)
    case Stopped(_, _) => true
    case Crashed(input, _, _, left, _) =>
      && Admissible(cfg, Receive(input)) && Announces(cfg, input)
      && match Accept(cfg, input)
         case Refused(_) => true
         case Accepted(raw, _, _) =>
           forall k :: 0 <= k <= |raw| && left == CrashFiles(cfg, m.state, raw, Torn(k)) ==> CleanCut(raw, k)
  }

  /** A start-up makes everything durable. */
  ghost function Up(cfg: Config, files: Files): (r: Option<Machine>)
    requires cfg.maxPartitions >= 1
    ensures r.Some? ==> WellFormed(r.value.state.table)
  {
    match Setup(cfg, files)
    case StartFailed(_) => None
    case Started(s) => Some(Machine(s, s.files, 0))
  }

  ghost function Next(cfg: Config, m: Machine, e: Incident): (r: Option<Machine>)
    requires WellFormed(m.state.table) && cfg.maxPartitions >= 1
    ensures r.Some? ==> WellFormed(r.value.state.table)
  {
    match e
    case Crashed(_, _, _, left, starts) => Up(cfg, Starts(cfg, left, starts))
    case Stopped(left, starts) => Up(cfg, Starts(cfg, left, starts))
    case Served(input, timer) =>
      match Accept(cfg, input)
      case Refused(_) => Some(m)
      case Accepted(raw, _, _) =>
        Some(Machine(HandleAccepted(cfg, m.state, raw).0,
                     DurableAfter(cfg, m.state, m.synced, FlushDue(cfg, m.batches, timer), raw),
                     FlushCount(cfg, m.batches)))
  }

  ghost function After(cfg: Config, m: Machine, es: seq<Incident>): (r: Option<Machine>)
    requires WellFormed(m.state.table) && cfg.maxPartitions >= 1
    ensures r.Some? ==> WellFormed(r.value.state.table)
    decreases |es|
  {
    if es == [] then Some(m)
    else
      match Next(cfg, m, es[0])
      case None => None
      case Some(m1) => After(cfg, m1, es[1..])
  }

  /** A run: everything in it is possible where it happens, and manageable. Nothing happens any more when a
      start-up has failed. */
  ghost predicate IsRun(cfg: Config, m: Machine, es: seq<Incident>)
    requires WellFormed(m.state.table) && cfg.maxPartitions >= 1
    decreases |es|
  {
    es == [] ||
    (&& Possible(cfg, m, es[0]) && Manageable(cfg, m, es[0])
     && match Next(cfg, m, es[0])
        case None => true
        case Some(m1) => IsRun(cfg, m1, es[1..]))
  }

  /** The machine represents the log, and all of it is durable. */
  ghost predicate InStep(cfg: Config, m: Machine, a: Log)
  {
    Represents(cfg, m.state, Segs(a)) && GoodLog(cfg, a) && Counted(cfg, History(a)) && m.synced == m.state.files
  }

  lemma DurableIsAll(cfg: Config, s: State, raw: Bytes)
    requires WellFormed(s.table)
    ensures DurableAfter(cfg, s, s.files, true, raw) == HandleAccepted(cfg, s, raw).0.files
  {
    hide HandleAccepted;
    var next, rotate := NextOffset(s.table), ShouldRotate(cfg, s.table, |raw|);
    var off, first := if rotate then next else s.open, if rotate then OpenFile(s.files, next) else s.files;
    SyncedIsWritten(first, off, raw);
    EvictionIsDurable(cfg, s, raw, WriteFile(first, off, raw));
  }

  /** A request that is answered: acknowledged with the number of bytes kept before it, and durable. */
  lemma ServedInStep(cfg: Config, m: Machine, a: Log, input: Bytes, timer: bool) returns (a': Log)
    requires ValidConfig(cfg) && cfg.flushBatches == 1 && InStep(cfg, m, a) && WellFormed(m.state.table)
    requires Manageable(cfg, m, Served(input, timer))
    ensures InStep(cfg, Next(cfg, m, Served(input, timer)).value, a')
    ensures a.live != [] && a' == LogStep(cfg, a, Receive(input))
    ensures Accept(cfg, input).Accepted? ==>
              && HandleBatch(cfg, m.state, input).1 == Acked(|Flat(History(a))|)
              && History(a') == History(a) + [Accept(cfg, input).raw]
  {
    hide Accept, Represents, GoodLog, Segs, Counted, History, HandleAccepted, AppendLog, Plain, LineOf, DurableAfter;
    GoodIsNonEmpty(cfg, a);
    a' := LogStep(cfg, a, Receive(input));
    if Accept(cfg, input).Accepted? {
      var raw := Accept(cfg, input).raw;
      WholeIfPlain(cfg, input);
      ReceiveRefines(cfg, m.state, a, raw);
      AppendKeepsGood(cfg, a, raw);
      DurableIsAll(cfg, m.state, raw);
      AppendLogSegs(cfg, a, raw);
      AcceptedCounts(cfg, input);
      CountedAppend(cfg, History(a), raw);
    }
  }

  /** The files a crash leaves, and what start-up makes of them. */
  lemma CrashedInStep(cfg: Config, m: Machine, a: Log, e: Incident) returns (h: Segments, a': Log)
    requires ValidConfig(cfg) && cfg.flushBatches == 1 && InStep(cfg, m, a) && WellFormed(m.state.table)
    requires Possible(cfg, m, e) && Manageable(cfg, m, e) && !e.Served?
    ensures Recoverable(cfg, e.left, h, Segs(a'))
    ensures GoodLog(cfg, a') && Counted(cfg, History(a')) && History(a) <= History(a')
  {
    hide Accept, Represents, GoodLog, Segs, Counted, History, CrashFiles, Plain, LineOf, Recoverable, CrashLog,
      SnapshotAt, LeftBy, DiskTrail, CleanCut, Whole, HeaderLength;
    GoodIsNonEmpty(cfg, a);
    if e.Stopped? {
      DurableIsLeft(m.state.files, e.left);
      RepresentsDisk(cfg, m.state, a);
      RestartRefines(cfg, m.state.files, a);
      h, a' := Segs(a), a;
    } else {
      var raw := Accept(cfg, e.input).raw;
      WholeIfPlain(cfg, e.input);
      var point := CrashLeavesPoint(cfg, m.state, raw, e.done, e.left);
      h := CrashRecoverable(cfg, m.state, a, raw, point);
      var event := Crash(e.input, point);
      a' := LogStep(cfg, a, event);
      StepKeepsGood(cfg, a, event);
      StepExtendsHistory(cfg, a, event);
      StepHistory(cfg, a, event);
      AcceptedCounts(cfg, e.input);
      CountedAppend(cfg, History(a), raw);
    }
  }

  /** Every incident keeps the machine in step with a log that only grows. */
  lemma DurableStep(cfg: Config, m: Machine, a: Log, e: Incident) returns (a': Log)
    requires ValidConfig(cfg) && cfg.flushBatches == 1 && InStep(cfg, m, a) && WellFormed(m.state.table)
    requires Possible(cfg, m, e) && Manageable(cfg, m, e)
    ensures var r := Next(cfg, m, e); r.Some? && InStep(cfg, r.value, a')
    ensures History(a) <= History(a')
  {
    hide Accept, Represents, GoodLog, Segs, Counted, History, Possible, Manageable, Recoverable, Setup, DurableAfter,
      Starts, LogStep, HandleAccepted, HandleBatch;
    if e.Served? {
      a' := ServedInStep(cfg, m, a, e.input, e.timer);
      StepExtendsHistory(cfg, a, Receive(e.input));
    } else {
      var h;
      h, a' := CrashedInStep(cfg, m, a, e);
      StartsRefine(cfg, e.left, h, Segs(a'), e.starts);
    }
  }

  /** Over every run of requests, crashes and interrupted start-ups the server keeps coming up, and its
      table, its files and what is durable of them represent a log that only grows. */
  lemma {:induction false} DurableRun(cfg: Config, m: Machine, a: Log, es: seq<Incident>) returns (a': Log)
    requires ValidConfig(cfg) && cfg.flushBatches == 1 && InStep(cfg, m, a) && WellFormed(m.state.table)
    requires IsRun(cfg, m, es)
    ensures var r := After(cfg, m, es); r.Some? && InStep(cfg, r.value, a')
    ensures History(a) <= History(a')
    decreases |es|
  {
    hide InStep, History, Possible, Manageable, Next;
    if es == [] {
      a' := a;
    } else {
      var a1 := DurableStep(cfg, m, a, es[0]);
      a' := DurableRun(cfg, Next(cfg, m, es[0]).value, a1, es[1..]);
    }
  }

  lemma {:induction false} RunSplits(cfg: Config, m: Machine, es: seq<Incident>, fs: seq<Incident>)
    requires WellFormed(m.state.table) && cfg.maxPartitions >= 1 && IsRun(cfg, m, es + fs)
    ensures IsRun(cfg, m, es)
    ensures After(cfg, m, es).Some? ==>
              && IsRun(cfg, After(cfg, m, es).value, fs)
              && After(cfg, m, es + fs) == After(cfg, After(cfg, m, es).value, fs)
    decreases |es|
  {
    hide Possible, Manageable, Next;
    if es == [] {
      assert es + fs == fs;
    } else {
      assert (es + fs)[0] == es[0] && (es + fs)[1..] == es[1..] + fs;
      if Next(cfg, m, es[0]).Some? { RunSplits(cfg, Next(cfg, m, es[0]).value, es[1..], fs); }
    }
  }

  /** The server after its first start on an empty directory. */
  ghost function Boot(cfg: Config): (m: Machine)
    requires ValidConfig(cfg)
    ensures WellFormed(m.state.table)
  {
    var up := Up(cfg, map[]);
    if up.Some? then up.value else Machine(State(EmptyTable(cfg.maxPartitions), map[], 0), map[], 0)
  }

  lemma BootInStep(cfg: Config)
    requires ValidConfig(cfg)
    ensures Up(cfg, map[]) == Some(Boot(cfg)) && InStep(cfg, Boot(cfg), EMPTY_LOG)
  {
    hide Setup, Represents, Counted, GoodLog;
    SetupEmpty(cfg);
    EmptyLogSegs(cfg);
    EmptyCounts(cfg);
  }

  /** In every state of every such run the live files, all of them durable, are the suffix of the bytes of
      all kept batches that begins at the start offset of the first record, within the retention bounds. */
  lemma DurableFiles(cfg: Config, es: seq<Incident>) returns (a: Log, n: nat)
    requires ValidConfig(cfg) && cfg.flushBatches == 1 && IsRun(cfg, Boot(cfg), es)
    ensures After(cfg, Boot(cfg), es).Some?
    ensures var m, bytes := After(cfg, Boot(cfg), es).value, Flat(History(a));
            && m.synced == m.state.files && Retains(cfg, m.state, n) && n <= cfg.maxPartitions
            && Oldest(m) <= |bytes| && LiveBytes(m.state, n) == bytes[Oldest(m)..]
  {
    hide Represents, GoodLog, Counted, History, IsRun, Boot, After, TableMatchesDisk, Segs;
    BootInStep(cfg);
    a := DurableRun(cfg, Boot(cfg), EMPTY_LOG, es);
    var m := After(cfg, Boot(cfg), es).value;
    n := RetainsLog(cfg, m.state, a);
    var k := SuffixOfHistory(cfg, m.state, a);
    SameCount(m.state, n, k);
  }

  lemma SameCount(s: State, n: nat, k: nat)
    requires TableMatchesDisk(s, n) && TableMatchesDisk(s, k)
    ensures n == k
  {}

  /** The start offset of the oldest partition. */
  function Oldest(m: Machine): nat
    requires WellFormed(m.state.table)
  {
    m.state.table.parts[0].start
  }

  /** With FlushBatches = 1 an acknowledged batch survives whatever happens afterwards: in every later state
      READ at the acknowledged offset returns exactly the batch, or not-found once it lies before the oldest
      partition. */
  lemma AcknowledgedSurvives(cfg: Config, es: seq<Incident>, input: Bytes, timer: bool, fs: seq<Incident>)
    requires ValidConfig(cfg) && cfg.flushBatches == 1
    requires IsRun(cfg, Boot(cfg), es + ([Served(input, timer)] + fs)) && Accept(cfg, input).Accepted?
    ensures After(cfg, Boot(cfg), es).Some? && After(cfg, Boot(cfg), es + ([Served(input, timer)] + fs)).Some?
    ensures var before := After(cfg, Boot(cfg), es).value;
            var m := After(cfg, Boot(cfg), es + ([Served(input, timer)] + fs)).value;
            var raw, n := Accept(cfg, input).raw, Accept(cfg, input).frame.messages;
            var reply := HandleBatch(cfg, before.state, input).1;
            && reply.Acked?
            && (NextOffset(m.state.table) < TWO_63 ==>
                  && reply.offset < TWO_63
                  && HandleRead(cfg, m.state, reply.offset, n) ==
                     if m.state.table.parts[0].start <= reply.offset then ReadOk(reply.offset, 1, raw)
                     else ReadError(NotFound))
  {
    hide Accept, InStep, HandleBatch, HandleRead, History, IsRun, Up, Boot, Manageable, Possible, Next, After;
    var boot, serve := Boot(cfg), Served(input, timer);
    BootInStep(cfg);
    RunSplits(cfg, boot, es, [serve] + fs);
    var a := DurableRun(cfg, boot, EMPTY_LOG, es);
    var before := After(cfg, boot, es).value;
    ServedGoesOn(cfg, before, input, timer);
    FirstOfRun(cfg, before, serve, fs);
    var a1 := ServedInStep(cfg, before, a, input, timer);
    var m1 := Next(cfg, before, serve).value;
    var a2 := DurableRun(cfg, m1, a1, fs);
    var m := After(cfg, m1, fs).value;
    StillThere(cfg, before, m, a, a2, input, timer);
  }

  lemma ServedGoesOn(cfg: Config, m: Machine, input: Bytes, timer: bool)
    requires WellFormed(m.state.table) && cfg.maxPartitions >= 1
    ensures Next(cfg, m, Served(input, timer)).Some?
  {
    hide Accept, HandleAccepted, DurableAfter;
  }

  lemma FirstOfRun(cfg: Config, m: Machine, e: Incident, fs: seq<Incident>)
    requires WellFormed(m.state.table) && cfg.maxPartitions >= 1 && IsRun(cfg, m, [e] + fs)
    requires Next(cfg, m, e).Some?
    ensures Possible(cfg, m, e) && Manageable(cfg, m, e)
    ensures IsRun(cfg, Next(cfg, m, e).value, fs) && After(cfg, m, [e] + fs) == After(cfg, Next(cfg, m, e).value, fs)
  {
    hide Possible, Manageable, Next;
    assert ([e] + fs)[0] == e && ([e] + fs)[1..] == fs;
  }

  lemma StillThere(cfg: Config, before: Machine, m: Machine, a: Log, a2: Log, input: Bytes, timer: bool)
    requires ValidConfig(cfg) && InStep(cfg, before, a) && InStep(cfg, m, a2)
    requires WellFormed(before.state.table) && WellFormed(m.state.table)
    requires Manageable(cfg, before, Served(input, timer)) && Accept(cfg, input).Accepted?
    requires History(a) + [Accept(cfg, input).raw] <= History(a2)
    ensures var off, raw, n := |Flat(History(a))|, Accept(cfg, input).raw, Accept(cfg, input).frame.messages;
            NextOffset(m.state.table) < TWO_63 ==>
              && off < TWO_63
              && HandleRead(cfg, m.state, off, n) ==
                 if m.state.table.parts[0].start <= off then ReadOk(off, 1, raw) else ReadError(NotFound)
  {
    hide Accept, Represents, GoodLog, Counted, HandleRead, History, Plain, LineOf;
    var raw, j := Accept(cfg, input).raw, |History(a)|;
    EndIsHistoryLength(a2);
    EndIsNext(cfg, m.state, Segs(a2));
    GroupsCounted(cfg, a2);
    AcceptedCounts(cfg, input);
    assert History(a2)[..j] == History(a) && History(a2)[j] == raw;
    if NextOffset(m.state.table) < TWO_63 {
      ReadBack(cfg, m.state, a2, j, Accept(cfg, input).frame.messages, raw);
    }
  }

  lemma EndIsNext(cfg: Config, s: State, g: Segments)
    requires Represents(cfg, s, g)
    ensures WellFormed(s.table) && NextOffset(s.table) == End(g)
  {
    HeadRep(cfg.maxPartitions, s.table, g);
  }

  // ----- any other value of FlushBatches

  /** Unless FlushBatches is 1, the first batch a new topic acknowledges can be lost: a crash right after the
      reply may leave the empty file it was written to, and the next start finds an empty log. */
  lemma LostUnlessFlushed(cfg: Config, input: Bytes)
    requires ValidConfig(cfg) && cfg.flushBatches != 1
    requires var r := Accept(cfg, input); r.Accepted? && Plain(LineOf(r.raw)) && r.frame.messages >= 1
    ensures var boot, es := Boot(cfg), [Served(input, false), Stopped(map[0 := []], [])];
            && IsRun(cfg, boot, es) && HandleBatch(cfg, boot.state, input).1 == Acked(0)
            && var m := After(cfg, boot, es);
            m.Some? && HandleRead(cfg, m.value.state, 0, Accept(cfg, input).frame.messages) == ReadError(NotFound)
  {
    hide Accept, HandleRead, Plain, LineOf, Setup, Represents, GoodLog, Counted, Flat, Boot, Segs, History, After,
      IsRun, Next, Up;
    var boot, serve, stop := Boot(cfg), Served(input, false), Stopped(map[0 := []], []);
    BootInStep(cfg);
    BootFiles(cfg);
    EmptyHistory();
    var m1 := FirstIsServed(cfg, input);
    RepresentsDisk(cfg, boot.state, EMPTY_LOG);
    RestartRefines(cfg, map[0 := []], EMPTY_LOG);
    var m := ComesUp(cfg, m1, map[0 := []]);
    ReadOutsideIsNotFound(cfg, m.state, Segs(EMPTY_LOG), 0, Accept(cfg, input).frame.messages);
    TwoIncidents(cfg, boot, serve, stop);
  }

  lemma FirstIsServed(cfg: Config, input: Bytes) returns (m: Machine)
    requires ValidConfig(cfg) && cfg.flushBatches != 1
    requires var r := Accept(cfg, input); r.Accepted? && Plain(LineOf(r.raw)) && r.frame.messages >= 1
    ensures Possible(cfg, Boot(cfg), Served(input, false)) && Manageable(cfg, Boot(cfg), Served(input, false))
    ensures Next(cfg, Boot(cfg), Served(input, false)) == Some(m) && WellFormed(m.state.table)
    ensures Possible(cfg, m, Stopped(map[0 := []], []))
    ensures HandleBatch(cfg, Boot(cfg).state, input).1 == Acked(0)
  {
    hide Accept, Plain, LineOf, HandleAccepted, DurableAfter, Boot;
    BootFiles(cfg);
    FirstReply(cfg, input);
    var raw := Accept(cfg, input).raw;
    NotFlushed(cfg, Boot(cfg).state, raw);
    m := Next(cfg, Boot(cfg), Served(input, false)).value;
    EmptyIsLeft(raw);
  }

  lemma FirstReply(cfg: Config, input: Bytes)
    requires ValidConfig(cfg)
    requires var r := Accept(cfg, input); r.Accepted? && Plain(LineOf(r.raw))
    ensures HandleBatch(cfg, Boot(cfg).state, input).1 == Acked(0) && |Accept(cfg, input).raw| < cfg.partitionSize
  {
    hide Accept, Plain, LineOf, Represents, GoodLog, Counted, Flat, HandleAccepted, Boot, Segs, History, Up, AppendLog;
    BootInStep(cfg);
    EmptyHistory();
    WholeIfPlain(cfg, input);
    ReceiveRefines(cfg, Boot(cfg).state, EMPTY_LOG, Accept(cfg, input).raw);
  }

  lemma EmptyIsLeft(raw: Bytes)
    ensures LeftBy(Snapshot(map[0 := raw], map[0 := []]), map[0 := []])
  {}

  lemma ComesUp(cfg: Config, m: Machine, files: Files) returns (m': Machine)
    requires ValidConfig(cfg) && WellFormed(m.state.table) && Setup(cfg, files).Started?
    ensures Next(cfg, m, Stopped(files, [])) == Some(m') && m'.state == Setup(cfg, files).state
  {
    hide Setup;
    assert Starts(cfg, files, []) == files;
    m' := Up(cfg, files).value;
  }

  lemma TwoIncidents(cfg: Config, m: Machine, e: Incident, f: Incident)
    requires WellFormed(m.state.table) && cfg.maxPartitions >= 1
    requires Possible(cfg, m, e) && Manageable(cfg, m, e) && Next(cfg, m, e).Some?
    requires var m1 := Next(cfg, m, e).value;
             Possible(cfg, m1, f) && Manageable(cfg, m1, f) && Next(cfg, m1, f).Some?
    ensures IsRun(cfg, m, [e, f]) && After(cfg, m, [e, f]) == Next(cfg, Next(cfg, m, e).value, f)
  {
    hide Possible, Manageable, Next;
    var m1 := Next(cfg, m, e).value;
    OneIncident(cfg, m1, f);
    assert [e, f][1..] == [f];
  }

  lemma OneIncident(cfg: Config, m: Machine, e: Incident)
    requires WellFormed(m.state.table) && cfg.maxPartitions >= 1
    requires Possible(cfg, m, e) && Manageable(cfg, m, e) && Next(cfg, m, e).Some?
    ensures IsRun(cfg, m, [e]) && After(cfg, m, [e]) == Next(cfg, m, e)
  {
    hide Possible, Manageable, Next;
    var m1 := Next(cfg, m, e).value;
    assert After(cfg, m1, []) == Some(m1) && IsRun(cfg, m1, []);
    assert [e][1..] == [];
  }

  lemma EmptyHistory()
    ensures |Flat(History(EMPTY_LOG))| == 0 && End(Segs(EMPTY_LOG)) == 0
  {
    EndIsHistoryLength(EMPTY_LOG);
  }

  lemma BootFiles(cfg: Config)
    requires ValidConfig(cfg)
    ensures var boot := Boot(cfg);
            && boot.state.files == map[0 := []] && boot.synced == map[0 := []] && boot.batches == 0
            && boot.state.open == 0
            && boot.state.table.parts[boot.state.table.head] == Rec(0, 0, 0)
  {
    ListingUnique({}, Listing({}), []);
    var files: Files := map[];
    assert files.Keys == {};
  }

  /** Without a flush what is durable stays as it was. */
  lemma NotFlushed(cfg: Config, s: State, raw: Bytes)
    requires WellFormed(s.table) && s.files == map[0 := []] && s.open == 0
    requires s.table.parts[s.table.head] == Rec(0, 0, 0) && |raw| < cfg.partitionSize
    ensures DurableAfter(cfg, s, map[0 := []], false, raw) == map[0 := []]
    ensures HandleAccepted(cfg, s, raw).0.files == map[0 := raw]
  {
    assert [] + raw == raw;
  }
}
