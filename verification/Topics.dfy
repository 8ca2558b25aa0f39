/** The topic and its event queue as objects (events/topics.go, events/events.go): the loops and the
    in-place updates, each against its step on values. */
module Topics {
  import opened ByteSeqs
  import opened Decimal
  import opened Streams
  import opened Configs
  import opened BatchCodec
  import opened RequestCodec
  import opened Requests
  import opened Batches
  import opened Scanning
  import opened Repair
  import opened PartitionTable
  import opened TopicState
  import opened LogHistory
  import opened Partitioning
  import opened Reading

  /** partitionArgList: a buffer with room for MaxPartitions ranges. */
  class PartitionArgList {
    const parts: array<Args>
    var nparts: nat
    var nbatches: nat

    constructor (max: nat)
      ensures fresh(parts) && parts.Length == max && nparts == 0 && nbatches == 0
    {
      parts := new Args[max](_ => Args(0, 0, 0));
      nparts, nbatches := 0, 0;
    }

    predicate Valid() reads this { nparts <= parts.Length }

    function Contents(): Plan
      requires Valid()
      reads this, parts
    {
      Plan(parts[..nparts], nbatches)
    }

    method Reset()
      modifies this
      ensures Valid() && Contents() == Plan([], 0)
    {
      nparts, nbatches := 0, 0;
    }

    /** add; false stands for its panic. */
    method Add(a: Args) returns (ok: bool)
      requires Valid()
      modifies this`nparts, parts
      ensures Valid()
      ensures match AddArgs(parts.Length, old(Contents()), a)
              case None => !ok
              case Some(p) => ok && Contents() == p
    {
      if nparts >= parts.Length { return false; }
      parts[nparts] := a;
      nparts := nparts + 1;
      return true;
    }
  }

  /** The value step, split where the object's step calls add; `top` is the directory after the write. */
  lemma AcceptedSteps(cfg: Config, s: State, synced: Files, flush: bool, raw: Bytes, top: Snapshot)
    requires WellFormed(s.table)
    requires var rotate := ShouldRotate(cfg, s.table, |raw|);
             var trail := PersistTrail(s.files, synced, s.open, rotate, NextOffset(s.table), flush, raw);
             top == trail[|trail| - 1]
    ensures var rotate, next := ShouldRotate(cfg, s.table, |raw|), NextOffset(s.table);
            var r := HandleAccepted(cfg, s, raw);
            && DiskTrail(cfg, s, synced, flush, raw) ==
               PersistTrail(s.files, synced, s.open, rotate, next, flush, raw)
               + (if r.0.files == top.files then []
                 else [Snapshot(r.0.files, top.synced - (top.files.Keys - r.0.files.Keys))])
            && match (if rotate then AddPartition(s.table, top.files, next, 0) else Added(s.table, top.files))
               case AddFailed(e) => r == (State(s.table, top.files, if rotate then next else s.open), Refusal(e))
               case Added(t, fs) => r == (State(GrowHead(t, |raw|), fs, if rotate then next else s.open), Acked(next))
  {
    hide AddPartition, GrowHead, OpenFile, WriteFile, Flushed;
  }

  lemma OneMoreStep(trail: seq<Snapshot>, done: seq<Files>, more: seq<Files>, rest: seq<Files>)
    ensures done + (more + rest) == done + more + rest
    ensures trail + AllDurable(done + more) == trail + AllDurable(done) + AllDurable(more)
  {
    AllDurableConcat(done, more);
  }

  lemma AddOnlyRemoves(t: Table, files: Files, off: nat, size: nat)
    requires WellFormed(t)
    ensures var r := AddPartition(t, files, off, size); r.Added? ==> r.files == files - (files.Keys - r.files.Keys)
  {}

  /** The empty table has room. */
  lemma NothingToEvict(cfg: Config, files: Files)
    requires cfg.maxPartitions >= 1
    ensures var r := AddPartition(EmptyTable(cfg.maxPartitions), files, 0, 0); r.Added? && r.files == files
  {}

  class Topic {
    const cfg: Config
    const disk: Disk
    const parts: Partitions
    const argBuf: PartitionArgList
    const scanner: BatchScanner
    var batches: nat  // flushState: batches since the last flush

    ghost predicate Valid()
      reads this, parts, parts.parts, argBuf
    {
      && parts.Valid() && parts.disk == disk && parts.cfg == cfg
      && argBuf.Valid() && argBuf.parts.Length == cfg.maxPartitions
      && scanner.cfg == cfg && scanner.batch.cfg == cfg && scanner.br.buf == BUF_SIZE
    }

    ghost function Value(): (s: State)
      requires Valid()
      reads this, disk, parts, parts.parts, parts.owned, argBuf
      ensures WellFormed(s.table)
    {
      State(parts.State(), disk.files, disk.open)
    }

    constructor (cfg: Config, disk: Disk)
      requires cfg.maxPartitions >= 1
      ensures this.cfg == cfg && this.disk == disk && batches == 0
      ensures Valid() && Value().table == EmptyTable(cfg.maxPartitions)
      ensures fresh(parts) && fresh(parts.parts) && fresh(parts.owned) && fresh(argBuf) && fresh(argBuf.parts)
      ensures fresh(scanner) && fresh(scanner.br) && fresh(scanner.batch)
    {
      this.cfg, this.disk, batches := cfg, disk, 0;
      parts := new Partitions(cfg, disk);
      argBuf := new PartitionArgList(cfg.maxPartitions);
      var br := new Reader(BUF_SIZE, []);
      scanner := new BatchScanner(cfg, br);
    }

    /** doFlush: every FlushBatches batches, or when the flush timer fired. */
    method DoFlush(timerFired: bool)
      modifies this`batches, disk`synced, disk`trail
      ensures batches == FlushCount(cfg, old(batches))
      ensures if FlushDue(cfg, old(batches), timerFired)
              then
                && disk.synced == Flushed(disk.files, old(disk.synced), disk.open)
                && disk.trail == old(disk.trail) + [disk.Now()]
              else disk.synced == old(disk.synced) && disk.trail == old(disk.trail)
    {
      if cfg.flushBatches > 0 {
        batches := batches + 1;
      }
      if (cfg.flushBatches > 0 && batches >= cfg.flushBatches) || timerFired {
        disk.Flush();
      }
      if cfg.flushBatches > 0 && batches >= cfg.flushBatches {
        batches := 0;
      }
    }

    /** The decoding half of handleBatch. */
    method Decode(input: Bytes) returns (r: Receipt)
      ensures r == Accept(cfg, input)
    {
      hide ReadRequest, RequestCodec.FromRequest;
      var br := new Reader(BUF_SIZE, input);
      var req := new Request(cfg);
      var err := req.ReadFrom(br);
      if err.Some? { return Refused(err.value); }
      if !req.name.BATCH? { return Refused(InvalidRequest); }
      var batch := new Batch(cfg);
      err := batch.FromRequest(req);
      if err.Some? { return Refused(err.value); }
      return Accepted(req.raw, batch.Contents(), br.rest);
    }

    /** handleBatch: rotate the file, write, flush, then bring the table up to date. The directory passes
        through the states of the trail and no others. */
    method HandleBatch(input: Bytes, timerFired: bool) returns (reply: Reply)
      requires Valid()
      modifies this`batches, disk, parts, parts.parts, parts.owned
      ensures Valid()
      ensures (Value(), reply) == TopicState.HandleBatch(cfg, old(Value()), input)
      ensures match Accept(cfg, input)
              case Refused(_) =>
                disk.trail == old(disk.trail) && disk.synced == old(disk.synced) && batches == old(batches)
              case Accepted(raw, _, _) =>
                var flush := FlushDue(cfg, old(batches), timerFired);
                && disk.trail == old(disk.trail) + DiskTrail(cfg, old(Value()), old(disk.synced), flush, raw)
                && disk.synced == DurableAfter(cfg, old(Value()), old(disk.synced), flush, raw)
                && batches == FlushCount(cfg, old(batches))
    {
      hide Accept, HandleAccepted, DiskTrail, DurableAfter, FlushDue, FlushCount;
      var received := Decode(input);
      if received.Refused? { return Refusal(received.err); }
      reply := WriteBatch(received.raw, timerFired);
    }

    method WriteBatch(raw: Bytes, timerFired: bool) returns (reply: Reply)
      requires Valid()
      modifies this`batches, disk, parts, parts.parts, parts.owned
      ensures Valid()
      ensures (Value(), reply) == HandleAccepted(cfg, old(Value()), raw)
      ensures batches == FlushCount(cfg, old(batches))
      ensures var flush := FlushDue(cfg, old(batches), timerFired);
              && disk.trail == old(disk.trail) + DiskTrail(cfg, old(Value()), old(disk.synced), flush, raw)
              && disk.synced == DurableAfter(cfg, old(Value()), old(disk.synced), flush, raw)
    {
      hide Partitions.Valid, Partitions.State, AddPartition, PartitionTable.GrowHead, OpenFile, WriteFile,
        PersistTrail;
      hide HandleAccepted, DiskTrail, PartitionTable.ShouldRotate, PartitionTable.NextOffset, FlushDue, FlushCount;
      ghost var s, synced, trail, flush := Value(), disk.synced, disk.trail, FlushDue(cfg, batches, timerFired);
      var rotate := parts.ShouldRotate(|raw|);
      var next := parts.NextOffset();
      Persist(raw, rotate, next, timerFired);
      ghost var top := disk.Now();
      reply := Record(|raw|);
      AcceptedSteps(cfg, s, synced, flush, raw, top);
      Associate(trail, PersistTrail(s.files, synced, s.open, rotate, next, flush, raw),
                if disk.files == top.files then [] else [disk.Now()]);
      assert top.synced - (top.files.Keys - top.files.Keys) == top.synced;
    }

    /** The table half of handleBatch: the reply's offset, then addBatch, which decides about the
        rotation a second time. */
    method Record(bytes: nat) returns (reply: Reply)
      requires Valid()
      modifies parts, parts.parts, parts.owned, disk`files, disk`synced, disk`trail
      ensures Valid()
      ensures var t, fs := old(parts.State()), old(disk.files);
              var next := PartitionTable.NextOffset(t);
              match (if PartitionTable.ShouldRotate(cfg, t, bytes) then AddPartition(t, fs, next, 0) else Added(t, fs))
              case AddFailed(e) => parts.State() == t && disk.files == fs && reply == Refusal(e)
              case Added(t', fs') => parts.State() == GrowHead(t', bytes) && disk.files == fs' && reply == Acked(next)
      ensures disk.synced == old(disk.synced) - (old(disk.files.Keys) - disk.files.Keys)
      ensures disk.trail == old(disk.trail) + if disk.files == old(disk.files) then [] else [disk.Now()]
    {
      hide Partitions.Valid, Partitions.State, AddPartition, PartitionTable.GrowHead;
      var reported := parts.NextOffset();
      var rotate := parts.ShouldRotate(bytes);
      if rotate {
        var next := parts.NextOffset();
        var err := parts.Add(next, 0);
        if err.Some? { return Refusal(err.value); }
      }
      parts.GrowHead(bytes);
      return Acked(reported);
    }

    /** The disk half of handleBatch: maybe a new file, the write, maybe an fsync. */
    method Persist(raw: Bytes, rotate: bool, next: nat, timerFired: bool)
      modifies this`batches, disk
      ensures disk.open == (if rotate then next else old(disk.open)) && batches == FlushCount(cfg, old(batches))
      ensures var trail := PersistTrail(old(disk.files), old(disk.synced), old(disk.open), rotate, next,
                                        FlushDue(cfg, old(batches), timerFired), raw);
              disk.trail == old(disk.trail) + trail && disk.Now() == trail[|trail| - 1]
    {
      hide OpenFile, WriteFile, Flushed, FlushDue, FlushCount;
      if rotate {
        disk.SetPartition(next);
      }
      disk.Write(raw);
      DoFlush(timerFired);
    }

    // ----- start-up

    /** setupPartitions on a new topic object: list, load, repair the head, open it. */
    method SetupPartitions() returns (err: Option<Error>)
      requires Valid() && Value().table == EmptyTable(cfg.maxPartitions)
      modifies disk, parts, parts.parts, parts.owned
      ensures Valid()
      ensures match Setup(cfg, old(disk.files))
              case Started(s) => err == None && Value() == s
              case StartFailed(e) => err == Some(e)
      ensures old(disk.synced == disk.files) ==>
                && disk.synced == disk.files
                && disk.trail == old(disk.trail) + AllDurable(StartSteps(cfg, old(disk.files)))
    {
      hide Partitions.Valid, Partitions.State, AddPartition, Finish, EmptyTable, IsListing, LoadSteps, FinishSteps,
        AllDurable;
      var offs := disk.List();
      ghost var files := disk.files;
      ListingUnique(files.Keys, offs, Listing(files.Keys));
      if offs == [] {
        NothingToEvict(cfg, files);
        err := parts.Add(0, 0);
      } else {
        err := LoadFiles(offs);
      }
      if err.Some? { return; }
      ghost var loaded := if offs == [] then [] else LoadSteps(EmptyTable(cfg.maxPartitions), files, files, offs);
      ghost var finished := FinishSteps(cfg, parts.State(), disk.files);
      err := FinishSetup();
      AllDurableConcat(loaded, finished);
      Associate(old(disk.trail), AllDurable(loaded), AllDurable(finished));
    }

    /** The load loop. */
    method LoadFiles(offs: seq<nat>) returns (err: Option<Error>)
      requires Valid() && forall o :: o in offs ==> o in disk.files
      modifies parts, parts.parts, parts.owned, disk`files, disk`synced, disk`trail
      ensures Valid()
      ensures match Load(old(parts.State()), old(disk.files), old(disk.files), offs)
              case Added(t, fs) => err == None && parts.State() == t && disk.files == fs
              case AddFailed(e) => err == Some(e)
      ensures old(disk.synced == disk.files) ==>
                && disk.synced == disk.files
                && disk.trail == old(disk.trail)
                                 + AllDurable(LoadSteps(old(parts.State()), old(disk.files), old(disk.files), offs))
    {
      hide Partitions.Valid, Partitions.State, AddPartition, AllDurable;
      var sizes := disk.files;
      ghost var durable, trail := disk.synced == disk.files, disk.trail;
      ghost var steps := LoadSteps(parts.State(), disk.files, sizes, offs);
      ghost var done: seq<Files> := [];
      AllDurableConcat([], []);
      var i := 0;
      while i < |offs|
        invariant 0 <= i <= |offs| && Valid()
        invariant Load(parts.State(), disk.files, sizes, offs[i..])
                  == Load(old(parts.State()), old(disk.files), sizes, offs)
        invariant done + LoadSteps(parts.State(), disk.files, sizes, offs[i..]) == steps
        invariant durable ==> disk.synced == disk.files && disk.trail == trail + AllDurable(done)
      {
        assert offs[i] in offs && offs[i..][0] == offs[i] && offs[i..][1..] == offs[i + 1..];
        ghost var before := disk.files;
        AddOnlyRemoves(parts.State(), before, offs[i], |sizes[offs[i]]|);
        err := parts.Add(offs[i], |sizes[offs[i]]|);
        if err.Some? { return; }
        ghost var more := Changed(before, disk.files);
        OneMoreStep(trail, done, more, LoadSteps(parts.State(), disk.files, sizes, offs[i + 1..]));
        done := done + more;
        i := i + 1;
      }
      err := None;
    }

    /** check, then SetPartition. */
    method FinishSetup() returns (err: Option<Error>)
      requires Valid()
      modifies disk, parts.owned
      ensures Valid()
      ensures match Finish(cfg, old(parts.State()), old(disk.files))
              case Started(s) => err == None && Value() == s
              case StartFailed(e) => err == Some(e)
      ensures old(disk.synced == disk.files) ==>
                && disk.synced == disk.files
                && disk.trail == old(disk.trail) + AllDurable(FinishSteps(cfg, old(parts.State()), old(disk.files)))
    {
      hide Check, AllDurable, Partitions.Valid, Partitions.State;
      var head := parts.HeadRecord();
      if head.size != 0 {
        if head.start !in disk.files { return Some(NoSuchFile); }
        var verdict := CheckHead(cfg, disk.files[head.start]);
        match verdict
        case Crashes => return Some(Panic);
        case Intact =>
        case CutAt(n) =>
          disk.Truncate(head.start, n);
          parts.SetHeadSize(n);
      }
      disk.SetPartition(head.start);
      err := None;
    }

    // ----- READ and TAIL

    /** The inner loop: scan one partition until enough messages were seen. */
    method ScanPartition(data: Bytes, start: int, want: int) returns (r: PartScan)
      requires Valid()
      modifies argBuf`nbatches, scanner, scanner.br, scanner.batch
      ensures r == ScanPart(cfg, data, 0, old(argBuf.nbatches), start, want)
      ensures argBuf.nbatches == r.nbatches
    {
      hide Partitions.Valid, Partitions.State, ReadBatch;
      scanner.Reset(data);
      var n := start;
      while true
        invariant scanner.batch.cfg == cfg && scanner.br.buf == BUF_SIZE
        invariant scanner.scanned + |scanner.br.rest| == |data|
        invariant ScanPart(cfg, scanner.br.rest, scanner.scanned, argBuf.nbatches, n, want)
                  == ScanPart(cfg, data, 0, old(argBuf.nbatches), start, want)
        decreases |scanner.br.rest|
      {
        var ok := scanner.Scan();
        if !ok { return Ended(scanner.err.value, argBuf.nbatches, n); }
        argBuf.nbatches := argBuf.nbatches + 1;
        n := n + scanner.batch.messages;
        if n >= want { return Enough(scanner.scanned, argBuf.nbatches); }
      }
    }

    /** One round of the outer loop: an answer, or the next partition to walk. */
    method GatherRound(curr: nat, delta: int, n: int, want: int) returns (r: Option<Gathered>, next: nat, m: int)
      requires Valid() && n < want
      modifies argBuf, argBuf.parts, scanner, scanner.br, scanner.batch
      ensures Valid()
      ensures var goal := GatherFrom(cfg, disk.files, curr, delta, n, want, old(argBuf.Contents()));
              if r.Some? then r.value == goal
              else
                && GatherFrom(cfg, disk.files, next, 0, m, want, argBuf.Contents()) == goal
                && argBuf.nparts == old(argBuf.nparts) + 1
    {
      hide Partitions.Valid, ScanPart, Get;
      next, m := curr, n;
      var p := Get(disk.files, curr, delta, 0);
      if p.OpenFailed? {
        r := Some(if argBuf.nparts > 0 then Gathered(argBuf.Contents()) else GatherFailed(p.err));
        return;
      }
      var scan := ScanPartition(p.data, n, want);
      match scan
      case Enough(scanned, _) =>
        var ok := argBuf.Add(Args(curr, delta, scanned));
        r := Some(if ok then Gathered(argBuf.Contents()) else GatherFailed(Panic));
      case Ended(e, _, total) =>
        if e == Panic { return Some(GatherFailed(Panic)), next, m; }
        if e != EOF { return Some(GatherFailed(InvalidOffset)), next, m; }
        if total <= 0 { return Some(GatherFailed(UnexpectedEOF)), next, m; }
        var ok := argBuf.Add(Args(curr, delta, p.size - delta));
        if !ok { return Some(GatherFailed(Panic)), next, m; }
        r, next, m := None, curr + p.size, total;
    }

    /** gatherReadArgs. */
    method GatherReadArgs(off: uint64, want: int) returns (r: Gathered)
      requires Valid()
      modifies argBuf, argBuf.parts, scanner, scanner.br, scanner.batch
      ensures Valid() && r == Gather(cfg, Value(), off, want)
    {
      hide Partitions.Valid, Partitions.State;
      var found := parts.Lookup(off);
      if found.Missing? { return GatherFailed(found.err); }
      argBuf.Reset();
      var n, curr, delta := 0, found.start, found.delta;
      while n < want
        invariant Valid()
        invariant GatherFrom(cfg, disk.files, curr, delta, n, want, argBuf.Contents())
                  == Gather(cfg, Value(), off, want)
        decreases cfg.maxPartitions - argBuf.nparts
      {
        hide GatherFrom, Gather;
        var answer;
        answer, curr, n := GatherRound(curr, delta, n, want);
        if answer.Some? { return answer.value; }
        delta := 0;
      }
      return Gathered(argBuf.Contents());
    }

    /** handleRead: gather, then one reader per range. */
    method HandleRead(off: uint64, want: int) returns (reply: ReadReply)
      requires Valid()
      modifies argBuf, argBuf.parts, scanner, scanner.br, scanner.batch
      ensures Valid() && reply == Reading.HandleRead(cfg, Value(), off, want)
    {
      hide Partitions.Valid, Partitions.State, Gather, Get;
      if want < 1 { return ReadError(InvalidRequest); }
      var g := GatherReadArgs(off, want);
      if g.GatherFailed? {
        return ReadError(if g.err == UnexpectedEOF then NotFound else g.err);
      }
      var data := ServeRanges(g.plan.args);
      if data.None? { return ReadError(NoSuchFile); }
      return ReadOk(off, g.plan.nbatches, data.value);
    }

    /** handleTail: the same from the oldest record on. */
    method HandleTail(want: int) returns (reply: ReadReply)
      requires Valid() && Value().table.parts[0].start < TWO_64
      modifies argBuf, argBuf.parts, scanner, scanner.br, scanner.batch
      ensures Valid() && reply == Reading.HandleTail(cfg, Value(), want)
    {
      hide Gather, Get;
      var first := parts.parts[0];
      if first.size <= 0 { return ReadError(NotFound); }
      var off := first.startOffset;
      assert off == Value().table.parts[0].start;
      hide Partitions.Valid, Partitions.State;
      var g := GatherReadArgs(off, want);
      if g.GatherFailed? { return ReadError(g.err); }
      var data := ServeRanges(g.plan.args);
      if data.None? { return ReadError(NoSuchFile); }
      return ReadOk(off, g.plan.nbatches, data.value);
    }

    /** The response readers, in order. */
    method ServeRanges(args: seq<Args>) returns (data: Option<Bytes>)
      ensures data == Serve(disk.files, args)
    {
      hide Get;
      var out: Bytes := [];
      for i := 0 to |args|
        invariant Serve(disk.files, args[..i]) == Some(out)
      {
        assert args[..i + 1][..i] == args[..i];
        var p := Get(disk.files, args[i].offset, args[i].delta, args[i].limit);
        if p.OpenFailed? {
          ServeStopsAt(disk.files, args, i + 1);
          return None;
        }
        out := out + p.data;
      }
      assert args[..|args|] == args;
      return Some(out);
    }
  }

  lemma {:induction false} ServeStopsAt(files: Files, args: seq<Args>, i: nat)
    requires i <= |args| && Serve(files, args[..i]) == None
    ensures Serve(files, args) == None
    decreases |args| - i
  {
    hide Get;
    if i == |args| {
      assert args[..i] == args;
    } else {
      assert args[..i + 1][..i] == args[..i];
      ServeStopsAt(files, args, i + 1);
    }
  }
}
