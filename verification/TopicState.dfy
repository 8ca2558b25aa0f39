/** One topic of the server on values: partition table, files and the writer's open file, with the
    steps of handleBatch (events/events.go) and setupPartitions (events/topics.go). */
module TopicState {
  import opened ByteSeqs
  import opened Configs
  import opened RequestCodec
  import opened Repair
  import opened PartitionTable

  /** The partition files of the topic directory, by start offset. */
  type Files = map<nat, Bytes>

  /** `open` is the offset of the file the log writer appends to. */
  datatype State = State(table: Table, files: Files, open: nat)

  // ----- file operations

  /** SetPartition: opened for appending, created when missing. */
  function OpenFile(files: Files, off: nat): Files
  {
    if off in files then files else files[off := []]
  }

  function WriteFile(files: Files, off: nat, data: Bytes): Files
  {
    if off in files then files[off := files[off] + data] else files
  }

  // ----- durability

  /** A state of the directory, and what of it a crash cannot take back. Creating, removing and truncating
      a file is durable at once; what was written to it is durable after an fsync of the file. */
  datatype Snapshot = Snapshot(files: Files, synced: Files)

  /** What is durable after an fsync of the file at `off`. */
  function Flushed(files: Files, synced: Files, off: nat): Files
  {
    if off in files then synced[off := files[off]] else synced
  }

  /** shouldFlush: `batches` were written since the last flush, and one more. */
  predicate FlushDue(cfg: Config, batches: nat, timerFired: bool)
  {
    (cfg.flushBatches > 0 && batches + 1 >= cfg.flushBatches) || timerFired
  }

  /** The batches since the last flush that the counter then shows. */
  function FlushCount(cfg: Config, batches: nat): nat
  {
    if cfg.flushBatches <= 0 then batches else if batches + 1 >= cfg.flushBatches then 0 else batches + 1
  }

  // ----- handleBatch

  datatype Added = Added(table: Table, files: Files) | AddFailed(err: Error)

  /** partitions.add together with the removal it asks for. */
  function AddPartition(t: Table, files: Files, off: nat, size: nat): (r: Added)
    requires WellFormed(t)
    ensures r.Added? ==> WellFormed(r.table) && |r.table.parts| == |t.parts|
  {
    if !IsFull(t) then Added(AddPart(t, off, size), files)
    else if t.parts[0].start !in files then AddFailed(NoSuchFile)
    else Added(AddPart(t, off, size), files - {t.parts[0].start})
  }

  datatype Reply = Acked(offset: nat) | Refusal(err: Error)

  /** The part of handleBatch after the request was decoded; `raw` are the request's bytes. */
  function HandleAccepted(cfg: Config, s: State, raw: Bytes): (r: (State, Reply))
    requires WellFormed(s.table)
    ensures WellFormed(r.0.table)
  {
    var next := NextOffset(s.table);
    var rotate := ShouldRotate(cfg, s.table, |raw|);
    var open := if rotate then next else s.open;
    var files := WriteFile(if rotate then OpenFile(s.files, next) else s.files, open, raw);
    if !rotate then (State(GrowHead(s.table, |raw|), files, open), Acked(next))
    else
      match AddPartition(s.table, files, next, 0)
      case AddFailed(e) => (State(s.table, files, open), Refusal(e))
      case Added(t, fs) => (State(GrowHead(t, |raw|), fs, open), Acked(next))
  }

  function HandleBatch(cfg: Config, s: State, input: Bytes): (r: (State, Reply))
    requires WellFormed(s.table)
    ensures WellFormed(r.0.table)
  {
    match Accept(cfg, input)
    case Refused(e) => (s, Refusal(e))
    case Accepted(raw, _, _) => HandleAccepted(cfg, s, raw)
  }

  // ----- setupPartitions

  predicate Increasing(o: seq<nat>)
  {
    forall i, j :: 0 <= i < j < |o| ==> o[i] < o[j]
  }

  predicate IsListing(s: set<nat>, o: seq<nat>)
  {
    Increasing(o) && (forall i :: 0 <= i < |o| ==> o[i] in s) && (forall x :: x in s ==> x in o)
  }

  /** The place of `x` in an ascending list. */
  function InsertSorted(o: seq<nat>, x: nat): (r: seq<nat>)
  {
    if o == [] || x < o[0] then [x] + o else [o[0]] + InsertSorted(o[1..], x)
  }

  lemma {:induction false} InsertSortedHas(o: seq<nat>, x: nat, y: nat)
    ensures y in InsertSorted(o, x) <==> y in o || y == x
  {
    if o != [] && x >= o[0] {
      InsertSortedHas(o[1..], x, y);
      assert o == [o[0]] + o[1..];
    }
  }

  lemma {:induction false} InsertSortedIncreases(o: seq<nat>, x: nat)
    requires Increasing(o) && x !in o
    ensures Increasing(InsertSorted(o, x))
  {
    if o != [] && x >= o[0] {
      assert o[0] in o;
      InsertSortedIncreases(o[1..], x);
      var t := InsertSorted(o[1..], x);
      forall i | 0 <= i < |t|
        ensures o[0] < t[i]
      {
        InsertSortedHas(o[1..], x, t[i]);
      }
      hide InsertSorted;
    }
  }

  lemma InsertSortedIs(o: seq<nat>, x: nat)
    requires Increasing(o) && x !in o
    ensures var r := InsertSorted(o, x);
            Increasing(r) && x in r && (forall y :: y in o ==> y in r) && (forall y :: y in r ==> y in o || y == x)
  {
    InsertSortedIncreases(o, x);
    hide InsertSorted, Increasing;
    forall y {
      InsertSortedHas(o, x, y);
    }
    InsertSortedHas(o, x, x);
  }

  lemma {:induction false} ListingUnique(s: set<nat>, a: seq<nat>, b: seq<nat>)
    requires IsListing(s, a) && IsListing(s, b)
    ensures a == b
    decreases |a|
  {
    SameHead(s, a, b);
    if a != [] {
      TailListing(s, a);
      TailListing(s, b);
      hide IsListing;
      ListingUnique(s - {a[0]}, a[1..], b[1..]);
      assert a == [a[0]] + a[1..] && b == [b[0]] + b[1..];
    }
  }

  lemma SameHead(s: set<nat>, a: seq<nat>, b: seq<nat>)
    requires IsListing(s, a) && IsListing(s, b)
    ensures a == [] <==> b == []
    ensures a != [] ==> a[0] == b[0]
  {
    assert a != [] ==> a[0] in s;
    assert b != [] ==> b[0] in s;
  }

  lemma TailListing(s: set<nat>, o: seq<nat>)
    requires IsListing(s, o) && o != []
    ensures IsListing(s - {o[0]}, o[1..])
  {
    forall x | x in s - {o[0]} ensures x in o[1..] {
      var i :| 0 <= i < |o| && o[i] == x;
      assert o[1..][i - 1] == x;
    }
  }

  lemma {:induction false} ListingExists(s: set<nat>) returns (o: seq<nat>)
    ensures IsListing(s, o)
    decreases |s|
  {
    if s == {} {
      o := [];
    } else {
      var x :| x in s;
      var rest := ListingExists(s - {x});
      assert x !in rest;
      InsertSortedIs(rest, x);
      o := InsertSorted(rest, x);
      assert forall i :: 0 <= i < |o| ==> o[i] in o;
      assert forall y :: y in rest ==> y in s by {
        assert forall i :: 0 <= i < |rest| ==> rest[i] in s - {x};
      }
    }
  }

  /** The keys in ascending order, as logp.List returns them. */
  ghost function Listing(s: set<nat>): (o: seq<nat>)
    ensures IsListing(s, o)
  {
    assert exists o :: IsListing(s, o) by { var o := ListingExists(s); }
    var o :| IsListing(s, o);
    o
  }

  /** The load loop: one add per listed file, with the size it had when listed. */
  function Load(t: Table, files: Files, sizes: Files, offs: seq<nat>): (r: Added)
    requires WellFormed(t) && forall o :: o in offs ==> o in sizes
    ensures r.Added? ==> WellFormed(r.table)
    decreases |offs|
  {
    if offs == [] then Added(t, files)
    else
      match AddPartition(t, files, offs[0], |sizes[offs[0]]|)
      case AddFailed(e) => AddFailed(e)
      case Added(t1, files1) => Load(t1, files1, sizes, offs[1..])
  }

  datatype Startup = Started(state: State) | StartFailed(err: Error)

  /** From the loaded table on: check the head file, then open it for writing. */
  function Finish(cfg: Config, t: Table, files: Files): (r: Startup)
    requires WellFormed(t)
    ensures r.Started? ==> WellFormed(r.state.table)
  {
    var h := t.parts[t.head];
    if h.size == 0 then Started(State(t, OpenFile(files, h.start), h.start))
    else if h.start !in files then StartFailed(NoSuchFile)
    else
      match Check(cfg, files[h.start])
      case Crashes => StartFailed(Panic)
      case Intact => Started(State(t, files, h.start))
      case CutAt(n) =>
        Started(State(t.(parts := t.parts[t.head := h.(size := n)]), files[h.start := files[h.start][..n]], h.start))
  }

  ghost function Setup(cfg: Config, files: Files): (r: Startup)
    requires cfg.maxPartitions >= 1
    ensures r.Started? ==> WellFormed(r.state.table)
  {
    var offs := Listing(files.Keys);
    var empty := EmptyTable(cfg.maxPartitions);
    var loaded := if offs == [] then AddPartition(empty, files, 0, 0) else Load(empty, files, files, offs);
    match loaded
    case AddFailed(e) => StartFailed(e)
    case Added(t, fs) => Finish(cfg, t, fs)
  }

  // ----- the directory during start-up

  /** The states of the directory after each removal of the load loop. */
  function LoadSteps(t: Table, files: Files, sizes: Files, offs: seq<nat>): seq<Files>
    requires WellFormed(t) && forall o :: o in offs ==> o in sizes
    decreases |offs|
  {
    if offs == [] then []
    else
      match AddPartition(t, files, offs[0], |sizes[offs[0]]|)
      case AddFailed(e) => []
      case Added(t1, files1) => Changed(files, files1) + LoadSteps(t1, files1, sizes, offs[1..])
  }

  function Changed(before: Files, after: Files): seq<Files> { if before == after then [] else [after] }

  /** The states after truncating the head file and after opening it. */
  function FinishSteps(cfg: Config, t: Table, files: Files): seq<Files>
    requires WellFormed(t)
  {
    var h := t.parts[t.head];
    if h.size == 0 then [OpenFile(files, h.start)]
    else if h.start !in files then []
    else
      match Check(cfg, files[h.start])
      case Crashes => []
      case Intact => [files]
      case CutAt(n) => var cut := files[h.start := files[h.start][..n]]; [cut, cut]
  }

  ghost function StartSteps(cfg: Config, files: Files): seq<Files>
    requires cfg.maxPartitions >= 1
  {
    var offs := Listing(files.Keys);
    var empty := EmptyTable(cfg.maxPartitions);
    var loaded := if offs == [] then AddPartition(empty, files, 0, 0) else Load(empty, files, files, offs);
    (if offs == [] then [] else LoadSteps(empty, files, files, offs))
    + match loaded
      case AddFailed(_) => []
      case Added(t, fs) => FinishSteps(cfg, t, fs)
  }

  /** A directory in which everything is durable. */
  function AllDurable(steps: seq<Files>): (r: seq<Snapshot>)
    ensures |r| == |steps| && forall i :: 0 <= i < |r| ==> r[i] == Snapshot(steps[i], steps[i])
  {
    seq(|steps|, i requires 0 <= i < |steps| => Snapshot(steps[i], steps[i]))
  }

  lemma AllDurableConcat(a: seq<Files>, b: seq<Files>)
    ensures AllDurable(a + b) == AllDurable(a) + AllDurable(b)
  {}

  /** The directory when start-up is interrupted after `n` operations on it. */
  ghost function Interrupted(cfg: Config, files: Files, n: nat): Files
    requires cfg.maxPartitions >= 1
  {
    var steps := StartSteps(cfg, files);
    if n == 0 || steps == [] then files else if n <= |steps| then steps[n - 1] else steps[|steps| - 1]
  }

  // ----- what a state stands for

  ghost predicate DiskRep(files: Files, g: Segments)
  {
    && (forall i :: 0 <= i < |g.parts| ==> Offset(g, i) in files && files[Offset(g, i)] == g.parts[i])
    && (forall k :: k in files ==> exists i :: 0 <= i < |g.parts| && k == Offset(g, i))
  }

  /** Table, files and writer agree: the live files, oldest first, are the segments, each record
      carries the offset and size of its file, and the newest file is the one being written. */
  ghost predicate Represents(cfg: Config, s: State, g: Segments)
  {
    && g.parts != []
    && TableRep(cfg.maxPartitions, s.table, g)
    && DiskRep(s.files, g)
    && s.open == Offset(g, |g.parts| - 1)
  }

  /** The segments after one more batch. */
  function AppendSegs(cfg: Config, g: Segments, raw: Bytes): Segments
    requires g.parts != []
  {
    var last := g.parts[|g.parts| - 1];
    if |raw| >= cfg.partitionSize - |last| then Push(cfg.maxPartitions, g, raw) else SetLast(g, last + raw)
  }

  lemma DiskSetLast(files: Files, g: Segments, part: Bytes)
    requires g.parts != [] && Solid(g) && DiskRep(files, g)
    ensures DiskRep(files[Offset(g, |g.parts| - 1) := part], SetLast(g, part))
    ensures Offset(SetLast(g, part), |g.parts| - 1) == Offset(g, |g.parts| - 1)
  {
    hide Flat;
    var n, h := |g.parts|, SetLast(g, part);
    var fs := files[Offset(g, n - 1) := part];
    assert forall i :: 0 <= i < n ==> Offset(h, i) == Offset(g, i) by {
      assert forall i :: 0 <= i < n ==> h.parts[..i] == g.parts[..i];
    }
    forall i | 0 <= i < n
      ensures Offset(h, i) in fs && fs[Offset(h, i)] == h.parts[i]
    {
      if i < n - 1 { OffsetMonotone(g, i, n - 1); }
    }
  }

  /** A file at the end offset is new when the newest partition is not empty. */
  lemma DiskPush(files: Files, g: Segments, part: Bytes)
    requires DiskRep(files, g) && Solid(g.(parts := g.parts + [part]))
    ensures End(g) !in files
    ensures DiskRep(files[End(g) := part], g.(parts := g.parts + [part]))
  {
    hide Flat;
    var n, h := |g.parts|, g.(parts := g.parts + [part]);
    var fs := files[End(g) := part];
    assert forall i :: 0 <= i <= n ==> Offset(h, i) == Offset(g, i) by {
      forall i | 0 <= i <= n ensures Offset(h, i) == Offset(g, i) { OffsetsOfPrefix(g, part, i); }
    }
    if n > 0 { OffsetStep(g, 0); }
    assert Offset(g, n) == End(g) by { assert g.parts[..n] == g.parts; }
    forall i | 0 <= i < n ensures Offset(g, i) < End(g) {
      OffsetMonotone(h, i, n);
    }
  }

  lemma DiskDrop(files: Files, g: Segments)
    requires DiskRep(files, g) && Solid(g) && |g.parts| >= 2
    ensures g.base in files
    ensures DiskRep(files - {g.base}, Segments(g.base + |g.parts[0]|, g.parts[1..]))
  {
    hide Flat;
    var n, h := |g.parts|, Segments(g.base + |g.parts[0]|, g.parts[1..]);
    OffsetStep(g, 0);
    assert g.parts[1..] + [] == g.parts[1..];
    forall i | 1 <= i < n
      ensures Offset(h, i - 1) == Offset(g, i) && Offset(g, i) != g.base
    {
      OffsetsAfterDrop(g, [], i);
      OffsetMonotone(g, 0, i);
    }
    var fs := files - {g.base};
    forall k | k in fs
      ensures exists i :: 0 <= i < |h.parts| && k == Offset(h, i)
    {
      var i :| 0 <= i < n && k == Offset(g, i);
      assert k == Offset(h, i - 1);
    }
    forall i | 0 <= i < |h.parts|
      ensures Offset(h, i) in fs && fs[Offset(h, i)] == h.parts[i]
    {
      assert Offset(h, (i + 1) - 1) == Offset(g, i + 1);
    }
  }
}
