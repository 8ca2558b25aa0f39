/** READ and TAIL of events/events.go on values: gatherReadArgs walks batches across partition
    boundaries and names byte ranges of partition files. */
module Reading {
  import opened ByteSeqs
  import opened Decimal
  import opened Configs
  import opened BatchCodec
  import opened PartitionTable
  import opened TopicState

  /** One range of a partition file, as recorded in the argument list. */
  datatype Args = Args(offset: nat, delta: int, limit: int)

  datatype Plan = Plan(args: seq<Args>, nbatches: nat)

  datatype Gathered = Gathered(plan: Plan) | GatherFailed(err: Error)

  // ----- Partitions.Get

  /** A reader positioned in a partition file: the bytes it will deliver, and the file's size. */
  datatype Opened = Opened(data: Bytes, size: nat) | OpenFailed(err: Error)

  function Clip(s: Bytes, from: nat, count: nat): Bytes
  {
    var tail := if from <= |s| then s[from..] else [];
    if count <= |tail| then tail[..count] else tail
  }

  function Get(files: Files, off: nat, delta: int, limit: int): Opened
  {
    if off !in files then OpenFailed(NoSuchFile)
    else
      var size := |files[off]|;
      if size > 0 && size <= delta then OpenFailed(NotFound)
      else if delta < 0 then OpenFailed(BadSeek)
      else Opened(Clip(files[off], delta, if limit <= 0 then size else limit), size)
  }

  // ----- gatherReadArgs

  datatype PartScan = Enough(scanned: nat, nbatches: nat) | Ended(err: Error, nbatches: nat, n: int)

  /** The inner loop: scan one partition until `want` messages were seen. */
  function ScanPart(cfg: Config, s: Bytes, scanned: nat, nbatches: nat, n: int, want: int): PartScan
    decreases |s|
  {
    match ReadBatch(cfg, BUF_SIZE, s)
    case Failed(e, _) => Ended(e, nbatches, n)
    case Parsed(f, rest) =>
      var sc := scanned + |s| - |rest|;
      if n + f.messages >= want then Enough(sc, nbatches + 1)
      else ScanPart(cfg, rest, sc, nbatches + 1, n + f.messages, want)
  }

  /** partitionArgList.add, which panics when the list is full. */
  function AddArgs(max: nat, p: Plan, a: Args): Option<Plan>
  {
    if |p.args| >= max then None else Some(p.(args := p.args + [a]))
  }

  /** The outer loop. Every further round has recorded one more range, so the size of the argument
      list bounds it, also when a partition is empty and `curr` does not advance. */
  function GatherFrom(cfg: Config, files: Files, curr: nat, delta: int, n: int, want: int, plan: Plan): Gathered
    decreases cfg.maxPartitions - |plan.args|
  {
    if n >= want then Gathered(plan)
    else
      match Get(files, curr, delta, 0)
      case OpenFailed(e) => if |plan.args| > 0 then Gathered(plan) else GatherFailed(e)
      case Opened(data, size) =>
        match ScanPart(cfg, data, 0, plan.nbatches, n, want)
        case Enough(scanned, k) =>
          (match AddArgs(cfg.maxPartitions, plan.(nbatches := k), Args(curr, delta, scanned))
           case None => GatherFailed(Panic)
           case Some(p) => Gathered(p))
        case Ended(e, k, m) =>
          if e == Panic then GatherFailed(Panic)
          else if e != EOF then GatherFailed(InvalidOffset)
          else if m <= 0 then GatherFailed(UnexpectedEOF)
          else
            match AddArgs(cfg.maxPartitions, plan.(nbatches := k), Args(curr, delta, size - delta))
            case None => GatherFailed(Panic)
            case Some(p) => GatherFrom(cfg, files, curr + size, 0, m, want, p)
  }

  function Gather(cfg: Config, s: State, off: uint64, want: int): Gathered
    requires WellFormed(s.table)
  {
    match Lookup(s.table, off)
    case Missing(e) => GatherFailed(e)
    case Found(start, delta) => GatherFrom(cfg, s.files, start, delta, 0, want, Plan([], 0))
  }

  // ----- handleRead and handleTail

  datatype ReadReply = ReadOk(offset: nat, nbatches: nat, data: Bytes) | ReadError(err: Error)

  /** The response readers, one per range, read to their ends. */
  function Serve(files: Files, args: seq<Args>): (r: Option<Bytes>)
  {
    if args == [] then Some([])
    else
      match Serve(files, args[..|args| - 1])
      case None => None
      case Some(front) =>
        var a := args[|args| - 1];
        match Get(files, a.offset, a.delta, a.limit)
        case OpenFailed(_) => None
        case Opened(data, _) => Some(front + data)
  }

  function ServePlan(files: Files, off: nat, g: Gathered): ReadReply
  {
    match g
    case GatherFailed(e) => ReadError(e)
    case Gathered(p) =>
      match Serve(files, p.args)
      case None => ReadError(NoSuchFile)
      case Some(data) => ReadOk(off, p.nbatches, data)
  }

  function HandleRead(cfg: Config, s: State, off: uint64, want: int): ReadReply
    requires WellFormed(s.table)
  {
    if want < 1 then ReadError(InvalidRequest)
    else
      var g := Gather(cfg, s, off, want);
      ServePlan(s.files, off, if g == GatherFailed(UnexpectedEOF) then GatherFailed(NotFound) else g)
  }

  function HandleTail(cfg: Config, s: State, want: int): ReadReply
    requires WellFormed(s.table) && s.table.parts[0].start < TWO_64
  {
    if s.table.parts[0].size == 0 then ReadError(NotFound)
    else ServePlan(s.files, s.table.parts[0].start, Gather(cfg, s, s.table.parts[0].start, want))
  }

  // ----- the run of batches a READ asks for

  /** The message count a batch announces. */
  function Count(cfg: Config, b: Bytes): int
  {
    match ReadBatch(cfg, BUF_SIZE, b)
    case Parsed(f, _) => f.messages
    case Failed(_, _) => 0
  }

  /** Whole batches that announce at least one message each. */
  predicate Counted(cfg: Config, bs: seq<Bytes>)
  {
    forall i :: 0 <= i < |bs| ==> Whole(cfg, bs[i]) && Count(cfg, bs[i]) >= 1
  }

  function Messages(cfg: Config, bs: seq<Bytes>): int
  {
    if bs == [] then 0 else Count(cfg, bs[0]) + Messages(cfg, bs[1..])
  }

  /** The shortest run from the front of `bs` that reaches `want` messages, or all of `bs`. */
  function Shortest(cfg: Config, bs: seq<Bytes>, want: int): seq<Bytes>
  {
    if bs == [] || want <= 0 then [] else [bs[0]] + Shortest(cfg, bs[1..], want - Count(cfg, bs[0]))
  }

  /** Shortest means what it says: a prefix, long enough or everything, and no shorter prefix is. */
  lemma {:induction false} ShortestIs(cfg: Config, bs: seq<Bytes>, want: int)
    requires Counted(cfg, bs) && want >= 1
    ensures var r := Shortest(cfg, bs, want);
            && r <= bs
            && (r == bs || Messages(cfg, r) >= want)
            && forall k :: 0 <= k < |r| ==> Messages(cfg, bs[..k]) < want
    decreases |bs|
  {
    hide Whole, Count;
    if bs != [] {
      var m := Count(cfg, bs[0]);
      var r := Shortest(cfg, bs, want);
      if want - m >= 1 {
        ShortestIs(cfg, bs[1..], want - m);
        var t := Shortest(cfg, bs[1..], want - m);
        assert r[1..] == t;
        assert bs == [bs[0]] + bs[1..];
        forall k | 0 < k < |r| ensures Messages(cfg, bs[..k]) < want {
          assert bs[..k][1..] == bs[1..][..k - 1];
        }
      } else {
        assert Shortest(cfg, bs[1..], want - m) == [];
        assert r == [bs[0]];
        assert Messages(cfg, r[1..]) == 0;
      }
    }
  }
}
