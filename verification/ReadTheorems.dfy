/** What READ returns: whole batches, found across partition boundaries. */
module ReadTheorems {
  import opened ByteSeqs
  import opened Decimal
  import opened Configs
  import opened BatchCodec
  import opened RequestCodec
  import opened Repair
  import opened Scanning
  import opened PartitionTable
  import opened TopicState
  import opened TopicRefinement
  import opened LogHistory
  import opened LogTheorems
  import opened Reading

  // ----- scanning one partition

  /** The inner loop on a run of whole batches. */
  lemma {:induction false} ScanWhole(cfg: Config, bs: seq<Bytes>, sc: nat, k: nat, n: int, want: int)
    requires Counted(cfg, bs) && n < want
    ensures ScanPart(cfg, Flat(bs), sc, k, n, want) ==
            if n + Messages(cfg, bs) >= want
            then Enough(sc + |Flat(Shortest(cfg, bs, want - n))|, k + |Shortest(cfg, bs, want - n)|)
            else Ended(EOF, k + |bs|, n + Messages(cfg, bs))
    decreases |bs|
  {
    hide Whole, ReadBatch, FrameOf;
    if bs == [] {
      ScanEmpty(cfg, BUF_SIZE);
    } else {
      var b, rest := bs[0], Flat(bs[1..]);
      var m := Count(cfg, b);
      WholeExtend(cfg, b, rest);
      CountIs(cfg, b);
      NonNegative(cfg, bs[1..]);
      if n + m >= want {
        assert Shortest(cfg, bs[1..], want - n - m) == [];
        assert Shortest(cfg, bs, want - n) == [b];
        FlatSingle(b);
      } else {
        ScanWhole(cfg, bs[1..], sc + |b|, k + 1, n + m, want);
        var t := Shortest(cfg, bs[1..], want - n - m);
        assert ([b] + t)[1..] == t;
      }
    }
  }

  lemma CountIs(cfg: Config, b: Bytes)
    requires Whole(cfg, b)
    ensures Count(cfg, b) == FrameOf(cfg, b).messages
  {
    hide ReadBatch;
  }

  lemma {:induction false} NonNegative(cfg: Config, bs: seq<Bytes>)
    requires Counted(cfg, bs)
    ensures Messages(cfg, bs) >= |bs|
    decreases |bs|
  {
    hide Whole, Count;
    if bs != [] {
      NonNegative(cfg, bs[1..]);
    }
  }

  lemma {:induction false} MessagesConcat(cfg: Config, bs: seq<Bytes>, cs: seq<Bytes>)
    ensures Messages(cfg, bs + cs) == Messages(cfg, bs) + Messages(cfg, cs)
    decreases |bs|
  {
    hide Count;
    if bs == [] {
      assert bs + cs == cs;
    } else {
      assert (bs + cs)[1..] == bs[1..] + cs;
      MessagesConcat(cfg, bs[1..], cs);
    }
  }

  /** A run that is long enough in its first part needs no more. */
  lemma {:induction false} ShortestInFront(cfg: Config, bs: seq<Bytes>, cs: seq<Bytes>, want: int)
    requires Messages(cfg, bs) >= want
    ensures Shortest(cfg, bs + cs, want) == Shortest(cfg, bs, want)
    decreases |bs|
  {
    hide Count;
    if bs != [] && want > 0 {
      assert (bs + cs)[1..] == bs[1..] + cs;
      ShortestInFront(cfg, bs[1..], cs, want - Count(cfg, bs[0]));
    }
  }

  lemma ConsUnfolds(cfg: Config, b: Bytes, t: seq<Bytes>, want: int)
    ensures Messages(cfg, [b] + t) == Count(cfg, b) + Messages(cfg, t)
    ensures want > 0 ==> Shortest(cfg, [b] + t, want) == [b] + Shortest(cfg, t, want - Count(cfg, b))
  {
    hide Count;
    assert ([b] + t)[1..] == t;
  }

  /** Otherwise it takes all of it and goes on. */
  lemma {:induction false} ShortestGoesOn(cfg: Config, bs: seq<Bytes>, cs: seq<Bytes>, want: int)
    requires Counted(cfg, bs) && Messages(cfg, bs) < want
    ensures Shortest(cfg, bs + cs, want) == bs + Shortest(cfg, cs, want - Messages(cfg, bs))
    decreases |bs|
  {
    hide Count, Whole, Shortest;
    if bs == [] {
      assert bs + cs == cs;
      assert bs + Shortest(cfg, cs, want) == Shortest(cfg, cs, want);
    } else {
      hide Messages;
      var b, t := bs[0], bs[1..];
      assert bs == [b] + t && bs + cs == [b] + (t + cs);
      NonNegative(cfg, bs);
      ConsUnfolds(cfg, b, t, want);
      ConsUnfolds(cfg, b, t + cs, want);
      ShortestGoesOn(cfg, t, cs, want - Count(cfg, b));
      var r := Shortest(cfg, cs, want - Messages(cfg, bs));
      assert [b] + (t + r) == bs + r;
    }
  }

  // ----- walking across partitions

  function Parts(base: nat, live: seq<seq<Bytes>>): Segments
  {
    Segments(base, Flats(live))
  }

  /** The disk holds the partitions `live`; every batch on it is whole and counts messages. */
  ghost predicate Readable(cfg: Config, files: Files, base: nat, live: seq<seq<Bytes>>)
  {
    && live != []
    && DiskRep(files, Parts(base, live)) && Solid(Parts(base, live))
    && forall i :: 0 <= i < |live| ==> Counted(cfg, live[i])
  }

  /** The batches from batch b of partition i to the end of the log. */
  function Remaining(live: seq<seq<Bytes>>, i: nat, b: nat): seq<Bytes>
    requires i < |live| && b <= |live[i]|
  {
    live[i][b..] + Flat(live[i + 1..])
  }

  lemma NonEmptyRun(cfg: Config, bs: seq<Bytes>)
    requires Counted(cfg, bs) && bs != []
    ensures Flat(bs) != []
  {
    hide Whole, Count;
    WholeIsValid(cfg, bs[0]);
    assert Flat(bs) == bs[0] + Flat(bs[1..]);
  }

  /** A range of partition i that starts at batch b and is at most as long as what follows. */
  lemma RangeAt(cfg: Config, files: Files, base: nat, live: seq<seq<Bytes>>, i: nat, b: nat, lim: nat)
    requires Readable(cfg, files, base, live) && i < |live| && b < |live[i]|
    requires lim <= |Flat(live[i][b..])|
    ensures var g, delta, tail := Parts(base, live), |Flat(live[i][..b])|, Flat(live[i][b..]);
            && tail != [] && |Flat(live[i])| == delta + |tail|
            && Offset(g, i + 1) == Offset(g, i) + delta + |tail|
            && Get(files, Offset(g, i), delta, lim) == Opened(if lim == 0 then tail else tail[..lim], delta + |tail|)
  {
    hide Whole, Count, Flat, Offset, Flats;
    var g, file, front, tail := Parts(base, live), Flat(live[i]), Flat(live[i][..b]), Flat(live[i][b..]);
    FlatSplit(live[i], b);
    assert Counted(cfg, live[i][b..]);
    NonEmptyRun(cfg, live[i][b..]);
    OffsetStep(g, i);
    assert g.parts[i] == file && files[Offset(g, i)] == file;
    assert file[|front|..] == tail;
    assert tail[..|tail|] == tail;
  }

  /** `r` names byte ranges that add the batches `run` to what was gathered before, without
      overflowing the argument list. */
  ghost predicate Delivers(cfg: Config, files: Files, r: Gathered, sofar: Bytes, k: nat, run: seq<Bytes>)
  {
    && r.Gathered?
    && Serve(files, r.plan.args) == Some(sofar + Flat(run))
    && r.plan.nbatches == k + |run|
    && |r.plan.args| <= cfg.maxPartitions
  }

  lemma ServeSnoc(files: Files, args: seq<Args>, a: Args, front: Bytes, data: Bytes, size: nat)
    requires Serve(files, args) == Some(front)
    requires Get(files, a.offset, a.delta, a.limit) == Opened(data, size)
    ensures Serve(files, args + [a]) == Some(front + data)
  {
    assert (args + [a])[..|args|] == args;
  }

  /** An empty newest partition never advances the walk: the argument list fills up and the server
      panics. */
  lemma {:induction false} EmptyHeadPanics(cfg: Config, files: Files, off: nat, n: int, want: int, plan: Plan)
    requires off in files && files[off] == [] && 0 < n < want
    requires |plan.args| <= cfg.maxPartitions
    ensures GatherFrom(cfg, files, off, 0, n, want, plan) == GatherFailed(Panic)
    decreases cfg.maxPartitions - |plan.args|
  {
    hide ReadBatch;
    ScanEmpty(cfg, BUF_SIZE);
    if |plan.args| < cfg.maxPartitions {
      EmptyHeadPanics(cfg, files, off, n, want, plan.(args := plan.args + [Args(off, 0, 0)]));
    }
  }

  /** Ranges of different files, in the order of their offsets. */
  predicate Ascending(files: Files, args: seq<Args>)
  {
    && (forall i :: 0 <= i < |args| ==> args[i].offset in files)
    && (forall i, j :: 0 <= i < j < |args| ==> args[i].offset < args[j].offset)
  }

  lemma {:induction false} RangesAscend(cfg: Config, files: Files, curr: nat, delta: int, n: int, want: int, plan: Plan)
    requires Ascending(files, plan.args) && (forall a :: a in plan.args ==> a.offset < curr)
    requires |plan.args| <= cfg.maxPartitions
    ensures var r := GatherFrom(cfg, files, curr, delta, n, want, plan);
            r.Gathered? ==> Ascending(files, r.plan.args) && |r.plan.args| <= cfg.maxPartitions
    decreases cfg.maxPartitions - |plan.args|
  {
    hide ReadBatch, ScanPart;
    if n >= want || curr !in files { return; }
    var o := Get(files, curr, delta, 0);
    if o.OpenFailed? { return; }
    var scan := ScanPart(cfg, o.data, 0, plan.nbatches, n, want);
    if scan.Ended? && scan.err == EOF && scan.n > 0 && |plan.args| < cfg.maxPartitions {
      var next := Plan(plan.args + [Args(curr, delta, o.size - delta)], scan.nbatches);
      if o.size == 0 {
        ScanBelow(cfg, o.data, 0, plan.nbatches, n, want);
        EmptyHeadPanics(cfg, files, curr, scan.n, want, next);
      } else {
        RangesAscend(cfg, files, curr + o.size, 0, scan.n, want, next);
      }
    }
  }

  lemma {:induction false} ScanBelow(cfg: Config, s: Bytes, scanned: nat, nbatches: nat, n: int, want: int)
    requires n < want
    ensures var r := ScanPart(cfg, s, scanned, nbatches, n, want); r.Ended? ==> r.n < want
    decreases |s|
  {
    hide ReadBatch;
    match ReadBatch(cfg, BUF_SIZE, s) {
      case Failed(_, _) =>
      case Parsed(f, rest) =>
        if n + f.messages < want {
          ScanBelow(cfg, rest, scanned + |s| - |rest|, nbatches + 1, n + f.messages, want);
        }
    }
  }

  /** In any state whatsoever, a READ that is answered names every partition file at most once, so
      neither the argument list nor the readers of the response, which follow the one of the header,
      can overflow. */
  lemma EachPartitionOnce(cfg: Config, s: State, off: uint64, want: int)
    requires WellFormed(s.table)
    ensures var r := Gather(cfg, s, off, want);
            r.Gathered? ==> Ascending(s.files, r.plan.args) && 1 + |r.plan.args| <= cfg.maxPartitions + 1
  {
    hide GatherFrom, Lookup;
    var f := Lookup(s.table, off);
    if f.Found? {
      RangesAscend(cfg, s.files, f.start, f.delta, 0, want, Plan([], 0));
    }
  }

  /** No file starts at the end of a log whose newest partition is not empty. */
  lemma NothingAtEnd(files: Files, g: Segments)
    requires DiskRep(files, g) && Solid(g) && g.parts != [] && Last(g) != []
    ensures Offset(g, |g.parts|) !in files
  {
    hide Flat, Offset;
    var n := |g.parts|;
    OffsetStep(g, n - 1);
    forall i | 0 <= i < n ensures Offset(g, i) < Offset(g, n) {
      OffsetMonotone(g, i, n - 1);
    }
  }

  /** One round of the walk, from batch b of partition i: it stops here, or records the rest of the
      partition and moves to the next start offset. */
  lemma GatherRound(cfg: Config, files: Files, base: nat, live: seq<seq<Bytes>>, i: nat, b: nat, n: int,
    want: int, plan: Plan, sofar: Bytes)
    returns (next: Plan)
    requires Readable(cfg, files, base, live) && i < |live| && b < |live[i]|
    requires 0 <= n < want && |plan.args| < cfg.maxPartitions && Serve(files, plan.args) == Some(sofar)
    ensures var g, here := Parts(base, live), live[i][b..];
            var delta, m := |Flat(live[i][..b])|, n + Messages(cfg, here);
            var r := GatherFrom(cfg, files, Offset(g, i), delta, n, want, plan);
            && (m >= want ==> Delivers(cfg, files, r, sofar, plan.nbatches, Shortest(cfg, here, want - n)))
            && (m < want ==>
                  && m > 0 && |next.args| == |plan.args| + 1 && next.nbatches == plan.nbatches + |here|
                  && Serve(files, next.args) == Some(sofar + Flat(here))
                  && r == GatherFrom(cfg, files, Offset(g, i + 1), 0, m, want, next))
  {
    hide Whole, Count, Flat, Offset, Flats, ReadBatch, ScanPart, Get, Serve, Messages, Shortest, Counted, DiskRep,
      Solid;
    var g, here := Parts(base, live), live[i][b..];
    var off, delta, m := Offset(g, i), |Flat(live[i][..b])|, n + Messages(cfg, here);
    SuffixCounted(cfg, live[i], b);
    RangeAt(cfg, files, base, live, i, b, 0);
    ScanWhole(cfg, here, 0, plan.nbatches, n, want);
    NonNegative(cfg, here);
    var tail := Flat(here);
    if m >= want {
      var run := Shortest(cfg, here, want - n);
      RunIsPrefix(cfg, here, want - n);
      RangeAt(cfg, files, base, live, i, b, |Flat(run)|);
      next := plan;
      ServeSnoc(files, plan.args, Args(off, delta, |Flat(run)|), sofar, Flat(run), delta + |tail|);
    } else {
      var a := Args(off, delta, |tail|);
      next := Plan(plan.args + [a], plan.nbatches + |here|);
      RangeAt(cfg, files, base, live, i, b, |tail|);
      assert tail[..|tail|] == tail;
      ServeSnoc(files, plan.args, a, sofar, tail, delta + |tail|);
    }
  }

  lemma SuffixCounted(cfg: Config, bs: seq<Bytes>, b: nat)
    requires Counted(cfg, bs) && b <= |bs|
    ensures Counted(cfg, bs[b..])
  {
    hide Whole, Count;
  }

  lemma RunIsPrefix(cfg: Config, bs: seq<Bytes>, want: int)
    requires Counted(cfg, bs) && want >= 1 && bs != []
    ensures var run := Shortest(cfg, bs, want);
            && run != [] && 0 < |Flat(run)| <= |Flat(bs)| && Flat(run) == Flat(bs)[..|Flat(run)|]
  {
    hide Whole, Count, Flat;
    ShortestIs(cfg, bs, want);
    var run := Shortest(cfg, bs, want);
    FlatSplit(bs, |run|);
    assert bs[..|run|] == run;
    NonEmptyRun(cfg, run);
  }

  /** The whole walk. Unless the newest partition is empty and the log runs out of messages, the
      named ranges are exactly the shortest run of whole batches, wherever the partition boundaries
      fall; in the remaining case the server panics. */
  lemma {:induction false} GatherIs(cfg: Config, files: Files, base: nat, live: seq<seq<Bytes>>, i: nat, b: nat, n: int,
    want: int, plan: Plan, sofar: Bytes)
    requires Readable(cfg, files, base, live) && i < |live| && b < |live[i]|
    requires 0 <= n < want && |plan.args| + |live| - i <= cfg.maxPartitions
    requires Serve(files, plan.args) == Some(sofar)
    ensures var g, rem := Parts(base, live), Remaining(live, i, b);
            var r := GatherFrom(cfg, files, Offset(g, i), |Flat(live[i][..b])|, n, want, plan);
            if n + Messages(cfg, rem) >= want || live[|live| - 1] != []
            then Delivers(cfg, files, r, sofar, plan.nbatches, Shortest(cfg, rem, want - n))
            else r == GatherFailed(Panic)
    decreases |live| - i, 0
  {
    hide Whole, Count, Flat, Offset, Flats, ReadBatch, ScanPart, Get, Serve, Messages, Shortest, Counted, DiskRep,
      Solid, GatherFrom;
    var g, here, rem := Parts(base, live), live[i][b..], Remaining(live, i, b);
    var more := Flat(live[i + 1..]);
    var next := GatherRound(cfg, files, base, live, i, b, n, want, plan, sofar);
    SuffixCounted(cfg, live[i], b);
    MessagesConcat(cfg, here, more);
    var m := n + Messages(cfg, here);
    if m >= want {
      ShortestInFront(cfg, here, more, want - n);
      MoreIsCounted(cfg, live, i + 1);
      NonNegative(cfg, more);
    } else {
      ShortestGoesOn(cfg, here, more, want - n);
      GatherNext(cfg, files, base, live, i, m, want, next, sofar + Flat(here));
      var run := Shortest(cfg, more, want - m);
      FlatConcat(here, run);
      assert sofar + (Flat(here) + Flat(run)) == sofar + Flat(here) + Flat(run);
    }
  }

  lemma {:induction false} MoreIsCounted(cfg: Config, live: seq<seq<Bytes>>, i: nat)
    requires i <= |live| && forall j :: 0 <= j < |live| ==> Counted(cfg, live[j])
    ensures Counted(cfg, Flat(live[i..]))
    decreases |live| - i
  {
    hide Whole, Count;
    if i < |live| {
      MoreIsCounted(cfg, live, i + 1);
      assert Flat(live[i..]) == live[i] + Flat(live[i + 1..]) by {
        assert live[i..][1..] == live[i + 1..];
      }
    }
  }

  /** The walk from the start of the next partition on. */
  lemma {:induction false} GatherNext(cfg: Config, files: Files, base: nat, live: seq<seq<Bytes>>, i: nat, m: int,
    want: int, plan: Plan, sofar: Bytes)
    requires Readable(cfg, files, base, live) && i < |live| && live[i] != []
    requires 0 < m < want && 0 < |plan.args| && |plan.args| + |live| - i <= cfg.maxPartitions + 1
    requires Serve(files, plan.args) == Some(sofar)
    ensures var g, more := Parts(base, live), Flat(live[i + 1..]);
            var r := GatherFrom(cfg, files, Offset(g, i + 1), 0, m, want, plan);
            if m + Messages(cfg, more) >= want || live[|live| - 1] != []
            then Delivers(cfg, files, r, sofar, plan.nbatches, Shortest(cfg, more, want - m))
            else r == GatherFailed(Panic)
    decreases |live| - i - 1, 1
  {
    hide Whole, Count, Offset, Flats, ReadBatch, ScanPart, Serve, Counted, GatherFrom, Flat, DiskRep, Solid, Messages,
      Shortest;
    if i + 1 == |live| {
      GatherAtEnd(cfg, files, base, live, m, want, plan);
      NothingMore(cfg, live, want - m);
      assert sofar + [] == sofar;
    } else {
      FlatHead(live, i + 1);
      var l := live[i + 1];
      if l == [] {
        LastIsEmpty(cfg, files, base, live, i + 1);
        EmptyHeadPanics(cfg, files, Offset(Parts(base, live), i + 1), m, want, plan);
      } else {
        GatherIs(cfg, files, base, live, i + 1, 0, m, want, plan, sofar);
        assert l[0..] == l && l[..0] == [];
        FlatEmpty<byte>();
      }
    }
  }

  /** Behind the newest partition there is no file, and the walk ends with what it has. */
  lemma GatherAtEnd(cfg: Config, files: Files, base: nat, live: seq<seq<Bytes>>, m: int, want: int, plan: Plan)
    requires Readable(cfg, files, base, live) && live[|live| - 1] != [] && m < want && |plan.args| > 0
    ensures GatherFrom(cfg, files, Offset(Parts(base, live), |live|), 0, m, want, plan) == Gathered(plan)
  {
    hide ScanPart, Offset, Flat, Counted, Whole;
    LastIsNotEmpty(cfg, files, base, live);
    NothingAtEnd(files, Parts(base, live));
  }

  lemma NothingMore(cfg: Config, live: seq<seq<Bytes>>, want: int)
    ensures var more := Flat(live[|live|..]);
            && more == [] && Messages(cfg, more) == 0
            && Shortest(cfg, more, want) == [] && Flat(Shortest(cfg, more, want)) == []
  {}

  lemma FlatHead(live: seq<seq<Bytes>>, i: nat)
    requires i < |live|
    ensures Flat(live[i..]) == live[i] + Flat(live[i + 1..])
  {
    assert live[i..][1..] == live[i + 1..];
  }

  lemma LastIsNotEmpty(cfg: Config, files: Files, base: nat, live: seq<seq<Bytes>>)
    requires Readable(cfg, files, base, live) && live[|live| - 1] != []
    ensures Parts(base, live).parts != [] && Last(Parts(base, live)) != []
  {
    NonEmptyRun(cfg, live[|live| - 1]);
  }

  lemma LastIsEmpty(cfg: Config, files: Files, base: nat, live: seq<seq<Bytes>>, i: nat)
    requires Readable(cfg, files, base, live) && i < |live| && live[i] == []
    ensures i == |live| - 1
    ensures var o := Offset(Parts(base, live), i); o in files && files[o] == []
    ensures Messages(cfg, Flat(live[i..])) == 0
  {
    hide Offset;
    assert Flat(live[i]) == [];
    assert Parts(base, live).parts[i] == [];
    FlatSingle(live[i]);
    assert live[i..] == [live[i]];
  }

  // ----- READ on a represented log

  /** The partition and the batch at which the j-th live batch is stored. */
  lemma {:induction false} Locate(cfg: Config, live: seq<seq<Bytes>>, i: nat, j: nat) returns (p: nat, b: nat)
    requires i <= |live| && j < |Flat(live[i..])|
    ensures i <= p < |live| && b < |live[p]|
    ensures Flat(live[i..])[j..] == Remaining(live, p, b)
    ensures Flat(live[i..])[..j] == Flat(live[i..p]) + live[p][..b]
    decreases |live| - i
  {
    assert i < |live|;
    FlatHead(live, i);
    hide Flat;
    var l, rest := live[i], Flat(live[i + 1..]);
    if j < |l| {
      p, b := i, j;
      assert (l + rest)[j..] == l[j..] + rest;
      FlatNone(live, i);
    } else {
      p, b := Locate(cfg, live, i + 1, j - |l|);
      SplitLater(l, rest, j);
      FlatSlice(live, i, p);
      assert l + (Flat(live[i + 1..p]) + live[p][..b]) == l + Flat(live[i + 1..p]) + live[p][..b];
    }
  }

  lemma SplitLater(l: seq<Bytes>, rest: seq<Bytes>, j: nat)
    requires |l| <= j <= |l| + |rest|
    ensures (l + rest)[j..] == rest[j - |l|..] && (l + rest)[..j] == l + rest[..j - |l|]
  {}

  lemma FlatSlice(live: seq<seq<Bytes>>, i: nat, p: nat)
    requires i < p <= |live|
    ensures Flat(live[i..p]) == live[i] + Flat(live[i + 1..p])
  {
    assert live[i..p][1..] == live[i + 1..p];
  }

  lemma FlatNone(live: seq<seq<Bytes>>, i: nat)
    requires i <= |live|
    ensures Flat(live[i..i]) == []
  {}

  /** Byte offset of a located batch. */
  lemma LocatedOffset(base: nat, live: seq<seq<Bytes>>, p: nat, b: nat)
    requires p < |live| && b <= |live[p]|
    ensures Offset(Parts(base, live), p) + |Flat(live[p][..b])| == base + |Flat(Flat(live[..p]) + live[p][..b])|
  {
    hide Flat;
    FlatConcat(Flat(live[..p]), live[p][..b]);
    FlatOfFlats(live[..p]);
    assert Flats(live)[..p] == Flats(live[..p]);
  }

  ghost predicate ReadableState(cfg: Config, s: State, a: Log)
  {
    && Represents(cfg, s, Segs(a))
    && (forall i :: 0 <= i < |a.live| ==> Counted(cfg, a.live[i]))
    && |Flat(History(a))| < TWO_63
  }

  lemma LookupLocated(cfg: Config, s: State, a: Log, p: nat, b: nat)
    requires ReadableState(cfg, s, a) && p < |a.live| && b < |a.live[p]|
    ensures WellFormed(s.table)
    ensures var g, delta := Segs(a), |Flat(a.live[p][..b])|;
            && 0 <= Offset(g, p) + delta < TWO_63
            && Lookup(s.table, Offset(g, p) + delta) == Found(Offset(g, p), delta)
  {
    hide Offset, Flat, Flats, DiskRep, Whole, Count, Lookup, TableRep;
    var g, delta := Segs(a), |Flat(a.live[p][..b])|;
    assert Readable(cfg, s.files, g.base, a.live) by { SolidRep(cfg, s, g); }
    RangeAt(cfg, s.files, g.base, a.live, p, b, 0);
    EndIsHistoryLength(a);
    OffsetMonotone(g, p + 1, |g.parts|);
    OffsetMonotone(g, 0, p);
    OffsetStep(g, 0);
    var off := Offset(g, p) + delta;
    assert IsHolder(g, off, p);
    var j := LookupIs(cfg.maxPartitions, s.table, g, off);
    HolderUnique(g, off, p, j);
  }

  /** READ at the offset of any retained batch j returns exactly the shortest run of whole batches
      from there that reaches `want` messages, or everything up to the head; the one exception is
      an empty newest partition behind too few messages, where the server panics. */
  lemma ReadReturnsShortestRun(cfg: Config, s: State, a: Log, j: nat, want: int)
    requires ReadableState(cfg, s, a) && want >= 1
    requires |a.evicted| <= j < |History(a)|
    ensures WellFormed(s.table) && a.live != []
    ensures var off, rest := |Flat(History(a)[..j])|, History(a)[j..];
            var run := Shortest(cfg, rest, want);
            && off < TWO_64
            && HandleRead(cfg, s, off, want) ==
               if Messages(cfg, rest) >= want || a.live[|a.live| - 1] != [] then ReadOk(off, |run|, Flat(run))
               else ReadError(Panic)
  {
    hide Offset, Flat, Flats, DiskRep, Whole, Count, Lookup, TableRep, GatherFrom, Shortest, Messages;
    var g, live := Segs(a), a.live;
    SolidRep(cfg, s, g);
    assert live[0..] == live;
    var p, b := Locate(cfg, live, 0, j - |a.evicted|);
    assert live[0..p] == live[..p];
    var h := History(a);
    assert h[j..] == Flat(live)[j - |a.evicted|..] == Remaining(live, p, b);
    assert h[..j] == a.evicted + (Flat(live[..p]) + live[p][..b]);
    FlatConcat(a.evicted, Flat(live[..p]) + live[p][..b]);
    LocatedOffset(g.base, live, p, b);
    LookupLocated(cfg, s, a, p, b);
    assert Readable(cfg, s.files, g.base, live);
    NoArgsServed(s.files);
    GatherIs(cfg, s.files, g.base, live, p, b, 0, want, Plan([], 0), []);
    assert [] + Flat(Shortest(cfg, h[j..], want)) == Flat(Shortest(cfg, h[j..], want));
  }

  lemma NoArgsServed(files: Files)
    ensures Serve(files, []) == Some([])
  {}

  /** Offsets before the oldest partition and offsets at or behind the end are not found. */
  lemma ReadOutsideIsNotFound(cfg: Config, s: State, g: Segments, off: uint64, want: int)
    requires Represents(cfg, s, g) && want >= 1
    requires off < g.base || End(g) <= off < TWO_63
    ensures WellFormed(s.table)
    ensures HandleRead(cfg, s, off, want) == ReadError(NotFound)
  {
    hide Offset, Flat, DiskRep, TableRep, Lookup, Serve, ReadBatch;
    SolidRep(cfg, s, g);
    var j := LookupIs(cfg.maxPartitions, s.table, g, off);
    if off >= g.base {
      var n := |g.parts|;
      OffsetStep(g, n - 1);
      OffsetMonotone(g, j, n - 1);
      assert j == n - 1 by {
        if j < n - 1 { OffsetMonotone(g, j + 1, n); }
      }
      OpenHead(s.files, g);
      ScanEmpty(cfg, BUF_SIZE);
    }
  }

  /** TAIL is READ at the oldest retained batch; on an empty log it is not found. */
  lemma TailIsReadAtOldest(cfg: Config, s: State, a: Log, want: int)
    requires ReadableState(cfg, s, a) && want >= 1
    ensures WellFormed(s.table) && a.live != [] && s.table.parts[0].start == |Flat(a.evicted)| < TWO_63
    ensures HandleTail(cfg, s, want) ==
            if a.live[0] == [] then ReadError(NotFound) else HandleRead(cfg, s, |Flat(a.evicted)|, want)
  {
    hide Offset, Flats, DiskRep, Whole, Count, Lookup, GatherFrom, Shortest, Messages, Serve;
    var g := Segs(a);
    SolidRep(cfg, s, g);
    FullIffAllLive(cfg.maxPartitions, s.table, g);
    EndIsHistoryLength(a);
    FirstSize(cfg, s, g);
    if a.live[0] != [] {
      NonEmptyRun(cfg, a.live[0]);
      var h, j := History(a), |a.evicted|;
      assert h[..j] == a.evicted;
      FlatHead(a.live, 0);
      assert a.live[0..] == a.live;
      ReadReturnsShortestRun(cfg, s, a, j, want);
    }
  }

  lemma FirstSize(cfg: Config, s: State, g: Segments)
    requires Represents(cfg, s, g)
    ensures s.table.parts != [] && s.table.parts[0].size == |g.parts[0]|
  {}

  // ----- reading what was written

  /** Every accepted request of the run announces at least one message. */
  predicate AllCount(cfg: Config, es: seq<Event>)
  {
    forall i :: 0 <= i < |es| ==>
      match es[i]
      case Restart => true
      case Receive(input) => Announces(cfg, input)
      case Crash(input, _) => Announces(cfg, input)
  }

  predicate Announces(cfg: Config, input: Bytes)
  {
    var r := Accept(cfg, input);
    r.Accepted? ==> r.frame.messages >= 1
  }

  lemma AcceptedCounts(cfg: Config, input: Bytes)
    requires var r := Accept(cfg, input); r.Accepted? && Plain(LineOf(r.raw)) && r.frame.messages >= 1
    ensures var r := Accept(cfg, input); Counted(cfg, [r.raw]) && Count(cfg, r.raw) == r.frame.messages
  {
    hide Accept, Whole, Plain, Count, LineOf;
    WholeIfPlain(cfg, input);
    StoredIsWholeIffPlain(cfg, input);
    CountIs(cfg, Accept(cfg, input).raw);
  }

  lemma CountedAppend(cfg: Config, bs: seq<Bytes>, raw: Bytes)
    requires Counted(cfg, bs) && Counted(cfg, [raw])
    ensures Counted(cfg, bs + [raw])
  {
    hide Whole, Count;
    assert [raw][0] == raw;
  }

  lemma StepHistory(cfg: Config, a: Log, e: Event)
    requires a.live != []
    ensures var h := History(LogStep(cfg, a, e));
            || h == History(a)
            || (!e.Restart? && Accept(cfg, e.input).Accepted? && h == History(a) + [Accept(cfg, e.input).raw])
  {
    hide Accept, AppendLog, PushLog, Rotates, History;
    if !e.Restart? && Accept(cfg, e.input).Accepted? {
      AppendLogSegs(cfg, a, Accept(cfg, e.input).raw);
      PushLogSegs(cfg.maxPartitions, a, []);
      assert History(a) + [] == History(a);
    }
  }

  lemma {:induction false} RunCounts(cfg: Config, es: seq<Event>)
    requires AllAdmissible(cfg, es) && AllCount(cfg, es)
    ensures Counted(cfg, History(LogRun(cfg, es)))
    decreases |es|
  {
    hide LogStep, History, Counted, Accept, Plain, LineOf;
    if es == [] {
      EmptyCounts(cfg);
    } else {
      var init, e := es[..|es| - 1], es[|es| - 1];
      RunCounts(cfg, init);
      var a := LogRun(cfg, init);
      StepHistory(cfg, a, e);
      if !e.Restart? && Accept(cfg, e.input).Accepted? {
        AcceptedCounts(cfg, e.input);
        CountedAppend(cfg, History(a), Accept(cfg, e.input).raw);
      }
    }
  }

  lemma EmptyCounts(cfg: Config)
    ensures Counted(cfg, History(EMPTY_LOG))
  {
    assert Flat(EMPTY_LOG.live) == [];
  }

  lemma GroupsCounted(cfg: Config, a: Log)
    requires Counted(cfg, History(a))
    ensures forall i :: 0 <= i < |a.live| ==> Counted(cfg, a.live[i])
  {
    hide Whole, Count, Flat;
    forall i | 0 <= i < |a.live| ensures Counted(cfg, a.live[i]) {
      FlatSplit(a.live, i);
      FlatHead(a.live, i);
      var front, l := a.evicted + Flat(a.live[..i]), a.live[i];
      assert History(a) == front + l + Flat(a.live[i + 1..]);
      assert forall k :: 0 <= k < |l| ==> History(a)[|front| + k] == l[k];
    }
  }

  /** The runs the read theorems speak of: fewer than 2^63 bytes, every request with messages. */
  predicate ReadableRun(cfg: Config, es: seq<Event>)
  {
    ValidConfig(cfg) && AllAdmissible(cfg, es) && AllCount(cfg, es) && |Flat(History(LogRun(cfg, es)))| < TWO_63
  }

  lemma RunIsReadable(cfg: Config, es: seq<Event>)
    requires ReadableRun(cfg, es)
    ensures Run(cfg, es).Started? && ReadableState(cfg, Run(cfg, es).state, LogRun(cfg, es))
  {
    hide Run, LogRun, Counted, Represents, GoodLog;
    RunRefines(cfg, es);
    RunCounts(cfg, es);
    GroupsCounted(cfg, LogRun(cfg, es));
  }

  /** Read-your-writes for as long as retained: after any later requests, restarts and cleanly cut
      crashes, READ at the acknowledged offset for the batch's own message count returns exactly the
      batch, or is not found once the batch lies before the oldest partition. */
  lemma ReadYourWrites(cfg: Config, es: seq<Event>, input: Bytes, fs: seq<Event>)
    requires ReadableRun(cfg, es + [Receive(input)] + fs) && Accept(cfg, input).Accepted?
    ensures Run(cfg, es).Started? && Run(cfg, es + [Receive(input)] + fs).Started?
    ensures var s := Run(cfg, es + [Receive(input)] + fs).state;
            var raw, m := Accept(cfg, input).raw, Accept(cfg, input).frame.messages;
            var reply := HandleBatch(cfg, Run(cfg, es).state, input).1;
            && reply.Acked? && reply.offset < TWO_63
            && HandleRead(cfg, s, reply.offset, m) ==
               if s.table.parts[0].start <= reply.offset then ReadOk(reply.offset, 1, raw) else ReadError(NotFound)
  {
    hide Run, LogRun, Accept, HandleAccepted, HandleRead, HandleBatch, Counted, Represents, Plain, LineOf, Whole, Flat,
      Count, Admissible;
    var all := es + [Receive(input)] + fs;
    AcknowledgedStaysPut(cfg, es, input, fs);
    RunIsReadable(cfg, all);
    RunCounts(cfg, all);
    var s, a := Run(cfg, all).state, LogRun(cfg, all);
    var raw, m := Accept(cfg, input).raw, Accept(cfg, input).frame.messages;
    assert all[|es|] == Receive(input);
    EventAt(cfg, all, |es|, input);
    var front := History(LogRun(cfg, es));
    ReadBack(cfg, s, a, |front|, m, raw);
    assert History(a)[..|front|] == front;
  }

  lemma EventAt(cfg: Config, es: seq<Event>, i: nat, input: Bytes)
    requires i < |es| && es[i] == Receive(input) && AllAdmissible(cfg, es) && AllCount(cfg, es)
    requires Accept(cfg, input).Accepted?
    ensures var r := Accept(cfg, input);
            r.frame.messages >= 1 && Counted(cfg, [r.raw]) && Count(cfg, r.raw) == r.frame.messages
  {
    hide Accept, Plain, LineOf, Counted, Count;
    assert Admissible(cfg, es[i]);
    assert Announces(cfg, input);
    AcceptedCounts(cfg, input);
  }

  lemma ReadBack(cfg: Config, s: State, a: Log, j: nat, m: int, raw: Bytes)
    requires ReadableState(cfg, s, a) && Counted(cfg, History(a))
    requires j < |History(a)| && History(a)[j] == raw && Count(cfg, raw) == m >= 1
    ensures WellFormed(s.table)
    ensures var off := |Flat(History(a)[..j])|;
            && off < TWO_63
            && HandleRead(cfg, s, off, m) ==
               if s.table.parts[0].start <= off then ReadOk(off, 1, raw) else ReadError(NotFound)
  {
    hide Represents, Counted, Whole, Count, Flat, HandleRead;
    var h := History(a);
    var off, base := |Flat(h[..j])|, |Flat(a.evicted)|;
    var g := Segs(a);
    RepresentsStart(cfg, s, g);
    FlatSplit(h, j);
    SuffixCounted(cfg, h, j);
    if j >= |a.evicted| {
      FlatSplit(h[..j], |a.evicted|);
      assert h[..j][..|a.evicted|] == a.evicted;
      ReadReturnsShortestRun(cfg, s, a, j, m);
      FirstIsEnough(cfg, h[j..], m);
      FlatSingle(raw);
    } else {
      FlatSplit(a.evicted, j);
      assert a.evicted[..j] == h[..j];
      EvictedRest(cfg, a, j);
      ReadOutsideIsNotFound(cfg, s, g, off, m);
    }
  }

  lemma RepresentsStart(cfg: Config, s: State, g: Segments)
    requires Represents(cfg, s, g)
    ensures WellFormed(s.table) && s.table.parts[0].start == g.base
  {
    FullIffAllLive(cfg.maxPartitions, s.table, g);
  }

  lemma FirstIsEnough(cfg: Config, bs: seq<Bytes>, m: int)
    requires Counted(cfg, bs) && bs != [] && Count(cfg, bs[0]) == m >= 1
    ensures Messages(cfg, bs) >= m && Shortest(cfg, bs, m) == [bs[0]]
  {
    hide Whole, Count;
    NonNegative(cfg, bs[1..]);
    assert Shortest(cfg, bs[1..], 0) == [];
  }

  lemma EvictedRest(cfg: Config, a: Log, j: nat)
    requires Counted(cfg, History(a)) && j < |a.evicted|
    ensures Flat(a.evicted[j..]) != []
  {
    hide Whole, Count, Flat;
    assert forall k :: 0 <= k < |a.evicted| ==> History(a)[k] == a.evicted[k];
    assert Counted(cfg, a.evicted[j..]);
    NonEmptyRun(cfg, a.evicted[j..]);
  }

  // ----- when READ panics

  predicate NoCrash(es: seq<Event>)
  {
    forall i :: 0 <= i < |es| ==> !es[i].Crash?
  }

  lemma {:induction false} HeadEmptyOnlyAtStart(cfg: Config, es: seq<Event>)
    requires NoCrash(es)
    ensures var a := LogRun(cfg, es); a.live[|a.live| - 1] == [] ==> a == EMPTY_LOG
    decreases |es|
  {
    hide Accept, Rotates;
    if es != [] {
      HeadEmptyOnlyAtStart(cfg, es[..|es| - 1]);
    }
  }

  /** Without crashes READ at a retained batch never panics, whatever is asked for. */
  lemma ReadNeverPanicsWithoutCrash(cfg: Config, es: seq<Event>, j: nat, want: int)
    requires ReadableRun(cfg, es) && NoCrash(es) && want >= 1
    requires |LogRun(cfg, es).evicted| <= j < |History(LogRun(cfg, es))|
    ensures Run(cfg, es).Started?
    ensures var a := LogRun(cfg, es);
            var off, run := |Flat(History(a)[..j])|, Shortest(cfg, History(a)[j..], want);
            off < TWO_64 && HandleRead(cfg, Run(cfg, es).state, off, want) == ReadOk(off, |run|, Flat(run))
  {
    hide Run, LogRun, Counted, Represents, HandleRead, Shortest, Messages, Admissible, Announces;
    RunIsReadable(cfg, es);
    HeadEmptyOnlyAtStart(cfg, es);
    assert History(EMPTY_LOG) == [] by { assert Flat(EMPTY_LOG.live) == []; }
    ReadReturnsShortestRun(cfg, Run(cfg, es).state, LogRun(cfg, es), j, want);
  }

  /** A crash while a rotating batch is about to be written leaves an empty newest partition; until
      the next batch arrives, a READ of a retained batch that asks for more messages than there are
      makes the server panic. */
  lemma ReadPanicsAfterCrash(cfg: Config, es: seq<Event>, input: Bytes, j: nat, want: int)
    requires es != [] && es[|es| - 1] == Crash(input, Torn(0)) && ReadableRun(cfg, es)
    requires Accept(cfg, input).Accepted? && Rotates(cfg, LogRun(cfg, es[..|es| - 1]), Accept(cfg, input).raw)
    requires var a := LogRun(cfg, es);
             |a.evicted| <= j < |History(a)| && want >= 1 && want > Messages(cfg, History(a)[j..])
    ensures Run(cfg, es).Started?
    ensures var off := |Flat(History(LogRun(cfg, es))[..j])|;
            off < TWO_64 && HandleRead(cfg, Run(cfg, es).state, off, want) == ReadError(Panic)
  {
    hide Run, Counted, Represents, HandleRead, Shortest, Messages, Admissible, Announces, Accept, Rotates;
    AcceptedFits(cfg, input);
    RunIsReadable(cfg, es);
    ReadReturnsShortestRun(cfg, Run(cfg, es).state, LogRun(cfg, es), j, want);
  }
}
