/** READ at any offset of the log, whether a batch starts there or not: what is answered depends on how the
    rest of the partition scans. */
module ReadAnywhere {
  import opened ByteSeqs
  import opened Decimal
  import opened Configs
  import opened BatchCodec
  import opened PartitionTable
  import opened TopicState
  import opened TopicRefinement
  import opened LogHistory
  import opened Reading
  import opened ReadTheorems

  /** Byte strings that the batch scanner takes for one batch each; it does not look at checksums. */
  predicate Scannable(cfg: Config, bs: seq<Bytes>)
  {
    forall i :: 0 <= i < |bs| ==> var r := ReadBatch(cfg, BUF_SIZE, bs[i]); r.Parsed? && r.rest == []
  }

  /** Behind none of the batches are there `want` messages. */
  predicate Below(cfg: Config, bs: seq<Bytes>, n: int, want: int)
  {
    forall i :: 1 <= i <= |bs| ==> n + Messages(cfg, bs[..i]) < want
  }

  lemma FirstBelow(cfg: Config, bs: seq<Bytes>, n: int, want: int)
    requires bs != [] && Below(cfg, bs, n, want)
    ensures n + Count(cfg, bs[0]) < want && Below(cfg, bs[1..], n + Count(cfg, bs[0]), want)
  {
    hide Count;
    assert bs[..1][0] == bs[0] && bs[..1][1..] == [] && Messages(cfg, []) == 0;
    assert Messages(cfg, bs[..1]) == Count(cfg, bs[0]);
    forall i | 1 <= i <= |bs[1..]|
      ensures n + Count(cfg, bs[0]) + Messages(cfg, bs[1..][..i]) < want
    {
      assert bs[..i + 1][0] == bs[0] && bs[..i + 1][1..] == bs[1..][..i];
    }
  }

  lemma ScannableTail(cfg: Config, bs: seq<Bytes>)
    requires Scannable(cfg, bs) && bs != []
    ensures Scannable(cfg, bs[1..]) && Scannable(cfg, [bs[0]])
    ensures var r := ReadBatch(cfg, BUF_SIZE, bs[0]);
            r.Parsed? && r.rest == [] && r.value.messages == Count(cfg, bs[0]) && |bs[0]| > 0
  {
    hide ReadBatch;
  }

  lemma ScanPast(cfg: Config, b: Bytes, rest: Bytes, sc: nat, k: nat, n: int, want: int)
    requires Scannable(cfg, [b]) && n + Count(cfg, b) < want
    ensures ScanPart(cfg, b + rest, sc, k, n, want) == ScanPart(cfg, rest, sc + |b|, k + 1, n + Count(cfg, b), want)
  {
    hide ReadBatch;
    assert [b][0] == b;
    ReadBatchExtend(cfg, BUF_SIZE, b, rest);
    assert [] + rest == rest;
  }

  /** The inner loop walks over batches that do not make up the number of messages. */
  lemma {:induction false} ScanThrough(cfg: Config, bs: seq<Bytes>, t: Bytes, sc: nat, k: nat, n: int, want: int)
    requires Scannable(cfg, bs) && Below(cfg, bs, n, want)
    ensures ScanPart(cfg, Flat(bs) + t, sc, k, n, want)
            == ScanPart(cfg, t, sc + |Flat(bs)|, k + |bs|, n + Messages(cfg, bs), want)
    decreases |bs|
  {
    hide ReadBatch, Count, Below, Scannable, ScanPart;
    if bs == [] {
      assert Flat(bs) + t == t;
    } else {
      var b, rest := bs[0], Flat(bs[1..]) + t;
      FirstBelow(cfg, bs, n, want);
      ScannableTail(cfg, bs);
      assert Flat(bs) + t == b + rest;
      ScanPast(cfg, b, rest, sc, k, n, want);
      ScanThrough(cfg, bs[1..], t, sc + |b|, k + 1, n + Count(cfg, b), want);
    }
  }

  /** The rest of a partition: batches that scan and announce fewer messages than asked for, then bytes that
      do not scan. */
  predicate StopsBehind(cfg: Config, rest: Bytes, bs: seq<Bytes>, t: Bytes, n: int, want: int)
  {
    && rest == Flat(bs) + t && Scannable(cfg, bs) && Below(cfg, bs, n, want)
    && ReadBatch(cfg, BUF_SIZE, t).Failed?
  }

  /** One round of the walk, with anything recorded before, that meets such a partition: an error of the
      parser ends the READ, io.EOF only if there were no messages at all. */
  lemma GatherStops(cfg: Config, files: Files, curr: nat, delta: nat, n: int, want: int, plan: Plan, bs: seq<Bytes>,
                    t: Bytes)
    requires n < want && curr in files && delta < |files[curr]|
    requires StopsBehind(cfg, files[curr][delta..], bs, t, n, want)
    ensures var g, e := GatherFrom(cfg, files, curr, delta, n, want, plan), ReadBatch(cfg, BUF_SIZE, t).err;
            && (e == Panic ==> g == GatherFailed(Panic))
            && (e == EOF && n + Messages(cfg, bs) <= 0 ==> g == GatherFailed(UnexpectedEOF))
            && (e != Panic && e != EOF ==> g == GatherFailed(InvalidOffset))
  {
    hide ReadBatch, Messages, Scannable, Below, Flat;
    ScanThrough(cfg, bs, t, 0, plan.nbatches, n, want);
    var rest := files[curr][delta..];
    assert Clip(files[curr], delta, |files[curr]|) == rest;
  }

  /** The lookup for an offset inside partition j. */
  lemma LookupInside(cfg: Config, s: State, g: Segments, off: uint64, j: nat)
    requires Represents(cfg, s, g) && off < TWO_63 && IsHolder(g, off, j)
    ensures WellFormed(s.table) && Lookup(s.table, off) == Found(Offset(g, j), off - Offset(g, j))
    ensures Offset(g, j) in s.files && s.files[Offset(g, j)] == g.parts[j]
  {
    hide Offset, TableRep, Lookup, WellFormed;
    OffsetMonotone(g, 0, j);
    assert Offset(g, 0) == g.base by { FirstOffset(g); }
    var i := LookupIs(cfg.maxPartitions, s.table, g, off);
    HolderUnique(g, off, i, j);
  }

  lemma FirstOffset(g: Segments)
    ensures Offset(g, 0) == g.base
  {
    assert g.parts[..0] == [];
  }

  /** READ at any offset inside partition j, when the rest of the partition stops scanning before there are
      enough messages: an invalid offset, not found when it just ends without a message, or the panic. */
  lemma ReadStops(cfg: Config, s: State, g: Segments, off: uint64, want: int, j: nat, bs: seq<Bytes>, t: Bytes)
    requires Represents(cfg, s, g) && want >= 1 && off < TWO_63
    requires IsHolder(g, off, j) && off - Offset(g, j) < |g.parts[j]|
    requires StopsBehind(cfg, g.parts[j][off - Offset(g, j)..], bs, t, 0, want)
    ensures WellFormed(s.table)
    ensures var r, e := HandleRead(cfg, s, off, want), ReadBatch(cfg, BUF_SIZE, t).err;
            && (e == Panic ==> r == ReadError(Panic))
            && (e == EOF && Messages(cfg, bs) <= 0 ==> r == ReadError(NotFound))
            && (e != Panic && e != EOF ==> r == ReadError(InvalidOffset))
  {
    hide ReadBatch, Represents, GatherFrom, Lookup, Offset, StopsBehind, Messages, WellFormed;
    LookupInside(cfg, s, g, off, j);
    GatherStops(cfg, s.files, Offset(g, j), off - Offset(g, j), 0, want, Plan([], 0), bs, t);
  }

  /** The first bytes at the offset already decide when they are no batch. */
  lemma ReadAtNoBatch(cfg: Config, s: State, g: Segments, off: uint64, want: int, j: nat)
    requires Represents(cfg, s, g) && want >= 1 && off < TWO_63
    requires IsHolder(g, off, j) && off - Offset(g, j) < |g.parts[j]|
    requires ReadBatch(cfg, BUF_SIZE, g.parts[j][off - Offset(g, j)..]).Failed?
    ensures WellFormed(s.table)
    ensures HandleRead(cfg, s, off, want) ==
            match ReadBatch(cfg, BUF_SIZE, g.parts[j][off - Offset(g, j)..]).err
            case EOF => ReadError(NotFound)
            case Panic => ReadError(Panic)
            case _ => ReadError(InvalidOffset)
  {
    hide ReadBatch, Represents, HandleRead, Offset, WellFormed;
    var rest := g.parts[j][off - Offset(g, j)..];
    assert Flat([]) + rest == rest;
    assert StopsBehind(cfg, rest, [], rest, 0, want);
    ReadStops(cfg, s, g, off, want, j, [], rest);
  }

  /** The bytes from one to five bytes into a batch are no batch. */
  lemma InsideStart(cfg: Config, b: Bytes, t: Bytes, x: nat)
    requires Whole(cfg, b) && 1 <= x <= 5
    ensures |b| >= 6 && b == BATCH_START + b[6..]
    ensures ReadBatch(cfg, BUF_SIZE, b[x..] + t).Failed? && ReadBatch(cfg, BUF_SIZE, b[x..] + t).err == InvalidLine
  {
    assert b == BATCH_START + b[6..] by {
      hide ReadStart, ReadFields, Validate;
      StartIs(BUF_SIZE, b);
    }
    hide ReadFields, Whole, IndexOf;
    var s, w := b[x..] + t, BATCH_START[x..];
    assert s == w + (b[6..] + t);
    assert forall i :: 0 <= i < 5 - x ==> s[i] == BATCH_START[x + i];
    assert s[5 - x] == BATCH_START[5];
    IndexOfIs(s, SPACE, 5 - x);
    assert s[..6 - x] == w;
    assert |w| < |BATCH_START|;
  }

  /** READ one to five bytes into any retained batch is an invalid offset. */
  lemma ReadInsideIsInvalid(cfg: Config, s: State, a: Log, p: nat, b: nat, x: nat, want: int)
    requires ReadableState(cfg, s, a) && want >= 1
    requires p < |a.live| && b < |a.live[p]| && 1 <= x <= 5
    ensures WellFormed(s.table)
    ensures var off := Offset(Segs(a), p) + |Flat(a.live[p][..b])| + x;
            off < TWO_63 && HandleRead(cfg, s, off, want) == ReadError(InvalidOffset)
  {
    hide ReadableState, HandleRead, Whole, ReadBatch, Offset, Flat, WellFormed;
    var g, l := Segs(a), a.live[p];
    var batch, t := l[b], Flat(l[b + 1..]);
    ReadableParts(cfg, s, a, p);
    SplitAt(l, b);
    assert Whole(cfg, batch);
    InsideStart(cfg, batch, t, x);
    var d := |Flat(l[..b])| + x;
    var off := Offset(g, p) + d;
    assert g.parts[p] == Flat(l);
    assert g.parts[p][d..] == batch[x..] + t by { DropInside(Flat(l[..b]), batch, t, x); }
    InPartition(g, p, d);
    EndOfPart(a, p);
    ReadAtNoBatch(cfg, s, g, off, want, p);
  }

  lemma ReadableParts(cfg: Config, s: State, a: Log, p: nat)
    requires ReadableState(cfg, s, a) && p < |a.live|
    ensures Represents(cfg, s, Segs(a)) && Counted(cfg, a.live[p]) && |Flat(History(a))| < TWO_63
  {}

  lemma SplitAt(l: seq<Bytes>, b: nat)
    requires b < |l|
    ensures Flat(l) == Flat(l[..b]) + (l[b] + Flat(l[b + 1..]))
  {
    FlatSplit(l, b);
    assert l[b..][0] == l[b] && l[b..][1..] == l[b + 1..];
  }

  lemma DropInside(front: Bytes, b: Bytes, t: Bytes, x: nat)
    requires x <= |b|
    ensures (front + (b + t))[|front| + x..] == b[x..] + t
  {}

  /** An offset less than the length of partition p behind its start lies in it. */
  lemma InPartition(g: Segments, p: nat, d: nat)
    requires p < |g.parts| && d < |g.parts[p]|
    ensures IsHolder(g, Offset(g, p) + d, p)
  {
    hide Offset;
    OffsetStep(g, p);
  }

  lemma EndOfPart(a: Log, p: nat)
    requires p < |a.live|
    ensures Offset(Segs(a), p) + |Flat(a.live[p])| <= |Flat(History(a))|
  {
    hide Offset, Flat;
    var g := Segs(a);
    OffsetStep(g, p);
    OffsetMonotone(g, p + 1, |g.parts|);
    EndIsHistoryLength(a);
    EndIsOffset(g);
  }

  // ----- enough messages in one partition

  /** READ at any offset inside partition j from which enough messages scan before the partition ends:
      exactly the batches up to the one that makes up the number. */
  lemma ReadEnough(cfg: Config, s: State, g: Segments, off: uint64, want: int, j: nat, bs: seq<Bytes>, last: Bytes,
                   t: Bytes)
    requires Represents(cfg, s, g) && want >= 1 && off < TWO_63
    requires IsHolder(g, off, j) && off - Offset(g, j) < |g.parts[j]|
    requires g.parts[j][off - Offset(g, j)..] == Flat(bs) + (last + t)
    requires Scannable(cfg, bs) && Scannable(cfg, [last]) && Below(cfg, bs, 0, want)
    requires Messages(cfg, bs) + Count(cfg, last) >= want
    ensures WellFormed(s.table)
    ensures HandleRead(cfg, s, off, want) == ReadOk(off, |bs| + 1, Flat(bs) + last)
  {
    hide Represents, Lookup, Offset, Scannable, Below, Messages, Count, Flat, WellFormed, GatherFrom, Serve;
    var delta, data := off - Offset(g, j), Flat(bs) + last;
    LookupInside(cfg, s, g, off, j);
    SolidRep(cfg, s, g);
    assert last != [] by { ScannableTail(cfg, [last]); }
    assert Flat(bs) + (last + t) == data + t;
    GatherEnough(cfg, s.files, Offset(g, j), delta, want, bs, last, t);
    ServeOne(s.files, Offset(g, j), delta, data, t);
  }

  lemma GatherEnough(cfg: Config, files: Files, curr: nat, delta: nat, want: int, bs: seq<Bytes>, last: Bytes, t: Bytes)
    requires curr in files && delta < |files[curr]| && want >= 1 && cfg.maxPartitions >= 1
    requires files[curr][delta..] == Flat(bs) + (last + t)
    requires Scannable(cfg, bs) && Scannable(cfg, [last]) && Below(cfg, bs, 0, want)
    requires Messages(cfg, bs) + Count(cfg, last) >= want
    ensures GatherFrom(cfg, files, curr, delta, 0, want, Plan([], 0))
            == Gathered(Plan([Args(curr, delta, |Flat(bs) + last|)], |bs| + 1))
  {
    hide ReadBatch, Scannable, Below, Messages, Count, Flat;
    ScannableTail(cfg, [last]);
    ScanThrough(cfg, bs, last + t, 0, 0, 0, want);
    ReadBatchExtend(cfg, BUF_SIZE, last, t);
    assert [] + t == t;
    assert Clip(files[curr], delta, |files[curr]|) == files[curr][delta..];
    var args := Args(curr, delta, |Flat(bs) + last|);
    assert [] + [args] == [args];
  }

  lemma ServeOne(files: Files, off: nat, delta: nat, data: Bytes, t: Bytes)
    requires off in files && delta < |files[off]| && files[off][delta..] == data + t && data != []
    ensures Serve(files, [Args(off, delta, |data|)]) == Some(data)
  {
    NoArgsServed(files);
    var args := Args(off, delta, |data|);
    assert [args][..0] == [];
    assert Clip(files[off], delta, |data|) == data;
    assert [] + data == data;
  }
}
