/** The steps of a topic refine the steps of its segments: batches, restarts and crashes. */
module TopicRefinement {
  import opened ByteSeqs
  import opened Configs
  import opened Repair
  import opened PartitionTable
  import opened TopicState

  function Last(g: Segments): Bytes
    requires g.parts != []
  {
    g.parts[|g.parts| - 1]
  }

  // ----- handleBatch

  /** The whole step follows the segments: the reply is the end offset, the file is opened, written,
      and the oldest one evicted in step with the table. */
  lemma BatchRefines(cfg: Config, s: State, g: Segments, raw: Bytes)
    requires Represents(cfg, s, g)
    requires Last(g) != [] || |raw| < cfg.partitionSize
    ensures WellFormed(s.table)
    ensures var (s', reply) := HandleAccepted(cfg, s, raw);
            reply == Acked(End(g)) && Represents(cfg, s', AppendSegs(cfg, g, raw))
  {
    hide Offset, Flat, DiskRep, TableRep, AddPartition, GrowHead;
    HeadRep(cfg.maxPartitions, s.table, g);
    if ShouldRotate(cfg, s.table, |raw|) {
      RotateRefines(cfg, s, g, raw);
    } else {
      GrowHeadRep(cfg.maxPartitions, s.table, g, raw);
      DiskSetLast(s.files, g, Last(g) + raw);
      OpenHead(s.files, g);
    }
  }

  lemma OpenHead(files: Files, g: Segments)
    requires g.parts != [] && DiskRep(files, g)
    ensures var o := Offset(g, |g.parts| - 1); o in files && files[o] == Last(g)
  {}

  function Append(g: Segments, more: seq<Bytes>): Segments
  {
    g.(parts := g.parts + more)
  }

  /** add removes the oldest file exactly when it drops the oldest record. */
  lemma AddPartitionRep(max: nat, t: Table, files: Files, g: Segments, more: seq<Bytes>, size: nat)
    requires TableRep(max, t, g) && g.parts + more != []
    requires Solid(Append(g, more)) && DiskRep(files, Append(g, more))
    requires more != []
    ensures WellFormed(t)
    ensures var r := AddPartition(t, files, End(g), size);
            && r.Added? && r.table == AddPart(t, End(g), size)
            && DiskRep(r.files, Append(Room(max, g), more)) && Solid(Append(Room(max, g), more))
  {
    hide Offset, Flat, TableRep, DiskRep, IsFull, AddPart;
    FullIffAllLive(max, t, g);
    var whole := Append(g, more);
    if |g.parts| == max {
      DiskDrop(files, whole);
      assert whole.parts[1..] == g.parts[1..] + more;
    }
  }

  lemma RotateRefines(cfg: Config, s: State, g: Segments, raw: Bytes)
    requires Represents(cfg, s, g) && Last(g) != []
    requires WellFormed(s.table) && ShouldRotate(cfg, s.table, |raw|)
    ensures var (s', reply) := HandleAccepted(cfg, s, raw);
            reply == Acked(End(g)) && Represents(cfg, s', Push(cfg.maxPartitions, g, raw))
  {
    hide Offset, Flat, DiskRep, TableRep, IsFull, Room;
    var max, t := cfg.maxPartitions, s.table;
    HeadRep(max, t, g);
    FullIffAllLive(max, t, g);
    DiskPush(s.files, g, raw);
    RotatedFiles(s.files, End(g), raw);
    AddPartitionRep(max, t, s.files[End(g) := raw], g, [raw], 0);
    RotatedTable(max, t, g, raw);
    PushEnd(max, g, raw);
  }

  lemma RotatedFiles(files: Files, off: nat, raw: Bytes)
    requires off !in files
    ensures WriteFile(OpenFile(files, off), off, raw) == files[off := raw]
  {
    assert [] + raw == raw;
  }

  lemma RotatedTable(max: nat, t: Table, g: Segments, raw: Bytes)
    requires TableRep(max, t, g) && g.parts != [] && Last(g) != []
    ensures WellFormed(t)
    ensures TableRep(max, GrowHead(AddPart(t, End(g), 0), |raw|), Push(max, g, raw))
  {
    hide Offset, Flat, TableRep, AddPart, Room;
    AddPartRep(max, t, g, []);
    var pushed := Push(max, g, []);
    GrowHeadRep(max, AddPart(t, End(g), 0), pushed, raw);
    assert [] + raw == raw;
    assert SetLast(pushed, [] + raw) == Push(max, g, raw);
  }

  lemma SolidRep(cfg: Config, s: State, g: Segments)
    requires Represents(cfg, s, g)
    ensures g.parts != [] && Solid(g) && |g.parts| <= cfg.maxPartitions && DiskRep(s.files, g) && WellFormed(s.table)
  {
    FullIffAllLive(cfg.maxPartitions, s.table, g);
    HeadRep(cfg.maxPartitions, s.table, g);
  }

  /** The new partition starts where the log ended. */
  lemma PushEnd(max: nat, g: Segments, part: Bytes)
    requires max >= 1
    ensures var h := Push(max, g, part);
            && h.parts != [] && Last(h) == part
            && Offset(h, |h.parts| - 1) == End(g) && End(h) == End(g) + |part|
  {
    var n, h := |g.parts|, Push(max, g, part);
    if n < max || n == 0 {
      OffsetsOfPrefix(g, part, n);
    } else {
      OffsetsAfterDrop(g, [part], n);
    }
    assert g.parts[..n] == g.parts;
    OffsetStep(h, |h.parts| - 1);
  }

  /** Without the size hypothesis the table breaks, and exactly then: a batch of PartitionSize bytes
      or more that arrives at an empty head rotates onto the same offset, and no segments describe
      the result. */
  lemma BatchRefinesIff(cfg: Config, s: State, g: Segments, raw: Bytes)
    requires Represents(cfg, s, g)
    ensures WellFormed(s.table)
    ensures (exists h :: Represents(cfg, HandleAccepted(cfg, s, raw).0, h))
            <==> (Last(g) != [] || |raw| < cfg.partitionSize)
  {
    HeadRep(cfg.maxPartitions, s.table, g);
    if Last(g) != [] || |raw| < cfg.partitionSize {
      BatchRefines(cfg, s, g, raw);
    } else {
      forall h ensures !Represents(cfg, HandleAccepted(cfg, s, raw).0, h) {
        EmptyHeadBreaks(cfg, s, g, raw, h);
      }
    }
  }

  lemma EmptyHeadBreaks(cfg: Config, s: State, g: Segments, raw: Bytes, h: Segments)
    requires Represents(cfg, s, g)
    requires Last(g) == [] && |raw| >= cfg.partitionSize
    ensures WellFormed(s.table)
    ensures !Represents(cfg, HandleAccepted(cfg, s, raw).0, h)
  {
    hide Offset;
    var max, t, n := cfg.maxPartitions, s.table, |g.parts|;
    HeadRep(max, t, g);
    FullIffAllLive(max, t, g);
    OffsetStep(g, 0);
    OffsetStep(g, n - 1);
    var s' := HandleAccepted(cfg, s, raw).0;
    assert s.open == End(g) && End(g) in s.files;
    var written := WriteFile(s.files, End(g), raw);
    assert IsFull(t) ==> t.parts[0].start in written;
    var t' := s'.table;
    var k := t'.head;
    assert k >= 1 && t'.parts[k - 1].start == t'.parts[k].start == End(g);
    if |h.parts| == k + 1 {
      OffsetMonotone(h, k - 1, k);
    }
  }

  // ----- setupPartitions

  function PushAll(max: nat, w: Segments, rest: seq<Bytes>): Segments
    decreases |rest|
  {
    if rest == [] then w else PushAll(max, Push(max, w, rest[0]), rest[1..])
  }

  /** The newest partitions that fit the table. */
  function Newest(max: nat, g: Segments): (r: Segments)
    requires max >= 1
    ensures |r.parts| <= max && (g.parts != [] ==> r.parts != [])
    decreases |g.parts|
  {
    if |g.parts| <= max then g else Newest(max, Segments(g.base + |g.parts[0]|, g.parts[1..]))
  }

  lemma {:induction false} PushAllIsNewest(max: nat, w: Segments, rest: seq<Bytes>)
    requires 1 <= max && |w.parts| <= max
    ensures PushAll(max, w, rest) == Newest(max, Append(w, rest))
    decreases |rest|
  {
    if rest == [] {
      assert w.parts + [] == w.parts;
    } else {
      PushAllIsNewest(max, Push(max, w, rest[0]), rest[1..]);
      PushAppend(max, w, rest);
      var whole := Append(w, rest);
      if |w.parts| == max {
        assert whole.parts[1..] == w.parts[1..] + rest;
        assert whole.parts[0] == w.parts[0];
      }
    }
  }

  lemma PushAppend(max: nat, w: Segments, rest: seq<Bytes>)
    requires rest != []
    ensures Append(Push(max, w, rest[0]), rest[1..]) == Append(Room(max, w), rest)
  {
    var r := Room(max, w).parts;
    assert r + [rest[0]] + rest[1..] == r + rest;
  }

  /** The remaining files keep their offsets while the oldest ones are evicted. */
  ghost predicate Upcoming(w: Segments, rest: seq<Bytes>, offs: seq<nat>, sizes: Files)
  {
    && |offs| == |rest|
    && forall i :: 0 <= i < |rest| ==>
         offs[i] == Offset(Append(w, rest), |w.parts| + i) && offs[i] in sizes && sizes[offs[i]] == rest[i]
  }

  lemma UpcomingStep(max: nat, w: Segments, rest: seq<Bytes>, offs: seq<nat>, sizes: Files)
    requires 1 <= max && rest != [] && Upcoming(w, rest, offs, sizes)
    ensures offs[0] == End(w)
    ensures Upcoming(Push(max, w, rest[0]), rest[1..], offs[1..], sizes)
  {
    hide Flat, Offset;
    var w', r := Push(max, w, rest[0]), rest[1..];
    UpcomingFirst(w, rest);
    forall i | 0 <= i < |r|
      ensures Offset(Append(w', r), |w'.parts| + i) == offs[1..][i]
    {
      UpcomingOffset(max, w, rest, i);
    }
  }

  lemma UpcomingFirst(w: Segments, rest: seq<Bytes>)
    ensures Offset(Append(w, rest), |w.parts|) == End(w)
  {
    assert Append(w, rest).parts[..|w.parts|] == w.parts;
  }

  lemma UpcomingOffset(max: nat, w: Segments, rest: seq<Bytes>, i: nat)
    requires 1 <= max && i + 1 < |rest|
    ensures var w' := Push(max, w, rest[0]);
            Offset(Append(w', rest[1..]), |w'.parts| + i) == Offset(Append(w, rest), |w.parts| + i + 1)
  {
    hide Flat, Offset;
    PushAppend(max, w, rest);
    var whole := Append(w, rest);
    if !(|w.parts| < max || w.parts == []) {
      assert whole.parts[1..] == w.parts[1..] + rest == whole.parts[1..] + [];
      OffsetsAfterDrop(whole, [], |w.parts| + i + 1);
    }
  }

  /** The load loop rebuilds the table of the newest partitions and evicts the rest. */
  lemma {:induction false} LoadRep(max: nat, t: Table, files: Files, sizes: Files, w: Segments, rest: seq<Bytes>,
                                   offs: seq<nat>)
    requires TableRep(max, t, w)
    requires Solid(Append(w, rest)) && DiskRep(files, Append(w, rest))
    requires Upcoming(w, rest, offs, sizes)
    ensures WellFormed(t) && forall o :: o in offs ==> o in sizes
    ensures var r := Load(t, files, sizes, offs);
            r.Added? && TableRep(max, r.table, PushAll(max, w, rest)) && DiskRep(r.files, PushAll(max, w, rest))
    decreases |rest|
  {
    hide Offset, Flat, TableRep, DiskRep, IsFull, Room, AddPart;
    FullIffAllLive(max, t, w);
    if rest == [] {
      assert w.parts + [] == w.parts;
    } else {
      UpcomingStep(max, w, rest, offs, sizes);
      assert w.parts != [] ==> Append(w, rest).parts[|w.parts| - 1] != [];
      AddPartitionRep(max, t, files, w, rest, |rest[0]|);
      AddPartRep(max, t, w, rest[0]);
      PushAppend(max, w, rest);
      var added := AddPartition(t, files, offs[0], |rest[0]|);
      LoadRep(max, added.table, added.files, sizes, Push(max, w, rest[0]), rest[1..], offs[1..]);
      assert forall o :: o in offs ==> o == offs[0] || o in offs[1..];
    }
  }

  lemma EmptyTableRep(max: nat, base: nat)
    requires max >= 2
    ensures TableRep(max, EmptyTable(max), Segments(base, []))
  {}

  /** Starting on an empty directory gives the empty log. */
  lemma SetupEmpty(cfg: Config)
    requires cfg.maxPartitions >= 2
    ensures var r := Setup(cfg, map[]);
            r.Started? && Represents(cfg, r.state, Segments(0, [[]]))
  {
    var files: Files := map[];
    var g := Segments(0, [[]]);
    ListingUnique({}, Listing(files.Keys), []);
    assert g.parts[..0] == [];
  }

  function OffsetsOf(g: Segments): (o: seq<nat>)
    ensures |o| == |g.parts| && forall i :: 0 <= i < |o| ==> o[i] == Offset(g, i)
  {
    seq(|g.parts|, i requires 0 <= i < |g.parts| => Offset(g, i))
  }

  /** The listing of a directory that holds the segments is the list of their offsets. */
  lemma ListingOfDisk(files: Files, g: Segments)
    requires Solid(g) && DiskRep(files, g)
    ensures OffsetsOf(g) == Listing(files.Keys)
  {
    hide Offset, OffsetsOf;
    var offs := OffsetsOf(g);
    forall i, j | 0 <= i < j < |offs| ensures offs[i] < offs[j] {
      OffsetMonotone(g, i, j);
    }
    forall x | x in files.Keys ensures x in offs {
      var i :| 0 <= i < |g.parts| && x == Offset(g, i);
      assert offs[i] == x;
    }
    ListingUnique(files.Keys, offs, Listing(files.Keys));
  }

  lemma AllUpcoming(files: Files, g: Segments)
    requires DiskRep(files, g)
    ensures Upcoming(Segments(g.base, []), g.parts, OffsetsOf(g), files)
  {
    hide Offset, OffsetsOf, Append;
    var w, offs := Segments(g.base, []), OffsetsOf(g);
    AppendAll(g);
    forall i | 0 <= i < |g.parts|
      ensures offs[i] == Offset(Append(w, g.parts), |w.parts| + i) && offs[i] in files && files[offs[i]] == g.parts[i]
    {
      assert offs[i] == Offset(g, i);
    }
  }

  lemma AppendAll(g: Segments)
    ensures Append(Segments(g.base, []), g.parts) == g
  {
    assert [] + g.parts == g.parts;
  }

  /** The state start-up reaches from files that hold the segments `g`. */
  function Recovered(cfg: Config, g: Segments): (r: Segments)
    requires g.parts != [] && cfg.maxPartitions >= 1
    ensures r.parts != []
  {
    var w := Newest(cfg.maxPartitions, g);
    SetLast(w, Repaired(cfg, Last(w)))
  }

  /** Start-up from any number of consecutive partition files, also more than the table holds:
      the newest ones become the table, the others are removed, and the newest file is repaired. */
  lemma SetupRefines(cfg: Config, files: Files, g: Segments)
    requires cfg.maxPartitions >= 2
    requires g.parts != [] && Solid(g) && DiskRep(files, g)
    requires Check(cfg, Last(g)) != Crashes
    ensures var r := Setup(cfg, files);
            r.Started? && Represents(cfg, r.state, Recovered(cfg, g))
  {
    hide Offset, Flat, TableRep, DiskRep, IsFull, Room, AddPart, Newest, Check;
    var max := cfg.maxPartitions;
    hide OffsetsOf;
    var offs := OffsetsOf(g);
    ListingOfDisk(files, g);
    AllUpcoming(files, g);
    var start := Segments(g.base, []);
    EmptyTableRep(max, g.base);
    assert Append(start, g.parts) == g by { assert [] + g.parts == g.parts; }
    LoadRep(max, EmptyTable(max), files, files, start, g.parts, offs);
    PushAllIsNewest(max, start, g.parts);
    NewestLast(max, g);
    var r := Load(EmptyTable(max), files, files, offs);
    FinishRefines(cfg, r.table, r.files, Newest(max, g));
    assert |offs| == |g.parts|;
  }

  lemma {:induction false} NewestLast(max: nat, g: Segments)
    requires 1 <= max && g.parts != []
    ensures Last(Newest(max, g)) == Last(g)
    ensures End(Newest(max, g)) == End(g)
    ensures Solid(g) ==> Solid(Newest(max, g))
    decreases |g.parts|
  {
    if |g.parts| > max {
      NewestLast(max, Segments(g.base + |g.parts[0]|, g.parts[1..]));
      assert Flat(g.parts) == g.parts[0] + Flat(g.parts[1..]);
    }
  }

  lemma FinishRefines(cfg: Config, t: Table, files: Files, w: Segments)
    requires w.parts != [] && TableRep(cfg.maxPartitions, t, w) && DiskRep(files, w)
    requires Check(cfg, Last(w)) != Crashes
    ensures WellFormed(t)
    ensures var r := Finish(cfg, t, files);
            r.Started? && Represents(cfg, r.state, SetLast(w, Repaired(cfg, Last(w))))
  {
    hide Flat, Check, Offset, TableRep, DiskRep;
    HeadRep(cfg.maxPartitions, t, w);
    OpenHead(files, w);
    var last := Last(w);
    if last == [] || Check(cfg, last) == Intact {
      EmptyIsIntact(cfg);
      assert SetLast(w, last) == w;
    } else {
      var k := Check(cfg, last).length;
      DiskSetLast(files, w, last[..k]);
      CutHeadRep(cfg.maxPartitions, t, w, k);
    }
  }

  lemma CutHeadRep(max: nat, t: Table, w: Segments, k: nat)
    requires w.parts != [] && TableRep(max, t, w) && k <= |Last(w)|
    ensures WellFormed(t)
    ensures TableRep(max, t.(parts := t.parts[t.head := t.parts[t.head].(size := k)]), SetLast(w, Last(w)[..k]))
  {
    hide Flat;
    var g := SetLast(w, Last(w)[..k]);
    forall i | 0 <= i < |w.parts| ensures Offset(g, i) == Offset(w, i) {
      assert g.parts[..i] == w.parts[..i];
    }
  }

  lemma EmptyIsIntact(cfg: Config)
    ensures Check(cfg, []) == Intact
  {}
}
