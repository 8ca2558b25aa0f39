/** The partition table of events/partitions.go on values: a fixed array of records, filled from the
    left and then rotated in place. A record whose start offset is 0 doubles as an empty slot. */
module PartitionTable {
  import opened ByteSeqs
  import opened Decimal
  import opened Configs

  datatype Rec = Rec(start: nat, nbatches: nat, size: nat)

  /** `head` is the index of the record that p.head points to. */
  datatype Table = Table(parts: seq<Rec>, nparts: nat, head: nat)

  predicate WellFormed(t: Table)
  {
    t.nparts < |t.parts| && t.head < |t.parts|
  }

  function EmptyTable(max: nat): Table
  {
    Table(seq(max, _ => Rec(0, 0, 0)), 0, 0)
  }

  function Rotated<T>(parts: seq<T>): seq<T>
  {
    if parts == [] then [] else parts[1..] + [parts[0]]
  }

  /** The test by which add decides that the oldest partition has to go. */
  predicate IsFull(t: Table)
    requires WellFormed(t)
  {
    t.nparts == |t.parts| - 1 && t.parts[t.nparts].start != 0
  }

  /** partitions.add, apart from the file it removes. */
  function AddPart(t: Table, off: nat, size: nat): (r: Table)
    requires WellFormed(t)
    ensures WellFormed(r) && |r.parts| == |t.parts|
  {
    var parts := if IsFull(t) then Rotated(t.parts) else t.parts;
    Table(parts[t.nparts := Rec(off, 0, size)],
          if t.nparts < |parts| - 1 then t.nparts + 1 else t.nparts,
          t.nparts)
  }

  predicate ShouldRotate(cfg: Config, t: Table, size: nat)
    requires WellFormed(t)
  {
    size >= cfg.partitionSize - t.parts[t.head].size
  }

  function NextOffset(t: Table): nat
    requires WellFormed(t)
  {
    t.parts[t.head].start + t.parts[t.head].size
  }

  /** partition.addBatch on the head record. */
  function GrowHead(t: Table, size: nat): (r: Table)
    requires WellFormed(t)
    ensures WellFormed(r)
  {
    var h := t.parts[t.head];
    t.(parts := t.parts[t.head := Rec(h.start, h.nbatches + 1, h.size + size)])
  }

  datatype Found = Found(start: nat, delta: int) | Missing(err: Error)

  /** partitions.lookup from slot `i` downwards. */
  function LookupFrom(t: Table, off: uint64, i: nat): Found
    requires WellFormed(t) && i < |t.parts|
  {
    if i == t.nparts && t.nparts > 0 && t.parts[i].start == 0 then LookupFrom(t, off, i - 1)
    else if off >= t.parts[i].start then Found(t.parts[i].start, ToInt(off - t.parts[i].start))
    else if i == 0 then Missing(NotFound)
    else LookupFrom(t, off, i - 1)
  }

  function Lookup(t: Table, off: uint64): Found
    requires WellFormed(t)
  {
    if t.nparts == 0 then Missing(NoPartitions) else LookupFrom(t, off, t.nparts)
  }

  // ----- what a table stands for

  /** A run of partition contents; the first starts at byte `base` of the topic's history. */
  datatype Segments = Segments(base: nat, parts: seq<Bytes>)

  function Offset(g: Segments, i: nat): nat
    requires i <= |g.parts|
  {
    g.base + |Flat(g.parts[..i])|
  }

  function End(g: Segments): nat { g.base + |Flat(g.parts)| }

  /** Every partition but the newest holds something. */
  predicate Solid(g: Segments)
  {
    forall i :: 0 <= i < |g.parts| - 1 ==> g.parts[i] != []
  }

  lemma OffsetStep(g: Segments, i: nat)
    requires i < |g.parts|
    ensures Offset(g, i + 1) == Offset(g, i) + |g.parts[i]|
    ensures Offset(g, 0) == g.base && Offset(g, |g.parts|) == End(g)
  {
    FlatSnoc(g.parts[..i], g.parts[i]);
    assert g.parts[..i + 1] == g.parts[..i] + [g.parts[i]];
    assert g.parts[..|g.parts|] == g.parts;
  }

  lemma {:induction false} OffsetMonotone(g: Segments, i: nat, j: nat)
    requires i <= j <= |g.parts|
    ensures Offset(g, i) <= Offset(g, j)
    ensures Solid(g) && i < j < |g.parts| ==> Offset(g, i) < Offset(g, j)
    decreases j - i
  {
    if i < j {
      OffsetStep(g, i);
      OffsetMonotone(g, i + 1, j);
    }
  }

  /** The record of slot i matches partition i, slots past the newest are empty, and the counters
      are where add leaves them. */
  ghost predicate TableRep(max: nat, t: Table, g: Segments)
  {
    && 2 <= max == |t.parts| && |g.parts| <= max
    && Solid(g)
    && (forall i :: 0 <= i < |g.parts| ==> t.parts[i].start == Offset(g, i) && t.parts[i].size == |g.parts[i]|)
    && (forall i :: |g.parts| <= i < max ==> t.parts[i].start == 0)
    && t.nparts == (if |g.parts| < max then |g.parts| else max - 1)
    && t.head == (if |g.parts| == 0 then 0 else |g.parts| - 1)
  }

  /** Without its oldest partition when there is no slot left. */
  function Room(max: nat, g: Segments): Segments
  {
    if |g.parts| < max || g.parts == [] then g else Segments(g.base + |g.parts[0]|, g.parts[1..])
  }

  /** A new newest partition. */
  function Push(max: nat, g: Segments, part: Bytes): Segments
  {
    var r := Room(max, g);
    Segments(r.base, r.parts + [part])
  }

  /** The newest partition replaced. */
  function SetLast(g: Segments, part: Bytes): Segments
    requires g.parts != []
  {
    g.(parts := g.parts[..|g.parts| - 1] + [part])
  }

  /** The sentinel test is exact: a table is full precisely when every slot holds a partition. */
  lemma FullIffAllLive(max: nat, t: Table, g: Segments)
    requires TableRep(max, t, g)
    ensures WellFormed(t) && 2 <= max && |g.parts| <= max
    ensures IsFull(t) <==> |g.parts| == max
    ensures g.parts != [] ==> t.parts[0].start == g.base
  {
    if |g.parts| == max {
      OffsetMonotone(g, 0, max - 1);
    }
    if g.parts != [] { OffsetStep(g, 0); }
  }

  lemma OffsetsOfPrefix(g: Segments, part: Bytes, i: nat)
    requires i <= |g.parts|
    ensures Offset(g.(parts := g.parts + [part]), i) == Offset(g, i)
  {
    assert (g.parts + [part])[..i] == g.parts[..i];
  }

  lemma EndIsOffset(g: Segments)
    ensures Offset(g, |g.parts|) == End(g)
  {
    assert g.parts[..|g.parts|] == g.parts;
  }

  lemma OffsetsAfterDrop(g: Segments, more: seq<Bytes>, i: nat)
    requires 1 <= i <= |g.parts|
    ensures Offset(Segments(g.base + |g.parts[0]|, g.parts[1..] + more), i - 1) == Offset(g, i)
  {
    assert (g.parts[1..] + more)[..i - 1] == g.parts[1..i];
    assert g.parts[..i] == [g.parts[0]] + g.parts[1..i];
    FlatConcat([g.parts[0]], g.parts[1..i]);
    FlatSingle(g.parts[0]);
  }

  /** add keeps the table in step when the new partition starts where the newest one ends. */
  lemma AddPartRep(max: nat, t: Table, g: Segments, part: Bytes)
    requires TableRep(max, t, g)
    requires g.parts != [] ==> g.parts[|g.parts| - 1] != []
    ensures WellFormed(t)
    ensures TableRep(max, AddPart(t, End(g), |part|), Push(max, g, part))
  {
    FullIffAllLive(max, t, g);
    var r, h := AddPart(t, End(g), |part|), Push(max, g, part);
    var n := |g.parts|;
    if n > 0 { OffsetStep(g, n - 1); }
    hide Flat, Offset, End;
    forall i | 0 <= i < |h.parts|
      ensures r.parts[i].start == Offset(h, i) && r.parts[i].size == |h.parts[i]|
    {
      EndIsOffset(g);
      if n < max {
        OffsetsOfPrefix(g, part, i);
      } else {
        OffsetsAfterDrop(g, [part], i + 1);
      }
    }
  }

  /** Growing the head record follows growing the newest partition. */
  lemma GrowHeadRep(max: nat, t: Table, g: Segments, raw: Bytes)
    requires TableRep(max, t, g) && g.parts != []
    ensures WellFormed(t)
    ensures TableRep(max, GrowHead(t, |raw|), SetLast(g, g.parts[|g.parts| - 1] + raw))
  {
    var n := |g.parts|;
    var h := SetLast(g, g.parts[n - 1] + raw);
    forall i | 0 <= i < n
      ensures Offset(h, i) == Offset(g, i)
    {
      assert h.parts[..i] == g.parts[..i];
    }
  }

  lemma HeadRep(max: nat, t: Table, g: Segments)
    requires TableRep(max, t, g) && g.parts != []
    ensures WellFormed(t)
    ensures NextOffset(t) == End(g)
    ensures t.parts[t.head].start == Offset(g, |g.parts| - 1)
    ensures t.parts[t.head].size == |g.parts[|g.parts| - 1]|
    ensures Solid(g)
  {
    OffsetStep(g, |g.parts| - 1);
  }

  lemma {:induction false} LookupFromIs(max: nat, t: Table, g: Segments, off: uint64, i: nat) returns (j: nat)
    requires TableRep(max, t, g) && g.parts != [] && i <= t.nparts
    requires off >= g.base ==> (i + 1 < |g.parts| ==> off < Offset(g, i + 1))
    ensures WellFormed(t)
    ensures off < g.base ==> LookupFrom(t, off, i) == Missing(NotFound)
    ensures off >= g.base ==>
              IsHolder(g, off, j) && LookupFrom(t, off, i) == Found(Offset(g, j), ToInt(off - Offset(g, j)))
    decreases i
  {
    hide ToInt, Offset, Flat;
    OffsetStep(g, 0);
    if i == t.nparts && t.parts[i].start == 0 {
      if i < |g.parts| { OffsetMonotone(g, 0, i); }
      j := LookupFromIs(max, t, g, off, i - 1);
    } else {
      OffsetMonotone(g, 0, i);
      if off >= t.parts[i].start || i == 0 {
        j := i;
      } else {
        j := LookupFromIs(max, t, g, off, i - 1);
      }
    }
  }

  /** Partition j is the newest one that starts at or before `off`. */
  predicate IsHolder(g: Segments, off: nat, j: nat)
  {
    && j < |g.parts|
    && Offset(g, j) <= off
    && (j + 1 < |g.parts| ==> off < Offset(g, j + 1))
  }

  lemma HolderUnique(g: Segments, off: nat, i: nat, j: nat)
    requires IsHolder(g, off, i) && IsHolder(g, off, j)
    ensures i == j
  {
    if i < j {
      OffsetMonotone(g, i + 1, j);
    } else if j < i {
      OffsetMonotone(g, j + 1, i);
    }
  }

  /** lookup finds the unique live partition that holds a retained offset, despite the sentinel;
      offsets before the oldest partition are not found. */
  lemma LookupIs(max: nat, t: Table, g: Segments, off: uint64) returns (j: nat)
    requires TableRep(max, t, g) && g.parts != []
    ensures WellFormed(t)
    ensures off < g.base ==> Lookup(t, off) == Missing(NotFound)
    ensures off >= g.base ==>
              IsHolder(g, off, j) && Lookup(t, off) == Found(Offset(g, j), ToInt(off - Offset(g, j)))
  {
    j := LookupFromIs(max, t, g, off, t.nparts);
  }
}
