/** The mutable partition table of events/partitions.go: an array of record objects that add fills
    and rotate permutes in place, over the partition files of one topic. */
module Partitioning {
  import opened ByteSeqs
  import opened Decimal
  import opened Configs
  import opened PartitionTable
  import opened TopicState

  /** The topic directory with the log writer's open file. `synced` is what a crash cannot take back;
      `trail` records the directory after every operation on it. */
  class Disk {
    var files: Files
    var open: nat
    var synced: Files
    ghost var trail: seq<Snapshot>

    constructor (files: Files)
      ensures this.files == files && synced == files && trail == []
    {
      this.files, open, synced, trail := files, 0, files, [];
    }

    ghost function Now(): Snapshot
      reads this
    {
      Snapshot(files, synced)
    }

    /** Writer.SetPartition. */
    method SetPartition(off: nat)
      modifies this
      ensures files == OpenFile(old(files), off) && open == off
      ensures synced == OpenFile(old(synced), off)
      ensures trail == old(trail) + [Now()]
    {
      files, synced, open := OpenFile(files, off), OpenFile(synced, off), off;
      trail := trail + [Now()];
    }

    /** Writer.Write: appended to the open file, not yet synced. */
    method Write(data: Bytes)
      modifies this`files, this`trail
      ensures files == WriteFile(old(files), open, data)
      ensures trail == old(trail) + [Now()]
    {
      files := WriteFile(files, open, data);
      trail := trail + [Now()];
    }

    /** Writer.Flush: fsync of the open file. */
    method Flush()
      modifies this`synced, this`trail
      ensures synced == Flushed(files, old(synced), open)
      ensures trail == old(trail) + [Now()]
    {
      if open in files {
        synced := synced[open := files[open]];
      }
      trail := trail + [Now()];
    }

    /** Partitions.Remove: the file leaves the directory. */
    method Remove(off: nat) returns (err: Option<Error>)
      modifies this`files, this`synced, this`trail
      ensures err == if off in old(files) then None else Some(NoSuchFile)
      ensures err == None ==> files == old(files) - {off} && synced == old(synced) - {off}
      ensures err == None ==> trail == old(trail) + [Now()]
      ensures err != None ==> files == old(files) && synced == old(synced) && trail == old(trail)
    {
      if off !in files { return Some(NoSuchFile); }
      files, synced := files - {off}, synced - {off};
      trail := trail + [Now()];
      return None;
    }

    /** Repairer.Truncate. */
    method Truncate(off: nat, length: nat)
      requires off in files && length <= |files[off]|
      modifies this`files, this`synced, this`trail
      ensures files == old(files)[off := old(files)[off][..length]]
      ensures old(synced) == old(files) ==> synced == files
      ensures trail == old(trail) + [Now()]
    {
      files := files[off := files[off][..length]];
      if off in synced && length <= |synced[off]| {
        synced := synced[off := synced[off][..length]];
      }
      trail := trail + [Now()];
    }

    /** Partitions.List: the start offsets in ascending order. */
    method List() returns (offs: seq<nat>)
      ensures IsListing(files.Keys, offs)
    {
      offs := [];
      var rest := files.Keys;
      while rest != {}
        invariant rest <= files.Keys && IsListing(files.Keys - rest, offs)
        decreases |rest|
      {
        var x :| x in rest;
        assert x !in offs;
        InsertSortedIs(offs, x);
        ghost var before := offs;
        offs := InsertSorted(offs, x);
        rest := rest - {x};
        assert forall i :: 0 <= i < |offs| ==> offs[i] in offs;
      }
      assert files.Keys - {} == files.Keys;
    }
  }

  /** Taking a file out of the directory takes it out of what is durable. */
  lemma RemovedKeys(before: Files, synced: Files, after: Files)
    ensures after == before ==> synced - (before.Keys - after.Keys) == synced
    ensures forall o :: o in before && after == before - {o} ==>
              before != after && synced - (before.Keys - after.Keys) == synced - {o}
  {
    forall o | o in before && after == before - {o}
      ensures before != after && synced - (before.Keys - after.Keys) == synced - {o}
    {
      assert before.Keys - after.Keys == {o};
    }
    if after == before {
      assert before.Keys - after.Keys == {};
    }
  }

  class Partition {
    var startOffset: nat
    var nbatches: nat
    var size: nat

    constructor ()
      ensures startOffset == 0 && nbatches == 0 && size == 0
    {
      startOffset, nbatches, size := 0, 0, 0;
    }

    function Value(): Rec
      reads this
    {
      Rec(startOffset, nbatches, size)
    }

    method Reset()
      modifies this
      ensures Value() == Rec(0, 0, 0)
    {
      startOffset, nbatches, size := 0, 0, 0;
    }

    method AddBatch(bytes: nat)
      modifies this
      ensures Value() == Rec(old(startOffset), old(nbatches) + 1, old(size) + bytes)
    {
      nbatches := nbatches + 1;
      size := size + bytes;
    }
  }

  /** rotate: swaps the first element step by step to the end. */
  method SwapToEnd<T>(a: array<T>)
    modifies a
    ensures a[..] == Rotated(old(a[..]))
    ensures forall k :: 0 <= k < a.Length - 1 ==> a[k] == old(a[k + 1])
    ensures a.Length > 0 ==> a[a.Length - 1] == old(a[0])
  {
    if a.Length <= 1 { return; }
    var i := 0;
    while i < a.Length - 1
      invariant 0 <= i <= a.Length - 1
      invariant forall k :: 0 <= k < i ==> a[k] == old(a[k + 1])
      invariant a[i] == old(a[0])
      invariant forall k :: i < k < a.Length ==> a[k] == old(a[k])
    {
      a[i], a[i + 1] := a[i + 1], a[i];
      i := i + 1;
    }
  }

  /** The values of a list of records. */
  function Values(ps: seq<Partition>): (r: seq<Rec>)
    reads ps
    ensures |r| == |ps| && forall i :: 0 <= i < |ps| ==> r[i] == ps[i].Value()
  {
    if ps == [] then [] else [ps[0].Value()] + Values(ps[1..])
  }

  class Partitions {
    const cfg: Config
    const disk: Disk
    const parts: array<Partition>
    ghost const owned: set<Partition>
    var head: Partition
    var nparts: nat
    ghost var at: nat  // the index of head

    ghost predicate Valid()
      reads this, parts
    {
      && parts.Length == cfg.maxPartitions
      && nparts < parts.Length && at < parts.Length && parts[at] == head
      && (forall i :: 0 <= i < parts.Length ==> parts[i] in owned)
      && (forall i, j :: 0 <= i < j < parts.Length ==> parts[i] != parts[j])
    }

    ghost function State(): (t: Table)
      requires Valid()
      reads this, parts, owned
      ensures WellFormed(t) && |t.parts| == cfg.maxPartitions
    {
      Table(Values(parts[..]), nparts, at)
    }

    constructor (cfg: Config, disk: Disk)
      requires cfg.maxPartitions >= 1
      ensures this.cfg == cfg && this.disk == disk
      ensures Valid() && fresh(parts) && fresh(owned)
      ensures State() == EmptyTable(cfg.maxPartitions)
    {
      this.cfg, this.disk := cfg, disk;
      var first := new Partition();
      var ps := new Partition[cfg.maxPartitions](_ => first);
      ghost var os := {first};
      for i := 1 to ps.Length
        invariant fresh(ps) && fresh(os)
        invariant forall k :: 0 <= k < ps.Length ==> ps[k] in os && ps[k].Value() == Rec(0, 0, 0)
        invariant forall k :: i <= k < ps.Length ==> ps[k] == ps[0]
        invariant forall j, k :: 0 <= j < k < i ==> ps[j] != ps[k]
      {
        var p := new Partition();
        assert p !in os;
        ps[i] := p;
        os := os + {p};
      }
      parts, owned := ps, os;
      head, nparts, at := ps[0], 0, 0;
      new;
      assert State().parts == EmptyTable(cfg.maxPartitions).parts;
    }

    method Rotate()
      requires Valid()
      modifies parts, this`at
      ensures Valid() && head == old(head) && nparts == old(nparts)
      ensures State().parts == Rotated(old(State().parts))
    {
      hide Values;
      ghost var before := parts[..];
      ghost var values := State().parts;
      SwapToEnd(parts);
      ghost var n := parts.Length;
      at := if at == 0 then n - 1 else at - 1;
      assert forall k :: 0 <= k < n ==> parts[k] == if k < n - 1 then before[k + 1] else before[0];
      assert State().parts == Rotated(values);
    }

    /** The slot after the newest record takes the new one. */
    method Place(off: nat, size: nat)
      requires Valid()
      modifies this`head, this`nparts, this`at, owned
      ensures Valid()
      ensures var t := old(State());
              State() == Table(t.parts[t.nparts := Rec(off, 0, size)],
                               if t.nparts < |t.parts| - 1 then t.nparts + 1 else t.nparts, t.nparts)
    {
      hide Values;
      ghost var before := State().parts;
      var part := parts[nparts];
      part.Reset();
      part.startOffset := off;
      part.size := size;
      head := part;
      at := nparts;
      if nparts < cfg.maxPartitions - 1 {
        nparts := nparts + 1;
      }
      assert State().parts == before[at := Rec(off, 0, size)];
    }

    /** The first half of add: the oldest file and its record go when every slot is taken. */
    method MakeRoom() returns (err: Option<Error>)
      requires Valid()
      modifies this`at, parts, disk`files, disk`synced, disk`trail
      ensures Valid() && nparts == old(nparts)
      ensures var t, fs := old(State()), old(disk.files);
              var oldest := t.parts[0].start;
              if !IsFull(t) then
                && err == None && State() == t && disk.files == fs
                && disk.synced == old(disk.synced) && disk.trail == old(disk.trail)
              else if oldest !in fs then
                err == Some(NoSuchFile) && State() == t && disk.files == fs && disk.synced == old(disk.synced)
                && disk.trail == old(disk.trail)
              else
                err == None && State().parts == Rotated(t.parts) && disk.files == fs - {oldest}
                && disk.synced == old(disk.synced) - {oldest} && disk.trail == old(disk.trail) + [disk.Now()]
    {
      hide Values, Rotated;
      var full := nparts == cfg.maxPartitions - 1 && parts[nparts].startOffset != 0;
      err := None;
      if full {
        err := disk.Remove(parts[0].startOffset);
        if err.Some? { return; }
        hide Partitions.State;
        Rotate();
      }
    }

    /** add. */
    method Add(off: nat, size: nat) returns (err: Option<Error>)
      requires Valid()
      modifies this`head, this`nparts, this`at, parts, owned, disk`files, disk`synced, disk`trail
      ensures Valid()
      ensures match AddPartition(old(State()), old(disk.files), off, size)
              case Added(t, fs) => err == None && State() == t && disk.files == fs
              case AddFailed(e) => err == Some(e) && State() == old(State()) && disk.files == old(disk.files)
      ensures disk.synced == old(disk.synced) - (old(disk.files.Keys) - disk.files.Keys)
      ensures disk.trail == old(disk.trail) + if old(disk.files) == disk.files then [] else [disk.Now()]
    {
      ghost var files, synced := disk.files, disk.synced;
      assert State().nparts == nparts;
      hide Partitions.Valid, Rotated, IsFull;
      err := MakeRoom();
      RemovedKeys(files, synced, disk.files);
      if err.Some? { return; }
      assert State().nparts == nparts;
      hide Partitions.State;
      Place(off, size);
    }

    method ShouldRotate(size: nat) returns (r: bool)
      requires Valid()
      ensures r == PartitionTable.ShouldRotate(cfg, State(), size)
    {
      r := size >= cfg.partitionSize - head.size;
    }

    method NextOffset() returns (r: nat)
      requires Valid()
      ensures r == PartitionTable.NextOffset(State())
    {
      r := head.startOffset + head.size;
    }

    /** The head record's share of addBatch. */
    method GrowHead(bytes: nat)
      requires Valid()
      modifies owned
      ensures Valid() && State() == PartitionTable.GrowHead(old(State()), bytes)
    {
      hide Values;
      ghost var before := State().parts;
      head.AddBatch(bytes);
      assert State().parts == before[at := Rec(before[at].start, before[at].nbatches + 1, before[at].size + bytes)];
    }

    method HeadRecord() returns (r: Rec)
      requires Valid()
      ensures r == State().parts[State().head]
    {
      r := head.Value();
    }

    /** What check does to the head record after truncating its file. */
    method SetHeadSize(n: nat)
      requires Valid()
      modifies owned
      ensures Valid()
      ensures var t := old(State()); State() == t.(parts := t.parts[t.head := t.parts[t.head].(size := n)])
    {
      hide Values;
      ghost var before := State().parts;
      head.size := n;
      assert State().parts == before[at := before[at].(size := n)];
    }

    /** lookup: from the newest slot downwards. */
    method Lookup(off: uint64) returns (r: Found)
      requires Valid()
      ensures r == PartitionTable.Lookup(State(), off)
    {
      if nparts == 0 { return Missing(NoPartitions); }
      var i: int := nparts;
      while i >= 0
        invariant -1 <= i <= nparts
        invariant i >= 0 ==> LookupFrom(State(), off, nparts) == LookupFrom(State(), off, i)
        invariant i == -1 ==> LookupFrom(State(), off, nparts) == Missing(NotFound)
      {
        if i == nparts && parts[i].startOffset == 0 {
          i := i - 1;
          continue;
        }
        if off >= parts[i].startOffset {
          return Found(parts[i].startOffset, ToInt(off - parts[i].startOffset));
        }
        i := i - 1;
      }
      return Missing(NotFound);
    }
  }
}
