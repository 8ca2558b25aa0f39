/** A start-up that is itself interrupted: whatever it has removed or truncated by then, the next start
    reaches what it would have reached. */
module StartUp {
  import opened ByteSeqs
  import opened Configs
  import opened Repair
  import opened PartitionTable
  import opened TopicState
  import opened TopicRefinement

  /** The files hold consecutive partitions from which start-up recovers `r`. */
  ghost predicate Recoverable(cfg: Config, files: Files, g: Segments, r: Segments)
  {
    && cfg.maxPartitions >= 2 && g.parts != [] && Solid(g) && DiskRep(files, g)
    && Check(cfg, Last(g)) != Crashes && Recovered(cfg, g) == r
  }

  /** Every state of the load loop holds the same newest partitions. */
  lemma {:induction false} LoadStepRep(max: nat, t: Table, files: Files, sizes: Files, w: Segments, rest: seq<Bytes>,
    offs: seq<nat>, i: nat)
    returns (h: Segments)
    requires TableRep(max, t, w)
    requires Solid(Append(w, rest)) && DiskRep(files, Append(w, rest))
    requires Upcoming(w, rest, offs, sizes)
    requires WellFormed(t) && forall o :: o in offs ==> o in sizes
    requires i < |LoadSteps(t, files, sizes, offs)|
    ensures rest != [] && h.parts != [] && Solid(h) && DiskRep(LoadSteps(t, files, sizes, offs)[i], h)
    ensures 1 <= max && Newest(max, h) == PushAll(max, w, rest) && Last(h) == rest[|rest| - 1]
    decreases |rest|
  {
    hide Offset, Flat, TableRep, DiskRep, IsFull, Room, AddPart, Newest;
    FullIffAllLive(max, t, w);
    assert rest != [];
    UpcomingStep(max, w, rest, offs, sizes);
    assert w.parts != [] ==> Append(w, rest).parts[|w.parts| - 1] != [];
    AddPartitionRep(max, t, files, w, rest, |rest[0]|);
    AddPartRep(max, t, w, rest[0]);
    PushAppend(max, w, rest);
    var added := AddPartition(t, files, offs[0], |rest[0]|);
    var w' := Push(max, w, rest[0]);
    var first := Changed(files, added.files);
    if i < |first| {
      h := Append(w', rest[1..]);
      FullIffAllLive(max, added.table, w');
      PushAllIsNewest(max, w', rest[1..]);
      assert h.parts[|h.parts| - 1] == rest[|rest| - 1];
    } else {
      assert forall o :: o in offs[1..] ==> o in offs;
      h := LoadStepRep(max, added.table, added.files, sizes, w', rest[1..], offs[1..], i - |first|);
    }
  }

  /** Repairing once is enough. */
  lemma RepairedIsIntact(cfg: Config, data: Bytes)
    requires Check(cfg, data) != Crashes
    ensures Check(cfg, Repaired(cfg, data)) != Crashes && Repaired(cfg, Repaired(cfg, data)) == Repaired(cfg, data)
  {
    hide CheckFrom;
    if Check(cfg, data).CutAt? {
      var bs := CheckKeepsLongestPrefix(cfg, data);
      CheckOfWhole(cfg, bs);
    }
  }

  lemma FinishStepRep(cfg: Config, t: Table, files: Files, w: Segments, i: nat) returns (h: Segments)
    requires w.parts != [] && TableRep(cfg.maxPartitions, t, w) && DiskRep(files, w)
    requires Check(cfg, Last(w)) != Crashes && |w.parts| <= cfg.maxPartitions
    requires WellFormed(t) && i < |FinishSteps(cfg, t, files)|
    ensures Recoverable(cfg, FinishSteps(cfg, t, files)[i], h, SetLast(w, Repaired(cfg, Last(w))))
  {
    hide Flat, Check, Offset, TableRep, DiskRep, Repaired;
    FullIffAllLive(cfg.maxPartitions, t, w);
    HeadRep(cfg.maxPartitions, t, w);
    OpenHead(files, w);
    var last := Last(w);
    RepairedIsIntact(cfg, last);
    if last == [] || Check(cfg, last) == Intact {
      EmptyIsIntact(cfg);
      h := w;
    } else {
      h := SetLast(w, Repaired(cfg, last));
      CutIsRepaired(cfg, last);
      DiskSetLast(files, w, Repaired(cfg, last));
    }
  }

  lemma CutIsRepaired(cfg: Config, data: Bytes)
    requires Check(cfg, data).CutAt?
    ensures Repaired(cfg, data) == data[..Check(cfg, data).length]
  {}

  /** Both halves of start-up on files that hold the partitions `g`. */
  lemma LoadedRep(cfg: Config, files: Files, g: Segments)
    requires cfg.maxPartitions >= 2 && g.parts != [] && Solid(g) && DiskRep(files, g)
    ensures var max, offs := cfg.maxPartitions, OffsetsOf(g);
            && WellFormed(EmptyTable(max)) && (forall o :: o in offs ==> o in files)
            && var l := Load(EmptyTable(max), files, files, offs);
            && l.Added? && TableRep(max, l.table, Newest(max, g)) && DiskRep(l.files, Newest(max, g))
            && StartSteps(cfg, files)
               == LoadSteps(EmptyTable(max), files, files, offs) + FinishSteps(cfg, l.table, l.files)
  {
    hide Offset, Flat, TableRep, DiskRep, Newest, OffsetsOf, LoadSteps, FinishSteps, Load, Solid;
    var max, offs, start := cfg.maxPartitions, OffsetsOf(g), Segments(g.base, []);
    assert |offs| == |g.parts|;
    ListingOfDisk(files, g);
    AllUpcoming(files, g);
    EmptyTableRep(max, g.base);
    AppendAll(g);
    LoadRep(max, EmptyTable(max), files, files, start, g.parts, offs);
    PushAllIsNewest(max, start, g.parts);
  }

  lemma DuringLoad(cfg: Config, files: Files, g: Segments, i: nat) returns (h: Segments)
    requires cfg.maxPartitions >= 2 && g.parts != [] && Solid(g) && DiskRep(files, g)
    requires WellFormed(EmptyTable(cfg.maxPartitions)) && forall o :: o in OffsetsOf(g) ==> o in files
    requires i < |LoadSteps(EmptyTable(cfg.maxPartitions), files, files, OffsetsOf(g))|
    ensures h.parts != [] && Solid(h)
            && DiskRep(LoadSteps(EmptyTable(cfg.maxPartitions), files, files, OffsetsOf(g))[i], h)
    ensures Newest(cfg.maxPartitions, h) == Newest(cfg.maxPartitions, g) && Last(h) == Last(g)
  {
    hide TableRep, DiskRep, Newest, OffsetsOf, LoadSteps, Solid, EmptyTable, Append, Upcoming, PushAll;
    var max, offs, start := cfg.maxPartitions, OffsetsOf(g), Segments(g.base, []);
    AllUpcoming(files, g);
    EmptyTableRep(max, g.base);
    AppendAll(g);
    PushAllIsNewest(max, start, g.parts);
    h := LoadStepRep(max, EmptyTable(max), files, files, start, g.parts, offs, i);
  }

  /** Interrupted anywhere, start-up leaves files from which the next one recovers the same partitions. */
  lemma InterruptedStart(cfg: Config, files: Files, g: Segments, r: Segments, n: nat) returns (h: Segments)
    requires Recoverable(cfg, files, g, r)
    ensures Recoverable(cfg, Interrupted(cfg, files, n), h, r)
  {
    hide TableRep, DiskRep, Newest, Check, OffsetsOf, LoadSteps, FinishSteps, Load, Solid, Repaired, StartSteps,
      EmptyTable;
    var max, offs := cfg.maxPartitions, OffsetsOf(g);
    LoadedRep(cfg, files, g);
    NewestLast(max, g);
    var empty := EmptyTable(max);
    var l := Load(empty, files, files, offs);
    var loading, finishing := LoadSteps(empty, files, files, offs), FinishSteps(cfg, l.table, l.files);
    var steps := loading + finishing;
    if n == 0 || steps == [] {
      h := g;
    } else {
      var i := if n <= |steps| then n - 1 else |steps| - 1;
      if i < |loading| {
        h := DuringLoad(cfg, files, g, i);
        NewestLast(max, h);
      } else {
        FullIffAllLive(max, l.table, Newest(max, g));
        h := FinishStepRep(cfg, l.table, l.files, Newest(max, g), i - |loading|);
      }
    }
  }

  /** The files after start-ups that were interrupted one after the other. */
  ghost function Starts(cfg: Config, files: Files, starts: seq<nat>): Files
    requires cfg.maxPartitions >= 1
    decreases |starts|
  {
    if starts == [] then files else Starts(cfg, Interrupted(cfg, files, starts[0]), starts[1..])
  }

  /** After any number of interrupted start-ups the one that completes reaches the same partitions. */
  lemma {:induction false} StartsRefine(cfg: Config, files: Files, g: Segments, r: Segments, starts: seq<nat>)
    requires Recoverable(cfg, files, g, r)
    ensures var up := Setup(cfg, Starts(cfg, files, starts));
            up.Started? && Represents(cfg, up.state, r)
    decreases |starts|
  {
    hide Setup, Recovered, Represents, Check, Solid, DiskRep, Interrupted;
    if starts == [] {
      SetupRefines(cfg, files, g);
    } else {
      var h := InterruptedStart(cfg, files, g, r, starts[0]);
      StartsRefine(cfg, Interrupted(cfg, files, starts[0]), h, r, starts[1..]);
    }
  }
}
