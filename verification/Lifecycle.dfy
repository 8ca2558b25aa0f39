/** Partition files under concurrent readers (logger/partitions.go): Remove renames a file into the
    temporary directory and deletes it when nobody reads it, otherwise the last Close does. Get and
    Remove run on the topic's goroutine; Closes and deletions run on others, in any order. */
module Lifecycle {

  datatype Place = Circulating | Uncirculated | Deleted

  /** One partition: where its file is, its reference count, the readers handed out and not yet
      closed, the Closes that saw the count at zero and have not looked for the file yet, and the
      deletions under way. */
  datatype Part = Part(place: Place, refs: int, readers: nat, checks: nat, deletes: nat)

  /** What the topic's goroutine is in the middle of. */
  datatype Task = Idle | Opening(off: nat) | Renamed(off: nat) | Removing(off: nat)

  /** `found` says whether removeFile looks for a file where Remove has put it. */
  datatype Manager = Manager(parts: map<nat, Part>, task: Task, found: bool)

  datatype Step =
    | Create(off: nat)     // SetPartition made a new file
    | GetOpen(off: nat)    // Get: stat and open
    | GetCount             // Get: incRefs, the reader is handed out
    | Rename(off: nat)     // Remove: move the file away
    | ReadRefs             // Remove: getRefs
    | RemoveStat           // Remove: removeFile looks for the file
    | CloseCount(off: nat) // Close: decRefs
    | CloseStat(off: nat)  // Close: removeFile looks for the file
    | Delete(off: nat)     // the deleting goroutine

  predicate Enabled(m: Manager, s: Step)
  {
    match s
    case Create(off) => off !in m.parts
    case GetOpen(off) => m.task.Idle? && off in m.parts && m.parts[off].place.Circulating?
    case GetCount => m.task.Opening? && m.task.off in m.parts
    case Rename(off) => m.task.Idle? && off in m.parts && m.parts[off].place.Circulating?
    case ReadRefs => m.task.Renamed? && m.task.off in m.parts
    case RemoveStat => m.task.Removing? && m.task.off in m.parts
    case CloseCount(off) => off in m.parts && m.parts[off].readers > 0
    case CloseStat(off) => off in m.parts && m.parts[off].checks > 0
    case Delete(off) => off in m.parts && m.parts[off].deletes > 0
  }

  function Update(m: Manager, off: nat, p: Part): Manager { m.(parts := m.parts[off := p]) }

  /** removeFile's look: a file that it finds in the temporary directory will be deleted. */
  function Stat(found: bool, p: Part): Part
  {
    if found && p.place.Uncirculated? then p.(deletes := p.deletes + 1) else p
  }

  function Apply(m: Manager, s: Step): Manager
    requires Enabled(m, s)
  {
    match s
    case Create(off) => Update(m, off, Part(Circulating, 0, 0, 0, 0))
    case GetOpen(off) => m.(task := Opening(off))
    case GetCount =>
      var p := m.parts[m.task.off];
      Update(m, m.task.off, p.(refs := p.refs + 1, readers := p.readers + 1)).(task := Idle)
    case Rename(off) => Update(m, off, m.parts[off].(place := Uncirculated)).(task := Renamed(off))
    case ReadRefs => m.(task := if m.parts[m.task.off].refs <= 0 then Removing(m.task.off) else Idle)
    case RemoveStat => Update(m, m.task.off, Stat(m.found, m.parts[m.task.off])).(task := Idle)
    case CloseCount(off) =>
      var p := m.parts[off];
      Update(m, off,
        p.(refs := p.refs - 1, readers := p.readers - 1, checks := p.checks + if p.refs - 1 <= 0 then 1 else 0))
    case CloseStat(off) =>
      var p := m.parts[off];
      Update(m, off, Stat(m.found, p.(checks := p.checks - 1)))
    case Delete(off) =>
      var p := m.parts[off];
      Update(m, off, p.(place := if p.place.Uncirculated? then Deleted else p.place, deletes := p.deletes - 1))
  }

  /** A run: every step enabled where it is taken. */
  predicate IsRun(m: Manager, steps: seq<Step>)
    decreases |steps|
  {
    steps == [] || (Enabled(m, steps[0]) && IsRun(Apply(m, steps[0]), steps[1..]))
  }

  function Exec(m: Manager, steps: seq<Step>): Manager
    requires IsRun(m, steps)
    decreases |steps|
  {
    if steps == [] then m else Exec(Apply(m, steps[0]), steps[1..])
  }

  // ----- where removed files are

  /** The last element of a path, as filepath.Split gives it: what follows the last slash. */
  function LastElement(path: string): string
  {
    if path == "" || path[|path| - 1] == '/' then "" else LastElement(path[..|path| - 1]) + [path[|path| - 1]]
  }

  /** tmpPath, where Remove moves the file to. */
  function MovedTo(tempDir: string, topic: string, file: string): string { tempDir + "/" + topic + "/" + file }

  /** Where removeFile looks: with the last element of WorkDir in front of the topic, unless filepath.Join
      drops it. */
  function LookedFor(tempDir: string, workDir: string, topic: string, file: string): string
  {
    var e := LastElement(workDir);
    tempDir + "/" + (if e == "" || e == "." then "" else e + "/") + topic + "/" + file
  }

  /** WorkDir ends in a slash, is empty, or ends in a lone dot. */
  predicate Found(workDir: string) { LastElement(workDir) == "" || LastElement(workDir) == "." }

  /** removeFile finds what Remove moved, if and only if WorkDir has such an end. */
  lemma FoundIff(tempDir: string, workDir: string, topic: string, file: string)
    ensures LookedFor(tempDir, workDir, topic, file) == MovedTo(tempDir, topic, file) <==> Found(workDir)
  {
    hide LastElement;
    var e := LastElement(workDir);
    if Found(workDir) {
      assert tempDir + "/" + "" == tempDir + "/";
    } else {
      assert |LookedFor(tempDir, workDir, topic, file)| > |MovedTo(tempDir, topic, file)|;
    }
  }

  function Start(workDir: string): Manager { Manager(map[], Idle, Found(workDir)) }

  // ----- nothing is left behind

  /** The reference count is the number of open readers, and if files are found whoever is responsible for a
      removed file without references has not finished yet. */
  predicate Accounted(m: Manager)
  {
    && (m.task.Opening? || m.task.Renamed? || m.task.Removing? ==> m.task.off in m.parts)
    && (m.task.Opening? ==> m.parts[m.task.off].place.Circulating?)
    && (m.task.Renamed? || m.task.Removing? ==> !m.parts[m.task.off].place.Circulating?)
    && forall off :: off in m.parts ==> PartAccounted(m, off)
  }

  predicate PartAccounted(m: Manager, off: nat)
    requires off in m.parts
  {
    var p := m.parts[off];
    && p.refs == p.readers
    && (p.deletes > 0 ==> !p.place.Circulating?)
    && (m.found && p.place.Uncirculated? && p.refs == 0 ==>
          p.checks > 0 || p.deletes > 0 || m.task == Renamed(off) || m.task == Removing(off))
  }

  lemma StepKeepsAccounts(m: Manager, s: Step)
    requires Accounted(m) && Enabled(m, s)
    ensures Accounted(Apply(m, s)) && Apply(m, s).found == m.found
  {
    var n := Apply(m, s);
    forall off | off in n.parts ensures PartAccounted(n, off) {
      if off in m.parts { assert PartAccounted(m, off); }
    }
  }

  lemma {:induction false} RunKeepsAccounts(m: Manager, steps: seq<Step>)
    requires Accounted(m) && IsRun(m, steps)
    ensures Accounted(Exec(m, steps)) && Exec(m, steps).found == m.found
    decreases |steps|
  {
    if steps != [] {
      StepKeepsAccounts(m, steps[0]);
      RunKeepsAccounts(Apply(m, steps[0]), steps[1..]);
    }
  }

  /** No operation is in progress; readers may still be open. */
  predicate Quiescent(m: Manager)
  {
    m.task.Idle? && forall off :: off in m.parts ==> m.parts[off].checks == 0 && m.parts[off].deletes == 0
  }

  /** In every interleaving, once all operations have finished no removed partition without
      references is left on disk, and with all readers closed no removed partition is, provided that
      WorkDir ends in a slash. */
  lemma NothingLeftBehind(workDir: string, steps: seq<Step>, off: nat)
    requires Found(workDir) && IsRun(Start(workDir), steps) && Quiescent(Exec(Start(workDir), steps))
    ensures var m := Exec(Start(workDir), steps);
            off in m.parts && m.parts[off].place.Uncirculated? ==> m.parts[off].refs > 0 && m.parts[off].readers > 0
  {
    hide Found;
    RunKeepsAccounts(Start(workDir), steps);
    var m := Exec(Start(workDir), steps);
    if off in m.parts { assert PartAccounted(m, off); }
  }

  /** Otherwise every removed file stays in the temporary directory, whatever happens. */
  lemma {:induction false} AllLeftBehind(m: Manager, steps: seq<Step>, off: nat)
    requires !m.found && NothingDeleted(m) && IsRun(m, steps)
    ensures var n := Exec(m, steps);
            && !n.found && NothingDeleted(n)
            && (off in n.parts && Rename(off) in steps ==> n.parts[off].place.Uncirculated?)
    decreases |steps|
  {
    if steps != [] {
      var m1 := Apply(m, steps[0]);
      AllLeftBehind(m1, steps[1..], off);
      if Rename(off) == steps[0] {
        StaysAway(m1, steps[1..], off);
      }
    }
  }

  predicate NothingDeleted(m: Manager)
  {
    forall off :: off in m.parts ==> !m.parts[off].place.Deleted? && m.parts[off].deletes == 0
  }

  lemma {:induction false} StaysAway(m: Manager, steps: seq<Step>, off: nat)
    requires !m.found && NothingDeleted(m) && IsRun(m, steps)
    requires off in m.parts && m.parts[off].place.Uncirculated?
    ensures var n := Exec(m, steps); off in n.parts && n.parts[off].place.Uncirculated?
    decreases |steps|
  {
    if steps != [] {
      StaysAway(Apply(m, steps[0]), steps[1..], off);
    }
  }

  // ----- deletion under a reader

  /** Get hands out a reader while a Close of the same partition has counted down to zero and has not
      yet looked for the file. */
  predicate Overtakes(m: Manager, s: Step)
  {
    s.GetCount? && m.task.Opening? && m.task.off in m.parts && m.parts[m.task.off].checks > 0
  }

  predicate NoOvertaking(m: Manager, steps: seq<Step>)
    requires IsRun(m, steps)
    decreases |steps|
  {
    steps == [] || (!Overtakes(m, steps[0]) && NoOvertaking(Apply(m, steps[0]), steps[1..]))
  }

  /** Whoever may still delete the file does so without open readers. */
  predicate Harmless(m: Manager)
  {
    && Accounted(m)
    && forall off :: off in m.parts ==>
         var p := m.parts[off];
         && (p.checks > 0 || p.deletes > 0 || m.task == Removing(off) ==> p.readers == 0)
         && (p.place.Deleted? ==> p.readers == 0)
  }

  lemma StepKeepsHarmless(m: Manager, s: Step)
    requires Harmless(m) && Enabled(m, s) && !Overtakes(m, s)
    ensures Harmless(Apply(m, s))
  {
    StepKeepsAccounts(m, s);
    var n := Apply(m, s);
    forall off | off in n.parts
      ensures var p := n.parts[off];
              && (p.checks > 0 || p.deletes > 0 || n.task == Removing(off) ==> p.readers == 0)
              && (p.place.Deleted? ==> p.readers == 0)
    {
      if off in m.parts { assert PartAccounted(m, off); }
    }
  }

  /** Unless some Get overtakes a Close, a file is deleted only after Remove and only without open
      readers. */
  lemma {:induction false} DeletedOnlyUnread(m: Manager, steps: seq<Step>, off: nat)
    requires Harmless(m) && IsRun(m, steps) && NoOvertaking(m, steps)
    ensures var n := Exec(m, steps);
            Harmless(n) && (off in n.parts && n.parts[off].place.Deleted? ==> n.parts[off].readers == 0)
    decreases |steps|
  {
    if steps != [] {
      StepKeepsHarmless(m, steps[0]);
      DeletedOnlyUnread(Apply(m, steps[0]), steps[1..], off);
    }
  }

  /** Conversely, whenever a Get overtakes a Close, four more steps delete the file although the new
      reader is open. */
  lemma OvertakingDeletesUnderReader(m: Manager)
    requires Accounted(m) && m.found && Overtakes(m, GetCount)
    ensures var off := m.task.off;
            var steps := [GetCount, Rename(off), ReadRefs, CloseStat(off), Delete(off)];
            && IsRun(m, steps)
            && var n := Exec(m, steps);
            off in n.parts && n.parts[off].place.Deleted? && n.parts[off].readers > 0
  {
    var off := m.task.off;
    assert PartAccounted(m, off);
    var m1 := Apply(m, GetCount);
    var m2 := Apply(m1, Rename(off));
    var m3 := Apply(m2, ReadRefs);
    var m4 := Apply(m3, CloseStat(off));
    var m5 := Apply(m4, Delete(off));
    RunOfFive(m, GetCount, Rename(off), ReadRefs, CloseStat(off), Delete(off));
  }

  lemma RunOfFive(m: Manager, a: Step, b: Step, c: Step, d: Step, e: Step)
    requires Enabled(m, a) && Enabled(Apply(m, a), b) && Enabled(Apply(Apply(m, a), b), c)
    requires Enabled(Apply(Apply(Apply(m, a), b), c), d)
    requires Enabled(Apply(Apply(Apply(Apply(m, a), b), c), d), e)
    ensures IsRun(m, [a, b, c, d, e])
    ensures Exec(m, [a, b, c, d, e]) == Apply(Apply(Apply(Apply(Apply(m, a), b), c), d), e)
  {
    hide Enabled, Apply;
    var m1 := Apply(m, a);
    var m2 := Apply(m1, b);
    var m3 := Apply(m2, c);
    var m4 := Apply(m3, d);
    var m5 := Apply(m4, e);
    assert [a, b, c, d, e][1..] == [b, c, d, e] && [b, c, d, e][1..] == [c, d, e];
    assert [c, d, e][1..] == [d, e] && [d, e][1..] == [e] && [e][1..] == [];
    assert IsRun(m5, []) && Exec(m5, []) == m5;
    assert IsRun(m4, [e]) && Exec(m4, [e]) == m5;
    assert IsRun(m3, [d, e]) && Exec(m3, [d, e]) == m5;
    assert IsRun(m2, [c, d, e]) && Exec(m2, [c, d, e]) == m5;
    assert IsRun(m1, [b, c, d, e]) && Exec(m1, [b, c, d, e]) == m5;
  }

  /** Overtaking does happen: open, close, and open again before the Close has looked. */
  lemma OvertakingIsReachable(workDir: string, off: nat)
    ensures var start, steps := Start(workDir), [Create(off), GetOpen(off), GetCount, CloseCount(off), GetOpen(off)];
            IsRun(start, steps) && Accounted(Exec(start, steps)) && Overtakes(Exec(start, steps), GetCount)
  {
    hide Found;
    var start := Start(workDir);
    var m1 := Apply(start, Create(off));
    var m2 := Apply(m1, GetOpen(off));
    var m3 := Apply(m2, GetCount);
    var m4 := Apply(m3, CloseCount(off));
    RunOfFive(start, Create(off), GetOpen(off), GetCount, CloseCount(off), GetOpen(off));
    RunKeepsAccounts(start, [Create(off), GetOpen(off), GetCount, CloseCount(off), GetOpen(off)]);
  }

  /** Whatever the interleaving, a file leaves circulation only by Remove. */
  lemma {:induction false} CirculatesUntilRemoved(m: Manager, steps: seq<Step>, off: nat)
    requires IsRun(m, steps) && Rename(off) !in steps
    requires off in m.parts ==> m.parts[off].place.Circulating?
    ensures var n := Exec(m, steps); off in n.parts ==> n.parts[off].place.Circulating?
    decreases |steps|
  {
    if steps != [] {
      assert steps[0] in steps;
      assert forall s :: s in steps[1..] ==> s in steps;
      CirculatesUntilRemoved(Apply(m, steps[0]), steps[1..], off);
    }
  }
}
