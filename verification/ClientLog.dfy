/** The log as a client sees it: batches of messages behind byte offsets. */
module ClientLog {
  import opened ByteSeqs
  import opened Decimal
  import opened Configs
  import opened MessageCodec
  import opened BatchCodec

  /** A batch as a writer built it. */
  datatype Entry = Entry(topic: Bytes, msgs: seq<Bytes>)

  function Body(e: Entry): Bytes { PrintMessages(e.msgs) }

  function FrameFor(cfg: Config, e: Entry): Frame
  {
    Frame(e.topic, cfg.crc(Body(e)), if |e.msgs| < TWO_63 then |e.msgs| else 0, Body(e))
  }

  function Wire(cfg: Config, e: Entry): Bytes { Print(FrameFor(cfg, e)) }

  predicate GoodEntry(cfg: Config, e: Entry)
  {
    1 <= |e.msgs| < TWO_63 && Printable(cfg, FrameFor(cfg, e))
  }

  predicate GoodEntries(cfg: Config, log: seq<Entry>)
  {
    forall i :: 0 <= i < |log| ==> GoodEntry(cfg, log[i])
  }

  /** The batches of the log as they go over the wire and lie on disk. */
  function Wires(cfg: Config, log: seq<Entry>): (r: seq<Bytes>)
    ensures |r| == |log| && forall i :: 0 <= i < |log| ==> r[i] == Wire(cfg, log[i])
  {
    seq(|log|, i requires 0 <= i < |log| => Wire(cfg, log[i]))
  }

  function Printed(cfg: Config, log: seq<Entry>): Bytes { Flat(Wires(cfg, log)) }

  /** The offset of entry i of a log that starts at `base`. */
  function Boundary(cfg: Config, base: nat, log: seq<Entry>, i: nat): nat
    requires i <= |log|
  {
    base + |Printed(cfg, log[..i])|
  }

  function MessageLists(log: seq<Entry>): (r: seq<seq<Bytes>>)
    ensures |r| == |log| && forall i :: 0 <= i < |log| ==> r[i] == log[i].msgs
  {
    seq(|log|, i requires 0 <= i < |log| => log[i].msgs)
  }

  /** All messages of the log, in order. */
  function Stream(log: seq<Entry>): seq<Bytes> { Flat(MessageLists(log)) }

  lemma PrintedConcat(cfg: Config, a: seq<Entry>, b: seq<Entry>)
    ensures Printed(cfg, a + b) == Printed(cfg, a) + Printed(cfg, b)
  {
    hide Wire, Flat;
    assert Wires(cfg, a + b) == Wires(cfg, a) + Wires(cfg, b);
    FlatConcat(Wires(cfg, a), Wires(cfg, b));
  }

  lemma PrintedOne(cfg: Config, e: Entry)
    ensures Printed(cfg, [e]) == Wire(cfg, e)
  {
    hide Wire, Flat;
    assert Wires(cfg, [e]) == [Wire(cfg, e)];
    FlatSingle(Wire(cfg, e));
  }

  lemma PrintedNone(cfg: Config, log: seq<Entry>, i: nat)
    requires i <= |log|
    ensures Printed(cfg, log[i..i]) == []
  {
    assert Wires(cfg, log[i..i]) == [];
  }

  /** A slice of the log splits after its first entry. */
  lemma PrintedSlice(cfg: Config, log: seq<Entry>, i: nat, j: nat)
    requires i < j <= |log|
    ensures Printed(cfg, log[i..j]) == Wire(cfg, log[i]) + Printed(cfg, log[i + 1..j])
  {
    hide Wire, Printed;
    assert log[i..j] == [log[i]] + log[i + 1..j];
    PrintedConcat(cfg, [log[i]], log[i + 1..j]);
    PrintedOne(cfg, log[i]);
  }

  /** ... and before its last. */
  lemma PrintedSnoc(cfg: Config, log: seq<Entry>, i: nat, j: nat)
    requires i <= j < |log|
    ensures Printed(cfg, log[i..j + 1]) == Printed(cfg, log[i..j]) + Wire(cfg, log[j])
  {
    hide Wire, Printed;
    assert log[i..j + 1] == log[i..j] + [log[j]];
    PrintedConcat(cfg, log[i..j], [log[j]]);
    PrintedOne(cfg, log[j]);
  }

  lemma BoundarySplit(cfg: Config, base: nat, log: seq<Entry>, i: nat, j: nat)
    requires i <= j <= |log|
    ensures Boundary(cfg, base, log, j) == Boundary(cfg, base, log, i) + |Printed(cfg, log[i..j])|
  {
    hide Printed;
    assert log[..j] == log[..i] + log[i..j];
    PrintedConcat(cfg, log[..i], log[i..j]);
  }

  lemma WireIsLong(cfg: Config, e: Entry)
    ensures |Wire(cfg, e)| >= 10
  {}

  lemma BoundaryStrict(cfg: Config, base: nat, log: seq<Entry>, i: nat, j: nat)
    requires i < j <= |log|
    ensures Boundary(cfg, base, log, i) < Boundary(cfg, base, log, j)
  {
    hide Wire, Printed;
    BoundarySplit(cfg, base, log, i, j);
    PrintedSlice(cfg, log, i, j);
    WireIsLong(cfg, log[i]);
  }

  lemma StreamConcat(a: seq<Entry>, b: seq<Entry>)
    ensures Stream(a + b) == Stream(a) + Stream(b)
  {
    hide Flat;
    assert MessageLists(a + b) == MessageLists(a) + MessageLists(b);
    FlatConcat(MessageLists(a), MessageLists(b));
  }

  lemma StreamOne(e: Entry)
    ensures Stream([e]) == e.msgs
  {
    assert MessageLists([e]) == [e.msgs];
    FlatSingle(e.msgs);
  }

  // ----- the server's side of a READ, on an unchanging log

  /** Which entry starts at `off`; none does at or behind the end, or inside a batch. */
  function Seek(cfg: Config, base: nat, log: seq<Entry>, off: nat): Option<nat>
    decreases |log|
  {
    if log == [] then None
    else if off == base then Some(0)
    else
      match Seek(cfg, base + |Wire(cfg, log[0])|, log[1..], off)
      case None => None
      case Some(i) => Some(i + 1)
  }

  lemma {:induction false} SeekIs(cfg: Config, base: nat, log: seq<Entry>, off: nat)
    ensures var r := Seek(cfg, base, log, off);
            && (r.Some? ==> r.value < |log| && off == Boundary(cfg, base, log, r.value))
            && (forall i :: 0 <= i < |log| && off == Boundary(cfg, base, log, i) ==> r == Some(i))
    decreases |log|
  {
    hide Wire, Printed;
    if log != [] {
      var w := |Wire(cfg, log[0])|;
      SeekIs(cfg, base + w, log[1..], off);
      forall i | 1 <= i <= |log|
        ensures Boundary(cfg, base, log, i) == Boundary(cfg, base + w, log[1..], i - 1) > base
      {
        assert log[..i] == log[0..i] && log[1..i] == log[1..][..i - 1];
        PrintedSlice(cfg, log, 0, i);
        WireIsLong(cfg, log[0]);
      }
      assert Boundary(cfg, base, log, 0) == base by {
        assert log[..0] == log[0..0];
        PrintedNone(cfg, log, 0);
      }
    }
  }
}
