/** When batches become durable for any FlushBatches and flush timer: every FlushBatches-th batch, and every
    batch at which the timer has fired, makes the open file durable, and nothing else does. */
module Flushing {
  import opened ByteSeqs
  import opened Decimal
  import opened Configs
  import opened RequestCodec
  import opened PartitionTable
  import opened TopicState
  import opened TopicRefinement
  import opened LogHistory
  import opened Durability

  // ----- the counter

  /** The flush counter after `n` batches since start-up. */
  function CountAfter(cfg: Config, n: nat): nat
  {
    if n == 0 then 0 else FlushCount(cfg, CountAfter(cfg, n - 1))
  }

  lemma {:induction false} CounterIs(cfg: Config, n: nat)
    ensures CountAfter(cfg, n) == if cfg.flushBatches > 0 then n % cfg.flushBatches else 0
  {
    if n > 0 {
      CounterIs(cfg, n - 1);
      if cfg.flushBatches > 0 { NextRemainder(n - 1, cfg.flushBatches); }
    }
  }

  lemma NextRemainder(n: nat, k: nat)
    requires k > 0
    ensures (n + 1) % k == if n % k + 1 >= k then 0 else n % k + 1
  {
    var q, r, x := n / k, n % k, n + 1;
    assert x == q * k + (r + 1) && x == (x / k) * k + x % k;
    if r + 1 >= k {
      assert (q + 1) * k + 0 == q * k + k;
      RemainderUnique(k, x / k, x % k, q + 1, 0);
    } else {
      RemainderUnique(k, x / k, x % k, q, r + 1);
    }
  }

  /** Batch number n + 1 is flushed if and only if the timer has fired or n + 1 is a multiple of
      FlushBatches. */
  lemma DueIff(cfg: Config, n: nat, timer: bool)
    ensures FlushDue(cfg, CountAfter(cfg, n), timer)
            <==> timer || (cfg.flushBatches > 0 && (n + 1) % cfg.flushBatches == 0)
  {
    CounterIs(cfg, n);
    if cfg.flushBatches > 0 { NextRemainder(n, cfg.flushBatches); }
  }

  /** How many of the first `n` batches a flush has reached; timers[i] says whether the timer had fired at
      batch i. */
  function LastFlush(k: int, timers: seq<bool>, n: nat): (r: nat)
    requires n <= |timers|
    ensures r <= n
  {
    if n == 0 then 0
    else if timers[n - 1] || (k > 0 && n % k == 0) then n
    else LastFlush(k, timers, n - 1)
  }

  /** Without the timer it is the last multiple of FlushBatches. */
  lemma {:induction false} LastMultiple(k: nat, timers: seq<bool>, n: nat)
    requires k > 0 && n <= |timers| && forall i :: 0 <= i < |timers| ==> !timers[i]
    ensures LastFlush(k, timers, n) == n - n % k
  {
    if n > 0 && n % k != 0 {
      LastMultiple(k, timers, n - 1);
      NextRemainder(n - 1, k);
    }
  }

  // ----- one partition

  predicate AllAccepted(cfg: Config, inputs: seq<Bytes>)
  {
    forall i :: 0 <= i < |inputs| ==> Accept(cfg, inputs[i]).Accepted?
  }

  function Raws(cfg: Config, inputs: seq<Bytes>): (r: seq<Bytes>)
    requires AllAccepted(cfg, inputs)
    ensures |r| == |inputs| && forall i :: 0 <= i < |inputs| ==> r[i] == Accept(cfg, inputs[i]).raw
  {
    seq(|inputs|, i requires 0 <= i < |inputs| => Accept(cfg, inputs[i]).raw)
  }

  function Requests(inputs: seq<Bytes>, timers: seq<bool>): (r: seq<Incident>)
    requires |inputs| == |timers|
    ensures |r| == |inputs| && forall i :: 0 <= i < |inputs| ==> r[i] == Served(inputs[i], timers[i])
  {
    seq(|inputs|, i requires 0 <= i < |inputs| => Served(inputs[i], timers[i]))
  }

  lemma {:induction false} AfterSnoc(cfg: Config, m: Machine, es: seq<Incident>, e: Incident)
    requires WellFormed(m.state.table) && cfg.maxPartitions >= 1 && After(cfg, m, es).Some?
    ensures After(cfg, m, es + [e]) == Next(cfg, After(cfg, m, es).value, e)
    decreases |es|
  {
    hide Next;
    if es == [] {
      assert (es + [e])[1..] == [];
      if Next(cfg, m, e).Some? { assert After(cfg, Next(cfg, m, e).value, []) == Next(cfg, m, e); }
    } else {
      assert (es + [e])[0] == es[0] && (es + [e])[1..] == es[1..] + [e];
      AfterSnoc(cfg, Next(cfg, m, es[0]).value, es[1..], e);
    }
  }

  /** One request that fits into the open partition. */
  lemma ServedFits(cfg: Config, m: Machine, g: Segments, input: Bytes, timer: bool)
    requires Represents(cfg, m.state, g) && cfg.maxPartitions >= 1 && Accept(cfg, input).Accepted?
    requires |Accept(cfg, input).raw| < cfg.partitionSize - |Last(g)|
    ensures WellFormed(m.state.table) && m.state.open in m.state.files && m.state.files[m.state.open] == Last(g)
    ensures var raw, open := Accept(cfg, input).raw, m.state.open;
            var r := Next(cfg, m, Served(input, timer));
            && r.Some? && r.value.state.open == open && r.value.batches == FlushCount(cfg, m.batches)
            && Represents(cfg, r.value.state, SetLast(g, Last(g) + raw))
            && r.value.state.files == m.state.files[open := Last(g) + raw]
            && r.value.synced
               == if FlushDue(cfg, m.batches, timer) then m.synced[open := Last(g) + raw] else m.synced
  {
    hide Accept, TableRep, DiskRep, Offset, FlushDue, FlushCount, SetLast, GrowHead, AddPartition;
    var raw := Accept(cfg, input).raw;
    HeadRep(cfg.maxPartitions, m.state.table, g);
    OpenHead(m.state.files, g);
    BatchRefines(cfg, m.state, g, raw);
    assert !ShouldRotate(cfg, m.state.table, |raw|);
  }

  /** The requests of one partition after a start-up: the open file holds all of their batches, and those up
      to the last flush are durable. */
  lemma {:induction false} ServedRun(cfg: Config, m: Machine, g: Segments, inputs: seq<Bytes>, timers: seq<bool>)
    requires Represents(cfg, m.state, g) && cfg.maxPartitions >= 1 && WellFormed(m.state.table)
    requires m.synced == m.state.files && m.batches == 0
    requires AllAccepted(cfg, inputs) && |timers| == |inputs|
    requires |Last(g)| + |Flat(Raws(cfg, inputs))| < cfg.partitionSize
    ensures m.state.open in m.state.files && m.state.files[m.state.open] == Last(g)
    ensures var r, n, open := After(cfg, m, Requests(inputs, timers)), |inputs|, m.state.open;
            var raws := Raws(cfg, inputs);
            && r.Some? && r.value.state.open == open && r.value.batches == CountAfter(cfg, n)
            && Represents(cfg, r.value.state, SetLast(g, Last(g) + Flat(raws)))
            && r.value.state.files == m.state.files[open := Last(g) + Flat(raws)]
            && r.value.synced
               == m.state.files[open := Last(g) + Flat(raws[..LastFlush(cfg.flushBatches, timers, n)])]
    decreases |inputs|
  {
    hide Accept, Represents, Next, FlushDue, FlushCount, Flat, SetLast, LastFlush, CountAfter;
    var n, raws := |inputs|, Raws(cfg, inputs);
    OpenIsLast(cfg, m.state, g);
    if n == 0 {
      NothingServed(cfg, m, g, timers);
      assert raws == [] && Requests(inputs, timers) == [];
      FlatEmpty<byte>();
    } else {
      var before, ts, i, t := inputs[..n - 1], timers[..n - 1], inputs[n - 1], timers[n - 1];
      var front, raw := Raws(cfg, before), Accept(cfg, i).raw;
      assert raws == front + [raw];
      FlatSnoc(front, raw);
      ServedRun(cfg, m, g, before, ts);
      var es := Requests(before, ts);
      assert Requests(inputs, timers) == es + [Served(i, t)];
      var v := After(cfg, m, es).value;
      AfterSnoc(cfg, m, es, Served(i, t));
      var h := SetLast(g, Last(g) + Flat(front));
      assert Last(h) == Last(g) + Flat(front) by { LastOfSetLast(g, Last(g) + Flat(front)); }
      ServedFits(cfg, v, h, i, t);
      SetAgain(g, Last(g), Flat(front), raw);
      DueIff(cfg, n - 1, t);
      assert CountAfter(cfg, n) == FlushCount(cfg, CountAfter(cfg, n - 1)) by { CountOnce(cfg, n); }
      FlushPrefix(cfg.flushBatches, timers, n);
      var l := LastFlush(cfg.flushBatches, timers, n);
      if l == n {
        assert raws[..n] == raws;
      } else {
        assert raws[..l] == front[..l];
      }
    }
  }

  lemma CountOnce(cfg: Config, n: nat)
    requires n > 0
    ensures CountAfter(cfg, n) == FlushCount(cfg, CountAfter(cfg, n - 1))
  {}

  lemma OpenIsLast(cfg: Config, s: State, g: Segments)
    requires Represents(cfg, s, g)
    ensures g.parts != [] && s.open in s.files && s.files[s.open] == Last(g)
  {
    hide TableRep;
    OpenHead(s.files, g);
  }

  lemma NothingServed(cfg: Config, m: Machine, g: Segments, timers: seq<bool>)
    requires WellFormed(m.state.table) && cfg.maxPartitions >= 1 && g.parts != []
    ensures CountAfter(cfg, 0) == 0 && LastFlush(cfg.flushBatches, timers, 0) == 0
    ensures After(cfg, m, []) == Some(m) && SetLast(g, Last(g) + []) == g && Last(g) + [] == Last(g)
  {
    SetLastTwice(g, Last(g), Last(g));
    assert Last(g) + [] == Last(g);
  }

  lemma LastOfSetLast(g: Segments, part: Bytes)
    requires g.parts != []
    ensures SetLast(g, part).parts != [] && Last(SetLast(g, part)) == part
  {}

  lemma SetAgain(g: Segments, a: Bytes, b: Bytes, c: Bytes)
    requires g.parts != []
    ensures SetLast(SetLast(g, a + b), a + b + c) == SetLast(g, a + (b + c)) && a + b + c == a + (b + c)
  {
    assert a + b + c == a + (b + c);
    SetLastTwice(g, a + b, a + (b + c));
  }

  lemma {:induction false} FlushPrefix(k: int, timers: seq<bool>, n: nat)
    requires 0 < n == |timers|
    ensures LastFlush(k, timers, n)
            == if timers[n - 1] || (k > 0 && n % k == 0) then n else LastFlush(k, timers[..n - 1], n - 1)
  {
    SamePrefix(k, timers, timers[..n - 1], n - 1);
  }

  lemma {:induction false} SamePrefix(k: int, a: seq<bool>, b: seq<bool>, n: nat)
    requires n <= |a| && n <= |b| && a[..n] == b[..n]
    ensures LastFlush(k, a, n) == LastFlush(k, b, n)
  {
    if n > 0 {
      assert a[n - 1] == a[..n][n - 1] == b[..n][n - 1] == b[n - 1];
      assert a[..n - 1] == a[..n][..n - 1] == b[..n][..n - 1] == b[..n - 1];
      SamePrefix(k, a, b, n - 1);
    }
  }

  // ----- what this means

  lemma RawsAreLong(cfg: Config, inputs: seq<Bytes>, l: nat)
    requires AllAccepted(cfg, inputs) && l <= |inputs|
    ensures var raws := Raws(cfg, inputs);
            && Flat(raws[..l]) <= Flat(raws)
            && (Flat(raws[..l]) == Flat(raws) <==> l == |inputs|)
  {
    hide Accept, Flat;
    var raws := Raws(cfg, inputs);
    FlatSplit(raws, l);
    if l < |inputs| {
      AcceptedFits(cfg, inputs[l]);
      var rest := raws[l..];
      assert rest == [rest[0]] + rest[1..];
      FlatConcat([rest[0]], rest[1..]);
      FlatSingle(rest[0]);
      assert |Flat(rest)| > 0;
    } else {
      assert raws[..l] == raws;
    }
  }

  /** After `n` requests in one partition everything is durable if and only if the last of them was flushed;
      without the timer, if and only if `n` is a multiple of FlushBatches. */
  lemma DurableIffFlushed(cfg: Config, m: Machine, g: Segments, inputs: seq<Bytes>, timers: seq<bool>)
    requires Represents(cfg, m.state, g) && cfg.maxPartitions >= 1 && WellFormed(m.state.table)
    requires m.synced == m.state.files && m.batches == 0
    requires AllAccepted(cfg, inputs) && |timers| == |inputs|
    requires |Last(g)| + |Flat(Raws(cfg, inputs))| < cfg.partitionSize
    ensures var r, n := After(cfg, m, Requests(inputs, timers)), |inputs|;
            && r.Some?
            && (r.value.synced == r.value.state.files <==> LastFlush(cfg.flushBatches, timers, n) == n)
            && (cfg.flushBatches > 0 && true !in timers ==>
                  (r.value.synced == r.value.state.files <==> n % cfg.flushBatches == 0))
  {
    hide Accept, Represents, Next, After, Flat, SetLast, LastFlush;
    var n, l := |inputs|, LastFlush(cfg.flushBatches, timers, |inputs|);
    OpenIsLast(cfg, m.state, g);
    ServedRun(cfg, m, g, inputs, timers);
    RawsAreLong(cfg, inputs, l);
    var r, raws, o := After(cfg, m, Requests(inputs, timers)).value, Raws(cfg, inputs), m.state.open;
    assert r.synced[o] == Last(g) + Flat(raws[..l]) && r.state.files[o] == Last(g) + Flat(raws);
    if r.synced == r.state.files {
      assert |Last(g) + Flat(raws[..l])| == |Last(g) + Flat(raws)|;
      assert Flat(raws[..l]) == Flat(raws);
    }
    if cfg.flushBatches > 0 && true !in timers {
      LastMultiple(cfg.flushBatches, timers, n);
    }
  }

  /** A crash then keeps every batch up to the last flush, and may lose all later ones. */
  lemma CrashLosesUnflushed(cfg: Config, m: Machine, g: Segments, inputs: seq<Bytes>, timers: seq<bool>, left: Files)
    requires Represents(cfg, m.state, g) && cfg.maxPartitions >= 1 && WellFormed(m.state.table)
    requires m.synced == m.state.files && m.batches == 0
    requires AllAccepted(cfg, inputs) && |timers| == |inputs|
    requires |Last(g)| + |Flat(Raws(cfg, inputs))| < cfg.partitionSize
    ensures var r, open := After(cfg, m, Requests(inputs, timers)), m.state.open;
            var kept := Last(g) + Flat(Raws(cfg, inputs)[..LastFlush(cfg.flushBatches, timers, |inputs|)]);
            && r.Some?
            && (LeftBy(Snapshot(r.value.state.files, r.value.synced), left) ==>
                  && open in left && kept <= left[open] <= Last(g) + Flat(Raws(cfg, inputs))
                  && forall o :: o in m.state.files && o != open ==> o in left && left[o] == m.state.files[o])
            && LeftBy(Snapshot(r.value.state.files, r.value.synced), m.state.files[open := kept])
  {
    hide Accept, Represents, Next, After, Flat, SetLast, LastFlush;
    var l := LastFlush(cfg.flushBatches, timers, |inputs|);
    OpenIsLast(cfg, m.state, g);
    ServedRun(cfg, m, g, inputs, timers);
    RawsAreLong(cfg, inputs, l);
    var r, open, raws := After(cfg, m, Requests(inputs, timers)).value, m.state.open, Raws(cfg, inputs);
    var all, kept := Last(g) + Flat(raws), Last(g) + Flat(raws[..l]);
    assert kept <= all by { assert all[|Last(g)|..] == Flat(raws) && kept[|Last(g)|..] == Flat(raws[..l]); }
    var t := Snapshot(r.state.files, r.synced);
    assert open in t.files && t.files[open] == all && t.synced[open] == kept;
    if LeftBy(t, left) {
      forall o | o in m.state.files && o != open
        ensures o in left && left[o] == m.state.files[o]
      {
        assert o in t.files && t.files[o] == m.state.files[o] == t.synced[o];
      }
    }
  }

  // ----- behind a rotation

  /** A request syncs the open file only: what was not durable of a partition when it was closed is not
      durable after any number of further requests, whatever is flushed. */
  lemma {:induction false} ClosedStaysUnsynced(cfg: Config, m: Machine, g: Segments, inputs: seq<Bytes>,
                                               timers: seq<bool>, o: nat)
    requires Represents(cfg, m.state, g) && cfg.maxPartitions >= 2 && WellFormed(m.state.table)
    requires AllAccepted(cfg, inputs) && |timers| == |inputs| && cfg.maxBatchSize < cfg.partitionSize
    requires o in m.state.files && o != m.state.open && o in m.synced
    ensures var r := After(cfg, m, Requests(inputs, timers));
            && r.Some?
            && (o in r.value.state.files ==>
                  && o != r.value.state.open && r.value.state.files[o] == m.state.files[o]
                  && o in r.value.synced && r.value.synced[o] == m.synced[o])
    decreases |inputs|
  {
    hide Accept, Represents, Next;
    if inputs == [] {
      assert Requests(inputs, timers) == [];
    } else {
      var i, t := inputs[0], timers[0];
      var m1, g1 := ServedElsewhere(cfg, m, g, i, t, o);
      var es := Requests(inputs, timers);
      assert es[0] == Served(i, t) && es[1..] == Requests(inputs[1..], timers[1..]);
      if o in m1.state.files {
        ClosedStaysUnsynced(cfg, m1, g1, inputs[1..], timers[1..], o);
      } else {
        GoneStaysGone(cfg, m1, g1, inputs[1..], timers[1..], o);
      }
    }
  }

  /** A file that is not open is left alone, or removed. */
  lemma ServedElsewhere(cfg: Config, m: Machine, g: Segments, input: Bytes, timer: bool, o: nat)
    returns (m1: Machine, g1: Segments)
    requires Represents(cfg, m.state, g) && cfg.maxPartitions >= 2 && Accept(cfg, input).Accepted?
    requires cfg.maxBatchSize < cfg.partitionSize && WellFormed(m.state.table)
    ensures Next(cfg, m, Served(input, timer)) == Some(m1) && Represents(cfg, m1.state, g1)
    ensures WellFormed(m1.state.table) && m.state.open <= m1.state.open && m.state.open <= End(g) <= End(g1)
    ensures o in m.state.files && o != m.state.open ==>
              && o < m.state.open
              && (o in m1.state.files ==>
                    && m1.state.files[o] == m.state.files[o]
                    && (o in m.synced ==> o in m1.synced && m1.synced[o] == m.synced[o]))
    ensures o !in m.state.files && o < End(g) ==> o !in m1.state.files
  {
    hide Accept, TableRep, Offset, FlushDue, FlushCount, GrowHead, DiskRep;
    var raw := Accept(cfg, input).raw;
    AcceptedFits(cfg, input);
    HeadRep(cfg.maxPartitions, m.state.table, g);
    OpenHead(m.state.files, g);
    BatchRefines(cfg, m.state, g, raw);
    m1, g1 := Next(cfg, m, Served(input, timer)).value, AppendSegs(cfg, g, raw);
    EndAfter(cfg, g, raw);
    OpenIsNewest(cfg, m.state, g);
  }

  lemma EndAfter(cfg: Config, g: Segments, raw: Bytes)
    requires g.parts != [] && cfg.maxPartitions >= 1
    ensures End(AppendSegs(cfg, g, raw)) == End(g) + |raw|
  {
    hide Flat;
    var last := g.parts[|g.parts| - 1];
    if |raw| >= cfg.partitionSize - |last| {
      PushEnd(cfg.maxPartitions, g, raw);
    } else {
      var init := g.parts[..|g.parts| - 1];
      assert g.parts == init + [last];
      FlatSnoc(init, last);
      FlatSnoc(init, last + raw);
    }
  }

  /** All other files start before the open one, which starts no later than the log ends. */
  lemma OpenIsNewest(cfg: Config, s: State, g: Segments)
    requires Represents(cfg, s, g)
    ensures s.open in s.files && s.open <= End(g)
    ensures forall o :: o in s.files && o != s.open ==> o < s.open
  {
    hide TableRep, Offset, End;
    var n := |g.parts|;
    OpenHead(s.files, g);
    OffsetStep(g, n - 1);
    EndIsOffset(g);
    forall o | o in s.files && o != s.open
      ensures o < s.open
    {
      var i :| 0 <= i < n && o == Offset(g, i);
      OffsetMonotone(g, i, n - 1);
    }
  }

  lemma {:induction false} GoneStaysGone(cfg: Config, m: Machine, g: Segments, inputs: seq<Bytes>, timers: seq<bool>,
                                         o: nat)
    requires Represents(cfg, m.state, g) && cfg.maxPartitions >= 2 && WellFormed(m.state.table)
    requires AllAccepted(cfg, inputs) && |timers| == |inputs| && cfg.maxBatchSize < cfg.partitionSize
    requires o !in m.state.files && o < End(g)
    ensures var r := After(cfg, m, Requests(inputs, timers)); r.Some? && o !in r.value.state.files
    decreases |inputs|
  {
    hide Accept, Represents, Next, End;
    if inputs == [] {
      assert Requests(inputs, timers) == [];
    } else {
      var m1, g1 := ServedElsewhere(cfg, m, g, inputs[0], timers[0], o);
      var es := Requests(inputs, timers);
      assert es[0] == Served(inputs[0], timers[0]) && es[1..] == Requests(inputs[1..], timers[1..]);
      GoneStaysGone(cfg, m1, g1, inputs[1..], timers[1..], o);
    }
  }
}
