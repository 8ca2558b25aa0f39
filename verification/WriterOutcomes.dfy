/** What became of the batches of the client's Writer, and why: which events send a batch, which batches count
    as acknowledged, which commands return nil, and when a failed writer goes on. */
module WriterOutcomes {
  import opened ByteSeqs
  import opened Decimal
  import opened Configs
  import opened MessageCodec
  import opened ClientLog
  import opened WriterSteps

  /** The body fits, so the batch can be printed. */
  predicate Small(cfg: Config, msgs: seq<Bytes>) { |PrintMessages(msgs)| <= cfg.maxBatchSize }

  /** The event makes the writer send its pending batch. */
  predicate Sends(cfg: Config, w: Loop, e: Event)
  {
    && w.err == None && w.pending != []
    && match e
       case FlushEvent(_) => true
       case TimerEvent(_) => w.state == Connected
       case WriteEvent(p, net) => net.connects && ShouldFlush(cfg.maxBatchSize, w.ntopic, w.pending, p)
  }

  /** The outcome of `msgs` sent under `net`: acknowledged if and only if it could be printed and the server
      acknowledged it. */
  predicate Settled(cfg: Config, o: Outcome, msgs: seq<Bytes>, net: Network)
  {
    && o.msgs == msgs && (o.Unsent? <==> !Small(cfg, msgs))
    && (o.Acknowledged? <==> Small(cfg, msgs) && net.acknowledges)
  }

  /** An event disposes of the pending batch if and only if it sends it, and of nothing else. */
  lemma StepOutcomes(cfg: Config, topic: Bytes, w: Loop, e: Event)
    ensures var (r, ok) := Step(cfg, topic, w, e);
            if Sends(cfg, w, e) then
              && |r.outcomes| == |w.outcomes| + 1 && w.outcomes <= r.outcomes
              && Settled(cfg, r.outcomes[|w.outcomes|], w.pending, e.net)
              && r.pending == if e.WriteEvent? && ok then [e.p] else []
            else
              && r.outcomes == w.outcomes
              && r.pending == w.pending + if e.WriteEvent? && ok then [e.p] else []
  {
    hide ShouldFlush, PrintMessages, Wire;
    assert w.pending == [] && e.WriteEvent? ==> w.pending + [e.p] == [e.p];
    assert w.pending + [] == w.pending;
  }

  /** A Write or Flush returns nil if and only if no error is set, the connection stands, and the batch, if one
      is sent, is printed, acknowledged and its offset taken. */
  lemma NilIff(cfg: Config, topic: Bytes, w: Loop, e: Event)
    requires !e.TimerEvent?
    ensures Step(cfg, topic, w, e).1 <==>
            && w.err == None && (e.WriteEvent? ==> e.net.connects)
            && (Sends(cfg, w, e) ==> Small(cfg, w.pending) && e.net.acknowledges && e.net.pushes)
  {
    hide ShouldFlush, PrintMessages, Wire;
  }

  /** The error after an event: a batch that was not acknowledged and a connection that was not made leave the
      writer failing, an offset that was not taken leaves it connected. */
  lemma ErrorOf(cfg: Config, topic: Bytes, w: Loop, e: Event)
    ensures var r := Step(cfg, topic, w, e).0;
            && (Sends(cfg, w, e) ==>
                  if !Small(cfg, w.pending) || !e.net.acknowledges then r.state == Failing && r.err == Some(SendFault)
                  else r.state == Connected && r.err == if e.net.pushes then None else Some(PushFault))
            && (e.WriteEvent? && w.err == None && !e.net.connects ==>
                  r.state == Failing && r.err == Some(ConnectFault))
            && (e.TimerEvent? && w.state == Failing ==>
                  if e.net.connects then r.state == Connected && r.err == None
                  else r.state == Failing && r.err == Some(ConnectFault))
  {
    hide ShouldFlush, PrintMessages, Wire;
  }

  /** Event `j` of a run, and the writer before it. */
  function Before(cfg: Config, topic: Bytes, w: Loop, events: seq<Event>, j: nat): Loop
    requires j <= |events|
  {
    Run(cfg, topic, w, events[..j]).0
  }

  /** Each outcome of a run belongs to the one event that sent the batch, in order; it is acknowledged if and
      only if the batch could be printed and the network of that event acknowledged it; and a Write or Flush
      that sent a batch and returned nil had it acknowledged. */
  lemma {:induction false} RunOutcomes(cfg: Config, topic: Bytes, w: Loop, events: seq<Event>) returns (at: seq<nat>)
    ensures var (r, results) := Run(cfg, topic, w, events);
            && w.outcomes <= r.outcomes && |r.outcomes| == |w.outcomes| + |at|
            && (forall i, j :: 0 <= i < j < |at| ==> at[i] < at[j])
            && (forall j :: 0 <= j < |events| ==>
                  (j in at <==> Sends(cfg, Before(cfg, topic, w, events, j), events[j])))
            && (forall i :: 0 <= i < |at| ==> at[i] < |events| && Owns(cfg, topic, w, events, r, results, at[i], i))
    decreases |events|
  {
    hide Step, Run, Sends, Owns;
    if events == [] {
      at := [];
      NothingRun(cfg, topic, w);
    } else {
      var n := |events| - 1;
      var es, e := events[..n], events[n];
      assert events == es + [e];
      at := RunOutcomes(cfg, topic, w, es);
      var earlier := at;
      RunSnoc(cfg, topic, w, es, e);
      var (v, results) := Run(cfg, topic, w, es);
      var (r, ok) := Step(cfg, topic, v, e);
      StepOutcomes(cfg, topic, v, e);
      forall i | 0 <= i < |at|
        ensures Owns(cfg, topic, w, events, r, results + [ok], at[i], i)
      {
        OwnsMore(cfg, topic, w, es, e, v, results, r, ok, at[i], i);
      }
      forall j | 0 <= j < n
        ensures Before(cfg, topic, w, events, j) == Before(cfg, topic, w, es, j)
      {
        assert events[..j] == es[..j];
      }
      assert Before(cfg, topic, w, events, n) == v;
      if Sends(cfg, v, e) {
        at := at + [n];
        OwnsLast(cfg, topic, w, es, e, v, results, r, ok, |earlier|);
      }
    }
  }

  /** Outcome i that the run added is that of event j. */
  predicate Owns(cfg: Config, topic: Bytes, w: Loop, events: seq<Event>, r: Loop, results: seq<bool>, j: nat, i: nat)
  {
    && j < |events| == |results| && |w.outcomes| + i < |r.outcomes|
    && var o := r.outcomes[|w.outcomes| + i];
    && Settled(cfg, o, Before(cfg, topic, w, events, j).pending, events[j].net)
    && (results[j] && !events[j].TimerEvent? ==> o.Acknowledged?)
  }

  lemma OwnsMore(cfg: Config, topic: Bytes, w: Loop, es: seq<Event>, e: Event, v: Loop, results: seq<bool>, r: Loop,
                 ok: bool, j: nat, i: nat)
    requires Owns(cfg, topic, w, es, v, results, j, i) && v.outcomes <= r.outcomes
    ensures Owns(cfg, topic, w, es + [e], r, results + [ok], j, i)
  {
    hide Run, Settled;
    assert (es + [e])[..j] == es[..j];
    assert r.outcomes[|w.outcomes| + i] == v.outcomes[|w.outcomes| + i];
  }

  lemma OwnsLast(cfg: Config, topic: Bytes, w: Loop, es: seq<Event>, e: Event, v: Loop, results: seq<bool>, r: Loop,
                 ok: bool, i: nat)
    requires Run(cfg, topic, w, es) == (v, results) && Step(cfg, topic, v, e) == (r, ok) && Sends(cfg, v, e)
    requires |v.outcomes| == |w.outcomes| + i
    ensures Owns(cfg, topic, w, es + [e], r, results + [ok], |es|, i)
  {
    hide Run, Step, Sends, PrintMessages;
    assert (es + [e])[..|es|] == es;
    StepOutcomes(cfg, topic, v, e);
    if !e.TimerEvent? { NilIff(cfg, topic, v, e); }
  }

  // ----- a good network

  predicate Fair(e: Event) { e.net == FAIR }

  /** Every message fits into a batch of its own. */
  predicate Fitting(cfg: Config, events: seq<Event>)
  {
    forall i :: 0 <= i < |events| && events[i].WriteEvent? ==> |PrintMessage(events[i].p)| <= cfg.maxBatchSize
  }

  /** The writer has no error, and everything it has sent was acknowledged. */
  predicate Healthy(cfg: Config, w: Loop)
  {
    && w.err == None && Small(cfg, w.pending)
    && forall i :: 0 <= i < |w.outcomes| ==> w.outcomes[i].Acknowledged?
  }

  lemma HealthyStep(cfg: Config, topic: Bytes, w: Loop, e: Event)
    requires Healthy(cfg, w) && Fair(e) && (e.WriteEvent? ==> |PrintMessage(e.p)| <= cfg.maxBatchSize)
    ensures Healthy(cfg, Step(cfg, topic, w, e).0) && Step(cfg, topic, w, e).1
  {
    hide Step, Sends, Small;
    var (r, ok) := Step(cfg, topic, w, e);
    StepOutcomes(cfg, topic, w, e);
    ErrAfter(cfg, topic, w, e);
    if e.TimerEvent? { TimerKeepsErr(cfg, topic, w, e); } else { NilIff(cfg, topic, w, e); }
    assert Small(cfg, r.pending) by { PendingIsSmall(cfg, w, e, r.pending); }
    forall i | 0 <= i < |r.outcomes|
      ensures r.outcomes[i].Acknowledged?
    {
      assert i < |w.outcomes| ==> r.outcomes[i] == w.outcomes[i];
    }
  }

  lemma PendingIsSmall(cfg: Config, w: Loop, e: Event, pending: seq<Bytes>)
    requires Healthy(cfg, w) && Fair(e) && (e.WriteEvent? ==> |PrintMessage(e.p)| <= cfg.maxBatchSize)
    requires pending == (if Sends(cfg, w, e) then [] else w.pending) + if e.WriteEvent? then [e.p] else []
    ensures Small(cfg, pending)
  {
    hide PrintMessages, PrintMessage, ShouldFlush;
    NoneOfNothing();
    assert w.pending + [] == w.pending;
    if e.WriteEvent? {
      if !Sends(cfg, w, e) && w.pending != [] {
        PassingIsSmall(cfg, w.ntopic, w.pending, e.p);
      } else {
        PrintMessagesSnoc([], e.p);
        assert pending == [] + [e.p] && [] + PrintMessage(e.p) == PrintMessage(e.p);
      }
    }
  }

  lemma NoneOfNothing()
    ensures PrintMessages([]) == []
  {}

  lemma PassingIsSmall(cfg: Config, ntopic: nat, msgs: seq<Bytes>, p: Bytes)
    requires !ShouldFlush(cfg.maxBatchSize, ntopic, msgs, p)
    ensures Small(cfg, msgs + [p])
  {
    hide PrintMessages, PrintMessage, Digits;
    PrintMessagesSnoc(msgs, p);
  }

  lemma TimerKeepsErr(cfg: Config, topic: Bytes, w: Loop, e: Event)
    requires e.TimerEvent?
    ensures Step(cfg, topic, w, e).1
  {}

  lemma ErrAfter(cfg: Config, topic: Bytes, w: Loop, e: Event)
    requires w.err == None && Fair(e) && Small(cfg, w.pending)
    ensures Step(cfg, topic, w, e).0.err == None
  {
    hide PrintMessages, ShouldFlush, Wire;
  }

  /** With a connection that stands and a server that acknowledges, every Write and Flush returns nil, and after
      a Flush at the end all messages written, in order, are in acknowledged batches. */
  lemma FairRunDelivers(cfg: Config, topic: Bytes, events: seq<Event>)
    requires (forall i :: 0 <= i < |events| ==> Fair(events[i])) && Fitting(cfg, events)
    ensures var (r, results) := Run(cfg, topic, START, events + [FlushEvent(FAIR)]);
            && (forall i :: 0 <= i < |results| ==> results[i])
            && r.pending == [] && (forall i :: 0 <= i < |r.outcomes| ==> r.outcomes[i].Acknowledged?)
            && Delivered(r.outcomes) == Successes(events + [FlushEvent(FAIR)], results)
  {
    hide Run, Step, Successes, Held, GoodLoop;
    var all := events + [FlushEvent(FAIR)];
    FairRun(cfg, topic, events);
    RunSnoc(cfg, topic, START, events, FlushEvent(FAIR));
    var v := Run(cfg, topic, START, events).0;
    HealthyStep(cfg, topic, v, FlushEvent(FAIR));
    StepOutcomes(cfg, topic, v, FlushEvent(FAIR));
    assert !Sends(cfg, v, FlushEvent(FAIR)) ==> v.pending == [];
    StartIsGood(cfg, topic);
    RunKeeps(cfg, topic, START, all);
    var (r, results) := Run(cfg, topic, START, all);
    assert Held(r) == Delivered(r.outcomes) by { NothingPending(r); }
    assert [] + Successes(all, results) == Successes(all, results);
  }

  lemma NothingPending(w: Loop)
    requires w.pending == []
    ensures Held(w) == Delivered(w.outcomes)
  {
    hide Delivered;
  }

  lemma {:induction false} FairRun(cfg: Config, topic: Bytes, events: seq<Event>)
    requires (forall i :: 0 <= i < |events| ==> Fair(events[i])) && Fitting(cfg, events)
    ensures var (r, results) := Run(cfg, topic, START, events);
            Healthy(cfg, r) && (forall i :: 0 <= i < |results| ==> results[i])
    decreases |events|
  {
    hide Run, Step, PrintMessage;
    if events == [] {
      NothingRun(cfg, topic, START);
      NoneOfNothing();
    } else {
      var n := |events| - 1;
      assert events == events[..n] + [events[n]];
      FairRun(cfg, topic, events[..n]);
      RunSnoc(cfg, topic, START, events[..n], events[n]);
      HealthyStep(cfg, topic, Run(cfg, topic, START, events[..n]).0, events[n]);
    }
  }

  // ----- going on after an error

  /** A failing writer is connected again by a timer tick with a connection, keeps its messages, and accepts
      the next Write if that need not send anything. */
  lemma Recovers(cfg: Config, topic: Bytes, w: Loop, tick: Network, p: Bytes, net: Network)
    requires w.state == Failing && tick.connects && net.connects
    requires w.pending == [] || !ShouldFlush(cfg.maxBatchSize, w.ntopic, w.pending, p)
    ensures var (r, results) := Run(cfg, topic, w, [TimerEvent(tick), WriteEvent(p, net)]);
            && results == [true, true] && r.err == None && r.state == Connected
            && r.outcomes == w.outcomes && r.pending == w.pending + [p]
  {
    hide ShouldFlush, PrintMessages, Wire;
    var a, b := TimerEvent(tick), WriteEvent(p, net);
    RunSnoc(cfg, topic, w, [], a);
    RunSnoc(cfg, topic, w, [a], b);
    assert [] + [a] == [a] && [a] + [b] == [a, b];
    assert [] + [true] == [true] && [true] + [true] == [true, true];
    assert w.pending == [] ==> w.pending + [p] == [p];
  }

  /** A writer with an error that is not failing never changes again: no Write or Flush returns nil any more,
      and no timer tick helps. */
  lemma {:induction false} StuckForEver(cfg: Config, topic: Bytes, w: Loop, events: seq<Event>)
    requires w.err.Some? && w.state != Failing
    ensures var (r, results) := Run(cfg, topic, w, events);
            r == w && forall i :: 0 <= i < |events| && !events[i].TimerEvent? ==> !results[i]
    decreases |events|
  {
    hide Run, Step;
    if events == [] {
      NothingRun(cfg, topic, w);
    } else {
      var n := |events| - 1;
      assert events == events[..n] + [events[n]];
      StuckForEver(cfg, topic, w, events[..n]);
      RunSnoc(cfg, topic, w, events[..n], events[n]);
      StuckStep(cfg, topic, w, events[n]);
    }
  }

  lemma StuckStep(cfg: Config, topic: Bytes, w: Loop, e: Event)
    requires w.err.Some? && w.state != Failing
    ensures Step(cfg, topic, w, e).0 == w && (!e.TimerEvent? ==> !Step(cfg, topic, w, e).1)
  {
    hide ShouldFlush, PrintMessages, Wire;
  }

  /** In every run that error is the state handler's: a writer is stuck if and only if an offset was not
      taken. */
  lemma {:induction false} StuckIffPushFault(cfg: Config, topic: Bytes, events: seq<Event>)
    ensures var w := Run(cfg, topic, START, events).0;
            (w.err.Some? && w.state != Failing <==> w.err == Some(PushFault)) && (w.state == Failing ==> w.err.Some?)
    decreases |events|
  {
    hide Run, ShouldFlush, PrintMessages, Wire;
    if events == [] {
      NothingRun(cfg, topic, START);
    } else {
      var n := |events| - 1;
      assert events == events[..n] + [events[n]];
      StuckIffPushFault(cfg, topic, events[..n]);
      RunSnoc(cfg, topic, START, events[..n], events[n]);
    }
  }

  /** A run gets there: the batch is acknowledged, but the state handler does not take its offset. */
  lemma PushFaultSticks(cfg: Config, topic: Bytes, p: Bytes)
    requires |PrintMessage(p)| <= cfg.maxBatchSize
    ensures var (r, results) := Run(cfg, topic, START, [WriteEvent(p, FAIR), FlushEvent(Network(true, true, false))]);
            && results == [true, false] && r.err == Some(PushFault) && r.state == Connected
            && |r.outcomes| == 1 && r.outcomes[0].Acknowledged? && r.outcomes[0].msgs == [p]
  {
    hide ShouldFlush, PrintMessages, PrintMessage, Wire;
    var a, b := WriteEvent(p, FAIR), FlushEvent(Network(true, true, false));
    RunSnoc(cfg, topic, START, [], a);
    RunSnoc(cfg, topic, START, [a], b);
    assert [] + [a] == [a] && [a] + [b] == [a, b];
    assert [] + [true] == [true] && [true] + [false] == [true, false];
    PrintMessagesSnoc([], p);
    NoneOfNothing();
    assert [] + [p] == [p] && [] + PrintMessage(p) == PrintMessage(p);
    var one := Step(cfg, topic, START, a).0;
    StepOutcomes(cfg, topic, START, a);
    NilIff(cfg, topic, START, a);
  }

  /** A Flush of an empty batch sets the topic, and the test for the next messages counts it: the two messages
      of RunOvershoots then go into different batches. */
  lemma EmptyFlushCountsTopic(cfg: Config, topic: Bytes, p: Bytes, q: Bytes)
    requires var used := Estimate(0, [p]) + |PrintMessage(q)|;
             used + 9 <= cfg.maxBatchSize < used + |topic| - 9
    ensures var events := [FlushEvent(FAIR), WriteEvent(p, FAIR), WriteEvent(q, FAIR)];
            var r := Run(cfg, topic, START, events).0;
            r.outcomes == [Acknowledged([p], Wire(cfg, Entry(topic, [p])))] && r.pending == [q]
  {
    hide PrintMessage, PrintMessages, Digits, Wire;
    var a, b, c := FlushEvent(FAIR), WriteEvent(p, FAIR), WriteEvent(q, FAIR);
    RunOfThree(cfg, topic, START, a, b, c);
    assert [] + [p] == [p] && [] + [q] == [q];
    var one, two := Loop(Closed, None, |topic|, [], []), Loop(Connected, None, |topic|, [p], []);
    assert Step(cfg, topic, START, a) == (one, true);
    assert Step(cfg, topic, one, b) == (two, true);
    var wire := Wire(cfg, Entry(topic, [p]));
    assert [] + [Acknowledged([p], wire)] == [Acknowledged([p], wire)];
    assert ShouldFlush(cfg.maxBatchSize, |topic|, [p], q);
    assert Step(cfg, topic, two, c) == (Loop(Connected, None, 0, [q], [Acknowledged([p], wire)]), true);
  }
}
