/** The client's Writer as an object (logd/writer.go): one batch that is filled, printed and emptied in
    place, each method against its step on values. */
module WriterClient {
  import opened ByteSeqs
  import opened Decimal
  import opened Configs
  import opened MessageCodec
  import opened BatchCodec
  import opened Batches
  import opened ClientLog
  import opened WriterSteps

  /** A message whose printed form still has a length. */
  const MAX_MESSAGE: int := TWO_63 - 64

  /** Neither the count nor the size of a pending batch can leave the integer range. */
  lemma AppendIsSmall(batchSize: size, ntopic: nat, msgs: seq<Bytes>, p: Bytes)
    requires msgs == [] || !ShouldFlush(batchSize, ntopic, msgs, p)
    requires |p| < MAX_MESSAGE
    ensures |msgs| + 1 < TWO_63 && |PrintMessages(msgs + [p])| < TWO_63
  {
    hide PrintMessage;
    PrintMessagesSnoc(msgs, p);
    MessagesAreLong(msgs);
    MessageLength(p);
    DigitsOfUint64(|p|);
  }

  predicate AllSmall(msgs: seq<Bytes>)
  {
    forall i :: 0 <= i < |msgs| ==> |msgs[i]| < MAX_MESSAGE
  }

  class Writer {
    const cfg: Config  // MaxBatchSize is the client's BatchSize
    const topic: Bytes
    const batch: Batch
    var state: Phase
    var err: Option<Fault>
    var timerStarted: bool
    ghost var outcomes: seq<Outcome>  // the batches disposed of, in order

    ghost predicate Valid()
      reads batch
    {
      batch.cfg == cfg && batch.Pending() && |topic| <= MAX_TOPIC_SIZE && AllSmall(batch.msgs)
    }

    ghost function Value(): Loop
      reads this, batch
    {
      Loop(state, err, |batch.topic|, batch.msgs, outcomes)
    }

    constructor (cfg: Config, topic: Bytes)
      requires |topic| <= MAX_TOPIC_SIZE
      ensures this.cfg == cfg && this.topic == topic && Valid() && fresh(batch) && Value() == START
    {
      this.cfg, this.topic := cfg, topic;
      batch := new Batch(cfg);
      state, err, timerStarted, outcomes := Closed, None, false, [];
    }

    /** handleFlush. In between the state is FLUSHING. */
    method HandleFlush(net: Network) returns (fault: Option<Fault>)
      requires Valid()
      modifies this`state, this`err, this`timerStarted, this`outcomes, batch
      ensures Valid() && (Value(), fault) == FlushStep(cfg, topic, old(Value()), net)
    {
      hide PrintMessages, Print;
      if err.Some? { return err; }
      batch.SetTopic(topic);
      if batch.messages <= 0 { return None; }
      state := Flushing;
      ghost var msgs := batch.msgs;
      var wire, werr := batch.WriteTo();
      if werr.Some? || !net.acknowledges {
        err, state, timerStarted := Some(SendFault), Failing, true;
        outcomes := outcomes + [if werr.Some? then Unsent(msgs) else Unacknowledged(msgs, wire)];
        batch.Reset();
        return Some(SendFault);
      }
      outcomes := outcomes + [Acknowledged(msgs, wire)];
      batch.Reset();
      state := Connected;
      fault := if net.pushes then None else Some(PushFault);
    }

    /** The end of handleMsg: the message joins the pending batch. */
    method Take(p: Bytes)
      requires Valid() && |p| < MAX_MESSAGE
      requires batch.msgs == [] || !ShouldFlush(cfg.maxBatchSize, |batch.topic|, batch.msgs, p)
      modifies this`timerStarted, batch`msgs, batch`messages, batch`size
      ensures Valid() && batch.msgs == old(batch.msgs) + [p]
    {
      hide PrintMessages, ShouldFlush;
      AppendIsSmall(cfg.maxBatchSize, |batch.topic|, batch.msgs, p);
      batch.Append(p);
      timerStarted := true;
    }

    /** handleMsg. */
    method HandleMsg(p: Bytes, net: Network) returns (fault: Option<Fault>)
      requires Valid() && err == None && |p| < MAX_MESSAGE
      modifies this, batch
      ensures Valid() && (Value(), fault) == MsgStep(cfg, topic, old(Value()), p, net)
    {
      hide ShouldFlush, Wire, PrintMessages, Writer.Valid;
      if !net.connects {
        err, state, timerStarted := Some(ConnectFault), Failing, true;
        return Some(ConnectFault);
      }
      state := Connected;
      fault := None;
      var flush := NeedsFlush(|p|);
      if flush {
        fault := HandleFlush(net);
        if fault.Some? { return; }
      }
      Take(p);
    }

    /** shouldFlush. */
    method NeedsFlush(size: nat) returns (r: bool)
      requires Valid()
      ensures forall p: Bytes :: |p| == size ==> r == ShouldFlush(cfg.maxBatchSize, |batch.topic|, batch.msgs, p)
    {
      var l := batch.CalcSize();
      var m := MessageSize(size);
      r := l + m + 8 >= cfg.maxBatchSize;
    }

    // ----- the event loop

    /** Write: refused while an error is set. */
    method Write(p: Bytes, net: Network) returns (fault: Option<Fault>)
      requires Valid() && |p| < MAX_MESSAGE
      modifies this, batch
      ensures Valid() && (Value(), fault) == WriteStep(cfg, topic, old(Value()), p, net)
    {
      hide Writer.Valid, MsgStep;
      if err.Some? { return err; }
      fault := HandleMsg(p, net);
      err := fault;
    }

    /** Flush. */
    method Flush(net: Network) returns (fault: Option<Fault>)
      requires Valid()
      modifies this, batch
      ensures Valid() && (Value(), fault) == FlushCommand(cfg, topic, old(Value()), net)
    {
      hide Writer.Valid, FlushStep;
      if err.Some? { return err; }
      fault := HandleFlush(net);
      err := fault;
    }

    /** The timer. */
    method Timer(net: Network)
      requires Valid()
      modifies this, batch
      ensures Valid() && Value() == TimerStep(cfg, topic, old(Value()), net)
    {
      hide Writer.Valid, FlushStep;
      match state
      case Connected =>
        var fault := HandleFlush(net);
        err := fault;
      case Failing =>
        if net.connects {
          state, err := Connected, None;
        } else {
          err := Some(ConnectFault);
        }
      case _ =>
    }

    /** The loop over any run of Writes, Flushes and timer ticks. A new writer accounts for every message it
        accepted, and no batch of several messages that it sent is larger than the bound. */
    method RunEvents(events: seq<Event>) returns (results: seq<bool>)
      requires Valid() && forall i :: 0 <= i < |events| ==> events[i].WriteEvent? ==> |events[i].p| < MAX_MESSAGE
      modifies this, batch
      ensures Valid() && (Value(), results) == Run(cfg, topic, old(Value()), events)
      ensures old(GoodLoop(cfg, topic, Value())) ==>
                GoodLoop(cfg, topic, Value()) && Held(Value()) == old(Held(Value())) + Successes(events, results)
    {
      hide Writer.Valid, WriteStep, FlushCommand, TimerStep, GoodLoop, Held;
      results := [];
      ghost var w := Value();
      for i := 0 to |events|
        invariant Valid() && (Value(), results) == Run(cfg, topic, w, events[..i])
      {
        var e, ok := events[i], true;
        RunSnoc(cfg, topic, w, events[..i], e);
        match e {
          case WriteEvent(p, net) =>
            var fault := Write(p, net);
            ok := fault == None;
          case FlushEvent(net) =>
            var fault := Flush(net);
            ok := fault == None;
          case TimerEvent(net) =>
            Timer(net);
        }
        results := results + [ok];
        assert events[..i + 1] == events[..i] + [e];
      }
      assert events[..|events|] == events;
      if GoodLoop(cfg, topic, w) {
        RunKeeps(cfg, topic, w, events);
      }
    }
  }
}
