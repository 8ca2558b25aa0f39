/** The event loop of the client's Writer (logd/writer.go) on values: it collects messages into a batch
    and sends it when it is large enough, when asked to, or when a timer fires. The network is a parameter
    of every event. */
module WriterSteps {
  import opened ByteSeqs
  import opened Decimal
  import opened Configs
  import opened MessageCodec
  import opened BatchCodec
  import opened Batches
  import opened ClientLog

  datatype Phase = Closed | Connected | Flushing | Failing

  datatype Fault = ConnectFault | SendFault | PushFault

  /** What the environment does during one event: whether a connection can be made, whether the batch is
      sent and acknowledged, and whether the state handler takes the offset. */
  datatype Network = Network(connects: bool, acknowledges: bool, pushes: bool)

  /** What became of a batch: acknowledged by the server, or reported to the error handler. `wire` are the
      bytes that went to the connection for it; a batch too large to print was never sent. */
  datatype Outcome =
    | Acknowledged(msgs: seq<Bytes>, wire: Bytes)
    | Unacknowledged(msgs: seq<Bytes>, wire: Bytes)
    | Unsent(msgs: seq<Bytes>)

  datatype Event = WriteEvent(p: Bytes, net: Network) | FlushEvent(net: Network) | TimerEvent(net: Network)

  /** The writer between two events: `pending` are the messages of its batch, `ntopic` the length of the
      batch's topic, which only a flush sets, and `outcomes` the batches it has disposed of, in order. */
  datatype Loop = Loop(state: Phase, err: Option<Fault>, ntopic: nat, pending: seq<Bytes>, outcomes: seq<Outcome>)

  const START: Loop := Loop(Closed, None, 0, [], [])

  // ----- the steps

  function Estimate(ntopic: nat, msgs: seq<Bytes>): nat
  {
    EstimatedSize(ntopic, |msgs|, |PrintMessages(msgs)|)
  }

  /** shouldFlush for one more message. */
  predicate ShouldFlush(batchSize: nat, ntopic: nat, msgs: seq<Bytes>, p: Bytes)
  {
    Estimate(ntopic, msgs) + |PrintMessage(p)| + 8 >= batchSize
  }

  /** handleFlush: nothing while an error is set or for an empty batch, otherwise one attempt to send the
      batch; the batch is emptied either way. */
  function FlushStep(cfg: Config, topic: Bytes, w: Loop, net: Network): (Loop, Option<Fault>)
  {
    if w.err.Some? then (w, w.err)
    else if w.pending == [] then (w.(ntopic := |topic|), None)
    else
      var wire := Wire(cfg, Entry(topic, w.pending));
      if |PrintMessages(w.pending)| > cfg.maxBatchSize then
        (Loop(Failing, Some(SendFault), 0, [], w.outcomes + [Unsent(w.pending)]), Some(SendFault))
      else if !net.acknowledges then
        (Loop(Failing, Some(SendFault), 0, [], w.outcomes + [Unacknowledged(w.pending, wire)]), Some(SendFault))
      else
        (Loop(Connected, None, 0, [], w.outcomes + [Acknowledged(w.pending, wire)]),
         if net.pushes then None else Some(PushFault))
  }

  /** handleMsg: flush first when the message does not fit any more, then append it. */
  function MsgStep(cfg: Config, topic: Bytes, w: Loop, p: Bytes, net: Network): (Loop, Option<Fault>)
  {
    if !net.connects then (w.(state := Failing, err := Some(ConnectFault)), Some(ConnectFault))
    else
      var c := w.(state := Connected);
      var (f, fault) := if ShouldFlush(cfg.maxBatchSize, w.ntopic, w.pending, p) then FlushStep(cfg, topic, c, net)
                        else (c, None);
      if fault.Some? then (f, fault) else (f.(pending := f.pending + [p]), None)
  }

  function WriteStep(cfg: Config, topic: Bytes, w: Loop, p: Bytes, net: Network): (Loop, Option<Fault>)
  {
    if w.err.Some? then (w, w.err)
    else
      var (r, fault) := MsgStep(cfg, topic, w, p, net);
      (r.(err := fault), fault)
  }

  function FlushCommand(cfg: Config, topic: Bytes, w: Loop, net: Network): (Loop, Option<Fault>)
  {
    if w.err.Some? then (w, w.err)
    else
      var (r, fault) := FlushStep(cfg, topic, w, net);
      (r.(err := fault), fault)
  }

  /** The timer: flush when connected, reconnect when failing. */
  function TimerStep(cfg: Config, topic: Bytes, w: Loop, net: Network): Loop
  {
    match w.state
    case Connected =>
      var (r, fault) := FlushStep(cfg, topic, w, net);
      r.(err := fault)
    case Failing =>
      if net.connects then w.(state := Connected, err := None) else w.(err := Some(ConnectFault))
    case _ => w
  }

  /** One event, and whether its command returned nil. */
  function Step(cfg: Config, topic: Bytes, w: Loop, e: Event): (Loop, bool)
  {
    match e
    case WriteEvent(p, net) => var (r, fault) := WriteStep(cfg, topic, w, p, net); (r, fault == None)
    case FlushEvent(net) => var (r, fault) := FlushCommand(cfg, topic, w, net); (r, fault == None)
    case TimerEvent(net) => (TimerStep(cfg, topic, w, net), true)
  }

  function Run(cfg: Config, topic: Bytes, w: Loop, events: seq<Event>): (r: (Loop, seq<bool>))
    ensures |r.1| == |events|
  {
    if events == [] then (w, [])
    else
      var n := |events| - 1;
      var (v, results) := Run(cfg, topic, w, events[..n]);
      var (x, ok) := Step(cfg, topic, v, events[n]);
      (x, results + [ok])
  }

  lemma RunSnoc(cfg: Config, topic: Bytes, w: Loop, events: seq<Event>, e: Event)
    ensures var (v, results) := Run(cfg, topic, w, events);
            var (x, ok) := Step(cfg, topic, v, e);
            Run(cfg, topic, w, events + [e]) == (x, results + [ok])
  {
    hide Step;
    assert (events + [e])[..|events|] == events;
  }

  // ----- accounting

  function Delivered(outcomes: seq<Outcome>): seq<Bytes>
  {
    if outcomes == [] then [] else Delivered(outcomes[..|outcomes| - 1]) + outcomes[|outcomes| - 1].msgs
  }

  lemma DeliveredSnoc(outcomes: seq<Outcome>, o: Outcome)
    ensures Delivered(outcomes + [o]) == Delivered(outcomes) + o.msgs
  {
    assert (outcomes + [o])[..|outcomes|] == outcomes;
  }

  /** The messages of all batches, those disposed of and the pending one. */
  function Held(w: Loop): seq<Bytes> { Delivered(w.outcomes) + w.pending }

  /** The messages of the Writes that returned nil. */
  function Successes(events: seq<Event>, results: seq<bool>): seq<Bytes>
    requires |events| == |results|
  {
    if events == [] then []
    else
      var n := |events| - 1;
      Successes(events[..n], results[..n]) + if events[n].WriteEvent? && results[n] then [events[n].p] else []
  }

  lemma SuccessesSnoc(events: seq<Event>, results: seq<bool>, e: Event, ok: bool)
    requires |events| == |results|
    ensures Successes(events + [e], results + [ok])
            == Successes(events, results) + if e.WriteEvent? && ok then [e.p] else []
  {
    assert (events + [e])[..|events|] == events && (results + [ok])[..|results|] == results;
  }

  lemma NothingRun(cfg: Config, topic: Bytes, w: Loop)
    ensures Run(cfg, topic, w, []) == (w, []) && Held(w) + Successes([], []) == Held(w)
  {
    hide Held;
  }

  // ----- the size bound

  /** By how much the decimal fields for size and count can have grown with the last message. */
  function Growth(msgs: seq<Bytes>): int
    requires msgs != []
  {
    var front := msgs[..|msgs| - 1];
    |Digits(|PrintMessages(msgs)|)| - |Digits(|PrintMessages(front)|)| + |Digits(|msgs|)| - |Digits(|front|)|
  }

  /** What a batch of several messages may take on the wire. */
  function SizeBound(batchSize: nat, topic: Bytes, msgs: seq<Bytes>): int
    requires msgs != []
  {
    batchSize - 9 + |topic| + Growth(msgs)
  }

  /** Several messages are together only within the bound. */
  predicate Fits(batchSize: nat, topic: Bytes, msgs: seq<Bytes>)
  {
    |msgs| >= 2 ==> Estimate(|topic|, msgs) <= SizeBound(batchSize, topic, msgs)
  }

  lemma AppendFits(batchSize: nat, topic: Bytes, ntopic: nat, msgs: seq<Bytes>, p: Bytes)
    requires msgs == [] || !ShouldFlush(batchSize, ntopic, msgs, p)
    ensures Fits(batchSize, topic, msgs + [p])
  {
    hide PrintMessage, PrintMessages;
    PrintMessagesSnoc(msgs, p);
    assert (msgs + [p])[..|msgs|] == msgs;
  }

  /** A batch that was sent, acknowledged or not, is the printed form of its messages, and it holds exactly
      one of them if it is larger than the bound. */
  predicate GoodOutcome(cfg: Config, topic: Bytes, o: Outcome)
  {
    && o.msgs != []
    && (!o.Unsent? ==>
          && o.wire == Wire(cfg, Entry(topic, o.msgs))
          && (|o.wire| > SizeBound(cfg.maxBatchSize, topic, o.msgs) ==> |o.msgs| == 1))
  }

  lemma SentIsGood(cfg: Config, topic: Bytes, msgs: seq<Bytes>)
    requires msgs != [] && Fits(cfg.maxBatchSize, topic, msgs) && |PrintMessages(msgs)| <= cfg.maxBatchSize
    ensures var wire := Wire(cfg, Entry(topic, msgs));
            GoodOutcome(cfg, topic, Acknowledged(msgs, wire)) && GoodOutcome(cfg, topic, Unacknowledged(msgs, wire))
  {
    hide PrintMessages, Print;
    MessagesAreLong(msgs);
    EstimateBoundsPrint(FrameFor(cfg, Entry(topic, msgs)));
  }

  lemma {:induction false} MessagesAreLong(msgs: seq<Bytes>)
    ensures |PrintMessages(msgs)| >= |msgs|
  {
    hide PrintMessage;
    if msgs != [] {
      MessageLength(msgs[0]);
      MessagesAreLong(msgs[1..]);
    }
  }

  // ----- what every run keeps

  /** Between events the writer is not flushing, failing means that an error is set, and every batch that
      was sent and the one to be sent next keep the bound. */
  predicate GoodLoop(cfg: Config, topic: Bytes, w: Loop)
  {
    && w.state != Flushing && (w.state == Failing ==> w.err.Some?)
    && Fits(cfg.maxBatchSize, topic, w.pending)
    && forall i :: 0 <= i < |w.outcomes| ==> GoodOutcome(cfg, topic, w.outcomes[i])
  }

  lemma FlushKeeps(cfg: Config, topic: Bytes, w: Loop, net: Network)
    requires GoodLoop(cfg, topic, w)
    ensures var (r, fault) := FlushStep(cfg, topic, w, net);
            && GoodLoop(cfg, topic, r) && Held(r) == Held(w)
            && (fault == None ==> r.pending == [] && r.err == None && r.state != Failing)
  {
    hide GoodOutcome, Wire, PrintMessages, Delivered;
    if w.err == None && w.pending != [] {
      var wire := Wire(cfg, Entry(topic, w.pending));
      assert GoodOutcome(cfg, topic, Unsent(w.pending)) by { UnsentIsGood(cfg, topic, w.pending); }
      if |PrintMessages(w.pending)| <= cfg.maxBatchSize {
        SentIsGood(cfg, topic, w.pending);
      }
      DeliveredSnoc(w.outcomes, Unsent(w.pending));
      DeliveredSnoc(w.outcomes, Unacknowledged(w.pending, wire));
      DeliveredSnoc(w.outcomes, Acknowledged(w.pending, wire));
    }
  }

  lemma UnsentIsGood(cfg: Config, topic: Bytes, msgs: seq<Bytes>)
    requires msgs != []
    ensures GoodOutcome(cfg, topic, Unsent(msgs))
  {}

  lemma WriteKeeps(cfg: Config, topic: Bytes, w: Loop, p: Bytes, net: Network)
    requires GoodLoop(cfg, topic, w)
    ensures var (r, fault) := WriteStep(cfg, topic, w, p, net);
            GoodLoop(cfg, topic, r) && Held(r) == Held(w) + if fault == None then [p] else []
  {
    hide GoodOutcome, FlushStep, ShouldFlush, Fits, Delivered;
    var c := w.(state := Connected);
    if w.err == None && net.connects {
      FlushKeeps(cfg, topic, c, net);
      var due := ShouldFlush(cfg.maxBatchSize, w.ntopic, w.pending, p);
      var f := if due then FlushStep(cfg, topic, c, net) else (c, None);
      if f.1 == None {
        AppendFits(cfg.maxBatchSize, topic, w.ntopic, f.0.pending, p);
        assert Delivered(f.0.outcomes) + (f.0.pending + [p]) == Held(f.0) + [p];
      }
    }
  }

  /** Every event keeps the invariant and the messages: a Write that returns nil adds its message at the
      end, and nothing else is added, lost or reordered. */
  lemma StepKeeps(cfg: Config, topic: Bytes, w: Loop, e: Event)
    requires GoodLoop(cfg, topic, w)
    ensures var (r, ok) := Step(cfg, topic, w, e);
            GoodLoop(cfg, topic, r) && Held(r) == Held(w) + if e.WriteEvent? && ok then [e.p] else []
  {
    hide GoodOutcome, FlushStep, WriteStep, Fits, Delivered;
    FlushKeeps(cfg, topic, w, e.net);
    if e.WriteEvent? {
      WriteKeeps(cfg, topic, w, e.p, e.net);
    }
  }

  /** Over any run of Writes, Flushes and timer ticks with any behaviour of the network, each message whose
      Write returned nil is, in order, in exactly one batch: sent and acknowledged, sent and reported,
      reported without being sent, or pending. No batch of several messages that was sent, acknowledged or
      not, is larger than the bound. */
  lemma {:induction false} RunKeeps(cfg: Config, topic: Bytes, w: Loop, events: seq<Event>)
    requires GoodLoop(cfg, topic, w)
    ensures var (r, results) := Run(cfg, topic, w, events);
            GoodLoop(cfg, topic, r) && Held(r) == Held(w) + Successes(events, results)
    decreases |events|
  {
    hide Step, GoodLoop, Held, Run, Successes;
    if events == [] {
      NothingRun(cfg, topic, w);
    } else {
      var es, e := events[..|events| - 1], events[|events| - 1];
      assert events == es + [e];
      RunKeeps(cfg, topic, w, es);
      var (v, results) := Run(cfg, topic, w, es);
      var ok := Step(cfg, topic, v, e).1;
      StepKeeps(cfg, topic, v, e);
      RunSnoc(cfg, topic, w, es, e);
      SuccessesSnoc(es, results, e, ok);
    }
  }

  lemma StartIsGood(cfg: Config, topic: Bytes)
    ensures GoodLoop(cfg, topic, START) && Held(START) == []
  {}

  // ----- batches larger than BatchSize

  /** The largest checksum has ten digits. */
  lemma LongestChecksum()
    ensures |Digits(4294967295)| == MAX_CRC_SIZE
  {
    assert Digits(4) == [52];
    assert |Digits(42949)| == 5;
    assert |Digits(4294967295)| == 5 + |Digits(42949)|;
  }

  /** A batch stays within BatchSize whatever its checksum turns out to be, if and only if CalcSize with
      the topic set says so. */
  lemma FitsIffEstimated(batchSize: nat, topic: Bytes, msgs: seq<Bytes>)
    requires |msgs| < TWO_63 && |PrintMessages(msgs)| < TWO_63
    ensures (forall c: uint32 :: |Print(Frame(topic, c, |msgs|, PrintMessages(msgs)))| <= batchSize)
            <==> Estimate(|topic|, msgs) <= batchSize
  {
    hide PrintMessages, Print, Digits;
    var body := PrintMessages(msgs);
    forall c: uint32
      ensures |Print(Frame(topic, c, |msgs|, body))| <= Estimate(|topic|, msgs)
    {
      EstimateBoundsPrint(Frame(topic, c, |msgs|, body));
    }
    LongestChecksum();
    EstimateBoundsPrint(Frame(topic, 4294967295, |msgs|, body));
  }

  /** The test for one more message leaves the topic out and allows for nine more bytes. The batch it lets
      through stays within BatchSize for every checksum, if and only if the topic and the growth of the
      decimal fields fit into what is left. */
  lemma PassingBatchFitsIff(batchSize: nat, topic: Bytes, msgs: seq<Bytes>, p: Bytes)
    requires !ShouldFlush(batchSize, 0, msgs, p)
    requires |msgs| + 1 < TWO_63 && |PrintMessages(msgs + [p])| < TWO_63
    ensures var all := msgs + [p];
            var left := batchSize - Estimate(0, msgs) - |PrintMessage(p)|;
            && left >= 9
            && ((forall c: uint32 :: |Print(Frame(topic, c, |all|, PrintMessages(all)))| <= batchSize)
                <==> |topic| + Growth(all) <= left)
  {
    hide PrintMessage, PrintMessages, Print, Digits;
    FitsIffEstimated(batchSize, topic, msgs + [p]);
    PrintMessagesSnoc(msgs, p);
    assert (msgs + [p])[..|msgs|] == msgs;
  }

  const FAIR: Network := Network(true, true, true)

  /** A run that gets there: for any two messages and any topic of more than 18 bytes, a BatchSize that lets
      the second message through with too little left for the topic. Two Writes and a Flush then send a batch
      that is larger than BatchSize, whatever its checksum. */
  lemma RunOvershoots(cfg: Config, topic: Bytes, p: Bytes, q: Bytes)
    requires var used := Estimate(0, [p]) + |PrintMessage(q)|;
             used + 9 <= cfg.maxBatchSize < used + |topic| - 9
    ensures var wire := Wire(cfg, Entry(topic, [p, q]));
            var events := [WriteEvent(p, FAIR), WriteEvent(q, FAIR), FlushEvent(FAIR)];
            && Run(cfg, topic, START, events)
               == (Loop(Connected, None, 0, [], [Acknowledged([p, q], wire)]), [true, true, true])
            && |wire| > cfg.maxBatchSize
  {
    hide PrintMessage, PrintMessages, Digits, Wire, Run;
    TwoWritesSend(cfg, topic, p, q);
    assert [p] + [q] == [p, q];
    PrintMessagesSnoc([p], q);
    DigitsMonotone(|PrintMessages([p])|, |PrintMessages([p, q])|);
    DigitsMonotone(1, 2);
  }

  /** Two Writes, of which the second passes the test, and a Flush send one batch of both. It is larger than
      BatchSize exactly when the estimate with the topic, less the digits the checksum does not need, is. */
  lemma TwoWritesSend(cfg: Config, topic: Bytes, p: Bytes, q: Bytes)
    requires !ShouldFlush(cfg.maxBatchSize, 0, [p], q)
    ensures var wire := Wire(cfg, Entry(topic, [p, q]));
            var events := [WriteEvent(p, FAIR), WriteEvent(q, FAIR), FlushEvent(FAIR)];
            && Run(cfg, topic, START, events)
               == (Loop(Connected, None, 0, [], [Acknowledged([p, q], wire)]), [true, true, true])
            && var slack := MAX_CRC_SIZE - |Digits(cfg.crc(PrintMessages([p, q])))|;
               (|wire| > cfg.maxBatchSize <==> Estimate(|topic|, [p, q]) - slack > cfg.maxBatchSize)
  {
    hide PrintMessage, PrintMessages, Digits, Wire;
    var a, b, c := WriteEvent(p, FAIR), WriteEvent(q, FAIR), FlushEvent(FAIR);
    FirstDoesNotFlush(cfg.maxBatchSize, p, q);
    assert [] + [p] == [p] && [p] + [q] == [p, q];
    var one, two := Loop(Connected, None, 0, [p], []), Loop(Connected, None, 0, [p, q], []);
    assert Step(cfg, topic, START, a) == (one, true);
    assert Step(cfg, topic, one, b) == (two, true);
    var wire := Wire(cfg, Entry(topic, [p, q]));
    assert [] + [Acknowledged([p, q], wire)] == [Acknowledged([p, q], wire)];
    assert Step(cfg, topic, two, c) == (Loop(Connected, None, 0, [], [Acknowledged([p, q], wire)]), true);
    WireLength(cfg, Entry(topic, [p, q]));
    RunOfThree(cfg, topic, START, a, b, c);
  }

  lemma RunOfThree(cfg: Config, topic: Bytes, w: Loop, a: Event, b: Event, c: Event)
    ensures var (x, i) := Step(cfg, topic, w, a);
            var (y, j) := Step(cfg, topic, x, b);
            var (z, k) := Step(cfg, topic, y, c);
            Run(cfg, topic, w, [a, b, c]) == (z, [i, j, k])
  {
    var (x, i) := Step(cfg, topic, w, a);
    var (y, j) := Step(cfg, topic, x, b);
    var (z, k) := Step(cfg, topic, y, c);
    hide Step;
    assert Run(cfg, topic, w, []) == (w, []);
    RunSnoc(cfg, topic, w, [], a);
    assert [] + [a] == [a] && [a] + [b] == [a, b] && [a, b] + [c] == [a, b, c];
    assert [] + [i] == [i] && [i] + [j] == [i, j] && [i, j] + [k] == [i, j, k];
    RunSnoc(cfg, topic, w, [a], b);
    RunSnoc(cfg, topic, w, [a, b], c);
  }

  lemma FirstDoesNotFlush(batchSize: nat, p: Bytes, q: Bytes)
    requires !ShouldFlush(batchSize, 0, [p], q)
    ensures !ShouldFlush(batchSize, 0, [], p) && |PrintMessages([p, q])| <= batchSize
  {
    hide PrintMessage;
    PrintMessagesSnoc([], p);
    PrintMessagesSnoc([p], q);
    assert [] + [p] == [p] && [p] + [q] == [p, q];
    DigitsMonotone(|PrintMessages([])|, |PrintMessages([p])|);
    DigitsMonotone(0, 1);
  }

  lemma WireLength(cfg: Config, e: Entry)
    requires |e.msgs| < TWO_63 && |Body(e)| < TWO_63
    ensures |Wire(cfg, e)| == Estimate(|e.topic|, e.msgs) - (MAX_CRC_SIZE - |Digits(cfg.crc(Body(e)))|)
  {
    hide PrintMessages, Digits, Print;
    EstimateBoundsPrint(FrameFor(cfg, e));
  }
}
