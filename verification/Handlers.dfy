/** Double-checked creation of event queues (events/handlers.go): requests for one topic arrive on
    many connections, and the lock is released between looking a queue up and creating it. */
module Handlers {
  /** A request names a topic; only BATCH requests create one. */
  datatype Request = Request(topic: string, isBatch: bool)

  /** How far pushBlockingRequest has come with a request. */
  datatype Phase =
    | Arrived
    | Missed                // the first lookup found no queue
    | PushedTo(queue: nat)
    | PushedAsync
    | Failed                // creating the topic failed

  /** `queues` is the map under the mutex; `created` lists the topics of the queues ever made, so a
      queue is known by its position. */
  datatype Server = Server(requests: seq<Request>, phases: seq<Phase>, queues: map<string, nat>, created: seq<string>)

  /** One critical section: the first lookup, or the second one with creation when it still misses;
      `succeeds` says whether the topic could be set up. */
  datatype Section = Look(req: nat) | LookAgain(req: nat, succeeds: bool)

  predicate Enabled(s: Server, x: Section)
  {
    && x.req < |s.requests| && |s.phases| == |s.requests|
    && s.phases[x.req] == (if x.Look? then Arrived else Missed)
  }

  function Apply(s: Server, x: Section): Server
    requires Enabled(s, x)
  {
    var r := s.requests[x.req];
    match x
    case Look(i) =>
      var phase := if r.topic == "" then PushedAsync
                   else if r.topic in s.queues then PushedTo(s.queues[r.topic])
                   else if r.isBatch then Missed
                   else PushedAsync;
      s.(phases := s.phases[i := phase])
    case LookAgain(i, succeeds) =>
      if r.topic in s.queues then s.(phases := s.phases[i := PushedTo(s.queues[r.topic])])
      else if !succeeds then s.(phases := s.phases[i := Failed])
      else
        var q := |s.created|;
        s.(phases := s.phases[i := PushedTo(q)], queues := s.queues[r.topic := q], created := s.created + [r.topic])
  }

  predicate IsRun(s: Server, xs: seq<Section>)
    decreases |xs|
  {
    xs == [] || (Enabled(s, xs[0]) && IsRun(Apply(s, xs[0]), xs[1..]))
  }

  function Exec(s: Server, xs: seq<Section>): Server
    requires IsRun(s, xs)
    decreases |xs|
  {
    if xs == [] then s else Exec(Apply(s, xs[0]), xs[1..])
  }

  function Initial(requests: seq<Request>): Server
  {
    Server(requests, seq(|requests|, _ => Arrived), map[], [])
  }

  /** One queue per topic, and every request was pushed to the queue of its topic. */
  predicate OneQueueEach(s: Server)
  {
    && |s.phases| == |s.requests|
    && (forall t :: t in s.queues ==> s.queues[t] < |s.created| && s.created[s.queues[t]] == t)
    && (forall q :: 0 <= q < |s.created| ==> s.created[q] in s.queues && s.queues[s.created[q]] == q)
    && (forall i :: 0 <= i < |s.requests| ==> Placed(s, i))
  }

  predicate Placed(s: Server, i: nat)
    requires i < |s.requests| == |s.phases|
  {
    match s.phases[i]
    case PushedTo(q) => s.requests[i].topic in s.queues && s.queues[s.requests[i].topic] == q
    case Missed => s.requests[i].isBatch && s.requests[i].topic != ""
    case PushedAsync => s.requests[i].topic == "" || !s.requests[i].isBatch
    case Failed => s.requests[i].isBatch
    case Arrived => true
  }

  lemma SectionKeepsOneQueue(s: Server, x: Section)
    requires OneQueueEach(s) && Enabled(s, x)
    ensures OneQueueEach(Apply(s, x)) && Apply(s, x).requests == s.requests
  {
    var n := Apply(s, x);
    forall i | 0 <= i < |n.requests| ensures Placed(n, i) {
      assert Placed(s, i);
    }
  }

  lemma {:induction false} RunKeepsOneQueue(s: Server, xs: seq<Section>)
    requires OneQueueEach(s) && IsRun(s, xs)
    ensures OneQueueEach(Exec(s, xs)) && Exec(s, xs).requests == s.requests
    decreases |xs|
  {
    if xs != [] {
      SectionKeepsOneQueue(s, xs[0]);
      RunKeepsOneQueue(Apply(s, xs[0]), xs[1..]);
    }
  }

  /** Any number of concurrent BATCH requests to a new topic, among any others, in every interleaving of
      their critical sections: when they have been handled and none of them failed to create the topic,
      exactly one queue was made for it and every one of them was pushed to that queue. */
  lemma OneQueueForAll(requests: seq<Request>, xs: seq<Section>, topic: string) returns (q: nat)
    requires topic != "" && Request(topic, true) in requests
    requires IsRun(Initial(requests), xs)
    requires var s := Exec(Initial(requests), xs);
             forall i :: 0 <= i < |requests| == |s.phases| && requests[i] == Request(topic, true) ==>
               !s.phases[i].Arrived? && !s.phases[i].Missed? && !s.phases[i].Failed?
    ensures var s := Exec(Initial(requests), xs);
            && s.requests == requests && |s.phases| == |requests|
            && q < |s.created| && s.created[q] == topic
            && (forall k :: 0 <= k < |s.created| && s.created[k] == topic ==> k == q)
            && (forall i :: 0 <= i < |requests| && requests[i] == Request(topic, true) ==> s.phases[i] == PushedTo(q))
  {
    RunKeepsOneQueue(Initial(requests), xs);
    var s := Exec(Initial(requests), xs);
    var i :| 0 <= i < |requests| && requests[i] == Request(topic, true);
    assert Placed(s, i);
    q := s.queues[topic];
    forall j | 0 <= j < |requests| && requests[j] == Request(topic, true) ensures s.phases[j] == PushedTo(q) {
      assert Placed(s, j);
    }
  }

  // ----- where each request goes

  /** Queues and finished requests stay as they are. */
  lemma {:induction false} RunKeepsPlaces(s: Server, xs: seq<Section>)
    requires |s.phases| == |s.requests| && IsRun(s, xs)
    ensures var n := Exec(s, xs);
            && n.requests == s.requests && |n.phases| == |n.requests| && s.created <= n.created
            && (forall t :: t in s.queues ==> t in n.queues && n.queues[t] == s.queues[t])
            && (forall i :: 0 <= i < |s.phases| && !s.phases[i].Arrived? && !s.phases[i].Missed? ==>
                  n.phases[i] == s.phases[i])
    decreases |xs|
  {
    if xs != [] {
      RunKeepsPlaces(Apply(s, xs[0]), xs[1..]);
    }
  }

  lemma {:induction false} RunSplits(s: Server, xs: seq<Section>, p: nat)
    requires IsRun(s, xs) && p <= |xs|
    ensures IsRun(s, xs[..p]) && IsRun(Exec(s, xs[..p]), xs[p..])
    ensures Exec(s, xs) == Exec(Exec(s, xs[..p]), xs[p..])
    decreases p
  {
    if p == 0 {
      assert xs[..0] == [] && xs[0..] == xs;
    } else {
      RunSplits(Apply(s, xs[0]), xs[1..], p - 1);
      assert xs[..p][0] == xs[0] && xs[..p][1..] == xs[1..][..p - 1] && xs[p..] == xs[1..][p - 1..];
    }
  }

  /** Where a request of any kind ends up is decided when it first looks: with a queue for its topic it is
      pushed to that queue; without one, or without a topic, it is pushed to the asynchronous queue unless it
      is a BATCH; and a BATCH that missed is pushed to the topic's queue or fails. */
  lemma RoutedWhenLooked(requests: seq<Request>, xs: seq<Section>, p: nat, i: nat)
    requires IsRun(Initial(requests), xs) && p < |xs| && xs[p] == Look(i)
    ensures IsRun(Initial(requests), xs[..p]) && i < |requests|
    ensures var at, n := Exec(Initial(requests), xs[..p]), Exec(Initial(requests), xs);
            var r := requests[i];
            && |n.phases| == |requests|
            && if r.topic == "" then n.phases[i] == PushedAsync
               else if r.topic in at.queues then n.phases[i] == PushedTo(at.queues[r.topic])
               else if !r.isBatch then n.phases[i] == PushedAsync
               else
                 || n.phases[i] == Missed || n.phases[i] == Failed
                 || (r.topic in n.queues && n.phases[i] == PushedTo(n.queues[r.topic]))
  {
    var start := Initial(requests);
    RunSplits(start, xs, p);
    var at, rest := Exec(start, xs[..p]), xs[p..];
    RunKeepsOneQueue(start, xs[..p]);
    assert rest[0] == Look(i);
    var next := Apply(at, Look(i));
    RunKeepsPlaces(next, rest[1..]);
    RunKeepsOneQueue(start, xs);
    var n := Exec(start, xs);
    assert n == Exec(next, rest[1..]);
    assert Placed(n, i);
    if next.phases[i].Missed? { MissedGoesOn(next, rest[1..], i); }
  }

  /** A BATCH that missed does not go to the asynchronous queue. */
  lemma {:induction false} MissedGoesOn(s: Server, xs: seq<Section>, i: nat)
    requires |s.phases| == |s.requests| && IsRun(s, xs) && i < |s.requests| && s.phases[i].Missed?
    ensures var n := Exec(s, xs);
            && |n.phases| == |s.requests|
            && (n.phases[i].Missed? || n.phases[i].Failed? || n.phases[i].PushedTo?)
    decreases |xs|
  {
    RunKeepsPlaces(s, xs);
    if xs != [] {
      var n := Apply(s, xs[0]);
      if n.phases[i].Missed? { MissedGoesOn(n, xs[1..], i); } else { RunKeepsPlaces(n, xs[1..]); }
    }
  }

  /** A request with a topic that was pushed to the asynchronous queue is no BATCH, and no queue for its topic
      existed when it looked. */
  lemma AsyncOnlyBefore(requests: seq<Request>, xs: seq<Section>, p: nat, i: nat)
    requires IsRun(Initial(requests), xs) && p < |xs| && xs[p] == Look(i) && i < |requests| && requests[i].topic != ""
    ensures IsRun(Initial(requests), xs[..p])
    ensures var at, n := Exec(Initial(requests), xs[..p]), Exec(Initial(requests), xs);
            && |n.phases| == |requests|
            && (n.phases[i] == PushedAsync <==> !requests[i].isBatch && requests[i].topic !in at.queues)
  {
    hide Exec, IsRun, Initial;
    RoutedWhenLooked(requests, xs, p, i);
  }

  /** A request fails only in its own second look, when there is still no queue and the topic cannot be set
      up. */
  lemma {:induction false} FailsOnlyByTopic(s: Server, xs: seq<Section>, i: nat) returns (p: nat)
    requires |s.phases| == |s.requests| && IsRun(s, xs) && i < |s.requests|
    requires !s.phases[i].Failed? && |Exec(s, xs).phases| == |s.requests| && Exec(s, xs).phases[i].Failed?
    ensures p < |xs| && xs[p] == LookAgain(i, false) && IsRun(s, xs[..p])
    ensures s.requests[i].topic !in Exec(s, xs[..p]).queues
    decreases |xs|
  {
    var n := Apply(s, xs[0]);
    if n.phases[i].Failed? {
      p := 0;
      assert xs[..0] == [];
    } else {
      var q := FailsOnlyByTopic(n, xs[1..], i);
      p := q + 1;
      assert xs[..p][0] == xs[0] && xs[..p][1..] == xs[1..][..q];
    }
  }

  /** A section makes a queue if and only if it is the second look of a BATCH, still finds none, and the topic
      can be set up. */
  lemma MakesQueueIff(s: Server, x: Section)
    requires Enabled(s, x)
    ensures var n, topic := Apply(s, x), s.requests[x.req].topic;
            if x.LookAgain? && x.succeeds && topic !in s.queues then
              n.created == s.created + [topic] && n.queues == s.queues[topic := |s.created|]
            else n.created == s.created && n.queues == s.queues
  {}

  /** Every queue was made for a BATCH request to its topic. */
  lemma {:induction false} QueuesAreForBatches(s: Server, xs: seq<Section>, q: nat)
    requires OneQueueEach(s) && IsRun(s, xs) && |s.created| <= q < |Exec(s, xs).created|
    ensures Request(Exec(s, xs).created[q], true) in s.requests && Exec(s, xs).created[q] != ""
    decreases |xs|
  {
    var n := Apply(s, xs[0]);
    SectionKeepsOneQueue(s, xs[0]);
    RunKeepsPlaces(n, xs[1..]);
    assert Placed(s, xs[0].req);
    if |n.created| <= q {
      QueuesAreForBatches(n, xs[1..], q);
    } else {
      assert s.requests[xs[0].req] == Request(n.created[q], true);
    }
  }
}
