/** The registry driven by the socket layer: any sequence of image requests
    and disconnects, once with the handlers as written and once with requests
    handled so that a socket is listed at most once per topic (the correction
    of module DuplicateSockets). */
module Lifecycle {
  import opened Registry
  import opened Disconnect
  import opened DuplicateSockets

  /** What the socket layer asks of the node. */
  datatype Request =
    | Subscribe(callback: Callback, topic: Topic, sid: SocketId)
    | Leave(sid: SocketId)

  /** One request handled as the node's code does it. */
  function ApplyAsWritten(n: Node, r: Request): (n': Node)
    requires WellFormed(n)
    ensures WellFormed(n')
    ensures r.Subscribe? ==> r.topic in n'.entries && r.sid in n'.entries[r.topic].socketIds
  {
    match r
    case Subscribe(callback, topic, sid) =>
      var n' := CreateImageSubscriber(n, callback, topic, sid);
      assert topic in n.entries ==> n'.entries[topic].socketIds == n.entries[topic].socketIds + [sid];
      n'
    case Leave(sid) => HandleDisconnect(n, sid)
  }

  function RunAsWritten(n: Node, rs: seq<Request>): (n': Node)
    requires WellFormed(n)
    ensures WellFormed(n')
    decreases |rs|
  {
    if rs == [] then n else RunAsWritten(ApplyAsWritten(n, rs[0]), rs[1..])
  }

  lemma {:induction false} RunAsWrittenPreservesValid(n: Node, rs: seq<Request>)
    requires Valid(n)
    ensures Valid(RunAsWritten(n, rs))
    decreases |rs|
  {
    if rs != [] {
      ApplyAsWrittenPreservesValid(n, rs[0]);
      RunAsWrittenPreservesValid(ApplyAsWritten(n, rs[0]), rs[1..]);
    }
  }

  lemma ApplyAsWrittenPreservesValid(n: Node, r: Request)
    requires Valid(n)
    ensures Valid(ApplyAsWritten(n, r))
  {
    match r
    case Subscribe(callback, topic, sid) =>
      CreatePreservesValid(n, callback, topic, sid);
    case Leave(sid) =>
      DisconnectPreservesValid(n, sid);
  }

  /** From a fresh node, after any sequence of requests handled as written:
      no topic has an empty socket list, and a topic has one open image
      subscription while it has an entry and none otherwise. Repeated
      requests do not break this; they only keep a subscription alive too
      long (see `RepeatedRequestOutlivesDisconnect`). */
  lemma OneSubscriptionPerTopicAsWritten(rs: seq<Request>, t: Topic)
    ensures var n := RunAsWritten(Empty, rs);
      && (t in n.entries ==> |n.entries[t].socketIds| > 0)
      && |Outstanding(n.bus.log, t)| <= 1
      && (|Outstanding(n.bus.log, t)| == 1 <==> t in n.entries)
  {
    EmptyValid();
    RunAsWrittenPreservesValid(Empty, rs);
    SingleHandle(RunAsWritten(Empty, rs), t);
  }

  /** One request with the corrected subscribe. */
  function Apply(n: Node, r: Request): (n': Node)
    requires WellFormed(n)
    ensures WellFormed(n')
    ensures r.Subscribe? ==> r.topic in n'.entries && r.sid in n'.entries[r.topic].socketIds
  {
    match r
    case Subscribe(callback, topic, sid) => CreateImageSubscriberOnce(n, callback, topic, sid)
    case Leave(sid) => HandleDisconnect(n, sid)
  }

  function Run(n: Node, rs: seq<Request>): (n': Node)
    requires WellFormed(n)
    ensures WellFormed(n')
    decreases |rs|
  {
    if rs == [] then n else Run(Apply(n, rs[0]), rs[1..])
  }

  lemma {:induction false} RunAppend(n: Node, rs: seq<Request>, r: Request)
    requires WellFormed(n)
    ensures Run(n, rs + [r]) == Apply(Run(n, rs), r)
    decreases |rs|
  {
    if rs != [] {
      assert (rs + [r])[1..] == rs[1..] + [r];
      RunAppend(Apply(n, rs[0]), rs[1..], r);
    }
  }

  /** Both invariants the registry keeps between requests. */
  ghost predicate Sound(n: Node)
  {
    Valid(n) && NoRepeatedSockets(n)
  }

  lemma ApplyPreservesSound(n: Node, r: Request)
    requires Sound(n)
    ensures Sound(Apply(n, r))
  {
    match r
    case Subscribe(callback, topic, sid) =>
      SubscribeOncePreservesInvariants(n, callback, topic, sid);
    case Leave(sid) =>
      DisconnectPreservesValid(n, sid);
      DisconnectPreservesNoRepeats(n, sid);
  }

  lemma {:induction false} RunPreservesSound(n: Node, rs: seq<Request>)
    requires Sound(n)
    ensures Sound(Run(n, rs))
    decreases |rs|
  {
    if rs != [] {
      ApplyPreservesSound(n, rs[0]);
      RunPreservesSound(Apply(n, rs[0]), rs[1..]);
    }
  }

  /** Corrected handling. From a fresh node, after any sequence of requests:
      no topic has an empty socket list, and a topic has one open subscription while it has
      an entry and none otherwise. */
  lemma OneSubscriptionPerTopic(rs: seq<Request>, t: Topic)
    ensures var n := Run(Empty, rs);
      && (t in n.entries ==> |n.entries[t].socketIds| > 0)
      && |Outstanding(n.bus.log, t)| <= 1
      && (|Outstanding(n.bus.log, t)| == 1 <==> t in n.entries)
  {
    EmptyValid();
    RunPreservesSound(Empty, rs);
    SingleHandle(Run(Empty, rs), t);
  }

  /** Corrected handling. After a socket leaves, no topic lists it, and
      every topic whose list emptied has been deleted with its subscription destroyed. */
  lemma LeaveDetachesEverywhere(rs: seq<Request>, sid: SocketId, t: Topic)
    ensures var n := Run(Empty, rs + [Leave(sid)]);
      && (t in n.entries ==> sid !in n.entries[t].socketIds)
      && (t !in n.entries ==> Outstanding(n.bus.log, t) == {})
  {
    EmptyValid();
    RunPreservesSound(Empty, rs);
    var before := Run(Empty, rs);
    RunAppend(Empty, rs, Leave(sid));
    DisconnectLeavesSocketNowhere(before, sid);
    DisconnectPreservesValid(before, sid);
    var n := HandleDisconnect(before, sid);
    assert Outstanding(n.bus.log, t) == Held(n, t);
  }
}
