/** The image-subscription registry of the ROS node: a dict from topic name
    to {callback, socket_ids, subscriber}, where each entry holds one
    middleware subscription shared by every socket that asked for the topic.
    The middleware itself is reduced to a log of the subscriptions the node
    opens and destroys. */
module Registry {
  import opened ListOps

  /** A ROS topic name. */
  datatype Topic = Topic(name: string)

  /** The session id the socket server gives a connected client. */
  datatype SocketId = SocketId(sid: string)

  /** Identity of the callable the socket layer hands in. */
  datatype Callback = Callback(id: nat)

  /** A middleware subscription object; the bus numbers them in creation order. */
  datatype Handle = Handle(id: nat)

  datatype Option<T> = None | Some(value: T)

  /** One value of the dict: the first caller's callback, the ids of the
      sockets that asked for the topic (repeats allowed), and the handle. */
  datatype Entry = Entry(callback: Callback, socketIds: seq<SocketId>, subscriber: Handle)

  /** What the node asks of the middleware. */
  datatype BusEvent =
    | Opened(topic: Topic, callback: Callback, handle: Handle)
    | Destroyed(handle: Handle)

  /** The middleware as the registry sees it: the next handle it will give out
      and everything it has been asked to do. */
  datatype Bus = Bus(nextHandle: nat, log: seq<BusEvent>)

  /** The registry dict (`entries`), the order in which the dict lists its
      keys (`keys`, insertion order), and the middleware it drives. */
  datatype Node = Node(entries: map<Topic, Entry>, keys: seq<Topic>, bus: Bus)

  /** The state when the node starts: an empty dict and a bus that has seen
      no image subscription. The subscriptions the node's constructor opens
      for its fixed feedback topics are not image subscriptions and are not
      in the log, so every count over the log is a count of the registry's
      own subscriptions. */
  const Empty: Node := Node(map[], [], Bus(0, []))

  function Lookup(m: map<Topic, Entry>, t: Topic): Option<Entry>
  {
    if t in m then Some(m[t]) else None
  }

  /** Two maps that agree on every lookup are the same map. */
  lemma LookupExtensional(m: map<Topic, Entry>, m': map<Topic, Entry>)
    requires forall t :: Lookup(m, t) == Lookup(m', t)
    ensures m == m'
  {
    assert forall t | t in m :: Lookup(m, t) == Some(m[t]);
    assert forall t | t in m' :: Lookup(m', t) == Some(m'[t]);
  }

  /** What any Python dict guarantees: `keys` lists each key once. */
  predicate WellFormed(n: Node)
  {
    && Distinct(n.keys)
    && (forall t | t in n.keys :: t in n.entries)
    && (forall t | t in n.entries :: t in n.keys)
  }

  /** Handles the bus opened for topic `t` and has not yet destroyed. */
  function Outstanding(log: seq<BusEvent>, t: Topic): set<Handle>
    decreases |log|
  {
    if log == [] then {}
    else
      var before := Outstanding(log[..|log| - 1], t);
      match log[|log| - 1]
      case Opened(u, _, h) => if u == t then before + {h} else before
      case Destroyed(h) => before - {h}
  }

  lemma OutstandingAppend(log: seq<BusEvent>, e: BusEvent, t: Topic)
    ensures e.Opened? && e.topic == t ==> Outstanding(log + [e], t) == Outstanding(log, t) + {e.handle}
    ensures e.Opened? && e.topic != t ==> Outstanding(log + [e], t) == Outstanding(log, t)
    ensures e.Destroyed? ==> Outstanding(log + [e], t) == Outstanding(log, t) - {e.handle}
  {
    assert (log + [e])[..|log|] == log;
  }

  /** The handle the registry holds for `t`, as a set. */
  function Held(n: Node, t: Topic): set<Handle>
  {
    if t in n.entries then {n.entries[t].subscriber} else {}
  }

  /** Every entry has at least one socket. */
  ghost predicate NonEmptyLists(n: Node)
  {
    forall t | t in n.entries :: |n.entries[t].socketIds| > 0
  }

  /** Every held handle was given out by the bus. */
  ghost predicate HandlesIssued(n: Node)
  {
    forall t | t in n.entries :: n.entries[t].subscriber.id < n.bus.nextHandle
  }

  /** No two entries share a handle. */
  ghost predicate HandlesDistinct(n: Node)
  {
    forall t, u {:trigger n.entries[t].subscriber, n.entries[u].subscriber}
      | t in n.entries && u in n.entries && t != u ::
      n.entries[t].subscriber != n.entries[u].subscriber
  }

  /** Each held handle was opened for its topic with the stored callback. */
  ghost predicate OpensLogged(n: Node)
  {
    forall t | t in n.entries ::
      Opened(t, n.entries[t].callback, n.entries[t].subscriber) in n.bus.log
  }

  /** The subscriptions the bus has open for a topic are the one its entry holds. */
  ghost predicate Accounted(n: Node)
  {
    forall t :: Outstanding(n.bus.log, t) == Held(n, t)
  }

  /** The reference-counting invariant: every entry has at least one socket,
      entries own distinct handles, each handle was opened for its topic with
      the stored callback, and the subscriptions the bus still has open for a
      topic are exactly the one its entry holds. */
  ghost predicate Valid(n: Node)
  {
    && WellFormed(n)
    && NonEmptyLists(n)
    && HandlesIssued(n)
    && HandlesDistinct(n)
    && OpensLogged(n)
    && Accounted(n)
  }

  /** The handle facts survive any step that keeps or drops entries without
      changing their handles or callbacks and only extends the bus. */
  lemma HandlesKept(n: Node, n': Node)
    requires HandlesIssued(n) && HandlesDistinct(n) && OpensLogged(n)
    requires n.bus.nextHandle <= n'.bus.nextHandle
    requires n.bus.log <= n'.bus.log
    requires forall t | t in n'.entries ::
      && t in n.entries
      && n'.entries[t].subscriber == n.entries[t].subscriber
      && n'.entries[t].callback == n.entries[t].callback
    ensures HandlesIssued(n') && HandlesDistinct(n') && OpensLogged(n')
  {
    forall t | t in n'.entries
      ensures Opened(t, n'.entries[t].callback, n'.entries[t].subscriber) in n'.bus.log
    {
      var ev := Opened(t, n.entries[t].callback, n.entries[t].subscriber);
      var i :| 0 <= i < |n.bus.log| && n.bus.log[i] == ev;
      assert n'.bus.log[i] == ev;
    }
  }

  lemma EmptyValid()
    ensures Valid(Empty)
  {
  }

  /** At most one image subscription per topic is open at any time, and one
      is open exactly while the topic has an entry. (The constructor's own
      feedback subscriptions are outside the log and not counted.) */
  lemma SingleHandle(n: Node, t: Topic)
    requires Valid(n)
    ensures |Outstanding(n.bus.log, t)| <= 1
    ensures |Outstanding(n.bus.log, t)| == 1 <==> t in n.entries
  {
    assert Outstanding(n.bus.log, t) == Held(n, t);
  }

  /** `create_image_subscriber`: the first request for a topic opens one
      subscription with the caller's callback; later requests only append the
      socket id, even when it is already listed. */
  function CreateImageSubscriber(n: Node, callback: Callback, topic: Topic, sid: SocketId): (n': Node)
    ensures topic in n'.entries
    ensures topic !in n.entries ==>
      && n'.entries[topic] == Entry(callback, [sid], Handle(n.bus.nextHandle))
      && n'.bus.nextHandle == n.bus.nextHandle + 1
      && n'.bus.log == n.bus.log + [Opened(topic, callback, n'.entries[topic].subscriber)]
      && n'.keys == n.keys + [topic]
    ensures topic in n.entries ==>
      && n'.entries[topic].callback == n.entries[topic].callback
      && n'.entries[topic].subscriber == n.entries[topic].subscriber
      && n'.entries[topic].socketIds == n.entries[topic].socketIds + [sid]
      && n'.bus == n.bus
      && n'.keys == n.keys
    ensures forall t | t != topic :: Lookup(n'.entries, t) == Lookup(n.entries, t)
    ensures WellFormed(n) ==> WellFormed(n')
  {
    if topic in n.entries then
      var e := n.entries[topic];
      n.(entries := n.entries[topic := e.(socketIds := e.socketIds + [sid])])
    else
      var h := Handle(n.bus.nextHandle);
      Node(n.entries[topic := Entry(callback, [sid], h)],
           n.keys + [topic],
           Bus(n.bus.nextHandle + 1, n.bus.log + [Opened(topic, callback, h)]))
  }

  lemma CreatePreservesValid(n: Node, callback: Callback, topic: Topic, sid: SocketId)
    requires Valid(n)
    ensures Valid(CreateImageSubscriber(n, callback, topic, sid))
  {
    var n' := CreateImageSubscriber(n, callback, topic, sid);
    CreateKeepsEntries(n, callback, topic, sid);
    forall t
      ensures Outstanding(n'.bus.log, t) == Held(n', t)
    {
      CreateOutstanding(n, callback, topic, sid, t);
    }
  }

  /** A create keeps lists non-empty and handles issued, distinct and logged. */
  lemma CreateKeepsEntries(n: Node, callback: Callback, topic: Topic, sid: SocketId)
    requires NonEmptyLists(n) && HandlesIssued(n) && HandlesDistinct(n) && OpensLogged(n)
    ensures var n' := CreateImageSubscriber(n, callback, topic, sid);
      NonEmptyLists(n') && HandlesIssued(n') && HandlesDistinct(n') && OpensLogged(n')
  {
    var n' := CreateImageSubscriber(n, callback, topic, sid);
    if topic in n.entries {
      forall t | t in n'.entries
        ensures t in n.entries && n'.entries[t].subscriber == n.entries[t].subscriber
        ensures n'.entries[t].callback == n.entries[t].callback
        ensures |n'.entries[t].socketIds| > 0
      {
        assert Lookup(n'.entries, t) == Lookup(n.entries, t) || t == topic;
      }
      HandlesKept(n, n');
    } else {
      OpenKeepsEntries(n, callback, topic, sid);
    }
  }

  /** Opening a new topic adds one entry whose handle is fresh and logged. */
  lemma OpenKeepsEntries(n: Node, callback: Callback, topic: Topic, sid: SocketId)
    requires NonEmptyLists(n) && HandlesIssued(n) && HandlesDistinct(n) && OpensLogged(n)
    requires topic !in n.entries
    ensures var n' := CreateImageSubscriber(n, callback, topic, sid);
      NonEmptyLists(n') && HandlesIssued(n') && HandlesDistinct(n') && OpensLogged(n')
  {
    var h := Handle(n.bus.nextHandle);
    var n' := CreateImageSubscriber(n, callback, topic, sid);
    assert n'.entries == n.entries[topic := Entry(callback, [sid], h)];
    assert n'.bus.log == n.bus.log + [Opened(topic, callback, h)];
    forall t | t in n'.entries && t != topic
      ensures Opened(t, n'.entries[t].callback, n'.entries[t].subscriber) in n'.bus.log
    {
      var i :| 0 <= i < |n.bus.log| && n.bus.log[i] == Opened(t, n.entries[t].callback, n.entries[t].subscriber);
      assert n'.bus.log[i] == n.bus.log[i];
    }
    assert n'.bus.log[|n.bus.log|] == Opened(topic, callback, h);
  }

  /** After a create, the bus has open for `t` exactly what the registry holds. */
  lemma CreateOutstanding(n: Node, callback: Callback, topic: Topic, sid: SocketId, t: Topic)
    requires Accounted(n)
    ensures var n' := CreateImageSubscriber(n, callback, topic, sid);
      Outstanding(n'.bus.log, t) == Held(n', t)
  {
    var n' := CreateImageSubscriber(n, callback, topic, sid);
    assert Outstanding(n.bus.log, t) == Held(n, t);
    if topic !in n.entries {
      OutstandingAppend(n.bus.log, Opened(topic, callback, n'.entries[topic].subscriber), t);
    }
    assert Lookup(n'.entries, t) == Lookup(n.entries, t) || t == topic;
  }

  /** `kill_image_subscriber`: destroys the topic's subscription and deletes
      its key; every other key keeps its entry and its place in the order. */
  function KillImageSubscriber(n: Node, topic: Topic): (n': Node)
    requires topic in n.entries
    ensures topic !in n'.entries
    ensures forall t | t != topic :: Lookup(n'.entries, t) == Lookup(n.entries, t)
    ensures n'.bus.nextHandle == n.bus.nextHandle
    ensures n'.bus.log == n.bus.log + [Destroyed(n.entries[topic].subscriber)]
    ensures WellFormed(n) ==> WellFormed(n') && n'.keys == Retain(n.keys, n'.entries.Keys)
  {
    var remaining := n.entries - {topic};
    Node(remaining, Retain(n.keys, remaining.Keys),
         n.bus.(log := n.bus.log + [Destroyed(n.entries[topic].subscriber)]))
  }

  lemma KillPreservesValid(n: Node, topic: Topic)
    requires Valid(n)
    requires topic in n.entries
    ensures Valid(KillImageSubscriber(n, topic))
    ensures Outstanding(KillImageSubscriber(n, topic).bus.log, topic) == {}
  {
    var n' := KillImageSubscriber(n, topic);
    forall t | t in n'.entries
      ensures t in n.entries && n'.entries[t] == n.entries[t]
    {
      assert Lookup(n'.entries, t) == Lookup(n.entries, t);
    }
    HandlesKept(n, n');
    forall t
      ensures Outstanding(n'.bus.log, t) == Held(n', t)
    {
      KillOutstanding(n, topic, t);
    }
  }

  /** After the kill, the bus has open for `t` exactly what the registry holds. */
  lemma KillOutstanding(n: Node, topic: Topic, t: Topic)
    requires Accounted(n) && HandlesDistinct(n)
    requires topic in n.entries
    ensures var n' := KillImageSubscriber(n, topic);
      Outstanding(n'.bus.log, t) == Held(n', t)
  {
    var n' := KillImageSubscriber(n, topic);
    var h := n.entries[topic].subscriber;
    assert Outstanding(n.bus.log, t) == Held(n, t);
    if t == topic {
      assert Held(n, t) == {h} && Held(n', t) == {};
    } else if t in n.entries {
      var g := n.entries[t].subscriber;
      assert g != h;
      assert Lookup(n'.entries, t) == Lookup(n.entries, t);
      assert Held(n, t) == {g} && Held(n', t) == {g};
    } else {
      assert Lookup(n'.entries, t) == Lookup(n.entries, t);
      assert Held(n, t) == {} && Held(n', t) == {};
    }
    OutstandingAppend(n.bus.log, Destroyed(h), t);
  }
}
