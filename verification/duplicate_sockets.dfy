/** A socket that asks twice for the same topic is listed twice, and
    `handle_disconnect` removes only one copy, so the topic keeps an entry and
    an open subscription for a socket that is gone. This module exhibits that
    run of the code as written and states the variant that never lists a
    socket twice, under which a disconnect leaves the socket on no topic. */
module DuplicateSockets {
  import opened ListOps
  import opened Registry
  import opened Disconnect

  /** As written: a socket that asks twice for a topic nobody listens to and
      then disconnects stays listed once, and the subscription stays open. */
  lemma RepeatedRequestOutlivesDisconnect(n: Node, callback: Callback, topic: Topic, sid: SocketId)
    requires Valid(n)
    requires topic !in n.entries
    ensures var twice := CreateImageSubscriber(CreateImageSubscriber(n, callback, topic, sid), callback, topic, sid);
      var n' := HandleDisconnect(twice, sid);
      && twice.entries[topic].socketIds == [sid, sid]
      && topic in n'.entries
      && n'.entries[topic].socketIds == [sid]
      && Outstanding(n'.bus.log, topic) == {Handle(n.bus.nextHandle)}
  {
    var once := CreateImageSubscriber(n, callback, topic, sid);
    var twice := CreateImageSubscriber(once, callback, topic, sid);
    assert twice.entries[topic].socketIds == [sid] + [sid] == [sid, sid];
    var n' := HandleDisconnect(twice, sid);
    assert Lookup(n'.entries, topic) == Outcome(twice.entries, topic, sid);
    assert FirstIndex([sid, sid], sid) == 0;
    assert RemoveFirst([sid, sid], sid) == [sid];
    CreatePreservesValid(n, callback, topic, sid);
    CreatePreservesValid(once, callback, topic, sid);
    DisconnectPreservesValid(twice, sid);
    assert Outstanding(n'.bus.log, topic) == Held(n', topic);
  }

  /** The run above from a freshly started node: socket SocketId("a") asks twice for
      Topic("/camera") and disconnects. */
  lemma RepeatedRequestFromStart()
    ensures var twice := CreateImageSubscriber(CreateImageSubscriber(Empty, Callback(0), Topic("/camera"), SocketId("a")),
                                               Callback(0), Topic("/camera"), SocketId("a"));
      var n' := HandleDisconnect(twice, SocketId("a"));
      Topic("/camera") in n'.entries && Outstanding(n'.bus.log, Topic("/camera")) == {Handle(0)}
  {
    EmptyValid();
    RepeatedRequestOutlivesDisconnect(Empty, Callback(0), Topic("/camera"), SocketId("a"));
  }

  /** No topic lists a socket twice. */
  ghost predicate NoRepeatedSockets(n: Node)
  {
    forall t | t in n.entries :: Distinct(n.entries[t].socketIds)
  }

  /** `create_image_subscriber` with the membership test the disconnect logic
      relies on: a socket already listed for the topic is not listed again. */
  function CreateImageSubscriberOnce(n: Node, callback: Callback, topic: Topic, sid: SocketId): (n': Node)
    ensures topic in n'.entries && sid in n'.entries[topic].socketIds
    ensures topic in n.entries && sid in n.entries[topic].socketIds ==> n' == n
    ensures !(topic in n.entries && sid in n.entries[topic].socketIds) ==>
      n' == CreateImageSubscriber(n, callback, topic, sid)
  {
    if topic in n.entries && sid in n.entries[topic].socketIds then n
    else CreateImageSubscriber(n, callback, topic, sid)
  }

  /** Asking twice is asking once. */
  lemma SubscribeOnceIdempotent(n: Node, callback: Callback, topic: Topic, sid: SocketId)
    ensures var n' := CreateImageSubscriberOnce(n, callback, topic, sid);
      CreateImageSubscriberOnce(n', callback, topic, sid) == n'
  {
  }

  lemma SubscribeOncePreservesInvariants(n: Node, callback: Callback, topic: Topic, sid: SocketId)
    requires Valid(n) && NoRepeatedSockets(n)
    ensures var n' := CreateImageSubscriberOnce(n, callback, topic, sid);
      Valid(n') && NoRepeatedSockets(n')
  {
    var n' := CreateImageSubscriberOnce(n, callback, topic, sid);
    if !(topic in n.entries && sid in n.entries[topic].socketIds) {
      CreatePreservesValid(n, callback, topic, sid);
      forall t | t in n'.entries
        ensures Distinct(n'.entries[t].socketIds)
      {
        if t != topic {
          assert Lookup(n'.entries, t) == Lookup(n.entries, t);
        } else if topic in n.entries {
          var ids := n.entries[topic].socketIds;
          assert n'.entries[t].socketIds == ids + [sid];
          assert Distinct(ids) && sid !in ids;
        }
      }
    }
  }

  lemma DisconnectPreservesNoRepeats(n: Node, sid: SocketId)
    requires WellFormed(n) && NoRepeatedSockets(n)
    ensures NoRepeatedSockets(HandleDisconnect(n, sid))
  {
    var n' := HandleDisconnect(n, sid);
    forall t | t in n'.entries
      ensures Distinct(n'.entries[t].socketIds)
    {
      assert Lookup(n'.entries, t) == Outcome(n.entries, t, sid);
      var ids := n.entries[t].socketIds;
      if sid in ids {
        RemoveFirstDistinct(ids, sid);
      }
    }
  }

  /** With no socket listed twice, a disconnected socket is left on no topic. */
  lemma DisconnectLeavesSocketNowhere(n: Node, sid: SocketId)
    requires WellFormed(n) && NoRepeatedSockets(n)
    ensures var n' := HandleDisconnect(n, sid);
      forall t | t in n'.entries :: sid !in n'.entries[t].socketIds
  {
    var n' := HandleDisconnect(n, sid);
    forall t | t in n'.entries
      ensures sid !in n'.entries[t].socketIds
    {
      assert Lookup(n'.entries, t) == Outcome(n.entries, t, sid);
      var ids := n.entries[t].socketIds;
      if sid in ids {
        RemoveFirstDistinct(ids, sid);
      }
    }
  }

  /** Corrected: the same two requests and disconnect as above now delete
      the topic and destroy its subscription. */
  lemma RepeatedRequestOnceIsCleanedUp()
    ensures var n := CreateImageSubscriberOnce(CreateImageSubscriberOnce(Empty, Callback(0), Topic("/camera"), SocketId("a")),
                                               Callback(0), Topic("/camera"), SocketId("a"));
      var n' := HandleDisconnect(n, SocketId("a"));
      && Topic("/camera") !in n'.entries
      && Outstanding(n'.bus.log, Topic("/camera")) == {}
  {
    var n0 := CreateImageSubscriberOnce(Empty, Callback(0), Topic("/camera"), SocketId("a"));
    var n := CreateImageSubscriberOnce(n0, Callback(0), Topic("/camera"), SocketId("a"));
    EmptyValid();
    CreatePreservesValid(Empty, Callback(0), Topic("/camera"), SocketId("a"));
    assert n == n0;
    assert n.entries[Topic("/camera")].socketIds == [SocketId("a")];
    var n' := HandleDisconnect(n, SocketId("a"));
    assert Lookup(n'.entries, Topic("/camera")) == Outcome(n.entries, Topic("/camera"), SocketId("a"));
    DisconnectPreservesValid(n, SocketId("a"));
    assert Outstanding(n'.bus.log, Topic("/camera")) == Held(n', Topic("/camera"));
  }
}
