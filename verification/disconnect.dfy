/** `handle_disconnect`: a pass over a snapshot of the registry's keys that
    removes one occurrence of the departing socket from every list that holds
    it, and kills each topic whose list is that socket alone. A socket listed
    twice for a topic therefore stays listed once. */
module Disconnect {
  import opened ListOps
  import opened Registry

  /** What leaving does to one entry, read topic by topic: an entry not
      listing the socket stays; an entry listing only that socket goes (None);
      any other entry loses the socket's first occurrence. */
  function Detach(e: Entry, sid: SocketId): Option<Entry>
  {
    if sid !in e.socketIds then Some(e)
    else if e.socketIds == [sid] then None
    else Some(e.(socketIds := RemoveFirst(e.socketIds, sid)))
  }

  /** The destroy requests a pass over `ks` issues, in key order: one for
      each topic whose whole list is the departing socket. */
  function Teardown(m: map<Topic, Entry>, sid: SocketId, ks: seq<Topic>): seq<BusEvent>
    requires forall k | k in ks :: k in m
  {
    if ks == [] then []
    else
      (if m[ks[0]].socketIds == [sid] then [Destroyed(m[ks[0]].subscriber)] else [])
      + Teardown(m, sid, ks[1..])
  }

  /** The body of the loop for one key: the source tests membership and then
      the list length, which singles out the same entries as `Detach`. */
  function Step(n: Node, sid: SocketId, key: Topic): (n': Node)
    requires key in n.entries
    ensures Lookup(n'.entries, key) == Detach(n.entries[key], sid)
    ensures forall t | t != key :: Lookup(n'.entries, t) == Lookup(n.entries, t)
    ensures n'.bus.nextHandle == n.bus.nextHandle
    ensures n'.bus.log == n.bus.log +
      (if n.entries[key].socketIds == [sid] then [Destroyed(n.entries[key].subscriber)] else [])
    ensures WellFormed(n) ==> WellFormed(n') && n'.keys == Retain(n.keys, n'.entries.Keys)
  {
    var ids := n.entries[key].socketIds;
    if sid in ids then
      if |ids| == 1 then
        assert ids == [sid];
        KillImageSubscriber(n, key)
      else
        var n' := n.(entries := n.entries[key := n.entries[key].(socketIds := RemoveFirst(ids, sid))]);
        assert n'.entries.Keys == n.entries.Keys;
        RetainAll(n.keys, n.entries.Keys);
        n'
    else
      RetainAll(n.keys, n.entries.Keys);
      n
  }

  lemma TeardownFrame(m: map<Topic, Entry>, m': map<Topic, Entry>, sid: SocketId, ks: seq<Topic>)
    requires forall k | k in ks :: k in m && k in m' && m[k] == m'[k]
    ensures Teardown(m, sid, ks) == Teardown(m', sid, ks)
  {
  }

  /** The loop of `handle_disconnect` over the keys `ks`, one `Step` per key. */
  function DisconnectKeys(n: Node, sid: SocketId, ks: seq<Topic>): Node
    requires Distinct(ks)
    requires forall k | k in ks :: k in n.entries
    decreases |ks|
  {
    if ks == [] then n
    else
      var mid := Step(n, sid, ks[0]);
      TailValues(ks);
      DisconnectKeys(mid, sid, ks[1..])
  }

  /** Each key of the snapshot gets its `Detach` outcome; keys outside it are
      untouched. */
  lemma {:induction false} DisconnectKeysEntries(n: Node, sid: SocketId, ks: seq<Topic>)
    requires Distinct(ks)
    requires forall k | k in ks :: k in n.entries
    ensures var n' := DisconnectKeys(n, sid, ks);
      forall t | t in ks :: Lookup(n'.entries, t) == Detach(n.entries[t], sid)
    ensures var n' := DisconnectKeys(n, sid, ks);
      forall t | t !in ks :: Lookup(n'.entries, t) == Lookup(n.entries, t)
    decreases |ks|
  {
    if ks != [] {
      var k := ks[0];
      var mid := Step(n, sid, k);
      TailValues(ks);
      DisconnectKeysEntries(mid, sid, ks[1..]);
      var n' := DisconnectKeys(mid, sid, ks[1..]);
      assert n' == DisconnectKeys(n, sid, ks);
      forall t | t in ks
        ensures Lookup(n'.entries, t) == Detach(n.entries[t], sid)
      {
        if t == k {
          assert t !in ks[1..];
        } else {
          assert t in ks[1..];
        }
      }
    }
  }

  /** The bus receives the destroy requests of `Teardown`, in snapshot order,
      and opens nothing. */
  lemma {:induction false} DisconnectKeysBus(n: Node, sid: SocketId, ks: seq<Topic>)
    requires Distinct(ks)
    requires forall k | k in ks :: k in n.entries
    ensures var n' := DisconnectKeys(n, sid, ks);
      n'.bus == n.bus.(log := n.bus.log + Teardown(n.entries, sid, ks))
    decreases |ks|
  {
    if ks != [] {
      var k := ks[0];
      var mid := Step(n, sid, k);
      TailValues(ks);
      DisconnectKeysBus(mid, sid, ks[1..]);
      forall t | t in ks[1..]
        ensures t in n.entries && t in mid.entries && n.entries[t] == mid.entries[t]
      {
        assert Lookup(mid.entries, t) == Lookup(n.entries, t);
      }
      TeardownFrame(n.entries, mid.entries, sid, ks[1..]);
      var n' := DisconnectKeys(mid, sid, ks[1..]);
      assert DisconnectKeys(n, sid, ks) == n';
      var head := if n.entries[k].socketIds == [sid] then [Destroyed(n.entries[k].subscriber)] else [];
      var rest := Teardown(n.entries, sid, ks[1..]);
      assert Teardown(n.entries, sid, ks) == head + rest;
      assert mid.bus.log == n.bus.log + head;
      assert n'.bus.log == (n.bus.log + head) + rest;
      ConcatAssoc(n.bus.log, head, rest);
      assert n'.bus.log == n.bus.log + Teardown(n.entries, sid, ks);
      assert n'.bus.nextHandle == n.bus.nextHandle;
    }
  }

  /** The loop keeps the key order a dict of the surviving keys would have. */
  lemma {:induction false} DisconnectKeysOrder(n: Node, sid: SocketId, ks: seq<Topic>)
    requires Distinct(ks)
    requires forall k | k in ks :: k in n.entries
    requires WellFormed(n)
    ensures var n' := DisconnectKeys(n, sid, ks);
      WellFormed(n') && n'.keys == Retain(n.keys, n'.entries.Keys)
    decreases |ks|
  {
    var n' := DisconnectKeys(n, sid, ks);
    if ks == [] {
      RetainAll(n.keys, n.entries.Keys);
    } else {
      var mid := Step(n, sid, ks[0]);
      TailValues(ks);
      DisconnectKeysOrder(mid, sid, ks[1..]);
      DisconnectKeysEntries(mid, sid, ks[1..]);
      assert n'.entries.Keys <= mid.entries.Keys by {
        forall t | t in n'.entries ensures t in mid.entries {
          assert Lookup(n'.entries, t).Some?;
        }
      }
      RetainTwice(n.keys, mid.entries.Keys, n'.entries.Keys);
    }
  }

  /** What `handle_disconnect` leaves under key `t` of `m`. */
  function Outcome(m: map<Topic, Entry>, t: Topic, sid: SocketId): Option<Entry>
  {
    if t in m then Detach(m[t], sid) else None
  }

  /** `handle_disconnect(sid)`: every key gets its `Detach` outcome, no key
      appears, the bus receives the destroy requests of `Teardown` in key
      order, and the surviving keys keep their order. */
  function HandleDisconnect(n: Node, sid: SocketId): (n': Node)
    requires WellFormed(n)
    ensures forall t :: Lookup(n'.entries, t) == Outcome(n.entries, t, sid)
    ensures n'.bus == n.bus.(log := n.bus.log + Teardown(n.entries, sid, n.keys))
    ensures WellFormed(n') && n'.keys == Retain(n.keys, n'.entries.Keys)
  {
    var n' := DisconnectKeys(n, sid, n.keys);
    DisconnectKeysOrder(n, sid, n.keys);
    DisconnectKeysEntries(n, sid, n.keys);
    DisconnectKeysBus(n, sid, n.keys);
    n'
  }

  /** The three outcomes spelled out. A topic not listing the socket keeps
      its entry unchanged; a topic listing only the socket loses its entry;
      any other topic listing it loses the socket's first occurrence and keeps
      its callback and handle. No topic appears. */
  lemma DisconnectOutcomes(n: Node, sid: SocketId, t: Topic)
    requires WellFormed(n)
    ensures var n' := HandleDisconnect(n, sid);
      && (t !in n.entries ==> t !in n'.entries)
      && (t in n.entries && sid !in n.entries[t].socketIds ==> t in n'.entries && n'.entries[t] == n.entries[t])
      && (t in n.entries && n.entries[t].socketIds == [sid] ==> t !in n'.entries)
      && (t in n.entries && sid in n.entries[t].socketIds && n.entries[t].socketIds != [sid] ==>
            && t in n'.entries
            && n'.entries[t].socketIds == RemoveFirst(n.entries[t].socketIds, sid)
            && n'.entries[t].callback == n.entries[t].callback
            && n'.entries[t].subscriber == n.entries[t].subscriber)
  {
    var n' := HandleDisconnect(n, sid);
    assert Lookup(n'.entries, t) == Outcome(n.entries, t, sid);
  }

  lemma StepPreservesValid(n: Node, sid: SocketId, key: Topic)
    requires Valid(n)
    requires key in n.entries
    ensures Valid(Step(n, sid, key))
  {
    var ids := n.entries[key].socketIds;
    if sid in ids && |ids| == 1 {
      KillPreservesValid(n, key);
    } else {
      var n' := Step(n, sid, key);
      StepKeepsEntries(n, sid, key);
      HandlesKept(n, n');
      forall t
        ensures Outstanding(n'.bus.log, t) == Held(n', t)
      {
        assert Outstanding(n.bus.log, t) == Held(n, t);
      }
    }
  }

  /** A step that does not kill keeps every entry, with its handle and
      callback, and a non-empty list. */
  lemma StepKeepsEntries(n: Node, sid: SocketId, key: Topic)
    requires NonEmptyLists(n)
    requires key in n.entries
    requires !(sid in n.entries[key].socketIds && |n.entries[key].socketIds| == 1)
    ensures var n' := Step(n, sid, key);
      && n'.bus == n.bus
      && n'.entries.Keys == n.entries.Keys
      && NonEmptyLists(n')
      && forall t | t in n'.entries ::
        && n'.entries[t].subscriber == n.entries[t].subscriber
        && n'.entries[t].callback == n.entries[t].callback
  {
    var n' := Step(n, sid, key);
    forall t
      ensures t in n'.entries <==> t in n.entries
      ensures t in n'.entries ==>
        && n'.entries[t].subscriber == n.entries[t].subscriber
        && n'.entries[t].callback == n.entries[t].callback
        && |n'.entries[t].socketIds| > 0
    {
      assert Lookup(n'.entries, t) == Lookup(n.entries, t) || t == key;
    }
  }

  lemma {:induction false} DisconnectKeysPreservesValid(n: Node, sid: SocketId, ks: seq<Topic>)
    requires Valid(n)
    requires Distinct(ks)
    requires forall k | k in ks :: k in n.entries
    ensures Valid(DisconnectKeys(n, sid, ks))
    decreases |ks|
  {
    if ks != [] {
      var mid := Step(n, sid, ks[0]);
      StepPreservesValid(n, sid, ks[0]);
      TailValues(ks);
      DisconnectKeysPreservesValid(mid, sid, ks[1..]);
    }
  }

  /** A disconnect keeps the reference-counting invariant. */
  lemma DisconnectPreservesValid(n: Node, sid: SocketId)
    requires Valid(n)
    ensures Valid(HandleDisconnect(n, sid))
  {
    DisconnectKeysPreservesValid(n, sid, n.keys);
  }

  /** The topics `sid` is the only listener of. */
  function LastListened(n: Node, sid: SocketId): set<Topic>
  {
    set t | t in n.entries && n.entries[t].socketIds == [sid]
  }

  /** The keys among `ks` whose whole list is `sid`. */
  function Emptied(m: map<Topic, Entry>, sid: SocketId, ks: seq<Topic>): set<Topic>
    requires forall k | k in ks :: k in m
  {
    if ks == [] then {}
    else
      TailValues(ks);
      (if m[ks[0]].socketIds == [sid] then {ks[0]} else {}) + Emptied(m, sid, ks[1..])
  }

  /** `Emptied` holds exactly the keys of `ks` that the socket alone listens to. */
  lemma {:induction false} EmptiedMembers(m: map<Topic, Entry>, sid: SocketId, ks: seq<Topic>, t: Topic)
    requires forall k | k in ks :: k in m
    ensures t in Emptied(m, sid, ks) <==> t in ks && m[t].socketIds == [sid]
  {
    if ks != [] {
      TailValues(ks);
      EmptiedMembers(m, sid, ks[1..], t);
      assert t in ks <==> t == ks[0] || t in ks[1..];
    }
  }

  lemma EmptiedIsLastListened(n: Node, sid: SocketId)
    requires WellFormed(n)
    ensures Emptied(n.entries, sid, n.keys) == LastListened(n, sid)
  {
    var s := Emptied(n.entries, sid, n.keys);
    forall t
      ensures t in s <==> t in LastListened(n, sid)
    {
      EmptiedMembers(n.entries, sid, n.keys, t);
    }
  }

  lemma {:induction false} TeardownLength(m: map<Topic, Entry>, sid: SocketId, ks: seq<Topic>)
    requires Distinct(ks)
    requires forall k | k in ks :: k in m
    ensures |Teardown(m, sid, ks)| == |Emptied(m, sid, ks)|
  {
    if ks != [] {
      var tail := ks[1..];
      DistinctSplit(ks);
      assert forall t | t in tail :: t in ks;
      TeardownLength(m, sid, tail);
      EmptiedMembers(m, sid, tail, ks[0]);
    }
  }

  lemma {:induction false} TeardownCount(m: map<Topic, Entry>, sid: SocketId, ks: seq<Topic>, t: Topic)
    requires Distinct(ks)
    requires forall k | k in ks :: k in m
    requires t in m
    requires forall a, b | a in m && b in m && a != b :: m[a].subscriber != m[b].subscriber
    ensures multiset(Teardown(m, sid, ks))[Destroyed(m[t].subscriber)] ==
      if t in ks && m[t].socketIds == [sid] then 1 else 0
  {
    if ks != [] {
      TailValues(ks);
      TeardownCount(m, sid, ks[1..], t);
      assert t in ks <==> t == ks[0] || t in ks[1..];
    }
  }

  /** A disconnect destroys the subscription of each topic the socket was the
      only listener of exactly once, destroys nothing else, and so issues as
      many destroy requests as there are such topics. */
  lemma DisconnectDestroysLastListened(n: Node, sid: SocketId)
    requires Valid(n)
    ensures var n' := HandleDisconnect(n, sid);
      |n'.bus.log| == |n.bus.log| + |LastListened(n, sid)|
    ensures var n' := HandleDisconnect(n, sid);
      forall t | t in n.entries ::
        multiset(n'.bus.log[|n.bus.log|..])[Destroyed(n.entries[t].subscriber)] ==
          if t in LastListened(n, sid) then 1 else 0
  {
    var n' := HandleDisconnect(n, sid);
    var td := Teardown(n.entries, sid, n.keys);
    assert n'.bus.log[|n.bus.log|..] == td;
    TeardownLength(n.entries, sid, n.keys);
    EmptiedIsLastListened(n, sid);
    forall t | t in n.entries
      ensures multiset(td)[Destroyed(n.entries[t].subscriber)] == if t in LastListened(n, sid) then 1 else 0
    {
      TeardownCount(n.entries, sid, n.keys, t);
    }
  }

  lemma {:induction false} TeardownNone(m: map<Topic, Entry>, sid: SocketId, ks: seq<Topic>)
    requires forall k | k in ks :: k in m && m[k].socketIds != [sid]
    ensures Teardown(m, sid, ks) == []
  {
    if ks != [] {
      TailValues(ks);
      TeardownNone(m, sid, ks[1..]);
    }
  }

  lemma {:induction false} TeardownAppend(m: map<Topic, Entry>, sid: SocketId, ks: seq<Topic>, k: Topic)
    requires forall j | j in ks :: j in m
    requires k in m
    ensures Teardown(m, sid, ks + [k]) == Teardown(m, sid, ks) + Teardown(m, sid, [k])
  {
    if ks != [] {
      assert (ks + [k])[1..] == ks[1..] + [k];
      assert forall j | j in ks[1..] :: j in ks;
      TeardownAppend(m, sid, ks[1..], k);
    }
  }

  /** Disconnecting a socket no topic lists changes nothing at all. */
  lemma UnknownSocketIsNoOp(n: Node, sid: SocketId)
    requires WellFormed(n)
    requires forall t | t in n.entries :: sid !in n.entries[t].socketIds
    ensures HandleDisconnect(n, sid) == n
  {
    var n' := HandleDisconnect(n, sid);
    TeardownNone(n.entries, sid, n.keys);
    forall t
      ensures Lookup(n'.entries, t) == Lookup(n.entries, t)
    {
    }
    LookupExtensional(n'.entries, n.entries);
    RetainAll(n.keys, n.entries.Keys);
  }

  /** A socket listed nowhere that asks for a topic nobody listens to and then
      disconnects leaves the registry as it found it; the bus saw one open
      followed by the destroy of the same subscription. */
  lemma SubscribeNewThenDisconnect(n: Node, callback: Callback, topic: Topic, sid: SocketId)
    requires WellFormed(n)
    requires topic !in n.entries
    requires forall t | t in n.entries :: sid !in n.entries[t].socketIds
    ensures var n' := HandleDisconnect(CreateImageSubscriber(n, callback, topic, sid), sid);
      && n'.entries == n.entries
      && n'.keys == n.keys
      && var h := Handle(n.bus.nextHandle);
         n'.bus == Bus(n.bus.nextHandle + 1, n.bus.log + [Opened(topic, callback, h), Destroyed(h)])
  {
    var h := Handle(n.bus.nextHandle);
    var n1 := CreateImageSubscriber(n, callback, topic, sid);
    var n' := HandleDisconnect(n1, sid);
    SubscribeNewThenDisconnectEntries(n, callback, topic, sid);
    assert n'.keys == n.keys by {
      assert n'.keys == Retain(n.keys + [topic], n.entries.Keys);
      RetainAppend(n.keys, topic, n.entries.Keys);
      RetainAll(n.keys, n.entries.Keys);
    }
    assert n'.bus.log == n.bus.log + [Opened(topic, callback, h), Destroyed(h)] by {
      SubscribeNewThenDisconnectBus(n, callback, topic, sid);
      assert n'.bus.log == (n.bus.log + [Opened(topic, callback, h)]) + [Destroyed(h)];
    }
  }

  lemma SubscribeNewThenDisconnectEntries(n: Node, callback: Callback, topic: Topic, sid: SocketId)
    requires WellFormed(n)
    requires topic !in n.entries
    requires forall t | t in n.entries :: sid !in n.entries[t].socketIds
    ensures HandleDisconnect(CreateImageSubscriber(n, callback, topic, sid), sid).entries == n.entries
  {
    var n1 := CreateImageSubscriber(n, callback, topic, sid);
    var n' := HandleDisconnect(n1, sid);
    forall t
      ensures Lookup(n'.entries, t) == Lookup(n.entries, t)
    {
      assert Lookup(n'.entries, t) == Outcome(n1.entries, t, sid);
      if t != topic {
        assert Lookup(n1.entries, t) == Lookup(n.entries, t);
      }
    }
    LookupExtensional(n'.entries, n.entries);
  }

  lemma SubscribeNewThenDisconnectBus(n: Node, callback: Callback, topic: Topic, sid: SocketId)
    requires WellFormed(n)
    requires topic !in n.entries
    requires forall t | t in n.entries :: sid !in n.entries[t].socketIds
    ensures var h := Handle(n.bus.nextHandle);
      Teardown(CreateImageSubscriber(n, callback, topic, sid).entries, sid, n.keys + [topic]) == [Destroyed(h)]
  {
    var h := Handle(n.bus.nextHandle);
    var n1 := CreateImageSubscriber(n, callback, topic, sid);
    forall t | t in n.keys
      ensures t in n1.entries && n1.entries[t].socketIds != [sid]
    {
      assert Lookup(n1.entries, t) == Lookup(n.entries, t);
    }
    TeardownNone(n1.entries, sid, n.keys);
    TeardownAppend(n1.entries, sid, n.keys, topic);
  }

  /** A socket listed nowhere that joins a topic already listened to and then
      disconnects leaves the registry, and the bus, as it found them. */
  lemma SubscribeSharedThenDisconnect(n: Node, callback: Callback, topic: Topic, sid: SocketId)
    requires Valid(n)
    requires topic in n.entries
    requires forall t | t in n.entries :: sid !in n.entries[t].socketIds
    ensures HandleDisconnect(CreateImageSubscriber(n, callback, topic, sid), sid) == n
  {
    var n1 := CreateImageSubscriber(n, callback, topic, sid);
    var n' := HandleDisconnect(n1, sid);
    RemoveAppended(n.entries[topic].socketIds, sid);
    forall t | t in n1.entries
      ensures n1.entries[t].socketIds != [sid]
    {
      assert Lookup(n1.entries, t) == Lookup(n.entries, t) || t == topic;
    }
    TeardownNone(n1.entries, sid, n1.keys);
    forall t
      ensures Lookup(n'.entries, t) == Lookup(n.entries, t)
    {
      assert Lookup(n'.entries, t) == Outcome(n1.entries, t, sid);
      if t != topic {
        assert Lookup(n1.entries, t) == Lookup(n.entries, t);
      }
    }
    LookupExtensional(n'.entries, n.entries);
    RetainAll(n.keys, n.entries.Keys);
  }
}
