# Image-subscription registry of the base-station ROS node

This project models the part of the base station's ROS node (`RosNode` in
`server/ros_handling.py`) that shares middleware subscriptions between web
sockets. The node keeps a dict, `image_subscribers`, from a ROS topic name to
a record with three fields:

- the callback of the first socket that asked for the topic;
- the list of socket ids that asked for it;
- the one ROS subscription object serving the topic.

`create_image_subscriber` opens a subscription the first time a topic is
asked for. Later requests only append the socket id. `handle_disconnect`
walks a snapshot of the dict's keys and removes one occurrence of the
departing socket from every list that holds it. A topic whose list is that
socket alone is handed to `kill_image_subscriber`, which destroys the
subscription and deletes the key. A socket listed twice for a topic therefore
stays listed once (see "## Findings").
This is reference counting by socket list.

The model is functional:

- `Registry.Node` is the dict as a `map<Topic, Entry>`, together with the
  dict's key order (`keys`, insertion order) and a `Bus`.
- The `Bus` is the middleware as the registry uses it: a counter that
  numbers image-subscription handles, and a log of
  `Opened(topic, callback, handle)` and `Destroyed(handle)` requests. The
  subscriptions the constructor opens for its fixed feedback topics
  (lines 76-91) are not image subscriptions and are not in the log, so every
  count over the log, such as "one subscription per topic", is about the
  registry's own subscriptions.
- In the registry, topic names and socket ids are strings wrapped in the datatypes `Topic`
  and `SocketId` so the two cannot be confused.
- Socket lists are sequences. Repeats are allowed, and Python's
  `list.remove` is `ListOps.RemoveFirst`.
- `handle_disconnect` is a fold of one loop step over the key snapshot.
- `Registry.Valid` is the reference-counting invariant, the conjunction of
  six parts. The dict is well formed (`WellFormed`: its key order lists each
  key once and exactly the keys). Every entry has a non-empty list (`NonEmptyLists`).
  Every held handle was given out by the bus (`HandlesIssued`). Entries own
  distinct handles (`HandlesDistinct`). Each handle was opened for its topic
  with the stored callback (`OpensLogged`). The subscriptions the bus has
  open and not destroyed for a topic (`Outstanding`) are exactly the one its
  entry holds (`Accounted`).

A second, smaller piece is the per-topic message buffer `message_data`.
`append_key_list` and `faerie_feedback_callback` create a topic's list on the
first message and append each later one (module `MessageBuffer`).

Three traits of the code shape the model:

- The socket ids of a topic form a list, not a set, and subscribing is not
  idempotent: a repeated request appends the id again (see "## Findings").
- Only the first caller's callback is kept; later callbacks are dropped
  (TODO at lines 232-233).
- There is no error path: a raising `create_subscription` or
  `destroy_subscription` simply propagates.

Module `Lifecycle` drives the registry with any sequence of requests and
disconnects twice: `RunAsWritten` with the handlers as the code has them,
and `Run` with the corrected subscribe of module `DuplicateSockets`.

## Model

| member | source | states |
|---|---|---|
| `ListOps.RemoveFirst` | server/ros_handling.py:249 | `list.remove`: the result is the list with the first occurrence of the value cut out, so all other values keep their order |
| `ListOps.RemoveFirstCount` | server/ros_handling.py:249 | removal takes away exactly one copy of the value and keeps the count of every other value |
| `ListOps.RemoveFirstKeepsCopy` | server/ros_handling.py:249 | the removed value is still in the list afterwards exactly when it occurred at least twice |
| `ListOps.RemoveAppended` | server/ros_handling.py:220 | appending a socket id that was not listed and then removing it gives the original list back |
| `ListOps.RemoveFirstDistinct` | server/ros_handling.py:249 | removal from a list with no repeats keeps it repeat-free and leaves no copy of the value |
| `ListOps.Retain` | server/ros_handling.py:257 | deleting dict keys keeps the surviving keys, and only them, without repeats (the order is stated by `ListOps.RetainAppend`) |
| `ListOps.RetainAppend` | server/ros_handling.py:222-257 | filtering the key order after appending one key is filtering the old order and then appending that key if it survives: deletion keeps the insertion order of the surviving keys |
| `ListOps.RetainTwice` | server/ros_handling.py:239-257 | deleting keys in two rounds leaves the same key order as deleting them at once |
| `Registry.EmptyValid` | server/ros_handling.py:58 | the empty registry of a fresh node satisfies the reference-counting invariant |
| `Registry.SingleHandle` | server/ros_handling.py:58-69 | in a valid registry a topic has at most one subscription open and not destroyed, and it has exactly one while it has an entry |
| `Registry.CreateImageSubscriber` | server/ros_handling.py:217-233 | absent topic: one `Opened` request with the caller's callback and a fresh handle, and an entry `[sid]` appended to the key order. Present topic: no bus request, the same callback and handle, and `sid` appended at the end even when already listed. All other topics are unchanged |
| `Registry.CreatePreservesValid` | server/ros_handling.py:217-231 | creating or joining a subscription keeps the reference-counting invariant (non-empty lists, one open handle per topic) |
| `Registry.CreateOutstanding` | server/ros_handling.py:217-231 | after a create, the subscriptions the bus has open for any topic are exactly the one the registry holds for it |
| `Registry.KillImageSubscriber` | server/ros_handling.py:252-257 | requires the topic to be present. Removes only that key, keeps every other entry and the order of the other keys, and adds exactly one `Destroyed` request, for that entry's handle |
| `Registry.KillPreservesValid` | server/ros_handling.py:252-257 | killing keeps the invariant and leaves the killed topic with no open subscription |
| `Registry.KillOutstanding` | server/ros_handling.py:252-257 | after a kill, the bus has open for each topic exactly what the registry holds: nothing for the killed topic, and the untouched handle of every other topic |
| `Disconnect.Step` | server/ros_handling.py:241-249 | one loop iteration: the source's membership and length-one tests give the per-entry outcome `Detach`. Other keys are untouched, and one destroy is issued exactly when the list is the socket alone |
| `Disconnect.DisconnectKeysEntries` | server/ros_handling.py:239-249 | the loop over a duplicate-free key snapshot gives each listed topic its `Detach` outcome and leaves every topic outside the snapshot untouched, although earlier iterations have already changed the dict |
| `Disconnect.DisconnectKeysBus` | server/ros_handling.py:239-257 | over the same loop the bus opens nothing and receives one destroy per topic whose list was the socket alone, in snapshot order |
| `Disconnect.DisconnectKeysOrder` | server/ros_handling.py:239-257 | after the loop the dict lists each surviving key once, in the order it had before |
| `Disconnect.HandleDisconnect` | server/ros_handling.py:235-249 | every topic of the dict gets its per-entry outcome `Detach` and no topic appears; the bus receives exactly the destroys of `Teardown`, in key order; the surviving keys keep their order |
| `Disconnect.DisconnectOutcomes` | server/ros_handling.py:239-249 | the outcomes spelled out. A topic not listing the socket keeps its entry unchanged. A topic listing only the socket loses its entry. Any other listing topic loses the socket's first occurrence and keeps its callback and handle |
| `Disconnect.StepPreservesValid` | server/ros_handling.py:241-257 | one loop iteration keeps the reference-counting invariant, whether it kills the topic or removes one socket id |
| `Disconnect.DisconnectPreservesValid` | server/ros_handling.py:235-257 | a disconnect keeps the reference-counting invariant, so no entry is ever left with an empty list |
| `Disconnect.EmptiedMembers` | server/ros_handling.py:241-245 | a key is among the topics a pass over the snapshot kills exactly when it is in the snapshot and its list is the socket alone |
| `Disconnect.TeardownLength` | server/ros_handling.py:239-257 | a pass over a duplicate-free snapshot issues as many destroys as it kills topics |
| `Disconnect.DisconnectDestroysLastListened` | server/ros_handling.py:244-257 | the number of destroy requests equals the number of topics the socket was the only listener of. Each of their handles is destroyed exactly once, and no other entry's handle is destroyed |
| `Disconnect.UnknownSocketIsNoOp` | server/ros_handling.py:239-241 | disconnecting a socket that no topic lists leaves the whole node, bus log included, unchanged |
| `Disconnect.SubscribeNewThenDisconnect` | server/ros_handling.py:217-257 | a socket listed nowhere that opens a new topic and then disconnects restores the registry; the bus saw one open and then one destroy of the same handle |
| `Disconnect.SubscribeSharedThenDisconnect` | server/ros_handling.py:217-249 | a socket listed nowhere that joins a shared topic and then disconnects restores the node exactly, bus included |
| `DuplicateSockets.RepeatedRequestOutlivesDisconnect` | server/ros_handling.py:217-249 | as written: a socket that asks twice for a topic nobody listens to is listed twice. After it disconnects the topic still lists it once and the subscription opened for it stays open |
| `DuplicateSockets.RepeatedRequestFromStart` | server/ros_handling.py:217-249 | the same run from a fresh node: socket "a" asks twice for "/camera" and disconnects, and "/camera" keeps its entry and its open subscription |
| `DuplicateSockets.CreateImageSubscriberOnce` | server/ros_handling.py:217-231 | corrected request handling: afterwards the socket is listed for the topic. A repeated request changes nothing. Any other request behaves as `create_image_subscriber` |
| `DuplicateSockets.SubscribeOnceIdempotent` | server/ros_handling.py:218-220 | asking twice with the corrected handling gives the state of asking once |
| `DuplicateSockets.SubscribeOncePreservesInvariants` | server/ros_handling.py:217-231 | the corrected handling keeps the reference-counting invariant and lists no socket twice per topic |
| `DuplicateSockets.DisconnectPreservesNoRepeats` | server/ros_handling.py:235-249 | a disconnect never introduces a repeated socket id |
| `DuplicateSockets.DisconnectLeavesSocketNowhere` | server/ros_handling.py:235-249 | when no list holds repeats, a disconnected socket is left on no topic |
| `DuplicateSockets.RepeatedRequestOnceIsCleanedUp` | server/ros_handling.py:217-257 | corrected: the same two requests and disconnect delete "/camera" and leave it no open subscription |
| `Lifecycle.ApplyAsWritten` | server/ros_handling.py:217-249 | one request handled as the code does it: after a subscribe the socket is listed for the topic |
| `Lifecycle.RunAsWrittenPreservesValid` | server/ros_handling.py:217-257 | any sequence of requests and disconnects handled as written keeps the reference-counting invariant |
| `Lifecycle.OneSubscriptionPerTopicAsWritten` | server/ros_handling.py:217-257 | as written, from a fresh node, after any sequence of requests: lists are non-empty, and a topic has one open image subscription while it has an entry and none otherwise |
| `Lifecycle.RunPreservesSound` | server/ros_handling.py:217-257 | corrected handling: any sequence of requests and disconnects keeps both invariants, reference counting and no repeats (the second fails as written, see "## Findings") |
| `Lifecycle.OneSubscriptionPerTopic` | server/ros_handling.py:217-257 | corrected handling: the same one-subscription-per-topic result as the as-written run |
| `Lifecycle.LeaveDetachesEverywhere` | server/ros_handling.py:235-257 | corrected handling: after a socket leaves, no topic lists it, and every deleted topic has no open subscription. As written the first half fails (see "## Findings") |
| `MessageBuffer.AppendItem` | server/ros_handling.py:191-198 | the topic's new list is its old list, or `[]` when the key was absent, with the item at the end. Every other key is unchanged |
| `MessageBuffer.AppendKeyList` | server/ros_handling.py:191-198 | `append_key_list` appends the message's `data` text to the topic's list and changes no other key |
| `MessageBuffer.CoreFeedbackCallback` | server/ros_handling.py:113-115 | the core feedback callback appends the message text under `/astra/core/feedback` and changes no other key |
| `MessageBuffer.BioFeedbackCallback` | server/ros_handling.py:117-119 | the bio feedback callback appends the message text under `/astra/bio/feedback` and changes no other key |
| `MessageBuffer.ArmFeedbackCallback` | server/ros_handling.py:121-123 | the arm feedback callback appends the message text under `/astra/arm/feedback` and changes no other key |
| `MessageBuffer.FaerieFeedbackCallback` | server/ros_handling.py:125-133 | the Faerie callback appends the whole telemetry message under `/astra/arm/bio/feedback` and changes no other key |
| `MessageBuffer.ReplayKeepsEveryMessage` | server/ros_handling.py:113-133 | after any run of buffering callbacks, each topic's list is its old list followed by every message delivered for it, in arrival order. A topic gets a key only once a message for it arrives |

## Left out

- rclpy node construction and the internals of `create_subscription` and `destroy_subscription`: these are middleware calls. The model records them as `Opened`/`Destroyed` requests on a bus, which numbers handles from a counter so that each is fresh.
- A `create_subscription` that raises: the exception escapes before the dict entry is stored. The model treats the bus as never failing.
- The retry threads `connect_to_ping_service` and `connect_to_autonomy_action`, plus `send_ping` and `ros2_thread`: these are blocking waits, timeouts and threads.
- `create_string_publisher`, `publish_string_data`, `create_subscriber` and `initalize_health_packets`: thin wrappers over the middleware with no logic of their own.
- The printing in every callback, `CvBridge`, and image decoding: output and library calls.
- `chatter_callback`: it stores a bare string under `/topic`, not a list, so it is outside the list buffer.
- Fan-out to several callbacks: the code keeps the first callback and drops later ones (TODO at lines 232-233), and so does the model.
- Locking and thread safety: the code has none, and the model is sequential.
- Sharing of the class-level dicts between instances: the model has a single registry.
- Python's KeyError and ValueError: `KillImageSubscriber` requires a present key, and `RemoveFirst` requires a listed value. The only callers test both conditions first.
- Telemetry readings are Python floats; they are modelled as `real` and only stored, never computed on.
- `react-app/src/App.tsx`: page layout and a toggle, with no registry logic.

## Findings

| source | as written | input that shows it | evidently intended | confidence | as-written member | corrected member |
|---|---|---|---|---|---|---|
| server/ros_handling.py:217-249 | `create_image_subscriber` appends the socket id without checking whether it is already listed. `handle_disconnect` removes one occurrence and kills the subscription only when the list has length 1 | socket "a" asks for "/camera" twice and then disconnects: the list becomes `["a"]`, so the entry and its open subscription outlive the socket | a disconnected socket is on no topic, and a topic no live socket listens to has its subscription destroyed; `Lifecycle.Run` uses the corrected subscribe | medium, not executed | `DuplicateSockets.RepeatedRequestOutlivesDisconnect` | `DuplicateSockets.CreateImageSubscriberOnce` |
