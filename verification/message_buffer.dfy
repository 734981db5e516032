/** The node's per-topic message buffer (`message_data`): feedback callbacks
    create a topic's list on its first message and append every later one. */
module MessageBuffer {

  /** A key of `message_data`: the name of the topic a message came from. */
  type DataKey = string

  const CoreFeedback: DataKey := "/astra/core/feedback"
  const BioFeedback: DataKey := "/astra/bio/feedback"
  const ArmFeedback: DataKey := "/astra/arm/feedback"
  const FaerieFeedback: DataKey := "/astra/arm/bio/feedback"

  /** A std_msgs String message. */
  datatype StringMsg = StringMsg(data: string)

  /** A FaerieTelemetry message (humidity and temperature readings). */
  datatype FaerieTelemetry = FaerieTelemetry(humidity: real, temperature: real)

  /** What the buffer holds: the text of a String message, or a whole
      telemetry message. */
  datatype Item = Text(text: string) | Telemetry(reading: FaerieTelemetry)

  type Buffer = map<DataKey, seq<Item>>

  /** The list under `topic`, or the empty list a first message starts from. */
  function Stored(buf: Buffer, topic: DataKey): seq<Item>
  {
    if topic in buf then buf[topic] else []
  }

  /** The shared pattern: make sure the key has a list, then append. */
  function AppendItem(buf: Buffer, topic: DataKey, item: Item): (buf': Buffer)
    ensures topic in buf'
    ensures buf'[topic] == Stored(buf, topic) + [item]
    ensures forall k | k != topic :: k in buf' <==> k in buf
    ensures forall k | k != topic && k in buf :: buf'[k] == buf[k]
  {
    buf[topic := Stored(buf, topic) + [item]]
  }

  /** `append_key_list`: appends the message's text to the topic's list. */
  function AppendKeyList(buf: Buffer, topic: DataKey, msg: StringMsg): (buf': Buffer)
    ensures topic in buf'
    ensures buf'[topic] == Stored(buf, topic) + [Text(msg.data)]
    ensures forall k | k != topic :: k in buf' <==> k in buf
    ensures forall k | k != topic && k in buf :: buf'[k] == buf[k]
  {
    AppendItem(buf, topic, Text(msg.data))
  }

  /** `core_feedback_callback`: buffers the message's text under the core
      feedback topic. */
  function CoreFeedbackCallback(buf: Buffer, msg: StringMsg): (buf': Buffer)
    ensures CoreFeedback in buf'
    ensures buf'[CoreFeedback] == Stored(buf, CoreFeedback) + [Text(msg.data)]
    ensures forall k | k != CoreFeedback :: k in buf' <==> k in buf
    ensures forall k | k != CoreFeedback && k in buf :: buf'[k] == buf[k]
  {
    AppendKeyList(buf, CoreFeedback, msg)
  }

  /** `bio_feedback_callback`: the same under the bio feedback topic. */
  function BioFeedbackCallback(buf: Buffer, msg: StringMsg): (buf': Buffer)
    ensures BioFeedback in buf'
    ensures buf'[BioFeedback] == Stored(buf, BioFeedback) + [Text(msg.data)]
    ensures forall k | k != BioFeedback :: k in buf' <==> k in buf
    ensures forall k | k != BioFeedback && k in buf :: buf'[k] == buf[k]
  {
    AppendKeyList(buf, BioFeedback, msg)
  }

  /** `arm_feedback_callback`: the same under the arm feedback topic. */
  function ArmFeedbackCallback(buf: Buffer, msg: StringMsg): (buf': Buffer)
    ensures ArmFeedback in buf'
    ensures buf'[ArmFeedback] == Stored(buf, ArmFeedback) + [Text(msg.data)]
    ensures forall k | k != ArmFeedback :: k in buf' <==> k in buf
    ensures forall k | k != ArmFeedback && k in buf :: buf'[k] == buf[k]
  {
    AppendKeyList(buf, ArmFeedback, msg)
  }

  /** `faerie_feedback_callback`: the same update, inlined, but it stores the
      whole message rather than a text field. */
  function FaerieFeedbackCallback(buf: Buffer, msg: FaerieTelemetry): (buf': Buffer)
    ensures FaerieFeedback in buf'
    ensures buf'[FaerieFeedback] == Stored(buf, FaerieFeedback) + [Telemetry(msg)]
    ensures forall k | k != FaerieFeedback :: k in buf' <==> k in buf
    ensures forall k | k != FaerieFeedback && k in buf :: buf'[k] == buf[k]
  {
    AppendItem(buf, FaerieFeedback, Telemetry(msg))
  }

  /** One message handed to a buffering callback. */
  datatype Delivery = Delivery(topic: DataKey, item: Item)

  /** The buffer after the callbacks have run for `ds`, in order. */
  function Replay(buf: Buffer, ds: seq<Delivery>): Buffer
    decreases |ds|
  {
    if ds == [] then buf
    else Replay(AppendItem(buf, ds[0].topic, ds[0].item), ds[1..])
  }

  /** The items delivered for `topic`, in delivery order. */
  function ItemsFor(ds: seq<Delivery>, topic: DataKey): seq<Item>
  {
    if ds == [] then []
    else (if ds[0].topic == topic then [ds[0].item] else []) + ItemsFor(ds[1..], topic)
  }

  /** The buffer keeps every delivered message under its topic, in arrival
      order, after what was there; it lists a topic only once a message for it
      has arrived. */
  lemma {:induction false} ReplayKeepsEveryMessage(buf: Buffer, ds: seq<Delivery>, topic: DataKey)
    ensures Stored(Replay(buf, ds), topic) == Stored(buf, topic) + ItemsFor(ds, topic)
    ensures topic in Replay(buf, ds) <==> topic in buf || ItemsFor(ds, topic) != []
    decreases |ds|
  {
    if ds != [] {
      var next := AppendItem(buf, ds[0].topic, ds[0].item);
      ReplayKeepsEveryMessage(next, ds[1..], topic);
      if ds[0].topic == topic {
        assert Stored(next, topic) == Stored(buf, topic) + [ds[0].item];
        assert ItemsFor(ds, topic) == [ds[0].item] + ItemsFor(ds[1..], topic);
      } else {
        assert Stored(next, topic) == Stored(buf, topic);
        assert ItemsFor(ds, topic) == ItemsFor(ds[1..], topic);
      }
    }
  }
}
