/** Bytes, requests, queue entries, application events and errors shared by every layer. */
module Types {
  type byte = b: int | 0 <= b < 256
  type U16 = n: int | 0 <= n < 65536

  datatype Option<+T> = None | Some(value: T)

  datatype Kind =
    | Connect | Publish0 | Publish1 | Publish2 | Puback | Pubrec | Pubrel | Pubcomp
    | Subscribe | Unsubscribe | Pingreq | Disconnect

  datatype ConnectRequest = ConnectRequest(
    keepAlive: U16, cleanSession: bool, willQos: int, willRetain: bool,
    clientId: seq<byte>, willTopic: seq<byte>, willMessage: seq<byte>,
    userName: seq<byte>, password: seq<byte>)

  datatype Subscription = Subscription(requestedQos: int, topic: seq<byte>)

  datatype PublishRequest = PublishRequest(qos: int, retain: bool, topic: seq<byte>, payload: seq<byte>)

  /** What `value` points to; `NoBody` is the null pointer of acknowledgements, PINGREQ and DISCONNECT. */
  datatype Body =
    | NoBody
    | ConnectBody(connect: ConnectRequest)
    | SubscribeBody(subscriptions: seq<Subscription>)
    | PublishBody(publish: PublishRequest)

  /** A store value. `ref` is the identity of the request object (its address in the C code). */
  datatype Value = Value(packetId: U16, ref: nat, body: Body)

  datatype Entry = Entry(kind: Kind, value: Value)

  const ZERO_VALUE := Value(0, 0, NoBody)

  datatype Message = Message(topic: seq<byte>, payload: seq<byte>, qos: int, retain: bool)

  /** Everything that happens outside the buffers, in order. The last four are history only: the
      application does not see them. */
  datatype Event =
    | AllocateTopic(len: nat)
    | AllocatePayload(topic: seq<byte>, len: nat)
    | Delivered(message: Message, packetId: U16)
    | Deallocated
    | SessionPresent(ref: nat, present: bool)
    | SubackCode(ref: nat, index: nat, code: byte)
    | Completed(kind: Kind, value: Value, succeeded: bool)
    | Emitted(kind: Kind, packetId: U16)
    | PubrecSeen(packetId: U16)
    | PubrelSeen(packetId: U16)
    | SessionCleared

  datatype Allocation = AllocateSuccess | AllocateIgnore | AllocateError

  /** The application. A callback may answer according to everything that has happened so far, so
      any deterministic callback with its own state is covered; its last argument is the last event. */
  datatype Env = Env(
    onPublish: bool, onAllocateTopic: bool, onAllocatePayload: bool, onDeallocate: bool,
    allocate: seq<Event> -> Allocation,
    accept: seq<Event> -> bool)

  datatype Error =
    | InvalidType | InvalidFlags | InvalidRemainingLength | ServerSpecific
    | NonzeroRemainingLength | NoCorrespondingRequest | ResponseTooShort
    | ConnackInvalidFlags | ConnackInvalidReturnCode | ConnackInvalidLength
    | SubackCountMismatch | SubackInvalidReturnCode
    | PublishInvalidLength | PublishIdSetFull
    | TopicAllocateFailed | PayloadAllocateFailed | MessageCallbackFailed | PubrelIdSetFull
    | ConnectionRead | ConnectionWrite | Timeout | Closed
    | ConnackRefused(code: byte)
    | CallbackConnack | CallbackSuback | CallbackUnsuback | CallbackPublish
    /** A C `assert` that fails: the process stops here. */
    | AssertionFailed

  datatype IoResult = IoSuccess | IoWouldBlock | IoError

  function Min(a: nat, b: nat): nat { if a < b then a else b }

  function U16Bytes(n: U16): (r: seq<byte>)
    ensures |r| == 2
  {
    [n / 256, n % 256]
  }
}
