/**
  The wire vocabulary of the relay: the values that arrive on a connection and
  the frames the relay sends. JSON text is not modelled; a control message is
  the decoded object and an outgoing frame is the object the relay would
  stringify.
 */
module Protocol {

  newtype byte = x: int | 0 <= x < 256

  type Bytes = seq<byte>

  /** The first byte of every JSON object, `{`. */
  const OpenBrace: byte := 0x7B

  /** A connection, compared by identity. */
  type ConnId = nat

  datatype Option<T> = None | Some(value: T)

  /**
    A JavaScript value read from a JSON field and used as a camera id or
    name: a missing field is `undefined`, an explicit `null` is `null`,
    otherwise a string. `Map` keys compare these by value.
   */
  datatype Key = Undefined | Null | Str(text: string)

  /** JavaScript truthiness of a `Key`: only a non-empty string is truthy. */
  predicate Truthy(k: Key) {
    k.Str? && k.text != ""
  }

  /** A control message whose `type` is one of the five the handler knows. */
  datatype ControlMsg =
    | Video(cameraId: Key)
    | AudioFromCamera(cameraId: Key)
    | AudioFromPc(targetCameraId: Key)
    | CameraInit(cameraId: Key, name: Key)
    | ViewerInit

  /**
    What the message handler makes of one incoming message: a known control
    message, a `{`-led message that does nothing (it failed to parse, or its
    `type` is unknown), or a payload frame.
   */
  datatype Event = Control(msg: ControlMsg) | Ignored | Binary(payload: Bytes)

  /**
    The handler's first test: a message whose first byte is `{` is decoded as
    JSON; anything else, the empty message included, is a payload.
    `decoded` stands for the outcome of `JSON.parse` and the dispatch on
    `type`: `None` when parsing throws or the type is unknown.
   */
  function Classify(message: Bytes, decoded: Option<ControlMsg>): (e: Event)
    ensures e.Binary? <==> |message| == 0 || message[0] != OpenBrace
    ensures e.Binary? ==> e.payload == message
    ensures !e.Binary? ==> (e.Control? <==> decoded.Some?) && (e.Control? ==> decoded == Some(e.msg))
  {
    if |message| > 0 && message[0] == OpenBrace then
      match decoded
      case Some(m) => Control(m)
      case None => Ignored
    else
      Binary(message)
  }

  /** One entry of a `camera-list` message. */
  datatype Entry = Entry(id: Key, name: Key)

  /** A frame the relay sends: the four announcements and lists, or raw bytes. */
  datatype Frame =
    | CameraList(cameras: seq<Entry>)
    | VideoAnn(cameraId: Key)
    | CamAudioAnn(cameraId: Key)
    | PcAudioAnn
    | Payload(data: Bytes)

  /** One `send` call: a frame addressed to a connection. */
  datatype Send = Send(to: ConnId, frame: Frame)
}
