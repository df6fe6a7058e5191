/** Message types, roles and wire options: src/sparkplug/types.rs and src/error.rs. */
module Types {
  import opened Prelude

  datatype Shape = NodeShape | DeviceShape | HostShape

  datatype QoS = AtMostOnce | AtLeastOnce

  datatype MessageType =
    | NBIRTH | NDATA | NDEATH | NCMD
    | DBIRTH | DDATA | DDEATH | DCMD
    | STATE
  {
    function AsStr(): (text: string)
      ensures '/' !in text && text != ""
    {
      match this
      case NBIRTH => "NBIRTH"
      case NDATA => "NDATA"
      case NDEATH => "NDEATH"
      case NCMD => "NCMD"
      case DBIRTH => "DBIRTH"
      case DDATA => "DDATA"
      case DDEATH => "DDEATH"
      case DCMD => "DCMD"
      case STATE => "STATE"
    }

    function Shape(): Shape {
      match this
      case NBIRTH | NDATA | NDEATH | NCMD => NodeShape
      case DBIRTH | DDATA | DDEATH | DCMD => DeviceShape
      case STATE => HostShape
    }

    /** The QoS the specification fixes, which the publisher role overrides. */
    function SpecQos(): QoS {
      match this
      case NDEATH | STATE => AtLeastOnce
      case _ => AtMostOnce
    }

    predicate SpecRetain() {
      STATE?
    }
  }

  /** The crate's errors, without the prose each message carries. */
  datatype SparkplugError =
    | InvalidTopic(topic: string)
    | UnknownMessageType(text: string)
    | InvalidNamespace(version: string)
    | WrongTopicShape(topic: string, messageType: MessageType)
    | NotAnEdgeNode
    | PublishRefused
    | PublishLost(count: u32)
    | FlushTimeout(unacked: u32)

  function ParseMessageType(text: string): Result<MessageType, SparkplugError> {
    match text
    case "NBIRTH" => Success(NBIRTH)
    case "NDATA" => Success(NDATA)
    case "NDEATH" => Success(NDEATH)
    case "DBIRTH" => Success(DBIRTH)
    case "DDATA" => Success(DDATA)
    case "DDEATH" => Success(DDEATH)
    case "NCMD" => Success(NCMD)
    case "DCMD" => Success(DCMD)
    case "STATE" => Success(STATE)
    case other => Failure(UnknownMessageType(other))
  }

  /** Reading a type back from its text, in both directions and with the error case. */
  lemma MessageTypeText(text: string, mt: MessageType)
    ensures ParseMessageType(text) == Success(mt) <==> text == mt.AsStr()
    ensures ParseMessageType(text).Failure? ==> ParseMessageType(text).error == UnknownMessageType(text)
  {
  }

  /** The words the specification writes for the messages of a node and of a device. */
  predicate NodeWord(word: string) {
    word == "NBIRTH" || word == "NDATA" || word == "NDEATH" || word == "NCMD"
  }

  predicate DeviceWord(word: string) {
    word == "DBIRTH" || word == "DDATA" || word == "DDEATH" || word == "DCMD"
  }

  /** Which word is whose: every type is written by its own, and read back from it. */
  lemma TypeWords()
    ensures NBIRTH.AsStr() == "NBIRTH" && NDATA.AsStr() == "NDATA" && NDEATH.AsStr() == "NDEATH"
    ensures DBIRTH.AsStr() == "DBIRTH" && DDATA.AsStr() == "DDATA" && DDEATH.AsStr() == "DDEATH"
    ensures NCMD.AsStr() == "NCMD" && DCMD.AsStr() == "DCMD" && STATE.AsStr() == "STATE"
    ensures forall mt: MessageType :: mt.Shape().NodeShape? <==> NodeWord(mt.AsStr())
    ensures forall mt: MessageType :: mt.Shape().DeviceShape? <==> DeviceWord(mt.AsStr())
  {
  }

  /** A text names a message exactly when it is one of the nine words. */
  lemma WordsAreTypes(text: string)
    ensures ParseMessageType(text).Success? <==> NodeWord(text) || DeviceWord(text) || text == "STATE"
    ensures ParseMessageType(text).Success? ==> ParseMessageType(text).value.AsStr() == text
    ensures ParseMessageType(text).Failure? ==> ParseMessageType(text).error == UnknownMessageType(text)
  {
  }

  datatype Role = Publisher | EdgeNodeRole

  datatype WireOptions = WireOptions(qos: QoS, retain: bool, tracked: bool)

  function WireOptionsFor(role: Role, mt: MessageType): (options: WireOptions)
    ensures options.tracked <==> role.Publisher? || mt.NDEATH? || mt.STATE?
    ensures options.tracked <==> options.qos.AtLeastOnce?
    ensures options.retain <==> mt.STATE?
  {
    var qos := match role case EdgeNodeRole => mt.SpecQos() case Publisher => AtLeastOnce;
    WireOptions(qos, mt.SpecRetain(), qos.AtLeastOnce?)
  }
}
