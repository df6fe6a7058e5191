/** The topic namespace, in both directions: src/sparkplug/topic.rs. */
module Topic {
  import opened Prelude
  import opened Types
  import opened Ids

  datatype Address =
    | NodeAddress(group: GroupId, node: EdgeNodeId)
    | DeviceAddress(group: GroupId, node: EdgeNodeId, device: DeviceId)
    | HostAddress(host: HostId)

  datatype Namespace = Namespace(text: Segment)

  datatype SparkplugTopic = SparkplugTopic(namespace: Namespace, messageType: MessageType, address: Address) {
    /** The layout the message type requires is the layout the address has. */
    predicate WellFormed() {
      match address
      case NodeAddress(_, _) => messageType.Shape().NodeShape?
      case DeviceAddress(_, _, _) => messageType.Shape().DeviceShape?
      case HostAddress(_) => messageType.Shape().HostShape?
    }

    function GroupId(): Option<GroupId> {
      if address.HostAddress? then None else Some(address.group)
    }

    function NodeId(): Option<EdgeNodeId> {
      if address.HostAddress? then None else Some(address.node)
    }

    function DeviceId(): Option<DeviceId> {
      if address.DeviceAddress? then Some(address.device) else None
    }

    function HostId(): Option<HostId> {
      if address.HostAddress? then Some(address.host) else None
    }

    /** The edge node whose count the topic draws from: `group_id().zip(node_id())`. */
    function EdgeNode(): Option<EdgeNode> {
      match (GroupId(), NodeId())
      case (Some(g), Some(n)) => Some(Ids.EdgeNode(g, n))
      case _ => None
    }

    /** `Display`. */
    function Print(): string {
      var ns := namespace.text;
      var mt := messageType.AsStr();
      match address
      case NodeAddress(g, n) => ns + "/" + g.text + "/" + mt + "/" + n.text
      case DeviceAddress(g, n, d) => ns + "/" + g.text + "/" + mt + "/" + n.text + "/" + d.text
      case HostAddress(h) => ns + "/" + mt + "/" + h.text
    }
  }

  // -- constructors ----------------------------------------------------------

  function NodeTopic(ns: Namespace, mt: MessageType, g: GroupId, n: EdgeNodeId): SparkplugTopic {
    SparkplugTopic(ns, mt, NodeAddress(g, n))
  }

  function DeviceTopic(ns: Namespace, mt: MessageType, g: GroupId, n: EdgeNodeId, d: DeviceId): SparkplugTopic {
    SparkplugTopic(ns, mt, DeviceAddress(g, n, d))
  }

  function NBirth(ns: Namespace, g: GroupId, n: EdgeNodeId): SparkplugTopic { NodeTopic(ns, NBIRTH, g, n) }
  function NData(ns: Namespace, g: GroupId, n: EdgeNodeId): SparkplugTopic { NodeTopic(ns, NDATA, g, n) }
  function NDeath(ns: Namespace, g: GroupId, n: EdgeNodeId): SparkplugTopic { NodeTopic(ns, NDEATH, g, n) }
  function NCmd(ns: Namespace, g: GroupId, n: EdgeNodeId): SparkplugTopic { NodeTopic(ns, NCMD, g, n) }

  function DBirth(ns: Namespace, g: GroupId, n: EdgeNodeId, d: DeviceId): SparkplugTopic {
    DeviceTopic(ns, DBIRTH, g, n, d)
  }

  function DData(ns: Namespace, g: GroupId, n: EdgeNodeId, d: DeviceId): SparkplugTopic {
    DeviceTopic(ns, DDATA, g, n, d)
  }

  function DDeath(ns: Namespace, g: GroupId, n: EdgeNodeId, d: DeviceId): SparkplugTopic {
    DeviceTopic(ns, DDEATH, g, n, d)
  }

  function DCmd(ns: Namespace, g: GroupId, n: EdgeNodeId, d: DeviceId): SparkplugTopic {
    DeviceTopic(ns, DCMD, g, n, d)
  }

  function State(ns: Namespace, h: HostId): SparkplugTopic { SparkplugTopic(ns, STATE, HostAddress(h)) }

  /** What some constructor of `ns` can build. */
  ghost predicate Constructible(ns: Namespace, t: SparkplugTopic) {
    || (exists g, n :: t == NBirth(ns, g, n) || t == NData(ns, g, n) || t == NDeath(ns, g, n) || t == NCmd(ns, g, n))
    || (exists g, n, d ::
          t == DBirth(ns, g, n, d) || t == DData(ns, g, n, d) || t == DDeath(ns, g, n, d) || t == DCmd(ns, g, n, d))
    || (exists h :: t == State(ns, h))
  }

  /** The constructors reach every well-formed topic of their namespace and nothing else. */
  lemma ConstructibleIffWellFormed(ns: Namespace, t: SparkplugTopic)
    ensures Constructible(ns, t) <==> t.namespace == ns && t.WellFormed()
  {
    if t.namespace == ns && t.WellFormed() {
      match t.address
      case NodeAddress(g, n) =>
        assert t == NBirth(ns, g, n) || t == NData(ns, g, n) || t == NDeath(ns, g, n) || t == NCmd(ns, g, n);
      case DeviceAddress(g, n, d) =>
        assert t == DBirth(ns, g, n, d) || t == DData(ns, g, n, d)
            || t == DDeath(ns, g, n, d) || t == DCmd(ns, g, n, d);
      case HostAddress(h) =>
        assert t == State(ns, h);
    }
  }

  /** What each constructor prints, word for word. */
  lemma PrintedForms(ns: Namespace, g: GroupId, n: EdgeNodeId, d: DeviceId, h: HostId)
    ensures NBirth(ns, g, n).Print() == ns.text + "/" + g.text + "/" + "NBIRTH" + "/" + n.text
    ensures NData(ns, g, n).Print() == ns.text + "/" + g.text + "/" + "NDATA" + "/" + n.text
    ensures NDeath(ns, g, n).Print() == ns.text + "/" + g.text + "/" + "NDEATH" + "/" + n.text
    ensures NCmd(ns, g, n).Print() == ns.text + "/" + g.text + "/" + "NCMD" + "/" + n.text
    ensures DBirth(ns, g, n, d).Print() == ns.text + "/" + g.text + "/" + "DBIRTH" + "/" + n.text + "/" + d.text
    ensures DData(ns, g, n, d).Print() == ns.text + "/" + g.text + "/" + "DDATA" + "/" + n.text + "/" + d.text
    ensures DDeath(ns, g, n, d).Print() == ns.text + "/" + g.text + "/" + "DDEATH" + "/" + n.text + "/" + d.text
    ensures DCmd(ns, g, n, d).Print() == ns.text + "/" + g.text + "/" + "DCMD" + "/" + n.text + "/" + d.text
    ensures State(ns, h).Print() == ns.text + "/" + "STATE" + "/" + h.text
  {
  }

  // -- splitting and joining -------------------------------------------------

  /** One more character in front of a text: a `/` opens a part, any other joins the first. */
  function Extend(c: char, parts: seq<string>): seq<string>
    requires |parts| >= 1
  {
    if c == '/' then [""] + parts else [[c] + parts[0]] + parts[1..]
  }

  lemma ExtendFirst(c: char, parts: seq<string>, more: seq<string>)
    requires |parts| >= 1
    ensures Extend(c, parts + more) == Extend(c, parts) + more
  {
    if c != '/' {
      assert (parts + more)[0] == parts[0] && (parts + more)[1..] == parts[1..] + more;
    }
  }

  /** `str::split('/')`: at least one part, and no part holds a `/`. */
  function Split(s: string): (parts: seq<string>)
    ensures |parts| >= 1
    ensures forall p | p in parts :: '/' !in p
  {
    if s == "" then [""] else Extend(s[0], Split(s[1..]))
  }

  function Join(parts: seq<string>): string
    requires |parts| >= 1
  {
    if |parts| == 1 then parts[0] else parts[0] + "/" + Join(parts[1..])
  }

  lemma {:induction false} JoinOfSplit(s: string)
    ensures Join(Split(s)) == s
  {
    if s == "" {
    } else {
      JoinOfSplit(s[1..]);
      var rest := Split(s[1..]);
      if s[0] == '/' {
        assert Split(s)[1..] == rest;
      } else if |rest| > 1 {
        assert Split(s)[1..] == rest[1..];
      }
    }
  }

  /** The split of two texts around a `/` is the one split after the other. */
  lemma {:induction false} SplitOfJoin(s: string, tail: string)
    ensures Split(s + "/" + tail) == Split(s) + Split(tail)
    decreases s
  {
    var whole := s + "/" + tail;
    if s == "" {
      assert whole[0] == '/' && whole[1..] == tail;
    } else {
      SplitOfJoin(s[1..], tail);
      assert whole[0] == s[0] && whole[1..] == s[1..] + "/" + tail;
      ExtendFirst(s[0], Split(s[1..]), Split(tail));
    }
  }

  lemma {:induction false} SplitOfSegment(p: string)
    requires '/' !in p
    ensures Split(p) == [p]
  {
    if p == "" {
    } else {
      SplitOfSegment(p[1..]);
      assert [p[0]] + p[1..] == p;
    }
  }

  /** Appending one segment to a text appends one part to its split. */
  lemma SplitOfAppend(s: string, p: string)
    requires '/' !in p
    ensures Split(s + "/" + p) == Split(s) + [p]
  {
    SplitOfJoin(s, p);
    SplitOfSegment(p);
  }

  /** The segments a topic prints, in order. */
  function Segments(t: SparkplugTopic): (parts: seq<string>)
    ensures |parts| >= 1
    ensures forall p | p in parts :: '/' !in p
  {
    var ns := t.namespace.text;
    var mt := t.messageType.AsStr();
    match t.address
    case NodeAddress(g, n) => [ns, g.text, mt, n.text]
    case DeviceAddress(g, n, d) => [ns, g.text, mt, n.text, d.text]
    case HostAddress(h) => [ns, mt, h.text]
  }

  lemma SplitOfPrint(t: SparkplugTopic)
    ensures Split(t.Print()) == Segments(t)
  {
    var ns := t.namespace.text;
    var mt := t.messageType.AsStr();
    SplitOfSegment(ns);
    match t.address
    case NodeAddress(g, n) =>
      SplitOfAppend(ns, g.text);
      SplitOfAppend(ns + "/" + g.text, mt);
      SplitOfAppend(ns + "/" + g.text + "/" + mt, n.text);
    case DeviceAddress(g, n, d) =>
      SplitOfAppend(ns, g.text);
      SplitOfAppend(ns + "/" + g.text, mt);
      SplitOfAppend(ns + "/" + g.text + "/" + mt, n.text);
      SplitOfAppend(ns + "/" + g.text + "/" + mt + "/" + n.text, d.text);
    case HostAddress(h) =>
      SplitOfAppend(ns, mt);
      SplitOfAppend(ns + "/" + mt, h.text);
  }

  /** Of which type a topic is, and who it names, read off the parts it prints. */
  lemma AccessorsReadTheParts(t: SparkplugTopic)
    requires t.WellFormed()
    ensures
      var parts := Split(t.Print());
      && |parts| >= 3
      && if t.messageType.STATE? then
        && |parts| == 3 && parts[1] == "STATE" && t.HostId().Some? && t.HostId().value.text == parts[2]
        && t.GroupId() == None && t.NodeId() == None && t.DeviceId() == None
      else
        && |parts| == (if DeviceWord(parts[2]) then 5 else 4) && parts[2] == t.messageType.AsStr()
        && t.GroupId().Some? && t.GroupId().value.text == parts[1]
        && t.NodeId().Some? && t.NodeId().value.text == parts[3]
        && t.HostId() == None && (t.DeviceId().Some? <==> DeviceWord(parts[2]))
        && (t.DeviceId().Some? ==> t.DeviceId().value.text == parts[4])
  {
    SplitOfPrint(t);
    TypeWords();
  }

  /** Only a host topic names no edge node; any other names the pair in its second and fourth parts. */
  lemma EdgeNodeReadsTheParts(t: SparkplugTopic)
    requires t.WellFormed()
    ensures t.EdgeNode().None? <==> t.messageType.STATE?
    ensures t.EdgeNode().Some? ==>
      && |Split(t.Print())| >= 4
      && t.EdgeNode().value.group.text == Split(t.Print())[1]
      && t.EdgeNode().value.node.text == Split(t.Print())[3]
  {
    SplitOfPrint(t);
  }

  // -- parsing ---------------------------------------------------------------

  function Parse(ns: Namespace, topic: string): Result<SparkplugTopic, SparkplugError> {
    var parts := Split(topic);
    if parts[0] != ns.text then
      Failure(InvalidTopic(topic))
    // A host topic has no group, so its type comes one segment earlier.
    else if |parts| > 1 && parts[1] == STATE.AsStr() then
      if |parts| == 3 then
        var h :- CheckSegment(parts[2]);
        Success(State(ns, HostId(h)))
      else
        Failure(WrongTopicShape(topic, STATE))
    else if |parts| <= 2 then
      Failure(InvalidTopic(topic))
    else
      var mt :- ParseMessageType(parts[2]);
      if mt.Shape().NodeShape? && |parts| == 4 then
        var g :- CheckSegment(parts[1]);
        var n :- CheckSegment(parts[3]);
        Success(NodeTopic(ns, mt, GroupId(g), EdgeNodeId(n)))
      else if mt.Shape().DeviceShape? && |parts| == 5 then
        var g :- CheckSegment(parts[1]);
        var n :- CheckSegment(parts[3]);
        var d :- CheckSegment(parts[4]);
        Success(DeviceTopic(ns, mt, GroupId(g), EdgeNodeId(n), DeviceId(d)))
      else
        Failure(WrongTopicShape(topic, mt))
  }

  /** Whether the group of a topic is the text the parser reads as a host topic. */
  predicate GroupReadsAsState(t: SparkplugTopic) {
    !t.address.HostAddress? && t.address.group.text == "STATE"
  }

  /**
   * Print then parse. The round trip holds on every constructible topic except one family,
   * which `GroupId::new("STATE")` lets a caller build; that family parses as a misshapen STATE.
   */
  lemma PrintThenParse(ns: Namespace, t: SparkplugTopic)
    requires Constructible(ns, t)
    ensures Parse(ns, t.Print()) == Success(t) <==> !GroupReadsAsState(t)
    ensures GroupReadsAsState(t) ==> Parse(ns, t.Print()) == Failure(WrongTopicShape(t.Print(), STATE))
  {
    ConstructibleIffWellFormed(ns, t);
    SplitOfPrint(t);
    MessageTypeText(t.messageType.AsStr(), t.messageType);
  }

  /** And that text, in a group that may be parsed, is read back as that constructor's topic. */
  lemma ReadNodeForms(ns: Namespace, g: GroupId, n: EdgeNodeId, h: HostId)
    requires g.text != "STATE"
    ensures
      var head := ns.text + "/" + g.text + "/";
      && Parse(ns, head + "NBIRTH" + "/" + n.text) == Success(NBirth(ns, g, n))
      && Parse(ns, head + "NDATA" + "/" + n.text) == Success(NData(ns, g, n))
      && Parse(ns, head + "NDEATH" + "/" + n.text) == Success(NDeath(ns, g, n))
      && Parse(ns, head + "NCMD" + "/" + n.text) == Success(NCmd(ns, g, n))
    ensures Parse(ns, ns.text + "/" + "STATE" + "/" + h.text) == Success(State(ns, h))
  {
    PrintedForms(ns, g, n, DeviceId("x"), h);
    ReadBack(ns, NBirth(ns, g, n));
    ReadBack(ns, NData(ns, g, n));
    ReadBack(ns, NDeath(ns, g, n));
    ReadBack(ns, NCmd(ns, g, n));
    ReadBack(ns, State(ns, h));
  }

  lemma ReadDeviceForms(ns: Namespace, g: GroupId, n: EdgeNodeId, d: DeviceId)
    requires g.text != "STATE"
    ensures
      var head := ns.text + "/" + g.text + "/";
      && Parse(ns, head + "DBIRTH" + "/" + n.text + "/" + d.text) == Success(DBirth(ns, g, n, d))
      && Parse(ns, head + "DDATA" + "/" + n.text + "/" + d.text) == Success(DData(ns, g, n, d))
      && Parse(ns, head + "DDEATH" + "/" + n.text + "/" + d.text) == Success(DDeath(ns, g, n, d))
      && Parse(ns, head + "DCMD" + "/" + n.text + "/" + d.text) == Success(DCmd(ns, g, n, d))
  {
    PrintedForms(ns, g, n, d, HostId("x"));
    ReadBack(ns, DBirth(ns, g, n, d));
    ReadBack(ns, DData(ns, g, n, d));
    ReadBack(ns, DDeath(ns, g, n, d));
    ReadBack(ns, DCmd(ns, g, n, d));
  }

  lemma ReadBack(ns: Namespace, t: SparkplugTopic)
    requires t.namespace == ns && t.WellFormed() && !GroupReadsAsState(t)
    ensures Parse(ns, t.Print()) == Success(t)
  {
    ConstructibleIffWellFormed(ns, t);
    PrintThenParse(ns, t);
  }

  /** Parse then print: a topic that parses is well-formed and prints the very text it came from. */
  lemma ParseThenPrint(ns: Namespace, topic: string)
    requires Parse(ns, topic).Success?
    ensures Constructible(ns, Parse(ns, topic).value)
    ensures Parse(ns, topic).value.Print() == topic
    ensures !GroupReadsAsState(Parse(ns, topic).value)
  {
    var parts := Split(topic);
    var t := Parse(ns, topic).value;
    ConstructibleIffWellFormed(ns, t);
    MessageTypeText(parts[2], t.messageType);
    assert Segments(t) == parts;
    JoinOfSplit(topic);
    SplitOfPrint(t);
    JoinOfSplit(t.Print());
  }

  /** The language section 4.1 of Sparkplug 3.0 lays out, written without the parser. */
  ghost predicate InLanguage(ns: Namespace, topic: string) {
    || (exists h: Segment :: topic == ns.text + "/STATE/" + h)
    || (exists g: Segment, word: string, n: Segment ::
          NodeWord(word) && g != "STATE" && topic == ns.text + "/" + g + "/" + word + "/" + n)
    || (exists g: Segment, word: string, n: Segment, d: Segment ::
          DeviceWord(word) && g != "STATE" && topic == ns.text + "/" + g + "/" + word + "/" + n + "/" + d)
  }

  /** The parser accepts exactly that language. */
  lemma ParseAcceptsExactlyTheLanguage(ns: Namespace, topic: string)
    ensures Parse(ns, topic).Success? <==> InLanguage(ns, topic)
  {
    if Parse(ns, topic).Success? {
      ParseThenPrint(ns, topic);
      var t := Parse(ns, topic).value;
      ConstructibleIffWellFormed(ns, t);
      TypeWords();
      match t.address
      case NodeAddress(g, n) =>
        assert topic == ns.text + "/" + g.text + "/" + t.messageType.AsStr() + "/" + n.text;
      case DeviceAddress(g, n, d) =>
        assert topic == ns.text + "/" + g.text + "/" + t.messageType.AsStr() + "/" + n.text + "/" + d.text;
      case HostAddress(h) =>
        assert topic == ns.text + "/STATE/" + h.text;
    }
    if InLanguage(ns, topic) {
      var t := TopicOfText(ns, topic);
      PrintThenParse(ns, t);
    }
  }

  lemma TopicOfText(ns: Namespace, topic: string) returns (t: SparkplugTopic)
    requires InLanguage(ns, topic)
    ensures Constructible(ns, t) && !GroupReadsAsState(t) && t.Print() == topic
  {
    TypeWords();
    if h: Segment :| topic == ns.text + "/STATE/" + h {
      t := State(ns, HostId(h));
    } else if g: Segment, word: string, n: Segment :|
        NodeWord(word) && g != "STATE" && topic == ns.text + "/" + g + "/" + word + "/" + n {
      WordsAreTypes(word);
      t := NodeTopic(ns, ParseMessageType(word).value, GroupId(g), EdgeNodeId(n));
    } else {
      var g: Segment, word: string, n: Segment, d: Segment :|
        DeviceWord(word) && g != "STATE" && topic == ns.text + "/" + g + "/" + word + "/" + n + "/" + d;
      WordsAreTypes(word);
      t := DeviceTopic(ns, ParseMessageType(word).value, GroupId(g), EdgeNodeId(n), DeviceId(d));
    }
    ConstructibleIffWellFormed(ns, t);
  }

  /**
   * No two constructible topics print alike, over all namespaces, shapes and groups, the group
   * `STATE` included: the number of segments fixes the shape and each segment fixes its part.
   */
  lemma PrintIsInjective(ns1: Namespace, t1: SparkplugTopic, ns2: Namespace, t2: SparkplugTopic)
    requires Constructible(ns1, t1) && Constructible(ns2, t2)
    requires t1.Print() == t2.Print()
    ensures t1 == t2
  {
    ConstructibleIffWellFormed(ns1, t1);
    ConstructibleIffWellFormed(ns2, t2);
    SplitOfPrint(t1);
    SplitOfPrint(t2);
    var i := if t1.address.HostAddress? then 1 else 2;
    assert Segments(t1)[i] == Segments(t2)[i];
    MessageTypeText(t1.messageType.AsStr(), t1.messageType);
    MessageTypeText(t1.messageType.AsStr(), t2.messageType);
    assert Segments(t1)[0] == Segments(t2)[0] && Segments(t1)[1] == Segments(t2)[1];
    assert Segments(t1)[|Segments(t1)| - 1] == Segments(t2)[|Segments(t2)| - 1];
    if t1.address.DeviceAddress? {
      assert Segments(t1)[3] == Segments(t2)[3];
    }
  }

  /**
   * What the check of an identifier decides. Put any text where a topic holds a device: the check
   * accepts it if and only if the topic then parses, and parses to the topic of that very device.
   */
  lemma IdentifierIsOneLevel(ns: Namespace, g: GroupId, n: EdgeNodeId, value: string)
    requires g.text != "STATE"
    ensures
      var text := ns.text + "/" + g.text + "/DDATA/" + n.text + "/" + value;
      && (CheckSegment(value).Success? <==> Parse(ns, text).Success?)
      && (CheckSegment(value).Success? ==> Parse(ns, text) == Success(DData(ns, g, n, DeviceId(value))))
      && (CheckSegment(value).Failure? ==>
            Parse(ns, text) == Failure(if '/' in value then WrongTopicShape(text, DDATA) else InvalidTopic(value)))
  {
    var text := ns.text + "/" + g.text + "/DDATA/" + n.text + "/" + value;
    SplitAtDevice(ns.text, g.text, n.text, value);
    var tail := Split(value);
    if '/' in value {
      JoinOfSplit(value);
      assert |tail| > 1;
    } else {
      SplitOfSegment(value);
    }
    ParseOfDeviceData(ns, text, g, n, tail);
  }

  lemma ParseOfDeviceData(ns: Namespace, text: string, g: GroupId, n: EdgeNodeId, tail: seq<string>)
    requires Split(text) == [ns.text, g.text, "DDATA", n.text] + tail && g.text != "STATE" && |tail| >= 1
    ensures Parse(ns, text) ==
            if |tail| > 1 then Failure(WrongTopicShape(text, DDATA))
            else if IsUsableSegment(tail[0]) then Success(DData(ns, g, n, DeviceId(tail[0])))
            else Failure(InvalidTopic(tail[0]))
  {
  }

  lemma SplitAtDevice(ns: Segment, g: Segment, n: Segment, value: string)
    ensures Split(ns + "/" + g + "/DDATA/" + n + "/" + value) == [ns, g, "DDATA", n] + Split(value)
  {
    SplitOfSegment(ns);
    SplitOfAppend(ns, g);
    SplitOfAppend(ns + "/" + g, "DDATA");
    assert ns + "/" + g + "/DDATA/" + n == ns + "/" + g + "/" + "DDATA" + "/" + n;
    SplitOfAppend(ns + "/" + g + "/" + "DDATA", n);
    SplitOfJoin(ns + "/" + g + "/DDATA/" + n, value);
  }

  // -- which fault a rejected topic is charged with ----------------------------

  /** A topic of another namespace, or one too short to address anything, is an invalid topic. */
  lemma ForeignOrShortTopicIsInvalid(ns: Namespace, p: string, tail: string)
    requires '/' !in p
    ensures p != ns.text ==> Parse(ns, p) == Failure(InvalidTopic(p))
    ensures p != ns.text ==> Parse(ns, p + "/" + tail) == Failure(InvalidTopic(p + "/" + tail))
    ensures Parse(ns, ns.text) == Failure(InvalidTopic(ns.text))
    ensures p != "STATE" ==> Parse(ns, ns.text + "/" + p) == Failure(InvalidTopic(ns.text + "/" + p))
  {
    SplitOfSegment(p);
    SplitOfJoin(p, tail);
    SplitOfSegment(ns.text);
    SplitOfAppend(ns.text, p);
  }

  /** The parts of an own topic that must be identifiers, in the order they are checked. */
  function Identifiers(parts: seq<string>): seq<string>
    requires |parts| >= 3
  {
    if parts[1] == "STATE" then [parts[2]] else [parts[1]] + parts[3..]
  }

  function PartsOf(mt: MessageType): nat {
    match mt.Shape()
    case HostShape => 3
    case NodeShape => 4
    case DeviceShape => 5
  }

  /** The own namespace, a known type where the layout puts it, and as many parts as it asks for. */
  ghost predicate LaidOut(ns: Namespace, parts: seq<string>) {
    && |parts| >= 3 && parts[0] == ns.text
    && if parts[1] == "STATE" then |parts| == 3
       else (NodeWord(parts[2]) && |parts| == 4) || (DeviceWord(parts[2]) && |parts| == 5)
  }

  function FirstUnusable(ids: seq<string>): (r: Option<string>)
    ensures r.None? <==> forall i | 0 <= i < |ids| :: IsUsableSegment(ids[i])
    ensures r.Some? ==> exists i :: 0 <= i < |ids| && r.value == ids[i] && !IsUsableSegment(ids[i])
                                    && forall k | 0 <= k < i :: IsUsableSegment(ids[k])
  {
    if ids == [] then None
    else if !IsUsableSegment(ids[0]) then Some(ids[0])
    else FirstUnusable(ids[1..])
  }

  lemma KnownType(text: string)
    ensures ParseMessageType(text).Success? <==> exists mt: MessageType :: mt.AsStr() == text
    ensures forall mt: MessageType :: mt.AsStr() == text <==> ParseMessageType(text) == Success(mt)
    ensures ParseMessageType(text).Failure? ==> ParseMessageType(text).error == UnknownMessageType(text)
  {
    forall mt: MessageType {
      MessageTypeText(text, mt);
    }
    MessageTypeText(text, STATE);
  }

  /** The third segment of an own topic names no message. */
  ghost predicate UnknownType(ns: Namespace, topic: string, text: string) {
    var parts := Split(topic);
    && parts[0] == ns.text && |parts| >= 3 && parts[1] != "STATE" && parts[2] == text
    && !NodeWord(text) && !DeviceWord(text) && text != "STATE"
  }

  /** An unknown type is reported by its text, whatever follows it and when nothing does. */
  lemma UnknownTypeIsNamed(ns: Namespace, topic: string, text: string)
    ensures Parse(ns, topic) == Failure(UnknownMessageType(text)) <==> UnknownType(ns, topic, text)
  {
    if |Split(topic)| >= 3 {
      WordsAreTypes(Split(topic)[2]);
    }
  }

  /** An own topic of a known type has not the parts its type asks for. */
  predicate WrongShape(ns: Namespace, topic: string, mt: MessageType) {
    var parts := Split(topic);
    && parts[0] == ns.text && |parts| >= 2
    && if parts[1] == "STATE" then mt.STATE? && |parts| != 3
       else |parts| >= 3 && parts[2] == mt.AsStr() && (mt.STATE? || |parts| != PartsOf(mt))
  }

  /** A known type is misshapen exactly when the number of parts is not the one it asks for. */
  lemma WrongShapeIsNamed(ns: Namespace, topic: string, mt: MessageType)
    ensures Parse(ns, topic) == Failure(WrongTopicShape(topic, mt)) <==> WrongShape(ns, topic, mt)
  {
    if |Split(topic)| >= 3 {
      KnownType(Split(topic)[2]);
    }
  }

  /** The first unusable identifier of a text laid out right, or all of a text that is foreign or too short. */
  ghost predicate Unusable(ns: Namespace, topic: string, text: string) {
    var parts := Split(topic);
    if LaidOut(ns, parts) then FirstUnusable(Identifiers(parts)) == Some(text)
    else text == topic && (parts[0] != ns.text || |parts| == 1 || (|parts| == 2 && parts[1] != "STATE"))
  }

  /**
   * The whole text is charged when its namespace is foreign or it is too short to hold a type, and
   * an identifier when the text is laid out right and that is the first unusable one.
   */
  lemma InvalidTopicIsNamed(ns: Namespace, topic: string, text: string)
    ensures Parse(ns, topic) == Failure(InvalidTopic(text)) <==> Unusable(ns, topic, text)
  {
    var parts := Split(topic);
    if |parts| >= 3 && parts[0] == ns.text && parts[1] != "STATE" {
      WordsAreTypes(parts[2]);
      TypeWords();
      if LaidOut(ns, parts) {
        FirstOfThree(Identifiers(parts));
      }
    }
  }

  lemma FirstOfThree(ids: seq<string>)
    requires 2 <= |ids| <= 3
    ensures FirstUnusable(ids) ==
            if !IsUsableSegment(ids[0]) then Some(ids[0])
            else if !IsUsableSegment(ids[1]) then Some(ids[1])
            else if |ids| == 3 && !IsUsableSegment(ids[2]) then Some(ids[2])
            else None
  {
    assert ids[1..][1..] == ids[2..];
  }

  /** The fault a text deserves, told from its parts alone. */
  ghost predicate Charged(ns: Namespace, topic: string, error: SparkplugError) {
    match error
    case UnknownMessageType(text) => UnknownType(ns, topic, text)
    case WrongTopicShape(whole, mt) => whole == topic && WrongShape(ns, topic, mt)
    case InvalidTopic(text) => Unusable(ns, topic, text)
    case _ => false
  }

  /** Every text is in the language or deserves exactly one fault, and that is the one it gets. */
  lemma EveryTextHasOneVerdict(ns: Namespace, topic: string)
    ensures InLanguage(ns, topic) <==> forall error :: !Charged(ns, topic, error)
    ensures forall error :: Charged(ns, topic, error) <==> Parse(ns, topic) == Failure(error)
  {
    ParseAcceptsExactlyTheLanguage(ns, topic);
    forall error
      ensures Charged(ns, topic, error) <==> Parse(ns, topic) == Failure(error)
    {
      match error
      case UnknownMessageType(text) => UnknownTypeIsNamed(ns, topic, text);
      case WrongTopicShape(whole, mt) =>
        WrongShapeIsNamed(ns, topic, mt);
        OneOfThreeFaults(ns, topic);
      case InvalidTopic(text) => InvalidTopicIsNamed(ns, topic, text);
      case _ => OneOfThreeFaults(ns, topic);
    }
    if Parse(ns, topic).Failure? {
      assert Charged(ns, topic, Parse(ns, topic).error);
    }
  }

  lemma OneOfThreeFaults(ns: Namespace, topic: string)
    ensures
      Parse(ns, topic).Failure? ==>
        match Parse(ns, topic).error
        case UnknownMessageType(_) => true
        case WrongTopicShape(whole, _) => whole == topic
        case InvalidTopic(_) => true
        case _ => false
  {
  }
}
