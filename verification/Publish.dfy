/**
 * The publish path of the client as the code runs it, one call at a time: src/sparkplug/client/publish.rs.
 * Each call is proved to be one episode of the atomic counter, so the code and every interleaving
 * of it (SeqProtocol) refine the same specification.
 */
module Publish {
  import opened Prelude
  import opened Types
  import opened Ids
  import opened Topic
  import opened SeqSpec
  import SeqProtocol
  import opened Seq
  import opened Delivery

  /** How one publish future ends: the client's answer, or the cancellation that drops it. */
  datatype Answer =
    | Takes
    | Refuses
    | CancelledWaiting
    /** The open window: the client took the message in the instant the call was cancelled. */
    | CancelledTaken
  {
    predicate Reaches() { Takes? || CancelledTaken? }
  }

  datatype Ending = Returned(result: Result<(), SparkplugError>) | Cancelled

  function EndingOf(answer: Answer): Ending {
    match answer
    case Takes => Returned(Success(()))
    case Refuses => Returned(Failure(PublishRefused))
    case _ => Cancelled
  }

  /** The delivery counts after one message: kept when the client took it, else rolled back. */
  function TrackerAfter(s: Tracker, options: WireOptions, answer: Answer): Tracker {
    if !options.tracked then s
    else if answer.Takes? then s.Counted()
    else s.Counted().RolledBack(Ticket(s.generation))
  }

  /**
   * What one message does to the counts, in numbers: a counted message that was kept raises `unacked`
   * by 1, and any other end leaves the counts as they were, short of a count that wraps.
   */
  predicate CountsOnlyWhatWasKept(counted: bool, answer: Answer, before: Tracker, after: Tracker) {
    && (counted && answer.Takes? ==> after == before.(unacked := (before.unacked + 1) % 0x1_0000_0000))
    && (!counted ==> after == before)
    && (!answer.Takes? && before.unacked < 0xFFFF_FFFF ==> after == before)
  }

  /** What one message does to the wire and its count, and what its call returns, end by end. */
  predicate OneMessage(answer: Answer, m: Sent, before: Counter, after: Counter, ending: Ending) {
    match answer
    case Takes => ending == Returned(Success(())) && after == Counter(m.number, before.log + [m])
    case Refuses => ending == Returned(Failure(PublishRefused)) && after == before
    case CancelledWaiting => ending == Cancelled && after == before
    case CancelledTaken => ending == Cancelled && after == Counter(before.count, before.log + [m])
  }

  class SparkplugClient {
    const namespace: Namespace
    const identity: Option<EdgeNode>
    const delivery: DeliveryTracker
    const counters: SeqCounters
    /** What the client took, in order. */
    var wire: seq<Sent>
    /** Names each publish call. */
    var calls: nat

    ghost predicate Valid()
      reads this, counters, counters.gates.Values
    {
      && counters.Valid()
      && forall k | k in counters.gates :: !counters.gates[k].held
    }

    constructor (namespace: Namespace, identity: Option<EdgeNode>)
      ensures Valid() && fresh(delivery) && fresh(counters)
      ensures this.namespace == namespace && this.identity == identity
      ensures wire == [] && counters.gates == map[] && delivery.State() == FRESH
    {
      this.namespace, this.identity := namespace, identity;
      delivery := new DeliveryTracker();
      counters := new SeqCounters();
      wire, calls := [], 0;
    }

    function Role(): Role {
      if identity.Some? then EdgeNodeRole else Publisher
    }

    /** The atomic counter of one edge node. */
    ghost function CounterOf(edge: EdgeNode): Counter
      reads this, counters, counters.gates.Values
    {
      Counter(counters.CountOf(edge), SeqProtocol.OnWire(wire, edge))
    }

    /** `record_around_publish`: count first, publish, and let the guard release what never left. */
    method RecordAroundPublish(answer: Answer) returns (ending: Ending)
      modifies delivery
      ensures ending == EndingOf(answer)
      ensures
        delivery.State() ==
          if answer.Takes? then old(delivery.State()).Counted()
          else old(delivery.State()).Counted().RolledBack(Ticket(old(delivery.generation)))
      ensures CountsOnlyWhatWasKept(true, answer, old(delivery.State()), delivery.State())
    {
      var inFlight := delivery.PublishGuard();
      if answer.Takes? {
        inFlight.Keep();
      } else {
        inFlight.Drop();
      }
      ending := EndingOf(answer);
    }

    method PublishMessage(topic: SparkplugTopic, number: u8, answer: Answer) returns (ending: Ending)
      modifies this`wire, delivery
      ensures ending == EndingOf(answer)
      ensures wire == if answer.Reaches() then old(wire) + [Sent(topic, number, calls)] else old(wire)
      ensures delivery.State() == TrackerAfter(old(delivery.State()), WireOptionsFor(Role(), topic.messageType), answer)
    {
      var options := WireOptionsFor(Role(), topic.messageType);
      if answer.Reaches() {
        wire := wire + [Sent(topic, number, calls)];
      }
      if options.tracked {
        ending := RecordAroundPublish(answer);
      } else {
        ending := EndingOf(answer);
      }
    }

    /** `reserve_seq` for a topic that names an edge node. */
    method ReserveSeq(topic: SparkplugTopic, edge: EdgeNode) returns (r: SeqReservation)
      requires topic.EdgeNode() == Some(edge)
      requires counters.Valid() && counters.IsFree(edge)
      modifies counters, if KeyOf(edge) in counters.gates then {counters.gates[KeyOf(edge)]} else {}
      ensures counters.Valid() && fresh(r) && r.Live()
      ensures counters.gates == old(counters.gates)[KeyOf(edge) := r.gate]
      ensures KeyOf(edge) in old(counters.gates) ==> r.gate == old(counters.gates[KeyOf(edge)])
      ensures KeyOf(edge) !in old(counters.gates) ==> fresh(r.gate)
      ensures r.restoreTo == Some(old(counters.CountOf(edge)))
      ensures r.Value() == Draw(topic.messageType, old(counters.CountOf(edge)))
    {
      if topic.messageType.NBIRTH? {
        r := counters.ReserveReset(edge);
      } else {
        r := counters.Reserve(edge);
      }
    }

    /** The number a message on `topic` would carry now. */
    function NextNumber(topic: SparkplugTopic, edge: EdgeNode): u8
      reads counters, counters.gates.Values
    {
      Draw(topic.messageType, counters.CountOf(edge))
    }

    /** Only the gate of `edge` may have been added, and no other count moved. */
    twostate predicate OthersUnmoved(edge: EdgeNode)
      reads counters, counters.gates.Values
    {
      && counters.gates.Keys == old(counters.gates.Keys) + {KeyOf(edge)}
      && forall k | k in old(counters.gates) && k != KeyOf(edge) ::
           counters.gates[k].count == old(counters.gates[k].count)
    }

    /** When no other edge node's wire grew either, no other counter moved. */
    twostate lemma OthersStand(own: EdgeNode)
      requires OthersUnmoved(own)
      requires forall edge | edge != own :: SeqProtocol.OnWire(wire, edge) == SeqProtocol.OnWire(old(wire), edge)
      ensures forall edge | edge != own :: CounterOf(edge) == old(CounterOf(edge))
    {
      forall edge | edge != own
        ensures CounterOf(edge) == old(CounterOf(edge))
      {
        KeyOfIsInjective(edge, own);
      }
    }

    /** Publish under a live reservation and end it: commit what the client took, drop the rest. */
    method PublishThenEnd(topic: SparkplugTopic, r: SeqReservation, answer: Answer) returns (ending: Ending)
      requires r.Live()
      modifies this`wire, delivery, r, r.gate
      ensures ending == EndingOf(answer) && !r.gate.held
      ensures r.gate.count == if answer.Takes? then old(r.gate.count) else old(r.restoreTo.value)
      ensures wire == if answer.Reaches() then old(wire) + [Sent(topic, old(r.gate.count), calls)] else old(wire)
      ensures delivery.State() == TrackerAfter(old(delivery.State()), WireOptionsFor(Role(), topic.messageType), answer)
    {
      ending := PublishMessage(topic, r.Value(), answer);
      if ending == Returned(Success(())) {
        r.Commit();
      } else {
        r.Drop();
      }
    }

    method MetricsUnderGate(topic: SparkplugTopic, edge: EdgeNode, answer: Answer) returns (ending: Ending)
      requires Valid() && topic.EdgeNode() == Some(edge)
      modifies this`wire, delivery, counters, counters.gates.Values
      ensures Valid() && ending == EndingOf(answer) && OthersUnmoved(edge)
      ensures counters.CountOf(edge) ==
        if answer.Takes? then old(NextNumber(topic, edge)) else old(counters.CountOf(edge))
      ensures wire ==
        if answer.Reaches() then old(wire) + [Sent(topic, old(NextNumber(topic, edge)), calls)] else old(wire)
      ensures delivery.State() == TrackerAfter(old(delivery.State()), WireOptionsFor(Role(), topic.messageType), answer)
    {
      var reservation := ReserveSeq(topic, edge);
      ending := PublishThenEnd(topic, reservation, answer);
    }

    method MetricsOfEdgeNode(topic: SparkplugTopic, own: EdgeNode, answer: Answer) returns (ending: Ending)
      requires Valid() && topic.EdgeNode() == Some(own)
      modifies this, delivery, counters, counters.gates.Values
      ensures Valid() && calls == old(calls) + 1 && ending == EndingOf(answer)
      ensures CounterOf(own) == Apply(old(CounterOf(own)), MetricsEpisode(old(calls), topic, answer))
      ensures forall edge | edge != own :: CounterOf(edge) == old(CounterOf(edge))
      ensures delivery.State() == TrackerAfter(old(delivery.State()), WireOptionsFor(Role(), topic.messageType), answer)
    {
      ghost var sent := Sent(topic, NextNumber(topic, own), calls);
      ending := MetricsUnderGate(topic, own, answer);
      calls := calls + 1;
      OwnMessageOnly(old(wire), sent, own);
      OthersStand(own);
    }

    /**
     * `publish_metrics_on`. A host topic, the only kind that names no edge node, is refused and
     * touches nothing. Any other call is one episode of its edge node's counter, committed exactly
     * when it returns Ok, and no other edge node's counter moves. The last two clauses say the same
     * in numbers, and which messages are counted for delivery.
     */
    method PublishMetricsOn(topic: SparkplugTopic, answer: Answer) returns (ending: Ending)
      requires Valid()
      modifies this, delivery, counters, counters.gates.Values
      ensures Valid() && calls == old(calls) + 1
      ensures topic.address.HostAddress? ==>
        && ending == Returned(Failure(InvalidTopic(topic.Print())))
        && wire == old(wire) && delivery.State() == old(delivery.State())
        && forall edge :: CounterOf(edge) == old(CounterOf(edge))
      ensures !topic.address.HostAddress? ==>
        var own := OwnerOf(topic);
        && CounterOf(own) == Apply(old(CounterOf(own)), MetricsEpisode(old(calls), topic, answer))
        && (forall edge | edge != own :: CounterOf(edge) == old(CounterOf(edge)))
      ensures !topic.address.HostAddress? ==>
        var own := OwnerOf(topic);
        var number := if topic.messageType.NBIRTH? then 0 else (old(CounterOf(own)).count + 1) % 256;
        OneMessage(answer, Sent(topic, number, old(calls)), old(CounterOf(own)), CounterOf(own), ending)
      ensures !topic.address.HostAddress? && !topic.messageType.STATE? ==>
        var counted := identity.None? || topic.messageType.NDEATH?;
        CountsOnlyWhatWasKept(counted, answer, old(delivery.State()), delivery.State())
    {
      if topic.EdgeNode().None? {
        calls := calls + 1;
        return Returned(Failure(InvalidTopic(topic.Print())));
      }
      ending := MetricsOfEdgeNode(topic, topic.EdgeNode().value, answer);
      OneMetricsMessage(old(CounterOf(OwnerOf(topic))), old(calls), topic, answer);
    }

    /** The first half of a birth: draw 0, publish the NBIRTH, and keep the gate when it went through. */
    method NBirthUnderGate(edge: EdgeNode, answer: Answer) returns (ending: Ending, r: SeqReservation)
      requires counters.Valid() && counters.IsFree(edge) && identity == Some(edge)
      modifies this`wire, delivery, counters
      modifies if KeyOf(edge) in counters.gates then {counters.gates[KeyOf(edge)]} else {}
      ensures counters.Valid() && counters.gates == old(counters.gates)[KeyOf(edge) := r.gate] && fresh(r)
      ensures KeyOf(edge) in old(counters.gates) ==> r.gate == old(counters.gates[KeyOf(edge)])
      ensures KeyOf(edge) !in old(counters.gates) ==> fresh(r.gate)
      ensures ending == EndingOf(answer)
      ensures
        if answer.Takes? then r.Live() && r.gate.count == 0 && r.restoreTo == Some(old(counters.CountOf(edge)))
        else !r.gate.held && r.gate.count == old(counters.CountOf(edge))
      ensures wire == old(wire) +
        if answer.Reaches() then [Sent(NBirth(namespace, edge.group, edge.node), 0, calls)] else []
      ensures delivery.State() == old(delivery.State())
    {
      var topic := NBirth(namespace, edge.group, edge.node);
      r := ReserveSeq(topic, edge);
      ending := PublishMessage(topic, r.Value(), answer);
      if ending != Returned(Success(())) {
        r.Drop();
      }
    }

    method BirthUnderGate(edge: EdgeNode, device: DeviceId, first: Answer, second: Answer)
      returns (ending: Ending, ghost gate: Gate)
      requires counters.Valid() && counters.IsFree(edge) && identity == Some(edge)
      modifies this`wire, delivery, counters
      modifies if KeyOf(edge) in counters.gates then {counters.gates[KeyOf(edge)]} else {}
      ensures counters.Valid() && counters.gates == old(counters.gates)[KeyOf(edge) := gate] && !gate.held
      ensures KeyOf(edge) in old(counters.gates) ==> gate == old(counters.gates[KeyOf(edge)])
      ensures KeyOf(edge) !in old(counters.gates) ==> fresh(gate)
      ensures ending == if first.Takes? then EndingOf(second) else EndingOf(first)
      ensures gate.count == if first.Takes? && second.Takes? then 1 else old(counters.CountOf(edge))
      ensures wire == BirthWire(old(wire), BirthEpisode(calls, namespace, edge, device, first, second))
      ensures delivery.State() == old(delivery.State())
    {
      var reservation;
      ending, reservation := NBirthUnderGate(edge, first);
      gate := reservation.gate;
      if ending == Returned(Success(())) {
        var _ := reservation.Next();
        ending := PublishThenEnd(DBirth(namespace, edge.group, edge.node, device), reservation, second);
      }
    }

    method BothBirths(edge: EdgeNode, device: DeviceId, first: Answer, second: Answer) returns (ending: Ending)
      requires Valid() && identity == Some(edge)
      modifies this`wire, delivery, counters, counters.gates.Values
      ensures Valid() && OthersUnmoved(edge)
      ensures ending == if first.Takes? then EndingOf(second) else EndingOf(first)
      ensures counters.CountOf(edge) == if first.Takes? && second.Takes? then 1 else old(counters.CountOf(edge))
      ensures wire == BirthWire(old(wire), BirthEpisode(calls, namespace, edge, device, first, second))
      ensures delivery.State() == old(delivery.State())
    {
      ghost var gate;
      ending, gate := BirthUnderGate(edge, device, first, second);
    }

    method BirthOfEdgeNode(own: EdgeNode, device: DeviceId, first: Answer, second: Answer) returns (ending: Ending)
      requires Valid() && identity == Some(own)
      modifies this, delivery, counters, counters.gates.Values
      ensures Valid() && calls == old(calls) + 1 && delivery.State() == old(delivery.State())
      ensures ending == if first.Takes? then EndingOf(second) else EndingOf(first)
      ensures CounterOf(own) ==
        Apply(old(CounterOf(own)), BirthEpisode(old(calls), namespace, own, device, first, second))
      ensures forall edge | edge != own :: CounterOf(edge) == old(CounterOf(edge))
    {
      ending := BothBirths(own, device, first, second);
      BirthIsOneEpisode(old(counters.CountOf(own)), old(wire), calls, namespace, own, device, first, second);
      calls := calls + 1;
      OthersStand(own);
    }

    /**
     * `publish_birth`. A publisher is refused and touches nothing. An edge node client runs one
     * episode over both births: it commits only when both were taken and resolved, and whatever
     * else happens the count goes back to where the NBIRTH found it.
     */
    method PublishBirth(device: DeviceId, first: Answer, second: Answer) returns (ending: Ending)
      requires Valid()
      modifies this, delivery, counters, counters.gates.Values
      ensures Valid() && calls == old(calls) + 1
      ensures delivery.State() == old(delivery.State())
      ensures identity.None? ==>
        && ending == Returned(Failure(NotAnEdgeNode)) && wire == old(wire)
        && forall edge :: CounterOf(edge) == old(CounterOf(edge))
      ensures identity.Some? ==>
        var nbirth := Sent(NBirth(namespace, identity.value.group, identity.value.node), 0, old(calls));
        var dbirth := Sent(DBirth(namespace, identity.value.group, identity.value.node, device), 1, old(calls));
        var before, after := old(CounterOf(identity.value)), CounterOf(identity.value);
        && (first.Takes? && second.Takes? ==>
              ending == Returned(Success(())) && after == Counter(1, before.log + [nbirth] + [dbirth]))
        && (first.Takes? && second.Refuses? ==>
              ending == Returned(Failure(PublishRefused)) && after == Counter(before.count, before.log + [nbirth]))
        && (first.Refuses? ==> ending == Returned(Failure(PublishRefused)) && after == before)
        && (first.CancelledWaiting? ==> ending == Cancelled && after == before)
      ensures identity.Some? ==>
        && ending == (if first.Takes? then EndingOf(second) else EndingOf(first))
        && CounterOf(identity.value)
           == Apply(old(CounterOf(identity.value)),
                    BirthEpisode(old(calls), namespace, identity.value, device, first, second))
        && forall edge | edge != identity.value :: CounterOf(edge) == old(CounterOf(edge))
    {
      if identity.None? {
        calls := calls + 1;
        return Returned(Failure(NotAnEdgeNode));
      }
      ending := BirthOfEdgeNode(identity.value, device, first, second);
      BirthInFull(old(CounterOf(identity.value)), old(calls), namespace, identity.value, device, first, second);
    }
  }

  /** The edge node a topic is of: the pair its address holds. */
  function OwnerOf(topic: SparkplugTopic): EdgeNode
    requires !topic.address.HostAddress?
  {
    Ids.EdgeNode(topic.address.group, topic.address.node)
  }

  /** The episode of a metrics call, message by message. */
  lemma OneMetricsMessage(before: Counter, call: nat, topic: SparkplugTopic, answer: Answer)
    ensures
      var number := if topic.messageType.NBIRTH? then 0 else (before.count + 1) % 256;
      OneMessage(
        answer, Sent(topic, number, call), before,
        Apply(before, MetricsEpisode(call, topic, answer)), EndingOf(answer))
  {
    var number := if topic.messageType.NBIRTH? then 0 else (before.count + 1) % 256;
    assert Number(before.count, [topic], 0) == number;
    assert Messages(before.count, call, [topic], 0) == [];
    assert Messages(before.count, call, [topic], 1) == [Sent(topic, number, call)];
    assert before.log + [] == before.log;
  }

  /** The episode of a pair of births, message by message. */
  lemma BirthInFull(before: Counter, call: nat, ns: Namespace, own: EdgeNode,
                    device: DeviceId, first: Answer, second: Answer)
    ensures
      var nbirth := Sent(NBirth(ns, own.group, own.node), 0, call);
      var dbirth := Sent(DBirth(ns, own.group, own.node, device), 1, call);
      var after := Apply(before, BirthEpisode(call, ns, own, device, first, second));
      && (first.Takes? && second.Takes? ==> after == Counter(1, before.log + [nbirth] + [dbirth]))
      && (first.Takes? && second.Refuses? ==> after == Counter(before.count, before.log + [nbirth]))
      && (first.Refuses? || first.CancelledWaiting? ==> after == before)
  {
    var e := BirthEpisode(call, ns, own, device, first, second);
    BirthMessages(before.count, call, e.topics, e.taken, Sent(e.topics[0], 0, call), Sent(e.topics[1], 1, call));
  }

  /** The wire with what the client took of a pair of births. */
  function BirthWire(wire: seq<Sent>, e: Episode): seq<Sent>
    requires |e.topics| == 2
  {
    wire
    + (if e.taken >= 1 then [Sent(e.topics[0], 0, e.task)] else [])
    + (if e.taken >= 2 then [Sent(e.topics[1], 1, e.task)] else [])
  }

  /** A message of one edge node lengthens its own wire alone. */
  lemma OwnMessageOnly(wire: seq<Sent>, m: Sent, own: EdgeNode)
    requires m.topic.EdgeNode() == Some(own)
    ensures SeqProtocol.OnWire(wire + [m], own) == SeqProtocol.OnWire(wire, own) + [m]
    ensures forall edge | edge != own :: SeqProtocol.OnWire(wire + [m], edge) == SeqProtocol.OnWire(wire, edge)
  {
    forall edge {
      SeqProtocol.OnWireAppend(wire, m, edge);
    }
  }

  /** The two births of a call, however far they got, are one episode of the atomic counter. */
  lemma BirthIsOneEpisode(count: u8, wire: seq<Sent>, call: nat, ns: Namespace, own: EdgeNode,
                         device: DeviceId, first: Answer, second: Answer)
    ensures
      var e := BirthEpisode(call, ns, own, device, first, second);
      var wire' := BirthWire(wire, e);
      && Apply(Counter(count, SeqProtocol.OnWire(wire, own)), e)
         == Counter(if e.committed then 1 else count, SeqProtocol.OnWire(wire', own))
      && forall edge | edge != own :: SeqProtocol.OnWire(wire', edge) == SeqProtocol.OnWire(wire, edge)
  {
    var e := BirthEpisode(call, ns, own, device, first, second);
    var nbirth := Sent(e.topics[0], 0, call);
    var dbirth := Sent(e.topics[1], 1, call);
    OwnMessageOnly(wire, nbirth, own);
    OwnMessageOnly(wire + [nbirth], dbirth, own);
    BirthMessages(count, call, e.topics, e.taken, nbirth, dbirth);
    assert BirthWire(wire, e) ==
      match e.taken case 0 => wire case 1 => wire + [nbirth] case _ => wire + [nbirth] + [dbirth];
  }

  lemma BirthMessages(count: u8, call: nat, topics: seq<SparkplugTopic>, taken: nat, nbirth: Sent, dbirth: Sent)
    requires |topics| == 2 && topics[0].messageType.NBIRTH? && taken <= 2
    requires nbirth == Sent(topics[0], 0, call) && dbirth == Sent(topics[1], 1, call)
    ensures Number(count, topics, 1) == 1
    ensures forall log: seq<Sent> ::
      log + Messages(count, call, topics, taken) ==
        match taken case 0 => log case 1 => log + [nbirth] case _ => log + [nbirth] + [dbirth]
  {
    assert Number(count, topics, 0) == 0 && Number(count, topics, 1) == 1;
    assert Messages(count, call, topics, taken) == [nbirth, dbirth][..taken];
  }

  function BirthEpisode(call: nat, ns: Namespace, edge: EdgeNode, device: DeviceId,
                        first: Answer, second: Answer): (e: Episode)
    ensures e.Valid()
  {
    Episode(
      call,
      [NBirth(ns, edge.group, edge.node), DBirth(ns, edge.group, edge.node, device)],
      (if first.Reaches() then 1 else 0) + (if first.Takes? && second.Reaches() then 1 else 0),
      first.Takes? && second.Takes?)
  }

  function MetricsEpisode(call: nat, topic: SparkplugTopic, answer: Answer): (e: Episode)
    ensures e.Valid()
  {
    Episode(call, [topic], if answer.Reaches() then 1 else 0, answer.Takes?)
  }
}
