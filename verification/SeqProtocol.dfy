/**
 * Every interleaving of publish calls over the per-edge-node gates: src/sparkplug/seq.rs under
 * src/sparkplug/client/publish.rs. One event is one stretch of code that no other task can split.
 * The client is a bounded FIFO; taking a message and resolving the publish future are two events,
 * so a cancellation can fall between them.
 */
module SeqProtocol {
  import opened Prelude
  import opened Types
  import opened Ids
  import opened Topic
  import opened SeqSpec

  /** What is fixed when the client connects. `capacity` is the size of the client's channel. */
  datatype Config = Config(namespace: Namespace, identity: Option<EdgeNode>, capacity: nat)

  datatype Call = PublishMetrics(topic: SparkplugTopic) | PublishBirth(device: DeviceId)

  /** The messages a call publishes under one reservation, or the error it returns at once. */
  datatype Script = Script(edge: EdgeNode, topics: seq<SparkplugTopic>)

  function Plan(config: Config, call: Call): Result<Script, SparkplugError> {
    match call
    case PublishMetrics(topic) =>
      (match topic.EdgeNode()
       case Some(edge) => Success(Script(edge, [topic]))
       case None => Failure(InvalidTopic(topic.Print())))
    case PublishBirth(device) =>
      (match config.identity
       case Some(edge) =>
         Success(Script(edge, [NBirth(config.namespace, edge.group, edge.node),
                               DBirth(config.namespace, edge.group, edge.node, device)]))
       case None => Failure(NotAnEdgeNode))
  }

  datatype Outcome = Published | Refused | Cancelled

  datatype Phase =
    | Started
    /** Cloned its gate and awaits the lock. */
    | Waiting(gate: nat)
    /** Holds the gate; the client has not taken message `index`. */
    | Offering(gate: nat, restoreTo: u8, index: nat)
    /** Holds the gate; the client took message `index`, the publish future has not resolved. */
    | Accepted(gate: nat, restoreTo: u8, index: nat)
    | Finished(outcome: Outcome)
  {
    predicate Holds() { Offering? || Accepted? }

    function Taken(): nat
      requires Holds()
    {
      if Accepted? then index + 1 else index
    }
  }

  datatype Task = Task(edge: EdgeNode, topics: seq<SparkplugTopic>, phase: Phase)

  /** `past` is bookkeeping of the model: the reservations this gate has seen end, in order. */
  datatype Gate = Gate(count: u8, holder: Option<nat>, past: seq<Episode>)

  /** `wire` holds everything the client took, in order; the event loop has drained a prefix of it. */
  datatype System = System(
    gates: map<string, nat>,
    cells: seq<Gate>,
    tasks: seq<Task>,
    wire: seq<Sent>,
    drained: nat)

  const INIT := System(map[], [], [], [], 0)

  datatype Event =
    | Begin(call: Call)
    | CloneGate(task: nat)
    | Acquire(task: nat)
    | Take(task: nat)
    | Resolve(task: nat)
    | Refuse(task: nat)
    | Cancel(task: nat)
    | Drain

  predicate Enabled(config: Config, s: System, e: Event) {
    match e
    case Begin(PublishMetrics(topic)) => topic.WellFormed()
    case Begin(PublishBirth(_)) => true
    case CloneGate(t) => t < |s.tasks| && s.tasks[t].phase.Started?
    case Acquire(t) =>
      && t < |s.tasks| && s.tasks[t].phase.Waiting? && s.tasks[t].phase.gate < |s.cells|
      && s.cells[s.tasks[t].phase.gate].holder.None? && |s.tasks[t].topics| > 0
    case Take(t) =>
      && Holding(s, t) && s.tasks[t].phase.Offering?
      && |s.wire| < s.drained + config.capacity
    case Resolve(t) => Holding(s, t) && s.tasks[t].phase.Accepted?
    case Refuse(t) => Holding(s, t) && s.tasks[t].phase.Offering?
    case Cancel(t) => t < |s.tasks| && !s.tasks[t].phase.Finished? && (s.tasks[t].phase.Holds() ==> Holding(s, t))
    case Drain => s.drained < |s.wire|
  }

  predicate Holding(s: System, t: nat) {
    && t < |s.tasks|
    && s.tasks[t].phase.Holds()
    && s.tasks[t].phase.gate < |s.cells|
    && s.tasks[t].phase.index < |s.tasks[t].topics|
  }

  function Next(config: Config, s: System, e: Event): System
    requires Enabled(config, s, e)
  {
    match e
    case Begin(call) =>
      (match Plan(config, call)
       case Success(script) => s.(tasks := s.tasks + [Task(script.edge, script.topics, Started)])
       case Failure(_) => s)
    case CloneGate(t) => CloneGateOf(s, t)
    case Acquire(t) =>
      var g := s.tasks[t].phase.gate;
      var previous := s.cells[g].count;
      s.(tasks := WithPhase(s.tasks, t, Offering(g, previous, 0)),
         cells := s.cells[g := s.cells[g].(
           count := Draw(s.tasks[t].topics[0].messageType, previous), holder := Some(t))])
    case Take(t) =>
      var task := s.tasks[t];
      var Offering(g, restoreTo, i) := task.phase;
      s.(wire := s.wire + [Sent(task.topics[i], s.cells[g].count, t)],
         tasks := WithPhase(s.tasks, t, Accepted(g, restoreTo, i)))
    case Resolve(t) =>
      var task := s.tasks[t];
      var Accepted(g, restoreTo, i) := task.phase;
      if i + 1 < |task.topics| then
        s.(cells := s.cells[g := s.cells[g].(count := Succ8(s.cells[g].count))],
           tasks := WithPhase(s.tasks, t, Offering(g, restoreTo, i + 1)))
      else
        Release(s, t, s.cells[g].count, Published)
    case Refuse(t) => Release(s, t, s.tasks[t].phase.restoreTo, Refused)
    case Cancel(t) =>
      if s.tasks[t].phase.Holds() then Release(s, t, s.tasks[t].phase.restoreTo, Cancelled)
      else s.(tasks := WithPhase(s.tasks, t, Finished(Cancelled)))
    case Drain => s.(drained := s.drained + 1)
  }

  function WithPhase(tasks: seq<Task>, t: nat, phase: Phase): seq<Task>
    requires t < |tasks|
  {
    tasks[t := tasks[t].(phase := phase)]
  }

  function WithNewGate(s: System, key: string): System {
    s.(gates := s.gates[key := |s.cells|], cells := s.cells + [Gate(0, None, [])])
  }

  /** `entry(key).or_default().clone()`: a key the map does not hold gets a new gate at 0. */
  function CloneGateOf(s: System, t: nat): System
    requires t < |s.tasks|
  {
    var key := KeyOf(s.tasks[t].edge);
    if key in s.gates then
      s.(tasks := WithPhase(s.tasks, t, Waiting(s.gates[key])))
    else
      WithNewGate(s, key).(tasks := WithPhase(s.tasks, t, Waiting(|s.cells|)))
  }

  /** Drop the reservation: leave `count` behind, free the gate, end the call. */
  function Release(s: System, t: nat, count: u8, outcome: Outcome): System
    requires Holding(s, t)
  {
    var task := s.tasks[t];
    var g := task.phase.gate;
    s.(cells := s.cells[g := Gate(count, None, s.cells[g].past + [EpisodeOf(s, t, outcome.Published?)])],
       tasks := WithPhase(s.tasks, t, Finished(outcome)))
  }

  function EpisodeOf(s: System, t: nat, committed: bool): Episode
    requires t < |s.tasks| && s.tasks[t].phase.Holds()
  {
    Episode(t, s.tasks[t].topics, s.tasks[t].phase.Taken(), committed)
  }

  ghost predicate ValidRun(config: Config, s: System, events: seq<Event>)
    decreases |events|
  {
    events == [] || (Enabled(config, s, events[0]) && ValidRun(config, Next(config, s, events[0]), events[1..]))
  }

  ghost function After(config: Config, s: System, events: seq<Event>): System
    requires ValidRun(config, s, events)
    decreases |events|
  {
    if events == [] then s else After(config, Next(config, s, events[0]), events[1..])
  }

  // -- the invariant -----------------------------------------------------------

  /** The messages of one edge node, in the order the client took them. */
  function OnWire(wire: seq<Sent>, edge: EdgeNode): seq<Sent> {
    if wire == [] then []
    else
      var last := wire[|wire| - 1];
      OnWire(wire[..|wire| - 1], edge) + (if last.topic.EdgeNode() == Some(edge) then [last] else [])
  }

  ghost predicate GateMapOk(s: System) {
    && (forall k | k in s.gates :: s.gates[k] < |s.cells|)
    && (forall k, l | k in s.gates && l in s.gates && s.gates[k] == s.gates[l] :: k == l)
  }

  ghost predicate GateIs(s: System, edge: EdgeNode, g: int) {
    KeyOf(edge) in s.gates && s.gates[KeyOf(edge)] == g && 0 <= g < |s.cells|
  }

  ghost predicate ScriptOk(task: Task) {
    && |task.topics| >= 1
    && (forall i | 0 <= i < |task.topics| :: task.topics[i].EdgeNode() == Some(task.edge))
    && (forall i | 1 <= i < |task.topics| :: !task.topics[i].messageType.NBIRTH?)
  }

  ghost predicate TaskOk(s: System, t: nat)
    requires t < |s.tasks|
  {
    var task := s.tasks[t];
    && ScriptOk(task)
    && (task.phase.Waiting? ==> GateIs(s, task.edge, task.phase.gate))
    && (task.phase.Holds() ==>
          && GateIs(s, task.edge, task.phase.gate)
          && task.phase.index < |task.topics|
          && s.cells[task.phase.gate].holder == Some(t))
    && (task.phase == Finished(Published) ==>
          && KeyOf(task.edge) in s.gates && s.gates[KeyOf(task.edge)] < |s.cells|
          && Episode(t, task.topics, |task.topics|, true) in s.cells[s.gates[KeyOf(task.edge)]].past)
  }

  /** The call a past episode belongs to has ended, and the episode agrees with how it ended. */
  ghost predicate EpisodeOk(tasks: seq<Task>, e: Episode) {
    && e.Valid()
    && e.task < |tasks|
    && tasks[e.task].phase.Finished?
    && (e.committed <==> tasks[e.task].phase.outcome.Published?)
    && tasks[e.task].topics == e.topics
  }

  ghost predicate CellOk(s: System, g: nat)
    requires g < |s.cells|
  {
    var cell := s.cells[g];
    && (forall j | 0 <= j < |cell.past| :: EpisodeOk(s.tasks, cell.past[j]))
    && OneEach(cell.past)
    && match cell.holder
       case None => cell.count == Count(cell.past)
       case Some(t) =>
         && t < |s.tasks| && s.tasks[t].phase.Holds() && s.tasks[t].phase.gate == g
         && ScriptOk(s.tasks[t]) && s.tasks[t].phase.index < |s.tasks[t].topics|
         && s.tasks[t].phase.restoreTo == Count(cell.past)
         && cell.count == Number(s.tasks[t].phase.restoreTo, s.tasks[t].topics, s.tasks[t].phase.index)
  }

  /** The reservations of one edge node: those that ended, then the live one as far as it got. */
  ghost function History(s: System, edge: EdgeNode): seq<Episode> {
    if KeyOf(edge) !in s.gates || s.gates[KeyOf(edge)] >= |s.cells| then []
    else
      var cell := s.cells[s.gates[KeyOf(edge)]];
      match cell.holder
      case Some(t) =>
        if t < |s.tasks| && s.tasks[t].phase.Holds() then cell.past + [EpisodeOf(s, t, false)] else cell.past
      case None => cell.past
  }

  ghost predicate WireOk(s: System, edge: EdgeNode) {
    ValidHistory(History(s, edge)) && OnWire(s.wire, edge) == Log(History(s, edge))
  }

  ghost predicate Inv(config: Config, s: System) {
    && GateMapOk(s)
    && (forall t | 0 <= t < |s.tasks| :: TaskOk(s, t))
    && (forall g | 0 <= g < |s.cells| :: CellOk(s, g))
    && (forall edge :: WireOk(s, edge))
    && s.drained <= |s.wire| <= s.drained + config.capacity
  }

  // -- what one event leaves alone ---------------------------------------------

  /** Only task `t` and, when there is one, the cell `g` it may hold differ. */
  ghost predicate OnlyTouches(s: System, s': System, t: nat, g: int) {
    && s'.gates == s.gates
    && t < |s.tasks| == |s'.tasks| && !s.tasks[t].phase.Finished?
    && (s.tasks[t].phase.Holds() ==> s.tasks[t].phase.gate == g)
    && s'.tasks == s.tasks[t := s'.tasks[t].(edge := s.tasks[t].edge, topics := s.tasks[t].topics)]
    && |s'.cells| == |s.cells|
    && (forall h | 0 <= h < |s.cells| && h != g :: s'.cells[h] == s.cells[h])
    && (0 <= g < |s.cells| ==>
          && (s.cells[g].holder == None || s.cells[g].holder == Some(t))
          && s.cells[g].past <= s'.cells[g].past)
  }

  lemma UntouchedTask(s: System, s': System, t: nat, g: int, u: nat)
    requires OnlyTouches(s, s', t, g) && u < |s.tasks| && u != t && TaskOk(s, u)
    ensures TaskOk(s', u)
  {
  }

  lemma UntouchedCell(s: System, s': System, t: nat, g: int, h: nat)
    requires OnlyTouches(s, s', t, g) && h < |s.cells| && h != g && CellOk(s, h)
    ensures CellOk(s', h)
  {
    PastStaysOk(s, s', t, g, h);
  }

  /** A past episode belongs to a call that ended, so no running call disturbs it. */
  lemma PastStaysOk(s: System, s': System, t: nat, g: int, h: nat)
    requires OnlyTouches(s, s', t, g) && h < |s.cells| && CellOk(s, h)
    ensures forall j | 0 <= j < |s.cells[h].past| :: EpisodeOk(s'.tasks, s.cells[h].past[j])
  {
  }

  lemma UntouchedWire(s: System, s': System, t: nat, g: int, edge: EdgeNode)
    requires OnlyTouches(s, s', t, g) && WireOk(s, edge)
    requires !GateIs(s, edge, g)
    requires forall h | 0 <= h < |s.cells| && h != g :: CellOk(s, h)
    requires OnWire(s'.wire, edge) == OnWire(s.wire, edge)
    ensures History(s', edge) == History(s, edge) && WireOk(s', edge)
  {
    if KeyOf(edge) in s.gates && s.gates[KeyOf(edge)] < |s.cells| {
      assert CellOk(s, s.gates[KeyOf(edge)]);
    }
  }

  /** The whole invariant, once the touched task, its gate and its wire are settled. */
  lemma TouchedPartSuffices(config: Config, s: System, s': System, t: nat, g: int)
    requires Inv(config, s) && OnlyTouches(s, s', t, g)
    requires TaskOk(s', t) && (0 <= g < |s.cells| ==> CellOk(s', g) && GateIs(s, s.tasks[t].edge, g))
    requires 0 <= g < |s.cells| ==> WireOk(s', s.tasks[t].edge)
    requires forall edge | g < 0 || edge != s.tasks[t].edge :: OnWire(s'.wire, edge) == OnWire(s.wire, edge)
    requires s'.drained <= |s'.wire| <= s'.drained + config.capacity
    requires g < |s.cells|
    ensures Inv(config, s')
  {
    forall u | 0 <= u < |s'.tasks|
      ensures TaskOk(s', u)
    {
      if u != t {
        assert TaskOk(s, u);
        UntouchedTask(s, s', t, g, u);
      }
    }
    forall h | 0 <= h < |s'.cells|
      ensures CellOk(s', h)
    {
      assert CellOk(s, h);
      if h != g {
        UntouchedCell(s, s', t, g, h);
      }
    }
    forall edge
      ensures WireOk(s', edge)
    {
      assert WireOk(s, edge);
      if g < 0 || edge != s.tasks[t].edge {
        if GateIs(s, edge, g) {
          KeyOfIsInjective(edge, s.tasks[t].edge);
        }
        UntouchedWire(s, s', t, g, edge);
      }
    }
  }

  // -- every event keeps the invariant -----------------------------------------

  lemma BeginPreserves(config: Config, s: System, call: Call)
    requires Inv(config, s) && Enabled(config, s, Begin(call))
    ensures Inv(config, Next(config, s, Begin(call)))
  {
    var s' := Next(config, s, Begin(call));
    forall u | 0 <= u < |s'.tasks|
      ensures TaskOk(s', u)
    {
      if u < |s.tasks| {
        assert TaskOk(s, u);
      }
    }
    forall g | 0 <= g < |s'.cells|
      ensures CellOk(s', g)
    {
      assert CellOk(s, g);
      forall j | 0 <= j < |s.cells[g].past|
        ensures EpisodeOk(s'.tasks, s.cells[g].past[j])
      {
        assert EpisodeOk(s.tasks, s.cells[g].past[j]);
      }
    }
    forall edge
      ensures WireOk(s', edge)
    {
      assert WireOk(s, edge);
      if KeyOf(edge) in s.gates {
        assert CellOk(s, s.gates[KeyOf(edge)]);
      }
    }
  }

  lemma NewGateKeepsTheLog(s: System, key: string, edge: EdgeNode)
    requires GateMapOk(s) && key !in s.gates && WireOk(s, edge)
    ensures WireOk(WithNewGate(s, key), edge)
  {
  }

  lemma NewGatePreserves(config: Config, s: System, key: string)
    requires Inv(config, s) && key !in s.gates
    ensures Inv(config, WithNewGate(s, key))
  {
    var s' := WithNewGate(s, key);
    forall u | 0 <= u < |s'.tasks|
      ensures TaskOk(s', u)
    {
      assert TaskOk(s, u);
    }
    forall g | 0 <= g < |s'.cells|
      ensures CellOk(s', g)
    {
      if g < |s.cells| {
        assert CellOk(s, g);
      }
    }
    forall edge
      ensures WireOk(s', edge)
    {
      assert WireOk(s, edge);
      NewGateKeepsTheLog(s, key, edge);
    }
  }

  lemma CloneGatePreserves(config: Config, s: System, t: nat)
    requires Inv(config, s) && Enabled(config, s, CloneGate(t))
    ensures Inv(config, Next(config, s, CloneGate(t)))
  {
    var s' := Next(config, s, CloneGate(t));
    var key := KeyOf(s.tasks[t].edge);
    assert TaskOk(s, t);
    if key in s.gates {
      TouchedPartSuffices(config, s, s', t, -1);
    } else {
      NewGatePreserves(config, s, key);
      TouchedPartSuffices(config, WithNewGate(s, key), s', t, -1);
    }
  }

  lemma AcquirePreserves(config: Config, s: System, t: nat)
    requires Inv(config, s) && Enabled(config, s, Acquire(t))
    ensures Inv(config, Next(config, s, Acquire(t)))
  {
    var s' := Next(config, s, Acquire(t));
    var g := s.tasks[t].phase.gate;
    var edge := s.tasks[t].edge;
    assert TaskOk(s, t) && CellOk(s, g) && WireOk(s, edge);
    PastStaysOk(s, s', t, g, g);
    ReplayAppend(s.cells[g].past, EpisodeOf(s', t, false));
    assert Log(s.cells[g].past) + [] == Log(s.cells[g].past);
    TouchedPartSuffices(config, s, s', t, g);
  }

  /** The message the client takes is the next one of the live reservation's episode. */
  lemma TakeExtendsTheLog(config: Config, s: System, t: nat)
    requires Enabled(config, s, Take(t))
    requires TaskOk(s, t) && CellOk(s, s.tasks[t].phase.gate) && WireOk(s, s.tasks[t].edge)
    ensures WireOk(Next(config, s, Take(t)), s.tasks[t].edge)
  {
    var s' := Next(config, s, Take(t));
    var task := s.tasks[t];
    var cell := s.cells[task.phase.gate];
    LiveHistory(s, t);
    LiveHistory(s', t);
    TakenGrows(cell.past, EpisodeOf(s, t, false));
    OnWireAppend(s.wire, s'.wire[|s.wire|], task.edge);
  }

  /** While a call holds its gate, its reservation is the last of the history. */
  lemma LiveHistory(s: System, t: nat)
    requires t < |s.tasks| && s.tasks[t].phase.Holds() && GateIs(s, s.tasks[t].edge, s.tasks[t].phase.gate)
    requires s.cells[s.tasks[t].phase.gate].holder == Some(t)
    ensures History(s, s.tasks[t].edge) == s.cells[s.tasks[t].phase.gate].past + [EpisodeOf(s, t, false)]
  {
  }

  lemma OnWireAppend(wire: seq<Sent>, m: Sent, edge: EdgeNode)
    ensures OnWire(wire + [m], edge) ==
            if m.topic.EdgeNode() == Some(edge) then OnWire(wire, edge) + [m] else OnWire(wire, edge)
  {
    assert (wire + [m])[..|wire|] == wire;
  }

  lemma TakePreserves(config: Config, s: System, t: nat)
    requires Inv(config, s) && Enabled(config, s, Take(t))
    ensures Inv(config, Next(config, s, Take(t)))
  {
    var s' := Next(config, s, Take(t));
    var task := s.tasks[t];
    var g := task.phase.gate;
    assert TaskOk(s, t) && CellOk(s, g);
    PastStaysOk(s, s', t, g, g);
    assert WireOk(s, task.edge);
    TakeExtendsTheLog(config, s, t);
    forall edge | edge != task.edge
      ensures OnWire(s'.wire, edge) == OnWire(s.wire, edge)
    {
      OnWireAppend(s.wire, s'.wire[|s.wire|], edge);
    }
    TouchedPartSuffices(config, s, s', t, g);
  }

  /** `next()` between the two births: the gate stays held and the number moves on by 1. */
  lemma ContinueKeepsTheLog(config: Config, s: System, t: nat)
    requires Enabled(config, s, Resolve(t)) && s.tasks[t].phase.index + 1 < |s.tasks[t].topics|
    requires TaskOk(s, t) && CellOk(s, s.tasks[t].phase.gate) && WireOk(s, s.tasks[t].edge)
    ensures TaskOk(Next(config, s, Resolve(t)), t)
    ensures CellOk(Next(config, s, Resolve(t)), s.tasks[t].phase.gate)
    ensures WireOk(Next(config, s, Resolve(t)), s.tasks[t].edge)
  {
    var s' := Next(config, s, Resolve(t));
    var g := s.tasks[t].phase.gate;
    PastStaysOk(s, s', t, g, g);
    assert EpisodeOf(s', t, false) == EpisodeOf(s, t, false);
  }

  lemma ResolvePreserves(config: Config, s: System, t: nat)
    requires Inv(config, s) && Enabled(config, s, Resolve(t))
    ensures Inv(config, Next(config, s, Resolve(t)))
  {
    if s.tasks[t].phase.index + 1 < |s.tasks[t].topics| {
      assert TaskOk(s, t) && CellOk(s, s.tasks[t].phase.gate) && WireOk(s, s.tasks[t].edge);
      ContinueKeepsTheLog(config, s, t);
      TouchedPartSuffices(config, s, Next(config, s, Resolve(t)), t, s.tasks[t].phase.gate);
    } else {
      ReleasePreserves(config, s, t, s.cells[s.tasks[t].phase.gate].count, Published);
    }
  }

  /** The two ends of a reservation: kept whole, or dropped with the old count written back. */
  ghost predicate ReleaseOk(s: System, t: nat, count: u8, outcome: Outcome)
    requires Holding(s, t)
  {
    var task := s.tasks[t];
    if outcome.Published? then task.phase.Taken() == |task.topics| && count == s.cells[task.phase.gate].count
    else count == task.phase.restoreTo
  }

  lemma ReleaseKeepsTheLog(s: System, t: nat, count: u8, outcome: Outcome)
    requires Holding(s, t) && ReleaseOk(s, t, count, outcome)
    requires TaskOk(s, t) && CellOk(s, s.tasks[t].phase.gate) && WireOk(s, s.tasks[t].edge)
    ensures
      var s' := Release(s, t, count, outcome);
      var cell := s.cells[s.tasks[t].phase.gate];
      && WireOk(s', s.tasks[t].edge)
      && ValidHistory(cell.past) && EpisodeOf(s, t, outcome.Published?).Valid()
      && ValidHistory(cell.past + [EpisodeOf(s, t, outcome.Published?)])
      && Count(cell.past + [EpisodeOf(s, t, outcome.Published?)]) == count
  {
    var past := s.cells[s.tasks[t].phase.gate].past;
    EndDecidesTheCountOnly(past, EpisodeOf(s, t, outcome.Published?));
    assert History(Release(s, t, count, outcome), s.tasks[t].edge) == past + [EpisodeOf(s, t, outcome.Published?)];
  }

  /** The cell a reservation leaves: one more past episode, of a call no other one belongs to. */
  lemma ReleasedCell(s: System, t: nat, count: u8, outcome: Outcome)
    requires Holding(s, t) && ReleaseOk(s, t, count, outcome)
    requires TaskOk(s, t) && CellOk(s, s.tasks[t].phase.gate) && WireOk(s, s.tasks[t].edge)
    ensures CellOk(Release(s, t, count, outcome), s.tasks[t].phase.gate)
  {
    var s' := Release(s, t, count, outcome);
    var g := s.tasks[t].phase.gate;
    var past := s.cells[g].past;
    ReleaseKeepsTheLog(s, t, count, outcome);
    PastStaysOk(s, s', t, g, g);
    OneEachGrows(s.tasks, past, EpisodeOf(s, t, outcome.Published?));
    assert EpisodeOk(s'.tasks, EpisodeOf(s, t, outcome.Published?));
  }

  /** A call whose reservation still lives has no past one. */
  lemma OneEachGrows(tasks: seq<Task>, past: seq<Episode>, e: Episode)
    requires OneEach(past) && forall j | 0 <= j < |past| :: EpisodeOk(tasks, past[j])
    requires e.task < |tasks| && !tasks[e.task].phase.Finished?
    ensures OneEach(past + [e])
  {
    forall j | 0 <= j < |past|
      ensures past[j].task != e.task
    {
      assert EpisodeOk(tasks, past[j]);
    }
  }

  lemma ReleasePreserves(config: Config, s: System, t: nat, count: u8, outcome: Outcome)
    requires Inv(config, s) && Holding(s, t) && ReleaseOk(s, t, count, outcome)
    ensures Inv(config, Release(s, t, count, outcome))
  {
    var s' := Release(s, t, count, outcome);
    var g := s.tasks[t].phase.gate;
    assert TaskOk(s, t) && CellOk(s, g) && WireOk(s, s.tasks[t].edge);
    ReleasedCell(s, t, count, outcome);
    ReleaseKeepsTheLog(s, t, count, outcome);
    assert s'.cells[g].past[|s.cells[g].past|] == EpisodeOf(s, t, outcome.Published?);
    TouchedPartSuffices(config, s, s', t, g);
  }

  lemma CancelPreserves(config: Config, s: System, t: nat)
    requires Inv(config, s) && Enabled(config, s, Cancel(t))
    ensures Inv(config, Next(config, s, Cancel(t)))
  {
    assert TaskOk(s, t);
    if s.tasks[t].phase.Holds() {
      ReleasePreserves(config, s, t, s.tasks[t].phase.restoreTo, Cancelled);
    } else {
      TouchedPartSuffices(config, s, Next(config, s, Cancel(t)), t, -1);
    }
  }

  lemma DrainPreserves(config: Config, s: System)
    requires Inv(config, s) && Enabled(config, s, Drain)
    ensures Inv(config, Next(config, s, Drain))
  {
    var s' := Next(config, s, Drain);
    forall u | 0 <= u < |s'.tasks|
      ensures TaskOk(s', u)
    {
      assert TaskOk(s, u);
    }
    forall g | 0 <= g < |s'.cells|
      ensures CellOk(s', g)
    {
      assert CellOk(s, g);
    }
    forall edge
      ensures WireOk(s', edge)
    {
      assert WireOk(s, edge);
    }
  }

  lemma StepPreserves(config: Config, s: System, e: Event)
    requires Inv(config, s) && Enabled(config, s, e)
    ensures Inv(config, Next(config, s, e))
  {
    match e
    case Begin(call) => BeginPreserves(config, s, call);
    case CloneGate(t) => CloneGatePreserves(config, s, t);
    case Acquire(t) => AcquirePreserves(config, s, t);
    case Take(t) => TakePreserves(config, s, t);
    case Resolve(t) => ResolvePreserves(config, s, t);
    case Refuse(t) => ReleasePreserves(config, s, t, s.tasks[t].phase.restoreTo, Refused);
    case Cancel(t) => CancelPreserves(config, s, t);
    case Drain => DrainPreserves(config, s);
  }

  lemma InitOk(config: Config)
    ensures Inv(config, INIT)
  {
  }

  lemma {:induction false} RunPreserves(config: Config, s: System, events: seq<Event>)
    requires Inv(config, s) && ValidRun(config, s, events)
    ensures Inv(config, After(config, s, events))
    decreases |events|
  {
    if events == [] {
    } else {
      StepPreserves(config, s, events[0]);
      RunPreserves(config, Next(config, s, events[0]), events[1..]);
    }
  }
}
