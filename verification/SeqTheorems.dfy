/**
 * What the gates guarantee over every run: refinement of the atomic counter, the number of every
 * message on the wire and exactly when it breaks the sequence rule, exclusion, isolation and progress.
 */
module SeqTheorems {
  import opened Prelude
  import opened Ids
  import opened Topic
  import opened SeqSpec
  import opened SeqProtocol

  // -- refinement --------------------------------------------------------------

  /**
   * The atomic counter the concrete state stands for. While a reservation lives, the count is the
   * number it would restore and the log leaves out what the client took under it.
   */
  ghost function Abstract(config: Config, s: System, edge: EdgeNode): Counter
    requires Inv(config, s)
  {
    if KeyOf(edge) !in s.gates then Counter(0, OnWire(s.wire, edge))
    else
      var cell := s.cells[s.gates[KeyOf(edge)]];
      var wire := OnWire(s.wire, edge);
      assert CellOk(s, s.gates[KeyOf(edge)]);
      match cell.holder
      case None => Counter(cell.count, wire)
      case Some(t) =>
        assert |wire| >= s.tasks[t].phase.Taken() by { LiveTail(config, s, edge); }
        Counter(s.tasks[t].phase.restoreTo, wire[..|wire| - s.tasks[t].phase.Taken()])
  }

  ghost function PastOf(s: System, edge: EdgeNode): seq<Episode> {
    if KeyOf(edge) in s.gates && s.gates[KeyOf(edge)] < |s.cells| then s.cells[s.gates[KeyOf(edge)]].past else []
  }

  lemma LiveTail(config: Config, s: System, edge: EdgeNode)
    requires Inv(config, s)
    requires KeyOf(edge) in s.gates && s.cells[s.gates[KeyOf(edge)]].holder.Some?
    ensures
      var t := s.cells[s.gates[KeyOf(edge)]].holder.value;
      && t < |s.tasks| && s.tasks[t].phase.Holds() && ValidHistory(PastOf(s, edge))
      && s.tasks[t].phase.Taken() <= |s.tasks[t].topics|
      && OnWire(s.wire, edge)
         == Log(PastOf(s, edge)) + Messages(Count(PastOf(s, edge)), t, s.tasks[t].topics, s.tasks[t].phase.Taken())
  {
    var g := s.gates[KeyOf(edge)];
    assert CellOk(s, g) && WireOk(s, edge);
    PastIsValid(s, g);
    ReplayAppend(s.cells[g].past, EpisodeOf(s, s.cells[g].holder.value, false));
  }

  lemma PastIsValid(s: System, g: nat)
    requires g < |s.cells| && CellOk(s, g)
    ensures ValidHistory(s.cells[g].past)
  {
  }

  /** The abstraction is the replay of the reservations that have ended. */
  lemma AbstractIsReplay(config: Config, s: System, edge: EdgeNode)
    requires Inv(config, s)
    ensures ValidHistory(PastOf(s, edge)) && Abstract(config, s, edge) == Replay(PastOf(s, edge))
  {
    assert WireOk(s, edge);
    if KeyOf(edge) in s.gates {
      var g := s.gates[KeyOf(edge)];
      assert CellOk(s, g);
      PastIsValid(s, g);
      if s.cells[g].holder.Some? {
        LiveTail(config, s, edge);
      }
    }
  }

  /** The episode an event ends, and the edge node it ends it for. */
  function Ends(s: System, e: Event): Option<(EdgeNode, Episode)> {
    match e
    case Resolve(t) =>
      if Holding(s, t) && s.tasks[t].phase.index + 1 == |s.tasks[t].topics|
      then Some((s.tasks[t].edge, EpisodeOf(s, t, true))) else None
    case Refuse(t) =>
      if Holding(s, t) then Some((s.tasks[t].edge, EpisodeOf(s, t, false))) else None
    case Cancel(t) =>
      if Holding(s, t) then Some((s.tasks[t].edge, EpisodeOf(s, t, false))) else None
    case _ => None
  }

  /**
   * Refinement. An event that ends no reservation is invisible in every atomic counter; one that
   * ends a reservation is exactly one atomic episode of its own edge node's counter.
   */
  lemma StepRefinesTheCounter(config: Config, s: System, e: Event)
    requires Inv(config, s) && Enabled(config, s, e)
    ensures Inv(config, Next(config, s, e))
    ensures
      var s' := Next(config, s, e);
      match Ends(s, e)
      case None => forall edge :: Abstract(config, s', edge) == Abstract(config, s, edge)
      case Some((own, episode)) =>
        && episode.Valid()
        && Abstract(config, s', own) == Apply(Abstract(config, s, own), episode)
        && forall edge | edge != own :: Abstract(config, s', edge) == Abstract(config, s, edge)
  {
    StepPreserves(config, s, e);
    if Ends(s, e).Some? {
      EndedEpisodeIsValid(config, s, e);
    }
    var s' := Next(config, s, e);
    forall edge
      ensures match Ends(s, e)
              case None => Abstract(config, s', edge) == Abstract(config, s, edge)
              case Some((own, episode)) =>
                episode.Valid() &&
                Abstract(config, s', edge) ==
                  if edge == own then Apply(Abstract(config, s, edge), episode) else Abstract(config, s, edge)
    {
      AbstractIsReplay(config, s, edge);
      AbstractIsReplay(config, s', edge);
      PastMovesWithEnds(config, s, e, edge);
      if Ends(s, e).Some? && edge == Ends(s, e).value.0 {
        ReplayAppend(PastOf(s, edge), Ends(s, e).value.1);
      }
    }
  }

  lemma EndedEpisodeIsValid(config: Config, s: System, e: Event)
    requires Inv(config, s) && Enabled(config, s, e) && Ends(s, e).Some?
    ensures Ends(s, e).value.1.Valid()
  {
    assert TaskOk(s, e.task);
    assert ScriptOk(s.tasks[e.task]);
  }

  lemma PastMovesWithEnds(config: Config, s: System, e: Event, edge: EdgeNode)
    requires Inv(config, s) && Enabled(config, s, e)
    ensures
      var past' := PastOf(Next(config, s, e), edge);
      match Ends(s, e)
      case None => past' == PastOf(s, edge)
      case Some((own, episode)) =>
        episode.Valid() && past' == PastOf(s, edge) + (if edge == own then [episode] else [])
  {
    if Ends(s, e).Some? {
      EndedEpisodeIsValid(config, s, e);
    }
    if e.CloneGate? || e.Acquire? || e.Take? || e.Resolve? || e.Refuse? || e.Cancel? {
      assert TaskOk(s, e.task);
      KeyOfIsInjective(edge, s.tasks[e.task].edge);
    }
  }

  /** From the start, every edge node's counter is the replay of the reservations that ended. */
  lemma RunRefinesTheCounter(config: Config, events: seq<Event>, edge: EdgeNode)
    requires ValidRun(config, INIT, events)
    ensures Inv(config, After(config, INIT, events))
    ensures
      var s := After(config, INIT, events);
      ValidHistory(PastOf(s, edge)) && Abstract(config, s, edge) == Replay(PastOf(s, edge))
  {
    InitOk(config);
    RunPreserves(config, INIT, events);
    AbstractIsReplay(config, After(config, INIT, events), edge);
  }

  // -- the sequence rule on the wire -------------------------------------------

  /** A call that ended without keeping its number. */
  predicate Dropped(s: System, t: nat) {
    t < |s.tasks| && s.tasks[t].phase.Finished? && !s.tasks[t].phase.outcome.Published?
  }

  /** The episode that sent message `p`, told from the state alone. */
  lemma OwnerInState(config: Config, s: System, edge: EdgeNode, p: nat)
    requires Inv(config, s) && p < |OnWire(s.wire, edge)|
    ensures ValidHistory(History(s, edge)) && OnWire(s.wire, edge) == Log(History(s, edge))
    ensures
      var e := History(s, edge)[Owner(History(s, edge), p)];
      var t := OnWire(s.wire, edge)[p].task;
      && e.task == t < |s.tasks| && e.topics == s.tasks[t].topics
      && (s.tasks[t].phase.Finished? ==> (e.committed <==> s.tasks[t].phase.outcome.Published?))
      && (Owner(History(s, edge), p) < |History(s, edge)| - 1 ==> s.tasks[t].phase.Finished?)
  {
    assert WireOk(s, edge);
    var eps := History(s, edge);
    var j := Owner(eps, p);
    var i := OwnerSpan(eps, p);
    EpisodeSpan(eps, j, i);
    var g := s.gates[KeyOf(edge)];
    assert CellOk(s, g);
    if j < |s.cells[g].past| {
      assert EpisodeOk(s.tasks, s.cells[g].past[j]);
    }
  }

  /** The calls that returned Ok, and so kept their numbers. */
  function KeptCalls(s: System): set<nat> {
    set t: nat | t < |s.tasks| && s.tasks[t].phase == Finished(Published)
  }

  lemma HistoryIsKept(config: Config, s: System, edge: EdgeNode)
    requires Inv(config, s)
    ensures ValidHistory(History(s, edge))
    ensures KeptAre(KeptCalls(s), History(s, edge)) && OneEach(History(s, edge))
  {
    assert WireOk(s, edge);
    if KeyOf(edge) in s.gates {
      var g := s.gates[KeyOf(edge)];
      assert CellOk(s, g);
      assert forall j | 0 <= j < |s.cells[g].past| :: EpisodeOk(s.tasks, s.cells[g].past[j]);
    }
  }

  /** Message `i` goes on from the one before it: that one's call was not dropped, or is its own. */
  predicate GoesOn(s: System, w: seq<Sent>, i: nat)
    requires i < |w|
  {
    i > 0 && (!Dropped(s, w[i - 1].task) || w[i - 1].task == w[i].task)
  }

  /**
   * The number of every message of every run. An NBIRTH carries 0. A message that goes on from the
   * one before it adds 1 to its number; any other, the first of all included, adds 1 to the number
   * of the last message whose call returned Ok, counting from 0 when there is none.
   */
  lemma NumberOnTheWire(config: Config, events: seq<Event>, edge: EdgeNode, i: nat)
    requires ValidRun(config, INIT, events)
    requires i < |OnWire(After(config, INIT, events).wire, edge)|
    ensures
      var s := After(config, INIT, events);
      var w := OnWire(s.wire, edge);
      w[i].number ==
        if w[i].IsNBirth() then 0
        else if GoesOn(s, w, i) then Succ8(w[i - 1].number)
        else Succ8(LastKept(KeptCalls(s), w[..i]))
  {
    RunRefinesTheCounter(config, events, edge);
    NumberInState(config, After(config, INIT, events), edge, i);
  }

  lemma NumberInState(config: Config, s: System, edge: EdgeNode, i: nat)
    requires Inv(config, s) && i < |OnWire(s.wire, edge)|
    ensures
      var w := OnWire(s.wire, edge);
      w[i].number ==
        if w[i].IsNBirth() then 0
        else if GoesOn(s, w, i) then Succ8(w[i - 1].number)
        else Succ8(LastKept(KeptCalls(s), w[..i]))
  {
    OwnerInState(config, s, edge, i);
    if i == 0 {
      FirstNumber(History(s, edge));
    } else {
      HistoryIsKept(config, s, edge);
      NumberAfter(History(s, edge), KeptCalls(s), i - 1);
      KeptUnlessDropped(config, s, edge, i);
    }
  }

  /** A message goes on from a call that is kept, or still at it and then its own. */
  lemma KeptUnlessDropped(config: Config, s: System, edge: EdgeNode, i: nat)
    requires Inv(config, s) && 0 < i < |OnWire(s.wire, edge)|
    ensures
      var w := OnWire(s.wire, edge);
      GoesOn(s, w, i) <==> w[i - 1].task in KeptCalls(s) || w[i - 1].task == w[i].task
  {
    OwnerInState(config, s, edge, i - 1);
    OwnerInState(config, s, edge, i);
    NextNumber(History(s, edge), i - 1);
  }

  /**
   * The sequence rule, exactly. A message that is no NBIRTH carries its predecessor's number plus 1
   * if and only if the predecessor's call was not dropped, or is its own call, or had left on the
   * wire the very number that was kept last.
   */
  lemma GapExactlyAfterADroppedCall(config: Config, events: seq<Event>, edge: EdgeNode, p: nat)
    requires ValidRun(config, INIT, events)
    requires p + 1 < |OnWire(After(config, INIT, events).wire, edge)|
    requires !OnWire(After(config, INIT, events).wire, edge)[p + 1].IsNBirth()
    ensures
      var s := After(config, INIT, events);
      var w := OnWire(s.wire, edge);
      w[p + 1].number == Succ8(w[p].number) <==>
        || !Dropped(s, w[p].task)
        || w[p].task == w[p + 1].task
        || LastKept(KeptCalls(s), w[..p + 1]) == w[p].number
  {
    NumberOnTheWire(config, events, edge, p + 1);
  }

  /** The documented window: a data message taken and then cancelled has its number carried again. */
  lemma DroppedDataIsRepeated(config: Config, events: seq<Event>, edge: EdgeNode, p: nat)
    requires ValidRun(config, INIT, events)
    requires
      var s := After(config, INIT, events);
      var w := OnWire(s.wire, edge);
      && p + 1 < |w| && !w[p].IsNBirth() && !w[p + 1].IsNBirth()
      && Dropped(s, w[p].task) && |s.tasks[w[p].task].topics| == 1
    ensures
      var w := OnWire(After(config, INIT, events).wire, edge);
      w[p + 1].number == w[p].number
  {
    var s := After(config, INIT, events);
    RunRefinesTheCounter(config, events, edge);
    OwnerInState(config, s, edge, p);
    TakenThenDroppedIsRepeated(History(s, edge), p);
  }

  /** A birth that completed stands on the wire as NBIRTH 0, DBIRTH 1, with nothing between. */
  lemma BirthPairing(config: Config, events: seq<Event>, t: nat, device: DeviceId) returns (p: nat)
    requires ValidRun(config, INIT, events)
    requires
      var s := After(config, INIT, events);
      && t < |s.tasks| && s.tasks[t].phase == Finished(Published)
      && Plan(config, PublishBirth(device)) == Success(Script(s.tasks[t].edge, s.tasks[t].topics))
    ensures
      var s := After(config, INIT, events);
      var edge := s.tasks[t].edge;
      var w := OnWire(s.wire, edge);
      && p + 1 < |w|
      && w[p] == Sent(NBirth(config.namespace, edge.group, edge.node), 0, t)
      && w[p + 1] == Sent(DBirth(config.namespace, edge.group, edge.node, device), 1, t)
  {
    RunRefinesTheCounter(config, events, After(config, INIT, events).tasks[t].edge);
    p := KeptPairOnWire(config, After(config, INIT, events), t);
  }

  lemma KeptPairOnWire(config: Config, s: System, t: nat) returns (p: nat)
    requires Inv(config, s) && t < |s.tasks| && s.tasks[t].phase == Finished(Published)
    requires |s.tasks[t].topics| == 2 && s.tasks[t].topics[0].messageType.NBIRTH?
    ensures
      var w := OnWire(s.wire, s.tasks[t].edge);
      p + 1 < |w| && w[p] == Sent(s.tasks[t].topics[0], 0, t) && w[p + 1] == Sent(s.tasks[t].topics[1], 1, t)
  {
    var edge := s.tasks[t].edge;
    assert TaskOk(s, t) && WireOk(s, edge);
    var past := s.cells[s.gates[KeyOf(edge)]].past;
    var j :| 0 <= j < |past| && past[j] == Episode(t, s.tasks[t].topics, 2, true);
    assert History(s, edge)[j] == past[j];
    p := CommittedPairIsAdjacent(History(s, edge), j);
  }

  /** No call that has ended left a message on the wire without keeping its number. */
  predicate NothingTakenWasDropped(s: System) {
    forall i | 0 <= i < |s.wire| :: !Dropped(s, s.wire[i].task)
  }

  lemma {:induction false} OnWireIsOnWire(wire: seq<Sent>, edge: EdgeNode, p: nat)
    requires p < |OnWire(wire, edge)|
    ensures OnWire(wire, edge)[p] in wire
  {
    if p == |OnWire(wire[..|wire| - 1], edge)| {
    } else {
      OnWireIsOnWire(wire[..|wire| - 1], edge, p);
    }
  }

  lemma HistoryIsClean(config: Config, s: System, edge: EdgeNode)
    requires Inv(config, s) && NothingTakenWasDropped(s)
    ensures WireOk(s, edge) && Clean(History(s, edge))
  {
    assert WireOk(s, edge);
    var eps := History(s, edge);
    forall j | 0 <= j < |eps| - 1 && eps[j].taken > 0
      ensures eps[j].committed
    {
      EpisodeSpan(eps, j, 0);
      var p := |Log(eps[..j])|;
      OwnerInState(config, s, edge, p);
      OnWireIsOnWire(s.wire, edge, p);
    }
  }

  /**
   * The closed form. While nothing taken was dropped, a message `n` places after its edge node's
   * latest NBIRTH carries n mod 256 (counting from 1 when there was none), in every interleaving.
   * The other three facts say what `SinceBirth` counts.
   */
  lemma WireClosedForm(config: Config, events: seq<Event>, edge: EdgeNode, i: nat)
    requires ValidRun(config, INIT, events) && NothingTakenWasDropped(After(config, INIT, events))
    requires i < |OnWire(After(config, INIT, events).wire, edge)|
    ensures
      var w := OnWire(After(config, INIT, events).wire, edge);
      var n := SinceBirth(w, i);
      && w[i].number == n % U8
      && n <= i + 1
      && (n <= i ==> w[i - n].IsNBirth())
      && (forall k | i - n < k <= i :: !w[k].IsNBirth())
  {
    RunRefinesTheCounter(config, events, edge);
    ClosedFormInState(config, After(config, INIT, events), edge, i);
  }

  lemma ClosedFormInState(config: Config, s: System, edge: EdgeNode, i: nat)
    requires Inv(config, s) && NothingTakenWasDropped(s) && i < |OnWire(s.wire, edge)|
    ensures
      var w := OnWire(s.wire, edge);
      var n := SinceBirth(w, i);
      && w[i].number == n % U8
      && n <= i + 1
      && (n <= i ==> w[i - n].IsNBirth())
      && (forall k | i - n < k <= i :: !w[k].IsNBirth())
  {
    HistoryIsClean(config, s, edge);
    ClosedForm(History(s, edge), i);
    SinceBirthMeaning(OnWire(s.wire, edge), i);
  }

  /** So a host never reads one number twice within 256 messages unless an NBIRTH stands between. */
  lemma WireNumbersAreDistinct(config: Config, events: seq<Event>, edge: EdgeNode, i: nat, k: nat)
    requires ValidRun(config, INIT, events) && NothingTakenWasDropped(After(config, INIT, events))
    requires
      var w := OnWire(After(config, INIT, events).wire, edge);
      i < k < |w| && k - i < U8 && forall m | i < m <= k :: !w[m].IsNBirth()
    ensures
      var w := OnWire(After(config, INIT, events).wire, edge);
      w[i].number != w[k].number
  {
    RunRefinesTheCounter(config, events, edge);
    HistoryIsClean(config, After(config, INIT, events), edge);
    NoRepeatWithin256(History(After(config, INIT, events), edge), i, k);
  }

  // -- both irregular ends, as runs --------------------------------------------

  lemma {:induction false} RunOneMore(config: Config, s: System, events: seq<Event>, e: Event)
    requires ValidRun(config, s, events) && Enabled(config, After(config, s, events), e)
    ensures ValidRun(config, s, events + [e])
    ensures After(config, s, events + [e]) == Next(config, After(config, s, events), e)
    decreases |events|
  {
    if events == [] {
      assert ([] + [e])[1..] == [];
      assert ValidRun(config, Next(config, s, e), [e][1..]);
    } else {
      assert (events + [e])[1..] == events[1..] + [e];
      RunOneMore(config, Next(config, s, events[0]), events[1..], e);
    }
  }

  /** Take the next step of a run towards a state written out by hand. */
  lemma Onward(config: Config, events: seq<Event>, s: System, e: Event, s': System) returns (events': seq<Event>)
    requires ValidRun(config, INIT, events) && After(config, INIT, events) == s
    requires Enabled(config, s, e) && Next(config, s, e) == s'
    ensures events' == events + [e] && ValidRun(config, INIT, events') && After(config, INIT, events') == s'
  {
    events' := events + [e];
    RunOneMore(config, INIT, events, e);
  }

  /** No call but those of `edge` was ever made, and none is under way. */
  predicate Quiet(s: System, edge: EdgeNode) {
    && s.drained == 0
    && ((s.gates == map[] && s.cells == [])
        || (s.gates == map[KeyOf(edge) := 0] && |s.cells| == 1 && s.cells[0].holder.None?))
  }

  function CountAt(s: System): u8 {
    if s.cells == [] then 0 else s.cells[0].count
  }

  /** A call gets its gate, draws its first number and offers its first message. */
  lemma StartCall(config: Config, events: seq<Event>, s: System, edge: EdgeNode,
                  call: Call, topics: seq<SparkplugTopic>)
    returns (events': seq<Event>)
    requires ValidRun(config, INIT, events) && After(config, INIT, events) == s && Quiet(s, edge)
    requires Enabled(config, s, Begin(call)) && Plan(config, call) == Success(Script(edge, topics)) && topics != []
    ensures ValidRun(config, INIT, events')
    ensures
      var s' := After(config, INIT, events');
      && s'.gates == map[KeyOf(edge) := 0]
      && s'.tasks == s.tasks + [Task(edge, topics, Offering(0, CountAt(s), 0))]
      && s'.wire == s.wire && s'.drained == 0
      && |s'.cells| == 1 && s'.cells[0].count == Draw(topics[0].messageType, CountAt(s))
      && s'.cells[0].holder == Some(|s.tasks|)
  {
    var t := |s.tasks|;
    var s1 := Next(config, s, Begin(call));
    var s2 := Next(config, s1, CloneGate(t));
    events' := Onward(config, events, s, Begin(call), s1);
    events' := Onward(config, events', s1, CloneGate(t), s2);
    events' := Onward(config, events', s2, Acquire(t), Next(config, s2, Acquire(t)));
  }

  /** A whole call of one message; or one whose first message is taken in the instant it is cancelled. */
  lemma OneCall(config: Config, events: seq<Event>, edge: EdgeNode,
                call: Call, topics: seq<SparkplugTopic>, keep: bool)
    returns (events': seq<Event>)
    requires ValidRun(config, INIT, events) && Quiet(After(config, INIT, events), edge)
    requires Enabled(config, After(config, INIT, events), Begin(call))
    requires Plan(config, call) == Success(Script(edge, topics)) && topics != [] && (keep ==> |topics| == 1)
    requires |After(config, INIT, events).wire| < config.capacity
    ensures ValidRun(config, INIT, events') && Quiet(After(config, INIT, events'), edge)
    ensures
      var s, s' := After(config, INIT, events), After(config, INIT, events');
      var number := Draw(topics[0].messageType, CountAt(s));
      && s'.tasks == s.tasks + [Task(edge, topics, Finished(if keep then Published else Cancelled))]
      && s'.wire == s.wire + [Sent(topics[0], number, |s.tasks|)]
      && CountAt(s') == if keep then number else CountAt(s)
  {
    var s := After(config, INIT, events);
    var t := |s.tasks|;
    events' := StartCall(config, events, s, edge, call, topics);
    var s1 := After(config, INIT, events');
    var s2 := Next(config, s1, Take(t));
    events' := Onward(config, events', s1, Take(t), s2);
    var e := if keep then Resolve(t) else Cancel(t);
    events' := Onward(config, events', s2, e, Next(config, s2, e));
  }

  function Data(config: Config, edge: EdgeNode): SparkplugTopic {
    NData(config.namespace, edge.group, edge.node)
  }

  function Birth(config: Config, edge: EdgeNode): SparkplugTopic {
    NBirth(config.namespace, edge.group, edge.node)
  }

  lemma DataCall(config: Config, events: seq<Event>, edge: EdgeNode, keep: bool)
    returns (events': seq<Event>, task: Task)
    requires ValidRun(config, INIT, events) && Quiet(After(config, INIT, events), edge)
    requires |After(config, INIT, events).wire| < config.capacity
    ensures ValidRun(config, INIT, events') && Quiet(After(config, INIT, events'), edge)
    ensures
      var s, s' := After(config, INIT, events), After(config, INIT, events');
      && s'.tasks == s.tasks + [task] && task.phase == Finished(if keep then Published else Cancelled)
      && s'.wire == s.wire + [Sent(Data(config, edge), Succ8(CountAt(s)), |s.tasks|)]
      && CountAt(s') == if keep then Succ8(CountAt(s)) else CountAt(s)
  {
    events' := OneCall(config, events, edge, PublishMetrics(Data(config, edge)), [Data(config, edge)], keep);
    task := Task(edge, [Data(config, edge)], Finished(if keep then Published else Cancelled));
  }

  lemma HalfBirth(config: Config, events: seq<Event>, edge: EdgeNode, device: DeviceId)
    returns (events': seq<Event>, task: Task)
    requires config.identity == Some(edge)
    requires ValidRun(config, INIT, events) && Quiet(After(config, INIT, events), edge)
    requires |After(config, INIT, events).wire| < config.capacity
    ensures ValidRun(config, INIT, events') && Quiet(After(config, INIT, events'), edge)
    ensures
      var s, s' := After(config, INIT, events), After(config, INIT, events');
      && s'.tasks == s.tasks + [task] && task.phase == Finished(Cancelled)
      && s'.wire == s.wire + [Sent(Birth(config, edge), 0, |s.tasks|)]
      && CountAt(s') == CountAt(s)
  {
    var births := [Birth(config, edge), DBirth(config.namespace, edge.group, edge.node, device)];
    events' := OneCall(config, events, edge, PublishBirth(device), births, false);
    task := Task(edge, births, Finished(Cancelled));
  }

  lemma {:induction false} WireOfOne(wire: seq<Sent>, edge: EdgeNode)
    requires forall i | 0 <= i < |wire| :: wire[i].topic.EdgeNode() == Some(edge)
    ensures OnWire(wire, edge) == wire
  {
    if wire == [] {
    } else {
      WireOfOne(wire[..|wire| - 1], edge);
    }
  }

  /** The open window: a data message taken and cancelled, and its number carried again by the next. */
  lemma OpenWindowRun(config: Config, edge: EdgeNode) returns (events: seq<Event>)
    requires config.capacity >= 2
    ensures ValidRun(config, INIT, events)
    ensures
      var s := After(config, INIT, events);
      && OnWire(s.wire, edge) == [Sent(Data(config, edge), 1, 0), Sent(Data(config, edge), 1, 1)]
      && Dropped(s, 0) && !Dropped(s, 1)
  {
    var first, second;
    events, first := DataCall(config, [], edge, false);
    events, second := DataCall(config, events, edge, true);
    WireOfOne(After(config, INIT, events).wire, edge);
  }

  lemma DataThenHalfBirth(config: Config, edge: EdgeNode, device: DeviceId)
    returns (events: seq<Event>, first: Task, second: Task)
    requires config.capacity >= 3 && config.identity == Some(edge)
    ensures ValidRun(config, INIT, events) && Quiet(After(config, INIT, events), edge)
    ensures
      var s := After(config, INIT, events);
      && s.wire == [Sent(Data(config, edge), 1, 0), Sent(Birth(config, edge), 0, 1)] && CountAt(s) == 1
      && s.tasks == [first, second]
      && first.phase == Finished(Published) && second.phase == Finished(Cancelled)
  {
    events, first := DataCall(config, [], edge, true);
    events, second := HalfBirth(config, events, edge, device);
  }

  /**
   * A half birth. The NBIRTH is taken and the call cancelled before its DBIRTH, so a 0 stands on the
   * wire and the count goes back: after a data message 1 the next one carries 2, and a host that
   * saw the restart finds a gap.
   */
  lemma HalfBirthRun(config: Config, edge: EdgeNode, device: DeviceId) returns (events: seq<Event>)
    requires config.capacity >= 3 && config.identity == Some(edge)
    ensures ValidRun(config, INIT, events)
    ensures
      var s := After(config, INIT, events);
      && OnWire(s.wire, edge) ==
           [Sent(Data(config, edge), 1, 0), Sent(Birth(config, edge), 0, 1), Sent(Data(config, edge), 2, 2)]
      && !Dropped(s, 0) && Dropped(s, 1) && !Dropped(s, 2)
  {
    var first, second, third;
    events, first, second := DataThenHalfBirth(config, edge, device);
    events, third := DataCall(config, events, edge, true);
    WireOfOne(After(config, INIT, events).wire, edge);
  }

  /** The same end on an edge node that kept nothing yet leaves no gap: 0, then 1. */
  lemma HalfBirthWithoutAGap(config: Config, edge: EdgeNode, device: DeviceId) returns (events: seq<Event>)
    requires config.capacity >= 2 && config.identity == Some(edge)
    ensures ValidRun(config, INIT, events)
    ensures
      var s := After(config, INIT, events);
      && OnWire(s.wire, edge) == [Sent(Birth(config, edge), 0, 0), Sent(Data(config, edge), 1, 1)]
      && Dropped(s, 0) && !Dropped(s, 1)
  {
    var first, second;
    events, first := HalfBirth(config, [], edge, device);
    events, second := DataCall(config, events, edge, true);
    WireOfOne(After(config, INIT, events).wire, edge);
  }

  // -- exclusion and isolation -------------------------------------------------

  /** Two reservations live at once name different edge nodes and hold different gates. */
  lemma GateExclusion(config: Config, events: seq<Event>, t: nat, u: nat)
    requires ValidRun(config, INIT, events)
    requires
      var s := After(config, INIT, events);
      t < |s.tasks| && u < |s.tasks| && t != u && s.tasks[t].phase.Holds() && s.tasks[u].phase.Holds()
    ensures
      var s := After(config, INIT, events);
      s.tasks[t].edge != s.tasks[u].edge && s.tasks[t].phase.gate != s.tasks[u].phase.gate
  {
    InitOk(config);
    RunPreserves(config, INIT, events);
    var s := After(config, INIT, events);
    assert TaskOk(s, t) && TaskOk(s, u);
  }

  /** Different edge nodes never share a gate. */
  lemma GatesAreApart(config: Config, events: seq<Event>, a: EdgeNode, b: EdgeNode)
    requires ValidRun(config, INIT, events) && a != b
    ensures
      var gates := After(config, INIT, events).gates;
      KeyOf(a) in gates && KeyOf(b) in gates ==> gates[KeyOf(a)] != gates[KeyOf(b)]
  {
    InitOk(config);
    RunPreserves(config, INIT, events);
    KeyOfIsInjective(a, b);
  }

  /** One edge node keeps one gate for the rest of every run. */
  lemma {:induction false} GateIsForever(config: Config, s: System, events: seq<Event>, edge: EdgeNode)
    requires Inv(config, s) && ValidRun(config, s, events)
    requires KeyOf(edge) in s.gates
    ensures
      var gates := After(config, s, events).gates;
      KeyOf(edge) in gates && gates[KeyOf(edge)] == s.gates[KeyOf(edge)]
    decreases |events|
  {
    if events == [] {
    } else {
      StepPreserves(config, s, events[0]);
      GateIsForever(config, Next(config, s, events[0]), events[1..], edge);
    }
  }

  /** What one task does leaves the gate of every other edge node as it was. */
  lemma OtherGatesStandStill(config: Config, s: System, e: Event, edge: EdgeNode)
    requires Inv(config, s) && Enabled(config, s, e) && KeyOf(edge) in s.gates
    requires e.CloneGate? || e.Acquire? || e.Take? || e.Resolve? || e.Refuse? || e.Cancel?
    requires s.tasks[e.task].edge != edge
    ensures
      var g := s.gates[KeyOf(edge)];
      g < |s.cells| <= |Next(config, s, e).cells| && Next(config, s, e).cells[g] == s.cells[g]
  {
    assert TaskOk(s, e.task);
    KeyOfIsInjective(edge, s.tasks[e.task].edge);
  }

  /** A call that waits for its gate may go on exactly when that gate is free, whoever else waits. */
  lemma ReservationWaitsForItsOwnGateOnly(config: Config, s: System, t: nat)
    requires Inv(config, s) && t < |s.tasks| && s.tasks[t].phase.Waiting?
    ensures
      Enabled(config, s, Acquire(t)) <==>
      forall u | 0 <= u < |s.tasks| :: s.tasks[u].phase.Holds() ==> s.tasks[u].edge != s.tasks[t].edge
  {
    assert TaskOk(s, t);
    var g := s.tasks[t].phase.gate;
    assert CellOk(s, g);
    forall u | 0 <= u < |s.tasks| && s.tasks[u].phase.Holds() && s.tasks[u].edge == s.tasks[t].edge
      ensures s.cells[g].holder == Some(u)
    {
      assert TaskOk(s, u);
    }
    if s.cells[g].holder.Some? {
      var u := s.cells[g].holder.value;
      assert TaskOk(s, u);
      KeyOfIsInjective(s.tasks[u].edge, s.tasks[t].edge);
    }
  }

  // -- progress ----------------------------------------------------------------

  /** While a call is unfinished, some call or the event loop can go on, with no refusal or cancellation. */
  lemma NeverStuck(config: Config, s: System, t: nat) returns (e: Event)
    requires Inv(config, s) && config.capacity > 0
    requires t < |s.tasks| && !s.tasks[t].phase.Finished?
    ensures Enabled(config, s, e)
    ensures e.CloneGate? || e.Acquire? || e.Take? || e.Resolve? || e.Drain?
  {
    assert TaskOk(s, t);
    if s.tasks[t].phase.Started? {
      e := CloneGate(t);
    } else if s.tasks[t].phase.Waiting? && s.cells[s.tasks[t].phase.gate].holder.None? {
      e := Acquire(t);
    } else {
      var u := if s.tasks[t].phase.Waiting? then s.cells[s.tasks[t].phase.gate].holder.value else t;
      assert s.tasks[t].phase.Waiting? ==> CellOk(s, s.tasks[t].phase.gate);
      assert TaskOk(s, u);
      e := if s.tasks[u].phase.Accepted? then Resolve(u)
           else if |s.wire| < s.drained + config.capacity then Take(u)
           else Drain;
    }
  }

  /** Any topic but a host's starts a call of its own edge node; a host topic is refused at once. */
  lemma MetricsCallsBegin(config: Config, s: System, topic: SparkplugTopic)
    requires topic.WellFormed()
    ensures Enabled(config, s, Begin(PublishMetrics(topic)))
    ensures
      Next(config, s, Begin(PublishMetrics(topic))) ==
      if topic.messageType.STATE? then s
      else s.(tasks := s.tasks + [Task(EdgeNode(topic.address.group, topic.address.node), [topic], Started)])
  {
  }

  /** A birth starts a call of the client's own edge node; a publisher has none and is refused. */
  lemma BirthCallsBegin(config: Config, s: System, device: DeviceId)
    ensures Enabled(config, s, Begin(PublishBirth(device)))
    ensures
      Next(config, s, Begin(PublishBirth(device))) ==
      match config.identity
      case None => s
      case Some(own) =>
        s.(tasks := s.tasks + [
          Task(own, [NBirth(config.namespace, own.group, own.node),
                     DBirth(config.namespace, own.group, own.node, device)], Started)])
  {
  }

  /** A call may be cancelled at every await, and refused whenever the client has not taken its message. */
  lemma CallsMayEndAnywhere(config: Config, s: System, t: nat)
    requires Inv(config, s) && t < |s.tasks| && !s.tasks[t].phase.Finished?
    ensures Enabled(config, s, Cancel(t))
    ensures s.tasks[t].phase.Offering? ==> Enabled(config, s, Refuse(t))
  {
    assert TaskOk(s, t);
  }

  function Work(task: Task): nat {
    var n := |task.topics|;
    match task.phase
    case Started => 3 * n + 2
    case Waiting(_) => 3 * n + 1
    case Offering(_, _, i) => if i < n then 3 * (n - i) else 0
    case Accepted(_, _, i) => if i < n then 3 * (n - i) - 2 else 0
    case Finished(_) => 0
  }

  /** What the calls still have to do, and what the event loop still has to drain. */
  function Measure(s: System): int {
    Sum(Work, s.tasks) + |s.wire| - s.drained
  }

  /** Every event but the start of a new call brings the measure down. */
  lemma StepFalls(config: Config, s: System, e: Event)
    requires Inv(config, s) && Enabled(config, s, e) && !e.Begin?
    ensures Measure(Next(config, s, e)) < Measure(s)
  {
    if !e.Drain? {
      assert TaskOk(s, e.task);
      SumUpdate(Work, s.tasks, e.task, Next(config, s, e).tasks[e.task]);
    }
  }

  /** So finitely many calls end after finitely many events, whatever the interleaving. */
  lemma {:induction false} RunsEnd(config: Config, s: System, events: seq<Event>)
    requires Inv(config, s) && ValidRun(config, s, events)
    requires forall i | 0 <= i < |events| :: !events[i].Begin?
    ensures |events| <= Measure(s)
    decreases |events|
  {
    if events == [] {
    } else {
      StepPreserves(config, s, events[0]);
      StepFalls(config, s, events[0]);
      RunsEnd(config, Next(config, s, events[0]), events[1..]);
    }
  }
}
