/** The background poll loop: src/sparkplug/eventloop.rs. */
module EventLoop {
  import opened Prelude
  import opened Delivery

  datatype PollEvent =
    | ConnAck
    | PubAck
    | IncomingDisconnect
    | OtherIncoming
    | OutgoingDisconnect
    | OtherOutgoing
    | PollError

  datatype Health = Connected | Disconnected

  predicate DropsTheSession(e: PollEvent) { e.IncomingDisconnect? || e.PollError? }

  predicate MovesTheLink(e: PollEvent) { e.ConnAck? || e.OutgoingDisconnect? || DropsTheSession(e) }

  /** The events that say nothing about the link. */
  predicate Silent(e: PollEvent) { e.PubAck? || e.OtherIncoming? || e.OtherOutgoing? }

  function Errors(trace: seq<PollEvent>): nat {
    if trace == [] then 0 else Errors(trace[..|trace| - 1]) + (if trace[|trace| - 1].PollError? then 1 else 0)
  }

  function Dismissals(trace: seq<PollEvent>): nat {
    if trace == [] then 0
    else Dismissals(trace[..|trace| - 1]) + (if trace[|trace| - 1].IncomingDisconnect? then 1 else 0)
  }

  function ApplyToTracker(s: Tracker, e: PollEvent): Tracker {
    if e.PubAck? then s.Acked() else if DropsTheSession(e) then s.Disconnected() else s
  }

  /** The tracker after a trace, `between[i]` being what publishes and flushes do before poll `i` returns. */
  function TrackerAfter(s: Tracker, trace: seq<PollEvent>, between: seq<seq<Op>>): Tracker
    requires |between| == |trace|
  {
    if trace == [] then s
    else
      var n := |trace| - 1;
      ApplyToTracker(PerformAll(TrackerAfter(s, trace[..n], between[..n]), between[n]), trace[n])
  }

  /** Publishes and flushes; only the loop records a disconnect. */
  ghost predicate FromOtherTasks(between: seq<seq<Op>>) {
    forall i, k | 0 <= i < |between| && 0 <= k < |between[i]| :: !between[i][k].OpDisconnect?
  }

  lemma {:induction false} OthersKeepTheGeneration(s: Tracker, ops: seq<Op>)
    requires forall k | 0 <= k < |ops| :: !ops[k].OpDisconnect?
    ensures PerformAll(s, ops).generation == s.generation
  {
    if ops == [] {
    } else {
      OthersKeepTheGeneration(s, ops[..|ops| - 1]);
    }
  }

  /** The generation counts poll errors and incoming disconnects, whatever publishes come between. */
  lemma {:induction false} GenerationCountsDrops(s: Tracker, trace: seq<PollEvent>, between: seq<seq<Op>>)
    requires |between| == |trace| && FromOtherTasks(between)
    ensures TrackerAfter(s, trace, between).generation == (s.generation + Errors(trace) + Dismissals(trace)) % U64
  {
    if trace == [] {
    } else {
      var n := |trace| - 1;
      GenerationCountsDrops(s, trace[..n], between[..n]);
      var before := TrackerAfter(s, trace[..n], between[..n]);
      assert forall k | 0 <= k < |between[n]| :: !between[n][k].OpDisconnect?;
      OthersKeepTheGeneration(before, between[n]);
      OneMore(s.generation + Errors(trace[..n]) + Dismissals(trace[..n]));
    }
  }

  lemma OneMore(c: nat)
    ensures (c % U64 + 1) % U64 == (c + 1) % U64
  {
  }

  function HealthAfter(h: Health, trace: seq<PollEvent>): Health {
    if trace == [] then h
    else if trace[|trace| - 1].ConnAck? then Connected
    else if MovesTheLink(trace[|trace| - 1]) then Disconnected
    else HealthAfter(h, trace[..|trace| - 1])
  }

  /**
   * The last event that speaks of the link decides the health: a ConnAck connects it, and a DISCONNECT
   * in either direction or a poll error disconnects it. Without one it stays.
   */
  predicate FollowsTheLink(before: Health, trace: seq<PollEvent>, after: Health) {
    && ((forall k | 0 <= k < |trace| :: Silent(trace[k])) ==> after == before)
    && forall i | 0 <= i < |trace| && (forall k | i < k < |trace| :: Silent(trace[k])) ::
         && (trace[i].ConnAck? ==> after == Connected)
         && (trace[i].IncomingDisconnect? || trace[i].OutgoingDisconnect? || trace[i].PollError? ==>
               after == Disconnected)
  }

  lemma {:induction false} HealthSince(h: Health, trace: seq<PollEvent>, i: nat)
    requires i <= |trace| && forall k | i <= k < |trace| :: Silent(trace[k])
    ensures HealthAfter(h, trace) == HealthAfter(h, trace[..i])
  {
    if i == |trace| {
      assert trace[..i] == trace;
    } else {
      HealthSince(h, trace[..|trace| - 1], i);
      assert trace[..|trace| - 1][..i] == trace[..i];
    }
  }

  /** What the event before a silent rest decides. */
  lemma LinkEventDecides(h: Health, trace: seq<PollEvent>, i: nat)
    requires i < |trace| && forall k | i < k < |trace| :: Silent(trace[k])
    ensures trace[i].ConnAck? ==> HealthAfter(h, trace) == Connected
    ensures trace[i].IncomingDisconnect? || trace[i].OutgoingDisconnect? || trace[i].PollError? ==>
      HealthAfter(h, trace) == Disconnected
  {
    HealthSince(h, trace, i + 1);
    assert trace[..i + 1][i] == trace[i];
  }

  lemma LastMoveDecidesHealth(h: Health, trace: seq<PollEvent>)
    ensures FollowsTheLink(h, trace, HealthAfter(h, trace))
  {
    if forall k | 0 <= k < |trace| :: Silent(trace[k]) {
      HealthSince(h, trace, 0);
    }
    forall i | 0 <= i < |trace| && (forall k | i < k < |trace| :: Silent(trace[k])) {
      LinkEventDecides(h, trace, i);
    }
  }

  /** The errors in the current row: an incoming disconnect neither adds to it nor ends it. */
  function ErrorRow(trace: seq<PollEvent>): nat {
    if trace == [] then 0
    else
      match trace[|trace| - 1]
      case PollError => ErrorRow(trace[..|trace| - 1]) + 1
      case IncomingDisconnect => ErrorRow(trace[..|trace| - 1])
      case _ => 0
  }

  /** The row is the errors since the last Ok event other than an incoming disconnect. */
  lemma {:induction false} ErrorRowCountsSinceTheLastOk(trace: seq<PollEvent>, i: nat)
    requires i <= |trace| && (i > 0 ==> !trace[i - 1].PollError? && !trace[i - 1].IncomingDisconnect?)
    requires forall k | i <= k < |trace| :: trace[k].PollError? || trace[k].IncomingDisconnect?
    ensures ErrorRow(trace) == Errors(trace[i..])
  {
    if i == |trace| {
    } else {
      var n := |trace| - 1;
      assert trace[i..][..n - i] == trace[..n][i..];
      ErrorRowCountsSinceTheLastOk(trace[..n], i);
    }
  }

  /** What one more turn of the loop adds to each of the folds. */
  lemma OneMoreTurn(s: Tracker, h: Health, trace: seq<PollEvent>, between: seq<seq<Op>>, n: nat)
    requires n < |trace| == |between|
    ensures
      TrackerAfter(s, trace[..n + 1], between[..n + 1]) ==
      ApplyToTracker(PerformAll(TrackerAfter(s, trace[..n], between[..n]), between[n]), trace[n])
    ensures
      HealthAfter(h, trace[..n + 1]) ==
      if trace[n].ConnAck? then Connected
      else if MovesTheLink(trace[n]) then Disconnected
      else HealthAfter(h, trace[..n])
    ensures trace[..n + 1] == trace[..n] + [trace[n]]
  {
    assert trace[..n + 1][..n] == trace[..n] && between[..n + 1][..n] == between[..n];
  }

  class Session {
    const delivery: DeliveryTracker
    var health: Health

    constructor (delivery: DeliveryTracker)
      ensures this.delivery == delivery && health == Disconnected
    {
      this.delivery := delivery;
      health := Disconnected;
    }

    method ApplyEvent(e: PollEvent)
      modifies delivery
      ensures delivery.State() == ApplyToTracker(old(delivery.State()), e)
    {
      match e {
        case PubAck => delivery.RecordAck();
        case IncomingDisconnect => delivery.RecordDisconnect();
        case PollError => delivery.RecordDisconnect();
        case _ =>
      }
    }

    method ApplyHealth(e: PollEvent)
      modifies this
      ensures health == if e.ConnAck? then Connected else if MovesTheLink(e) then Disconnected else old(health)
    {
      match e {
        case ConnAck => health := Connected;
        case IncomingDisconnect => health := Disconnected;
        case OutgoingDisconnect => health := Disconnected;
        case PollError => health := Disconnected;
        case _ =>
      }
    }

    /**
     * The loop, over any finite prefix of the events it polls. `fired` counts how often the ready
     * signal was sent.
     */
    method Run(trace: seq<PollEvent>, between: seq<seq<Op>>) returns (consecutiveErrors: u32, fired: nat)
      requires |between| == |trace|
      modifies this, delivery
      ensures delivery.State() == TrackerAfter(old(delivery.State()), trace, between)
      ensures health == HealthAfter(old(health), trace) && FollowsTheLink(old(health), trace, health)
      ensures fired == if ConnAck in trace then 1 else 0
      ensures consecutiveErrors == ErrorRow(trace) % U32
    {
      var ready := true;
      consecutiveErrors, fired := 0, 0;
      for n := 0 to |trace|
        invariant delivery.State() == TrackerAfter(old(delivery.State()), trace[..n], between[..n])
        invariant health == HealthAfter(old(health), trace[..n])
        invariant ready <==> ConnAck !in trace[..n]
        invariant fired == if ready then 0 else 1
        invariant consecutiveErrors == ErrorRow(trace[..n]) % U32
      {
        delivery.Interleave(between[n]);
        ApplyEvent(trace[n]);
        ApplyHealth(trace[n]);
        var sent;
        consecutiveErrors, sent := CountErrors(trace[n], consecutiveErrors, ready, trace[..n]);
        if sent {
          ready, fired := false, fired + 1;
        }
        OneMoreTurn(old(delivery.State()), old(health), trace, between, n);
      }
      assert trace[..|trace|] == trace && between[..|trace|] == between;
      LastMoveDecidesHealth(old(health), trace);
    }

    /** The rest of one turn: the error row, and whether this event takes the ready signal. */
    method CountErrors(event: PollEvent, row: u32, ready: bool, ghost before: seq<PollEvent>)
      returns (row': u32, sent: bool)
      requires row == ErrorRow(before) % U32
      ensures row' == ErrorRow(before + [event]) % U32
      ensures sent <==> ready && event.ConnAck?
    {
      assert (before + [event])[..|before|] == before;
      row', sent := row, false;
      match event {
        case ConnAck =>
          row', sent := 0, ready;
        case IncomingDisconnect =>
        case PollError =>
          row' := Add32(row, 1);
        case _ =>
          row' := 0;
      }
    }
  }
}
