/** The delivery tracker and its publish guard: src/sparkplug/delivery.rs. */
module Delivery {
  import opened Prelude
  import opened Types

  /** What the tracker's lock guards. */
  datatype Tracker = Tracker(unacked: u32, lost: u32, reported: u64, generation: u64) {
    function Counted(): Tracker {
      this.(unacked := Add32(unacked, 1))
    }

    function Acked(): Tracker {
      this.(unacked := SaturatingDec32(unacked))
    }

    /** A ticket of an older generation names a count a disconnect already cleared. */
    function RolledBack(ticket: Ticket): Tracker {
      if ticket.generation == generation then Acked() else this
    }

    function Disconnected(): Tracker {
      Tracker(0, Add32(lost, unacked), reported, Add64(generation, 1))
    }

    function Reported(): Tracker {
      this.(reported := Add64(reported, lost), lost := 0)
    }

    /** The losses inside the window of a flush that opened at `openedAt` and reports now. */
    function Found(openedAt: u64): u64 {
      Sub64(Reported().reported, openedAt)
    }

    function Answer(openedAt: u64): Result<(), SparkplugError> {
      var count := Clamp32(Found(openedAt));
      if count == 0 then Success(()) else Failure(PublishLost(count))
    }
  }

  const FRESH := Tracker(0, 0, 0, 0)

  datatype Ticket = Ticket(generation: u64)

  /** One lock section another task can run. */
  datatype Op = OpCount | OpAck | OpFail(ticket: Ticket) | OpDisconnect | OpReport

  function Perform(s: Tracker, op: Op): Tracker {
    match op
    case OpCount => s.Counted()
    case OpAck => s.Acked()
    case OpFail(ticket) => s.RolledBack(ticket)
    case OpDisconnect => s.Disconnected()
    case OpReport => s.Reported()
  }

  function PerformAll(s: Tracker, ops: seq<Op>): Tracker {
    if ops == [] then s else Perform(PerformAll(s, ops[..|ops| - 1]), ops[|ops| - 1])
  }

  /** Where the tracker stands after the first `n` waits of a flush. */
  function AfterWaits(s: Tracker, waits: seq<seq<Op>>, n: nat): Tracker
    requires n <= |waits|
  {
    if n == 0 then s else PerformAll(AfterWaits(s, waits, n - 1), waits[n - 1])
  }

  class DeliveryTracker {
    var unacked: u32
    var lost: u32
    var reported: u64
    var generation: u64

    function State(): Tracker
      reads this
    {
      Tracker(unacked, lost, reported, generation)
    }

    constructor ()
      ensures State() == FRESH
    {
      unacked, lost, reported, generation := 0, 0, 0, 0;
    }

    method RecordPublish() returns (ticket: Ticket)
      modifies this
      ensures State() == old(State()).Counted()
      ensures ticket == Ticket(old(generation))
    {
      unacked := Add32(unacked, 1);
      ticket := Ticket(generation);
    }

    method PublishGuard() returns (guard: PublishInFlight)
      modifies this
      ensures State() == old(State()).Counted()
      ensures fresh(guard) && guard.delivery == this && guard.ticket == Some(Ticket(old(generation)))
    {
      var ticket := RecordPublish();
      guard := new PublishInFlight(this, ticket);
    }

    method RecordAck()
      modifies this
      ensures State() == old(State()).Acked()
    {
      ReleaseOne();
    }

    method RecordPublishFailed(ticket: Ticket)
      modifies this
      ensures State() == old(State()).RolledBack(ticket)
    {
      if ticket.generation == generation {
        unacked := SaturatingDec32(unacked);
      }
    }

    method ReleaseOne()
      modifies this
      ensures State() == old(State()).Acked()
    {
      unacked := SaturatingDec32(unacked);
    }

    method RecordDisconnect()
      modifies this
      ensures State() == old(State()).Disconnected()
    {
      lost := Add32(lost, unacked);
      unacked := 0;
      generation := Add64(generation, 1);
    }

    /** What other tasks do while this one waits. */
    method Interleave(ops: seq<Op>)
      modifies this
      ensures State() == PerformAll(old(State()), ops)
    {
      for i := 0 to |ops|
        invariant State() == PerformAll(old(State()), ops[..i])
      {
        match ops[i] {
          case OpCount => var _ := RecordPublish();
          case OpAck => RecordAck();
          case OpFail(ticket) => RecordPublishFailed(ticket);
          case OpDisconnect => RecordDisconnect();
          case OpReport => var _ := Report(reported);
        }
        assert ops[..i + 1][..i] == ops[..i];
      }
      assert ops[..|ops|] == ops;
    }

    /**
     * The wait of a flush. `waits[i]` is what other tasks do before the i-th wakeup; when the list
     * ends the timer fires first, after `late`, which may bring the count to 0 with the
     * notification still to come. Drained means the count was 0 at a check, and at none before it.
     */
    method WaitForDrain(waits: seq<seq<Op>>, late: seq<Op>) returns (drained: bool, ghost checks: nat)
      modifies this
      ensures checks <= |waits|
      ensures forall i | 0 <= i < checks :: AfterWaits(old(State()), waits, i).unacked != 0
      ensures drained <==> AfterWaits(old(State()), waits, checks).unacked == 0
      ensures !drained ==> checks == |waits|
      ensures
        var seen := AfterWaits(old(State()), waits, checks);
        State() == if drained then seen else PerformAll(seen, late)
    {
      var i := 0;
      while true
        invariant i <= |waits|
        invariant State() == AfterWaits(old(State()), waits, i)
        invariant forall k | 0 <= k < i :: AfterWaits(old(State()), waits, k).unacked != 0
        decreases |waits| - i
      {
        if unacked == 0 {
          return true, i;
        }
        if i == |waits| {
          Interleave(late);
          return false, i;
        }
        Interleave(waits[i]);
        i := i + 1;
      }
    }

    /** The last lock section of a drained flush. */
    method Report(openedAt: u64) returns (r: Result<(), SparkplugError>)
      modifies this
      ensures State() == old(State()).Reported()
      ensures r == old(State()).Answer(openedAt)
    {
      reported := Add64(reported, lost);
      lost := 0;
      var count := Clamp32(Sub64(reported, openedAt));
      r := if count == 0 then Success(()) else Failure(PublishLost(count));
    }

    /**
     * A flush: three lock sections, with `onOpen`, the waits, `late` and `drainedBy` running between
     * them. A flush that never sees 0 at a check reports nothing and takes no loss.
     */
    method Flush(onOpen: seq<Op>, waits: seq<seq<Op>>, late: seq<Op>, drainedBy: seq<Op>)
      returns (r: Result<(), SparkplugError>, ghost checks: nat)
      modifies this
      ensures checks <= |waits|
      ensures
        var start := PerformAll(old(State()), onOpen);
        var seen := AfterWaits(start, waits, checks);
        && (forall i | 0 <= i < checks :: AfterWaits(start, waits, i).unacked != 0)
        && if seen.unacked == 0 then
             var end := PerformAll(seen, drainedBy);
             State() == end.Reported() && r == end.Answer(old(reported))
           else
             && checks == |waits|
             && State() == PerformAll(seen, late) && r == Failure(FlushTimeout(State().unacked))
    {
      var openedAt := reported;
      Interleave(onOpen);
      var drained;
      drained, checks := WaitForDrain(waits, late);
      if !drained {
        return Failure(FlushTimeout(unacked)), checks;
      }
      Interleave(drainedBy);
      r := Report(openedAt);
    }
  }

  /** One counted publish, released on drop unless the caller keeps it. */
  class PublishInFlight {
    const delivery: DeliveryTracker
    var ticket: Option<Ticket>

    constructor (delivery: DeliveryTracker, ticket: Ticket)
      ensures this.delivery == delivery && this.ticket == Some(ticket)
    {
      this.delivery := delivery;
      this.ticket := Some(ticket);
    }

    /** `keep` consumes the guard, so its drop runs next and finds no ticket. */
    method Keep()
      modifies this, delivery
      ensures ticket == None && delivery.State() == old(delivery.State())
    {
      ticket := None;
      Drop();
    }

    method Drop()
      modifies this, delivery
      ensures ticket == None
      ensures
        delivery.State() ==
          match old(ticket)
          case Some(t) => old(delivery.State()).RolledBack(t)
          case None => old(delivery.State())
    {
      if ticket.Some? {
        delivery.RecordPublishFailed(ticket.value);
        ticket := None;
      }
    }
  }

  /** A rollback takes back exactly what its publish counted, unless that count wrapped. */
  lemma RollbackUndoesTheCount(s: Tracker)
    ensures s.Counted().RolledBack(Ticket(s.generation)) == s <==> s.unacked < U32 - 1
  {
  }
}
