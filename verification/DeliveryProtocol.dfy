/**
 * Every interleaving of publishes, PubAcks, disconnects and flushes over one delivery tracker.
 * Each lock section is one event, and the notification that follows it is a later one. The ledger
 * of publishes and their fates, and the debt beside it, are bookkeeping of the model; the code keeps
 * only the four counts.
 */
module DeliveryProtocol {
  import opened Prelude
  import opened Types
  import opened Delivery

  datatype Fate =
    | Outstanding
    | Acked
    | RolledBack
    | Lost
    /** Reported by flush `flush` when `openings` flushes had opened. */
    | Reported(flush: nat, openings: nat)

  /** Where a message stands with the client, which answers to the broker and not to the tracker. */
  datatype Custody =
    | Offered
    /** The client took it and will send it, or has. */
    | Held
    /** The client threw it away with its session. */
    | Discarded
    /** The broker acknowledged it. */
    | Confirmed

  /** One counted publish; `guarded` while its guard holds the ticket. */
  datatype Pub = Pub(ticket: Ticket, fate: Fate, guarded: bool, custody: Custody) {
    predicate Taken() { !custody.Offered? }
  }

  datatype Stage =
    | Looping
    /** Created its waiter, has not checked the count; `notified` once a notification reached it. */
    | Registered(notified: bool)
    | Parked(notified: bool)
    | Drained
    /** `found` is the unclamped loss a drained flush found. */
    | Answered(answer: Result<(), SparkplugError>, found: u64)
    | TimedOut(unacked: u32)
    | Abandoned
  {
    predicate Active() { Looping? || Registered? || Parked? || Drained? }
  }

  /**
   * `seen` is how many publishes had been counted when the flush opened, `toldAt` how many losses
   * had been reported without being told. Both are bookkeeping.
   */
  datatype Flush = Flush(openedAt: u64, seen: nat, toldAt: int, stage: Stage)

  /**
   * What the counts fail to show. `open` grows when an acknowledgement or a rollback clears a count
   * that is not its own; a disconnect turns it into losses nobody `missed`, and a report into
   * losses nobody was `told`. A count that wraps owes the whole range.
   */
  datatype Debt = Debt(open: int, missed: int, told: int)

  const NO_DEBT := Debt(0, 0, 0)

  /** `notifies` tasks stand between their unlock and their `notify_waiters`. */
  datatype System = System(
    tracker: Tracker,
    pubs: seq<Pub>,
    flushes: seq<Flush>,
    notifies: nat,
    disconnects: nat,
    debt: Debt)

  const INIT := System(FRESH, [], [], 0, 0, NO_DEBT)

  datatype Event =
    | CountPublish
    | TakePublish(pub: nat)
    | KeepGuard(pub: nat)
    | DropGuard(pub: nat)
    /** A PubAck for publish `pub`; the code sees no identity, so any number may stand here. */
    | PubAck(pub: nat)
    /** The client throws its session away, and with it every message it holds. */
    | DiscardSession
    /** The event loop records a disconnect, before or after the client did that. */
    | Disconnect
    | Notify
    | OpenFlush
    | Register(flush: nat)
    | Check(flush: nat)
    | Wake(flush: nat)
    | Report(flush: nat)
    | Timeout(flush: nat)
    | Abandon(flush: nat)

  predicate Enabled(s: System, e: Event) {
    match e
    case CountPublish => true
    case TakePublish(p) => p < |s.pubs| && s.pubs[p].guarded && !s.pubs[p].Taken()
    case KeepGuard(p) => p < |s.pubs| && s.pubs[p].guarded && s.pubs[p].Taken()
    case DropGuard(p) => p < |s.pubs| && s.pubs[p].guarded
    case PubAck(_) => true
    case DiscardSession => true
    case Disconnect => true
    case Notify => s.notifies > 0
    case OpenFlush => true
    case Register(f) => f < |s.flushes| && s.flushes[f].stage.Looping?
    case Check(f) => f < |s.flushes| && s.flushes[f].stage.Registered?
    case Wake(f) => f < |s.flushes| && s.flushes[f].stage == Parked(true)
    case Report(f) => f < |s.flushes| && s.flushes[f].stage.Drained?
    // The first poll runs from the opening to a check, and every later one from a wakeup to a
    // check, before the timer is looked at; so both ends come at the await alone.
    case Timeout(f) => f < |s.flushes| && s.flushes[f].stage.Parked?
    case Abandon(f) => f < |s.flushes| && s.flushes[f].stage.Parked?
  }

  /** What comes from outside comes in every state: publishes, PubAcks of any kind, disconnects, flushes. */
  lemma TheWorldIsFree(s: System, p: nat)
    ensures Enabled(s, CountPublish) && Enabled(s, PubAck(p)) && Enabled(s, DiscardSession)
    ensures Enabled(s, Disconnect) && Enabled(s, OpenFlush)
    ensures p < |s.pubs| && s.pubs[p].guarded ==>
      && Enabled(s, DropGuard(p))
      && (s.pubs[p].custody.Offered? ==> Enabled(s, TakePublish(p)))
      && (!s.pubs[p].custody.Offered? ==> Enabled(s, KeepGuard(p)))
  {
  }

  function Next(s: System, e: Event): System
    requires Enabled(s, e)
  {
    match e
    case CountPublish =>
      s.(tracker := s.tracker.Counted(),
         pubs := s.pubs + [Pub(Ticket(s.tracker.generation), Outstanding, true, Offered)],
         debt := s.debt.(open := s.debt.open + if s.tracker.unacked == U32 - 1 then U32 else 0))
    case TakePublish(p) => s.(pubs := s.pubs[p := s.pubs[p].(custody := Held)])
    case KeepGuard(p) => s.(pubs := s.pubs[p := s.pubs[p].(guarded := false)])
    case DropGuard(p) =>
      var dropped := s.(pubs := s.pubs[p := s.pubs[p].(guarded := false)]);
      if s.pubs[p].ticket.generation == s.tracker.generation then Release(dropped, p, RolledBack) else dropped
    case PubAck(p) =>
      Release(if p < |s.pubs| then s.(pubs := s.pubs[p := Confirm(s.pubs[p])]) else s, p, Acked)
    case DiscardSession => s.(pubs := LetGo(s.pubs))
    case Disconnect =>
      s.(tracker := s.tracker.Disconnected(),
         pubs := Discard(s.pubs),
         notifies := s.notifies + 1,
         disconnects := s.disconnects + 1,
         debt := Debt(0, s.debt.missed + s.debt.open + Carry(s.tracker.lost, s.tracker.unacked, U32), s.debt.told))
    case Notify => s.(flushes := NotifyAll(s.flushes), notifies := s.notifies - 1)
    case OpenFlush => s.(flushes := s.flushes + [Flush(s.tracker.reported, |s.pubs|, s.debt.told, Looping)])
    case Register(f) => WithStage(s, f, Registered(false))
    case Check(f) => WithStage(s, f, if s.tracker.unacked == 0 then Drained else Parked(s.flushes[f].stage.notified))
    case Wake(f) => WithStage(s, f, Looping)
    case Report(f) =>
      var openedAt := s.flushes[f].openedAt;
      WithStage(s, f, Answered(s.tracker.Answer(openedAt), s.tracker.Found(openedAt))).(
        tracker := s.tracker.Reported(),
        pubs := ReportLosses(s.pubs, f, |s.flushes|),
        debt := Debt(s.debt.open, 0, s.debt.told + s.debt.missed + Carry(s.tracker.reported, s.tracker.lost, U64)))
    case Timeout(f) => WithStage(s, f, TimedOut(s.tracker.unacked))
    case Abandon(f) => WithStage(s, f, Abandoned)
  }

  function WithStage(s: System, f: nat, stage: Stage): System
    requires f < |s.flushes|
  {
    s.(flushes := s.flushes[f := s.flushes[f].(stage := stage)])
  }

  /** The broker answers a message the client holds. */
  function Confirm(pub: Pub): Pub {
    if pub.custody.Held? then pub.(custody := Confirmed) else pub
  }

  /**
   * `release_one`: one off the count if it stands above 0, whoever's count that is. The publish it
   * is done for settles only when it was outstanding; the difference is owed.
   */
  function Release(s: System, p: nat, ending: Fate): System {
    var own := p < |s.pubs| && s.pubs[p].fate.Outstanding?;
    s.(tracker := s.tracker.Acked(),
       pubs := if own then s.pubs[p := s.pubs[p].(fate := ending)] else s.pubs,
       notifies := s.notifies + 1,
       debt := s.debt.(open := s.debt.open + (if s.tracker.unacked > 0 then 1 else 0) - (if own then 1 else 0)))
  }

  /** What an addition of width `range` loses when it wraps. */
  function Carry(x: nat, y: nat, range: nat): nat {
    if x + y < range then 0 else range
  }

  /** A publish that is outstanding when a disconnect is recorded is lost. */
  function Lose(fate: Fate): Fate {
    if fate.Outstanding? then Lost else fate
  }

  function Discard(pubs: seq<Pub>): (r: seq<Pub>)
    ensures |r| == |pubs|
    ensures forall i | 0 <= i < |pubs| :: r[i] == pubs[i].(fate := Lose(pubs[i].fate))
  {
    seq(|pubs|, i requires 0 <= i < |pubs| => pubs[i].(fate := Lose(pubs[i].fate)))
  }

  function ReportLosses(pubs: seq<Pub>, f: nat, openings: nat): (r: seq<Pub>)
    ensures |r| == |pubs|
    ensures forall i | 0 <= i < |pubs| ::
      r[i] == if pubs[i].fate.Lost? then pubs[i].(fate := Reported(f, openings)) else pubs[i]
  {
    seq(|pubs|, i requires 0 <= i < |pubs| =>
      if pubs[i].fate.Lost? then pubs[i].(fate := Reported(f, openings)) else pubs[i])
  }

  function LetGo(pubs: seq<Pub>): (r: seq<Pub>)
    ensures |r| == |pubs|
    ensures forall i | 0 <= i < |pubs| ::
      r[i] == if pubs[i].custody.Held? then pubs[i].(custody := Discarded) else pubs[i]
  {
    seq(|pubs|, i requires 0 <= i < |pubs| =>
      if pubs[i].custody.Held? then pubs[i].(custody := Discarded) else pubs[i])
  }

  /** `notify_waiters` reaches every waiter created before it, polled or not. */
  function NotifyAll(flushes: seq<Flush>): (r: seq<Flush>)
    ensures |r| == |flushes|
    ensures forall i | 0 <= i < |flushes| :: r[i] == flushes[i].(stage := Notified(flushes[i].stage))
  {
    seq(|flushes|, i requires 0 <= i < |flushes| => flushes[i].(stage := Notified(flushes[i].stage)))
  }

  function Notified(stage: Stage): Stage {
    match stage
    case Registered(_) => Registered(true)
    case Parked(_) => Parked(true)
    case _ => stage
  }

  // -- counting fates ----------------------------------------------------------

  datatype Kind = KOutstanding | KAcked | KRolledBack | KLost | KReported

  function KindOf(fate: Fate): Kind {
    match fate
    case Outstanding => KOutstanding
    case Acked => KAcked
    case RolledBack => KRolledBack
    case Lost => KLost
    case Reported(_, _) => KReported
  }

  function IsKind(k: Kind): Pub -> nat {
    (p: Pub) => if KindOf(p.fate) == k then 1 else 0
  }

  function Tally(pubs: seq<Pub>, k: Kind): nat {
    Sum(IsKind(k), pubs)
  }

  lemma {:induction false} TallyDiscard(pubs: seq<Pub>)
    ensures Tally(Discard(pubs), KOutstanding) == 0
    ensures Tally(Discard(pubs), KLost) == Tally(pubs, KLost) + Tally(pubs, KOutstanding)
    ensures Tally(Discard(pubs), KReported) == Tally(pubs, KReported)
  {
    if pubs == [] {
    } else {
      assert Discard(pubs)[..|pubs| - 1] == Discard(pubs[..|pubs| - 1]);
      TallyDiscard(pubs[..|pubs| - 1]);
    }
  }

  lemma {:induction false} TallyReport(pubs: seq<Pub>, f: nat, openings: nat)
    ensures Tally(ReportLosses(pubs, f, openings), KLost) == 0
    ensures Tally(ReportLosses(pubs, f, openings), KReported) == Tally(pubs, KReported) + Tally(pubs, KLost)
    ensures Tally(ReportLosses(pubs, f, openings), KOutstanding) == Tally(pubs, KOutstanding)
  {
    if pubs == [] {
    } else {
      assert ReportLosses(pubs, f, openings)[..|pubs| - 1] == ReportLosses(pubs[..|pubs| - 1], f, openings);
      TallyReport(pubs[..|pubs| - 1], f, openings);
    }
  }

  lemma {:induction false} TallySum(pubs: seq<Pub>)
    ensures Tally(pubs, KOutstanding) + Tally(pubs, KAcked) + Tally(pubs, KRolledBack)
          + Tally(pubs, KLost) + Tally(pubs, KReported) == |pubs|
  {
    if pubs == [] {
    } else {
      TallySum(pubs[..|pubs| - 1]);
    }
  }

  // -- the ledger over every run, with nothing assumed -------------------------

  /** The three counts of the code, read off the ledger, less what is owed. */
  predicate Balanced(s: System) {
    && s.tracker.unacked + s.debt.open == Tally(s.pubs, KOutstanding)
    && s.tracker.lost + s.debt.missed == Tally(s.pubs, KLost)
    && s.tracker.reported + s.debt.told == Tally(s.pubs, KReported)
    && s.debt.open >= 0
    && forall f | 0 <= f < |s.flushes| :: s.flushes[f].seen <= |s.pubs|
  }

  lemma TallyUpdate(pubs: seq<Pub>, p: nat, pub: Pub)
    requires p < |pubs|
    ensures forall k :: Tally(pubs[p := pub], k) == Tally(pubs, k) - IsKind(k)(pubs[p]) + IsKind(k)(pub)
  {
    forall k {
      SumUpdate(IsKind(k), pubs, p, pub);
    }
  }

  lemma OneOfTheTally(pubs: seq<Pub>, p: nat)
    requires p < |pubs|
    ensures Tally(pubs, KindOf(pubs[p].fate)) > 0
  {
    SumZero(IsKind(KindOf(pubs[p].fate)), pubs);
  }

  lemma ReleaseBalances(s: System, p: nat, ending: Fate)
    requires Balanced(s) && (ending.Acked? || ending.RolledBack?)
    ensures Balanced(Release(s, p, ending))
  {
    if p < |s.pubs| && s.pubs[p].fate.Outstanding? {
      TallyUpdate(s.pubs, p, s.pubs[p].(fate := ending));
      OneOfTheTally(s.pubs, p);
    }
  }

  /** Events that leave every fate alone leave the tallies alone. */
  lemma SameFates(pubs: seq<Pub>, pubs': seq<Pub>)
    requires |pubs| == |pubs'| && forall i | 0 <= i < |pubs| :: pubs[i].fate == pubs'[i].fate
    ensures forall k :: Tally(pubs, k) == Tally(pubs', k)
  {
    forall k {
      SumSame(IsKind(k), pubs, pubs');
    }
  }

  lemma DropGuardBalances(s: System, p: nat)
    requires Balanced(s) && Enabled(s, DropGuard(p))
    ensures Balanced(Next(s, DropGuard(p)))
  {
    var dropped := s.(pubs := s.pubs[p := s.pubs[p].(guarded := false)]);
    SameFates(s.pubs, dropped.pubs);
    ReleaseBalances(dropped, p, RolledBack);
  }

  lemma PubAckBalances(s: System, p: nat)
    requires Balanced(s)
    ensures Balanced(Next(s, PubAck(p)))
  {
    var answered := if p < |s.pubs| then s.(pubs := s.pubs[p := Confirm(s.pubs[p])]) else s;
    SameFates(s.pubs, answered.pubs);
    ReleaseBalances(answered, p, Acked);
  }

  lemma DisconnectBalances(s: System)
    requires Balanced(s)
    ensures Balanced(Next(s, Disconnect))
  {
    TallyDiscard(s.pubs);
  }

  lemma ReportBalances(s: System, f: nat)
    requires Balanced(s) && Enabled(s, Report(f))
    ensures Balanced(Next(s, Report(f)))
  {
    TallyReport(s.pubs, f, |s.flushes|);
  }

  lemma CountBalances(s: System)
    requires Balanced(s)
    ensures Balanced(Next(s, CountPublish))
  {
    forall k {
      SumAppend(IsKind(k), s.pubs, Pub(Ticket(s.tracker.generation), Outstanding, true, Offered));
    }
  }

  /** The events that touch no count and no fate. */
  predicate Quiet(e: Event) {
    !e.CountPublish? && !e.DropGuard? && !e.PubAck? && !e.Disconnect? && !e.Report?
  }

  lemma QuietStep(s: System, e: Event)
    requires Enabled(s, e) && Quiet(e)
    ensures Next(s, e).tracker == s.tracker && Next(s, e).debt == s.debt
    ensures |Next(s, e).pubs| == |s.pubs|
    ensures forall i | 0 <= i < |s.pubs| :: Next(s, e).pubs[i].fate == s.pubs[i].fate
  {
  }

  /** A flush opens over the publishes counted so far. */
  lemma SeenStep(s: System, e: Event, f: nat)
    requires Enabled(s, e) && forall g | 0 <= g < |s.flushes| :: s.flushes[g].seen <= |s.pubs|
    requires f < |Next(s, e).flushes|
    ensures Next(s, e).flushes[f].seen <= |Next(s, e).pubs|
  {
  }

  lemma QuietBalances(s: System, s': System)
    requires Balanced(s) && s'.tracker == s.tracker && s'.debt == s.debt && |s'.pubs| == |s.pubs|
    requires forall i | 0 <= i < |s.pubs| :: s'.pubs[i].fate == s.pubs[i].fate
    requires forall f | 0 <= f < |s'.flushes| :: s'.flushes[f].seen <= |s'.pubs|
    ensures Balanced(s')
  {
    SameFates(s.pubs, s'.pubs);
  }

  lemma QuietStepBalances(s: System, e: Event)
    requires Balanced(s) && Enabled(s, e) && Quiet(e)
    ensures Balanced(Next(s, e))
  {
    QuietStep(s, e);
    forall f | 0 <= f < |Next(s, e).flushes| {
      SeenStep(s, e, f);
    }
    QuietBalances(s, Next(s, e));
  }

  lemma StepBalances(s: System, e: Event)
    requires Balanced(s) && Enabled(s, e)
    ensures Balanced(Next(s, e))
  {
    match e
    case CountPublish => CountBalances(s);
    case DropGuard(p) => DropGuardBalances(s, p);
    case PubAck(p) => PubAckBalances(s, p);
    case Disconnect => DisconnectBalances(s);
    case Report(f) => ReportBalances(s, f);
    case _ => QuietStepBalances(s, e);
  }

  ghost predicate ValidRun(s: System, events: seq<Event>)
    decreases |events|
  {
    events == [] || (Enabled(s, events[0]) && ValidRun(Next(s, events[0]), events[1..]))
  }

  ghost function After(s: System, events: seq<Event>): System
    requires ValidRun(s, events)
    decreases |events|
  {
    if events == [] then s else After(Next(s, events[0]), events[1..])
  }

  lemma {:induction false} RunBalances(s: System, events: seq<Event>)
    requires Balanced(s) && ValidRun(s, events)
    ensures Balanced(After(s, events))
    decreases |events|
  {
    if events == [] {
    } else {
      StepBalances(s, events[0]);
      RunBalances(Next(s, events[0]), events[1..]);
    }
  }

  // -- runs on which a flush tells the truth -----------------------------------

  /** The sizes at which the `u32` and `u64` counts do not wrap. */
  predicate Fits(s: System) {
    && Tally(s.pubs, KOutstanding) + Tally(s.pubs, KLost) < U32
    && |s.pubs| < U64
    && s.disconnects < U64
  }

  /** Nothing is owed at the two moments that read the outstanding count for good. */
  predicate Square(s: System, e: Event) {
    match e
    case Disconnect => s.debt.open == 0
    case Check(_) => s.tracker.unacked == 0 ==> s.debt.open == 0
    case _ => true
  }

  ghost predicate SquareRun(s: System, events: seq<Event>): (r: bool)
    ensures r ==> ValidRun(s, events)
    decreases |events|
  {
    events == [] ||
    (&& Enabled(s, events[0]) && Square(s, events[0]) && Fits(Next(s, events[0]))
     && SquareRun(Next(s, events[0]), events[1..]))
  }

  /** A publish is outstanding exactly in the generation it was counted in, until it settles. */
  predicate PubOk(s: System, p: nat)
    requires p < |s.pubs|
  {
    var pub := s.pubs[p];
    && pub.ticket.generation <= s.tracker.generation
    && (pub.fate.Outstanding? ==> pub.ticket.generation == s.tracker.generation)
    && (pub.fate.Lost? || pub.fate.Reported? ==> pub.ticket.generation < s.tracker.generation)
    && (pub.fate.RolledBack? ==> !pub.guarded)
    && (!pub.guarded && pub.fate.Outstanding? ==> pub.Taken())
    && (pub.fate.Reported? ==>
          && pub.fate.flush < pub.fate.openings <= |s.flushes|
          && ReportedALoss(s.flushes[pub.fate.flush].stage))
  }

  predicate ReportedALoss(stage: Stage) {
    stage.Answered? && stage.answer.Failure? && stage.answer.error.PublishLost?
  }

  predicate Settled(fate: Fate) {
    fate.Acked? || fate.RolledBack? || fate.Reported?
  }

  predicate FlushOk(s: System, f: nat)
    requires f < |s.flushes|
  {
    var flush := s.flushes[f];
    && flush.seen <= |s.pubs|
    && flush.openedAt <= s.tracker.reported
    && (flush.stage.Active() && flush.openedAt == s.tracker.reported ==>
          forall p | 0 <= p < |s.pubs| :: s.pubs[p].fate.Reported? ==> s.pubs[p].fate.openings <= f)
    && (flush.stage.Drained? ==> forall p | 0 <= p < flush.seen :: !s.pubs[p].fate.Outstanding?)
    && (flush.stage.Answered? && flush.stage.answer.Success? ==>
          forall p | 0 <= p < flush.seen ::
            Settled(s.pubs[p].fate) && (s.pubs[p].fate.Reported? ==> s.pubs[p].fate.openings <= f))
  }

  predicate CountsOk(s: System) {
    Balanced(s) && s.debt.missed == 0 && s.debt.told == 0 && s.tracker.generation == s.disconnects
  }

  predicate PubsOk(s: System) {
    forall p | 0 <= p < |s.pubs| :: PubOk(s, p)
  }

  predicate FlushesOk(s: System) {
    forall f | 0 <= f < |s.flushes| :: FlushOk(s, f)
  }

  predicate Inv(s: System) {
    CountsOk(s) && PubsOk(s) && FlushesOk(s)
  }

  /** A report that finds a loss answers `PublishLost`; one that finds none has nothing to mark. */
  lemma ReportIsExact(s: System, f: nat)
    requires Inv(s) && Fits(s) && Enabled(s, Report(f))
    ensures
      var r := s.tracker.Reported().reported;
      && r == s.tracker.reported + s.tracker.lost
      && s.tracker.Found(s.flushes[f].openedAt) == r - s.flushes[f].openedAt
      && (s.tracker.Answer(s.flushes[f].openedAt).Success? <==> r == s.flushes[f].openedAt)
      && (s.tracker.Answer(s.flushes[f].openedAt).Failure? ==>
            s.tracker.Answer(s.flushes[f].openedAt).error.PublishLost?)
    ensures s.tracker.lost == 0 <==> forall p | 0 <= p < |s.pubs| :: !s.pubs[p].fate.Lost?
  {
    assert FlushOk(s, f);
    TallySum(s.pubs);
    NoneOfAKind(s.pubs);
  }

  lemma NoneOfAKind(pubs: seq<Pub>)
    ensures Tally(pubs, KLost) == 0 <==> forall p | 0 <= p < |pubs| :: !pubs[p].fate.Lost?
    ensures Tally(pubs, KOutstanding) == 0 <==> forall p | 0 <= p < |pubs| :: !pubs[p].fate.Outstanding?
  {
    SumZero(IsKind(KLost), pubs);
    SumZero(IsKind(KOutstanding), pubs);
    assert forall p | 0 <= p < |pubs| :: pubs[p].fate.Lost? <==> KindOf(pubs[p].fate) == KLost;
    assert forall p | 0 <= p < |pubs| :: pubs[p].fate.Outstanding? <==> KindOf(pubs[p].fate) == KOutstanding;
  }

  lemma CountsStep(s: System, e: Event)
    requires CountsOk(s) && Fits(s) && Enabled(s, e) && Square(s, e) && Fits(Next(s, e))
    ensures CountsOk(Next(s, e))
  {
    StepBalances(s, e);
    TallySum(s.pubs);
  }

  lemma PubStep(s: System, e: Event, p: nat)
    requires Inv(s) && Enabled(s, e) && Fits(s) && Fits(Next(s, e))
    requires p < |Next(s, e).pubs|
    ensures PubOk(Next(s, e), p)
  {
    if e.Report? {
      PubStepOfReport(s, e.flush, p);
    } else if p < |s.pubs| {
      assert PubOk(s, p);
      if OfAFlush(e) {
        PubStepOfFlushes(s, e, p);
      } else {
        PubStepOfCalls(s, e, p);
      }
    }
  }

  predicate OfAFlush(e: Event) {
    e.Notify? || e.OpenFlush? || e.Register? || e.Check? || e.Wake? || e.Timeout? || e.Abandon?
  }

  lemma PubStepOfFlushes(s: System, e: Event, p: nat)
    requires Enabled(s, e) && OfAFlush(e) && p < |s.pubs| && PubOk(s, p)
    ensures PubOk(Next(s, e), p)
  {
    assert Next(s, e).pubs == s.pubs && Next(s, e).tracker == s.tracker;
    if s.pubs[p].fate.Reported? {
      StagesStay(s, e, s.pubs[p].fate.flush);
    }
  }

  lemma PubStepOfCalls(s: System, e: Event, p: nat)
    requires Enabled(s, e) && !OfAFlush(e) && !e.Report? && p < |s.pubs| && PubOk(s, p)
    requires e.Disconnect? ==> s.tracker.generation + 1 < U64
    ensures PubOk(Next(s, e), p)
  {
  }

  lemma PubStepOfReport(s: System, f: nat, p: nat)
    requires Inv(s) && Fits(s) && Enabled(s, Report(f)) && p < |s.pubs|
    ensures PubOk(Next(s, Report(f)), p)
  {
    assert PubOk(s, p) && FlushOk(s, f);
    ReportIsExact(s, f);
  }

  /** A flush that has answered stays as it is. */
  lemma StagesStay(s: System, e: Event, f: nat)
    requires Enabled(s, e) && f < |s.flushes| && s.flushes[f].stage.Answered?
    ensures |s.flushes| <= |Next(s, e).flushes| && Next(s, e).flushes[f] == s.flushes[f]
  {
  }

  /** What a flush rests on, from the publishes it must not pass over. */
  lemma ReportsAreBehind(s: System)
    requires Inv(s)
    ensures forall p | 0 <= p < |s.pubs| :: s.pubs[p].fate.Reported? ==> s.pubs[p].fate.openings <= |s.flushes|
  {
    forall p | 0 <= p < |s.pubs|
      ensures s.pubs[p].fate.Reported? ==> s.pubs[p].fate.openings <= |s.flushes|
    {
      assert PubOk(s, p);
    }
  }

  /** But for a report, a fate moves only out of `Outstanding`. */
  lemma FateStep(s: System, e: Event, p: nat)
    requires Enabled(s, e) && !e.Report? && p < |s.pubs|
    ensures p < |Next(s, e).pubs|
    ensures
      var fate, fate' := s.pubs[p].fate, Next(s, e).pubs[p].fate;
      fate' == fate || (fate.Outstanding? && (fate'.Acked? || fate'.RolledBack? || fate'.Lost?))
  {
  }

  lemma FlushStep(s: System, e: Event, f: nat)
    requires Inv(s) && Enabled(s, e) && Square(s, e) && Fits(s) && Fits(Next(s, e))
    requires f < |Next(s, e).flushes|
    ensures FlushOk(Next(s, e), f)
  {
    if e.Report? {
      FlushStepOfReport(s, e.flush, f);
    } else if f < |s.flushes| {
      FlushStepByFates(s, e, f);
    } else {
      ReportsAreBehind(s);
    }
  }

  lemma FlushStepByFates(s: System, e: Event, f: nat)
    requires Enabled(s, e) && !e.Report? && Square(s, e) && Balanced(s)
    requires f < |s.flushes| && FlushOk(s, f)
    ensures FlushOk(Next(s, e), f)
  {
    NoneOfAKind(s.pubs);
    var s' := Next(s, e);
    FlushKeepsItsOpening(s, e, f);
    forall p | 0 <= p < |s.pubs|
      ensures s'.pubs[p].fate == s.pubs[p].fate || (s.pubs[p].fate.Outstanding? && !s'.pubs[p].fate.Reported?)
      ensures Settled(s.pubs[p].fate) ==> s'.pubs[p].fate == s.pubs[p].fate
      ensures s'.pubs[p].fate.Outstanding? ==> s.pubs[p].fate.Outstanding?
    {
      FateStep(s, e, p);
    }
  }

  /** But for a report, an event moves a flush along, drains it only at a count of 0, and answers none. */
  lemma FlushKeepsItsOpening(s: System, e: Event, f: nat)
    requires Enabled(s, e) && !e.Report? && f < |s.flushes|
    ensures e.OpenFlush? || |Next(s, e).flushes| == |s.flushes|
    ensures f < |Next(s, e).flushes| && Next(s, e).tracker.reported == s.tracker.reported
    ensures |s.pubs| <= |Next(s, e).pubs| && (e.CountPublish? || |Next(s, e).pubs| == |s.pubs|)
    ensures
      var flush, flush' := s.flushes[f], Next(s, e).flushes[f];
      && flush'.seen == flush.seen && flush'.openedAt == flush.openedAt && flush'.toldAt == flush.toldAt
      && (flush'.stage.Active() ==> flush.stage.Active())
      && (flush'.stage.Drained? ==> flush.stage.Drained? || (e == Check(f) && s.tracker.unacked == 0))
      && (flush'.stage.Answered? ==> flush.stage == flush'.stage)
  {
  }

  /** A report that takes losses leaves `reported` above where every other active flush opened. */
  lemma FlushStepOfReport(s: System, g: nat, f: nat)
    requires Inv(s) && Fits(s) && Enabled(s, Report(g)) && f < |s.flushes|
    ensures FlushOk(Next(s, Report(g)), f)
  {
    assert FlushOk(s, f) && FlushOk(s, g);
    ReportIsExact(s, g);
    if s.tracker.lost == 0 {
      assert Next(s, Report(g)).pubs == s.pubs;
      assert forall p | 0 <= p < s.flushes[g].seen :: !s.pubs[p].fate.Lost?;
    }
  }

  lemma StepPreserves(s: System, e: Event)
    requires Inv(s) && Enabled(s, e) && Square(s, e) && Fits(s) && Fits(Next(s, e))
    ensures Inv(Next(s, e))
  {
    CountsStep(s, e);
    forall p | 0 <= p < |Next(s, e).pubs|
      ensures PubOk(Next(s, e), p)
    {
      PubStep(s, e, p);
    }
    forall f | 0 <= f < |Next(s, e).flushes|
      ensures FlushOk(Next(s, e), f)
    {
      FlushStep(s, e, f);
    }
  }

  lemma {:induction false} RunPreserves(s: System, events: seq<Event>)
    requires Inv(s) && Fits(s) && SquareRun(s, events)
    ensures Inv(After(s, events)) && Fits(After(s, events))
    decreases |events|
  {
    if events == [] {
    } else {
      StepPreserves(s, events[0]);
      RunPreserves(Next(s, events[0]), events[1..]);
    }
  }

  // -- the assumptions the tracker rests on ------------------------------------

  /** The broker: a PubAck answers a message the client still holds, and answers it once. */
  predicate Conforms(s: System, e: Event) {
    e.PubAck? ==> e.pub < |s.pubs| && s.pubs[e.pub].custody.Held?
  }

  /** The caller: no call is cancelled after the client took its message. */
  predicate UncancelledOnceTaken(s: System, e: Event) {
    e.DropGuard? ==> e.pub < |s.pubs| && !s.pubs[e.pub].Taken()
  }

  /**
   * The tracker's own claim (src/sparkplug/delivery.rs:142-146), that a disconnect with outstanding
   * publishes always loses them: no acknowledgement comes for a publish recorded as lost, though
   * the client may hold it a while longer, or take it late.
   */
  predicate LostStaysLost(s: System, e: Event) {
    e.PubAck? && e.pub < |s.pubs| ==> !s.pubs[e.pub].fate.Lost? && !s.pubs[e.pub].fate.Reported?
  }

  predicate Honest(s: System, e: Event) {
    Conforms(s, e) && UncancelledOnceTaken(s, e) && LostStaysLost(s, e)
  }

  /** A run whose every event is honest and whose every state fits. */
  ghost predicate HonestRun(s: System, events: seq<Event>): (r: bool)
    ensures r ==> ValidRun(s, events)
    decreases |events|
  {
    events == [] ||
    (&& Enabled(s, events[0]) && Honest(s, events[0]) && Fits(Next(s, events[0]))
     && HonestRun(Next(s, events[0]), events[1..]))
  }

  /** On honest runs the ledger and the client tell one story of each publish. */
  predicate CustodyOk(s: System, p: nat)
    requires p < |s.pubs|
  {
    var pub := s.pubs[p];
    && (pub.fate.Acked? <==> pub.custody.Confirmed?)
    && (pub.custody.Held? ==> pub.fate.Outstanding? || pub.fate.Lost? || pub.fate.Reported?)
    && (pub.fate.RolledBack? ==> pub.custody.Offered?)
  }

  predicate CustodiesOk(s: System) {
    forall p | 0 <= p < |s.pubs| :: CustodyOk(s, p)
  }

  predicate HonestInv(s: System) {
    Inv(s) && s.debt.open == 0 && CustodiesOk(s)
  }

  lemma CustodyStep(s: System, e: Event, p: nat)
    requires Enabled(s, e) && Honest(s, e) && p < |s.pubs| && PubOk(s, p) && CustodyOk(s, p)
    ensures p < |Next(s, e).pubs| && CustodyOk(Next(s, e), p)
  {
  }

  /** An honest release settles an outstanding publish, and so clears the count of its own. */
  lemma HonestReleaseIsOwn(s: System, e: Event)
    requires Enabled(s, e) && Honest(s, e) && (e.DropGuard? || e.PubAck?)
    requires e.pub < |s.pubs| && PubOk(s, e.pub) && CustodyOk(s, e.pub)
    ensures e.PubAck? || s.pubs[e.pub].ticket.generation == s.tracker.generation ==> s.pubs[e.pub].fate.Outstanding?
  {
  }

  lemma NothingOwed(s: System, e: Event)
    requires HonestInv(s) && Enabled(s, e) && Honest(s, e) && Fits(Next(s, e))
    ensures Next(s, e).debt.open == 0
  {
    if e.DropGuard? || e.PubAck? {
      assert PubOk(s, e.pub) && CustodyOk(s, e.pub);
      HonestReleaseIsOwn(s, e);
      OneOfTheTally(s.pubs, e.pub);
    } else if e.CountPublish? {
      CountBalances(s);
    }
  }

  /** Honest releases clear their own counts, so nothing is ever owed. */
  lemma HonestStep(s: System, e: Event)
    requires HonestInv(s) && Enabled(s, e) && Honest(s, e) && Fits(s) && Fits(Next(s, e))
    ensures Square(s, e) && HonestInv(Next(s, e))
  {
    StepPreserves(s, e);
    NothingOwed(s, e);
    forall p | 0 <= p < |Next(s, e).pubs|
      ensures CustodyOk(Next(s, e), p)
    {
      if p < |s.pubs| {
        assert PubOk(s, p) && CustodyOk(s, p);
        CustodyStep(s, e, p);
      }
    }
  }

  lemma {:induction false} HonestRunPreserves(s: System, events: seq<Event>)
    requires HonestInv(s) && Fits(s) && HonestRun(s, events)
    ensures SquareRun(s, events) && HonestInv(After(s, events)) && Fits(After(s, events))
    decreases |events|
  {
    if events == [] {
    } else {
      HonestStep(s, events[0]);
      HonestRunPreserves(Next(s, events[0]), events[1..]);
    }
  }
}
