/**
 * What a flush may conclude on runs that owe nothing: soundness, conservation, ownership of a
 * rollback and the windows of flushes that overlap. FlushAudit says exactly what an Ok flush passes
 * over on every run, and DeliveryRuns shows the runs that break it.
 */
module DeliveryTheorems {
  import opened Prelude
  import opened Types
  import opened Delivery
  import opened DeliveryProtocol

  lemma InitOk()
    ensures HonestInv(INIT) && Fits(INIT)
  {
    NothingYet(INIT);
  }

  lemma NothingYet(s: System)
    requires s.tracker == FRESH && s.pubs == [] && s.flushes == [] && s.disconnects == 0 && s.debt == NO_DEBT
    ensures HonestInv(s) && Fits(s)
  {
  }

  lemma Reachable(events: seq<Event>)
    requires HonestRun(INIT, events)
    ensures SquareRun(INIT, events) && HonestInv(After(INIT, events)) && Fits(After(INIT, events))
  {
    InitOk();
    HonestRunPreserves(INIT, events);
  }

  // -- flush soundness ---------------------------------------------------------

  /**
   * Flush `f` may pass over publish `p`: it was acknowledged, rolled back, or lost to a disconnect
   * that another flush had already answered with `PublishLost` before `f` opened.
   */
  predicate AccountsFor(s: System, f: nat, p: nat) {
    && p < |s.pubs|
    && match s.pubs[p].fate
       case Acked => true
       case RolledBack => true
       case Reported(g, openings) => g < openings <= f && g < |s.flushes| && ReportedALoss(s.flushes[g].stage)
       case _ => false
  }

  predicate AnsweredOk(s: System, f: nat) {
    f < |s.flushes| && s.flushes[f].stage.Answered? && s.flushes[f].stage.answer.Success?
  }

  /** A flush that returned Ok accounts for every publish counted before it opened. */
  lemma FlushSoundness(events: seq<Event>, f: nat, p: nat)
    requires HonestRun(INIT, events)
    requires AnsweredOk(After(INIT, events), f) && p < After(INIT, events).flushes[f].seen
    ensures AccountsFor(After(INIT, events), f, p)
  {
    Reachable(events);
    SquareFlushSoundness(events, f, p);
  }

  /** It does so on every run that owes nothing when a disconnect is recorded or a flush drains. */
  lemma SquareFlushSoundness(events: seq<Event>, f: nat, p: nat)
    requires SquareRun(INIT, events)
    requires AnsweredOk(After(INIT, events), f) && p < After(INIT, events).flushes[f].seen
    ensures AccountsFor(After(INIT, events), f, p)
  {
    InitOk();
    RunPreserves(INIT, events);
    assert FlushOk(After(INIT, events), f) && PubOk(After(INIT, events), p);
  }

  // -- conservation ------------------------------------------------------------

  /** Every publish has one fate, and the code's counts are exactly the tallies of three of them. */
  predicate Conserves(s: System) {
    && |s.pubs| == s.tracker.unacked + Tally(s.pubs, KAcked) + Tally(s.pubs, KRolledBack)
                   + s.tracker.lost + s.tracker.reported
    && s.tracker.unacked == Tally(s.pubs, KOutstanding)
    && s.tracker.lost == Tally(s.pubs, KLost)
    && s.tracker.reported == Tally(s.pubs, KReported)
    && (forall p | 0 <= p < |s.pubs| && s.pubs[p].fate.Outstanding? ::
          s.pubs[p].ticket.generation == s.tracker.generation)
  }

  lemma LedgerConservation(events: seq<Event>)
    requires HonestRun(INIT, events)
    ensures Conserves(After(INIT, events))
  {
    Reachable(events);
    HonestStateConserves(After(INIT, events));
  }

  lemma HonestStateConserves(s: System)
    requires HonestInv(s)
    ensures Conserves(s)
  {
    TallySum(s.pubs);
    forall p | 0 <= p < |s.pubs|
      ensures s.pubs[p].fate.Outstanding? ==> s.pubs[p].ticket.generation == s.tracker.generation
    {
      assert PubOk(s, p);
    }
  }

  /** No subtraction clips and no addition wraps on an honest run. */
  lemma NothingClips(s: System, e: Event)
    requires HonestInv(s) && Fits(s) && Enabled(s, e) && Honest(s, e) && Fits(Next(s, e))
    ensures e.CountPublish? ==> s.tracker.unacked + 1 < U32
    ensures e.PubAck? ==> s.tracker.unacked > 0
    ensures e.DropGuard? && s.pubs[e.pub].ticket.generation == s.tracker.generation ==> s.tracker.unacked > 0
    ensures e.Disconnect? ==> s.tracker.lost + s.tracker.unacked < U32 && s.tracker.generation + 1 < U64
    ensures e.Report? ==>
      s.tracker.reported + s.tracker.lost < U64 && s.flushes[e.flush].openedAt <= s.tracker.reported
  {
    HonestStep(s, e);
    TallySum(s.pubs);
    match e
    case CountPublish => SumAppend(IsKind(KOutstanding), s.pubs, Next(s, e).pubs[|s.pubs|]);
    case PubAck(p) =>
      assert CustodyOk(s, p);
      OneOfTheTally(s.pubs, p);
    case DropGuard(p) =>
      assert PubOk(s, p) && CustodyOk(s, p);
      OneOfTheTally(s.pubs, p);
    case Report(f) => assert FlushOk(s, f);
    case _ =>
  }

  // -- rollback ownership ------------------------------------------------------

  /**
   * Dropping a guard takes its own publish out of the outstanding set and touches no other. When a
   * disconnect came between, the publish is among the losses and the drop changes no count at all.
   */
  lemma RollbackOwnership(s: System, p: nat)
    requires HonestInv(s) && Enabled(s, DropGuard(p)) && Honest(s, DropGuard(p))
    ensures
      var s' := Next(s, DropGuard(p));
      && |s'.pubs| == |s.pubs|
      && (forall q | 0 <= q < |s.pubs| && q != p :: s'.pubs[q] == s.pubs[q])
      && match s.pubs[p].fate
         case Outstanding =>
           && s'.pubs[p].fate == RolledBack
           && s'.tracker.unacked + 1 == s.tracker.unacked
           && s'.tracker == s.tracker.(unacked := s'.tracker.unacked)
         case Lost => s'.pubs[p].fate == Lost && s'.tracker == s.tracker
         case Reported(g, n) => s'.pubs[p].fate == Reported(g, n) && s'.tracker == s.tracker
         case _ => false
  {
    assert PubOk(s, p) && CustodyOk(s, p);
    OneOfTheTally(s.pubs, p);
  }

  // -- timeouts ----------------------------------------------------------------

  /**
   * A flush may time out whenever it waits, and answers with the publishes outstanding at that
   * moment; or it may be cancelled there, and answers nothing.
   */
  lemma TimeoutAnswersTheOutstanding(events: seq<Event>, f: nat)
    requires HonestRun(INIT, events)
    requires f < |After(INIT, events).flushes| && After(INIT, events).flushes[f].stage.Parked?
    ensures
      var s := After(INIT, events);
      && Enabled(s, Timeout(f)) && Enabled(s, Abandon(f))
      && Next(s, Timeout(f)).flushes[f].stage.TimedOut?
      && Next(s, Timeout(f)).flushes[f].stage.unacked == Tally(s.pubs, KOutstanding)
      && Next(s, Abandon(f)).flushes[f].stage == Abandoned
  {
    Reachable(events);
  }

  // -- flush windows -----------------------------------------------------------

  /** Every loss a disconnect has recorded, reported or not. */
  function Losses(s: System): nat {
    Tally(s.pubs, KLost) + Tally(s.pubs, KReported)
  }

  /** A drained flush finds exactly the losses recorded by now less those reported when it opened. */
  lemma WindowIsExact(s: System, f: nat)
    requires Inv(s) && Fits(s) && Enabled(s, Report(f))
    ensures
      var flush := Next(s, Report(f)).flushes[f];
      && flush.stage.found == Losses(s) - flush.openedAt
      && flush.stage.answer ==
           if flush.stage.found == 0 then Success(())
           else Failure(PublishLost(if flush.stage.found < U32 then flush.stage.found else U32 - 1))
    ensures Next(s, Report(f)).tracker.lost == 0 && Next(s, Report(f)).tracker.reported == Losses(s)
  {
    assert FlushOk(s, f);
    ReportIsExact(s, f);
    TallySum(s.pubs);
  }

  /** The events a flush takes once it has opened, but for its report. */
  predicate OwnStep(e: Event, f: nat) {
    e == Register(f) || e == Check(f) || e == Wake(f) || e == Timeout(f) || e == Abandon(f)
  }

  function Without(events: seq<Event>, f: nat): seq<Event> {
    if events == [] then []
    else (if OwnStep(events[0], f) then [] else [events[0]]) + Without(events[1..], f)
  }

  /** Two states that differ at most in how far flush `f` got. */
  predicate SameBut(a: System, b: System, f: nat) {
    && a == b.(flushes := a.flushes) && |a.flushes| == |b.flushes|
    && (forall g | 0 <= g < |a.flushes| :: g != f ==> a.flushes[g] == b.flushes[g])
    && (forall g | 0 <= g < |a.flushes| :: a.flushes[g].(stage := Looping) == b.flushes[g].(stage := Looping))
  }

  lemma OwnStepIsUnseen(a: System, b: System, e: Event, f: nat)
    requires SameBut(a, b, f) && Enabled(a, e) && OwnStep(e, f)
    ensures SameBut(Next(a, e), b, f)
  {
  }

  lemma OtherFlushStep(a: System, b: System, e: Event, f: nat)
    requires SameBut(a, b, f) && Enabled(a, e) && !OwnStep(e, f) && e != Report(f)
    requires e.Register? || e.Check? || e.Wake? || e.Report? || e.Timeout? || e.Abandon?
    ensures Enabled(b, e) && SameBut(Next(a, e), Next(b, e), f)
  {
    assert a.flushes[e.flush] == b.flushes[e.flush];
  }

  lemma OtherStep(a: System, b: System, e: Event, f: nat)
    requires SameBut(a, b, f) && Enabled(a, e) && !OwnStep(e, f) && e != Report(f)
    ensures Enabled(b, e) && SameBut(Next(a, e), Next(b, e), f)
  {
    if e.Register? || e.Check? || e.Wake? || e.Report? || e.Timeout? || e.Abandon? {
      OtherFlushStep(a, b, e, f);
    } else if !e.Notify? && !e.OpenFlush? {
      assert Next(b, e) == Next(a, e).(flushes := b.flushes);
    }
  }

  /**
   * A flush that never reports, whether it times out, is cancelled or still waits, is invisible:
   * take its steps out of the run and every count, every publish and every other flush is the same.
   */
  lemma {:induction false} UnreportedFlushIsInvisible(a: System, b: System, events: seq<Event>, f: nat)
    requires SameBut(a, b, f) && ValidRun(a, events)
    requires forall i | 0 <= i < |events| :: events[i] != Report(f)
    ensures ValidRun(b, Without(events, f))
    ensures SameBut(After(a, events), After(b, Without(events, f)), f)
    decreases |events|
  {
    if events == [] {
    } else {
      if OwnStep(events[0], f) {
        OwnStepIsUnseen(a, b, events[0], f);
        assert Without(events, f) == Without(events[1..], f);
        UnreportedFlushIsInvisible(Next(a, events[0]), b, events[1..], f);
      } else {
        OtherStep(a, b, events[0], f);
        UnreportedFlushIsInvisible(Next(a, events[0]), Next(b, events[0]), events[1..], f);
        assert Without(events, f)[0] == events[0] && Without(events, f)[1..] == Without(events[1..], f);
      }
    }
  }

  /**
   * Flush `f` will learn about the publishes in `gone`: they are lost and were not reported when it
   * opened, and once it has answered from a drain, its answer counts them all.
   */
  predicate LearnsOf(s: System, f: nat, gone: set<nat>, n: nat) {
    && f < |s.flushes|
    && (forall p | p in gone ::
          && p < |s.pubs|
          && (s.pubs[p].fate.Lost? || (s.pubs[p].fate.Reported? && s.pubs[p].fate.openings > f))
          && (s.flushes[f].stage.Answered? ==> s.pubs[p].fate.Reported?))
    && (s.flushes[f].stage.Active() ==> Losses(s) >= s.flushes[f].openedAt + n)
    && (s.flushes[f].stage.Answered? ==> s.flushes[f].stage.found >= n)
  }

  /** But for a new publish, a disconnect and a report, no publish enters or leaves the losses. */
  lemma LossesStay(s: System, e: Event, p: nat)
    requires Enabled(s, e) && !e.CountPublish? && !e.Disconnect? && !e.Report? && p < |s.pubs|
    ensures |Next(s, e).pubs| == |s.pubs|
    ensures Next(s, e).pubs[p].fate.Lost? <==> s.pubs[p].fate.Lost?
    ensures Next(s, e).pubs[p].fate.Reported? <==> s.pubs[p].fate.Reported?
    ensures s.pubs[p].fate.Reported? ==> Next(s, e).pubs[p].fate == s.pubs[p].fate
  {
  }

  lemma LossesOnlyGrow(s: System, e: Event)
    requires Enabled(s, e)
    ensures Losses(Next(s, e)) >= Losses(s)
  {
    var s' := Next(s, e);
    if e.CountPublish? {
      SumAppend(IsKind(KLost), s.pubs, s'.pubs[|s.pubs|]);
      SumAppend(IsKind(KReported), s.pubs, s'.pubs[|s.pubs|]);
    } else if e.Disconnect? {
      TallyDiscard(s.pubs);
    } else if e.Report? {
      TallyReport(s.pubs, e.flush, |s.flushes|);
    } else {
      assert |s'.pubs| == |s.pubs|;
      SameLosses(s.pubs, s'.pubs) by {
        forall p | 0 <= p < |s.pubs| {
          LossesStay(s, e, p);
        }
      }
    }
  }

  lemma SameLosses(pubs: seq<Pub>, pubs': seq<Pub>)
    requires |pubs| == |pubs'|
    requires forall p | 0 <= p < |pubs| :: pubs[p].fate.Lost? <==> pubs'[p].fate.Lost?
    requires forall p | 0 <= p < |pubs| :: pubs[p].fate.Reported? <==> pubs'[p].fate.Reported?
    ensures Tally(pubs, KLost) == Tally(pubs', KLost) && Tally(pubs, KReported) == Tally(pubs', KReported)
  {
    SumSame(IsKind(KLost), pubs, pubs');
    SumSame(IsKind(KReported), pubs, pubs');
  }

  lemma LearnsOfReport(s: System, g: nat, f: nat, gone: set<nat>, n: nat)
    requires Inv(s) && Fits(s) && Enabled(s, Report(g)) && LearnsOf(s, f, gone, n)
    ensures LearnsOf(Next(s, Report(g)), f, gone, n)
  {
    LossesOnlyGrow(s, Report(g));
    WindowIsExact(s, g);
  }

  lemma LearnsOfStep(s: System, e: Event, f: nat, gone: set<nat>, n: nat)
    requires Inv(s) && Fits(s) && Enabled(s, e) && LearnsOf(s, f, gone, n)
    ensures LearnsOf(Next(s, e), f, gone, n)
  {
    if e.Report? {
      LearnsOfReport(s, e.flush, f, gone, n);
    } else {
      LossesOnlyGrow(s, e);
      FlushKeepsItsOpening(s, e, f);
      forall p | 0 <= p < |s.pubs| {
        FateStep(s, e, p);
      }
      LearnsOfStays(s, Next(s, e), f, gone, n);
    }
  }

  lemma LearnsOfStays(s: System, s': System, f: nat, gone: set<nat>, n: nat)
    requires LearnsOf(s, f, gone, n) && f < |s'.flushes| && Losses(s') >= Losses(s) && |s.pubs| <= |s'.pubs|
    requires forall p | 0 <= p < |s.pubs| :: s'.pubs[p].fate == s.pubs[p].fate || s.pubs[p].fate.Outstanding?
    requires s'.flushes[f].openedAt == s.flushes[f].openedAt
    requires s'.flushes[f].stage.Active() ==> s.flushes[f].stage.Active()
    requires s'.flushes[f].stage.Answered? ==> s.flushes[f].stage == s'.flushes[f].stage
    ensures LearnsOf(s', f, gone, n)
  {
  }

  lemma {:induction false} LearnsOfRun(s: System, events: seq<Event>, f: nat, gone: set<nat>, n: nat)
    requires Inv(s) && Fits(s) && SquareRun(s, events) && LearnsOf(s, f, gone, n)
    ensures LearnsOf(After(s, events), f, gone, n)
    decreases |events|
  {
    if events == [] {
    } else {
      LearnsOfStep(s, events[0], f, gone, n);
      StepPreserves(s, events[0]);
      LearnsOfRun(Next(s, events[0]), events[1..], f, gone, n);
    }
  }

  /**
   * Every flush that was open across a disconnect and then drained reports the losses of that
   * disconnect, however many such flushes overlap and whichever of them reported first.
   */
  lemma FlushAcrossADisconnectReportsIt(s: System, events: seq<Event>, f: nat)
    requires Inv(s) && Fits(s) && s.debt.open == 0 && Fits(Next(s, Disconnect))
    requires SquareRun(Next(s, Disconnect), events)
    requires f < |s.flushes| && s.flushes[f].stage.Active()
    ensures
      var end := After(Next(s, Disconnect), events);
      && f < |end.flushes|
      && (end.flushes[f].stage.Answered? ==>
            && end.flushes[f].stage.found >= Tally(s.pubs, KOutstanding)
            && forall p | 0 <= p < |s.pubs| && s.pubs[p].fate.Outstanding? ::
                 p < |end.pubs| && end.pubs[p].fate.Reported? && end.pubs[p].fate.openings > f)
  {
    var s' := Next(s, Disconnect);
    var gone := set p | 0 <= p < |s.pubs| && s.pubs[p].fate.Outstanding?;
    var n := Tally(s.pubs, KOutstanding);
    assert FlushOk(s, f);
    TallyDiscard(s.pubs);
    StepPreserves(s, Disconnect);
    LearnsOfRun(s', events, f, gone, n);
    var end := After(s', events);
    forall p | 0 <= p < |s.pubs| && s.pubs[p].fate.Outstanding?
      ensures end.flushes[f].stage.Answered? ==>
        p < |end.pubs| && end.pubs[p].fate.Reported? && end.pubs[p].fate.openings > f
    {
      assert p in gone;
    }
  }

  // -- flushes that do not overlap ---------------------------------------------

  function FoundBy(flush: Flush): nat {
    if flush.stage.Answered? then flush.stage.found else 0
  }

  function SumFound(flushes: seq<Flush>): nat {
    Sum(FoundBy, flushes)
  }

  /** A square run in which a flush opens only while no other is active. */
  ghost predicate SerialRun(s: System, events: seq<Event>): (r: bool)
    ensures r ==> SquareRun(s, events)
    decreases |events|
  {
    events == [] ||
    (&& Enabled(s, events[0]) && Square(s, events[0]) && Fits(Next(s, events[0]))
     && (events[0].OpenFlush? ==> forall f | 0 <= f < |s.flushes| :: !s.flushes[f].stage.Active())
     && SerialRun(Next(s, events[0]), events[1..]))
  }

  /** Only the latest flush can be active, and nothing was reported since it opened. */
  predicate Telescopes(s: System) {
    && SumFound(s.flushes) == s.tracker.reported
    && forall f | 0 <= f < |s.flushes| :: s.flushes[f].stage.Active() ==>
         f == |s.flushes| - 1 && s.flushes[f].openedAt == s.tracker.reported
  }

  lemma TelescopesStep(s: System, e: Event)
    requires Inv(s) && Fits(s) && Enabled(s, e) && Telescopes(s)
    requires e.OpenFlush? ==> forall f | 0 <= f < |s.flushes| :: !s.flushes[f].stage.Active()
    ensures Telescopes(Next(s, e))
  {
    var s' := Next(s, e);
    if e.OpenFlush? {
      SumAppend(FoundBy, s.flushes, s'.flushes[|s.flushes|]);
    } else if e.Report? {
      TelescopesReport(s, e.flush);
    } else {
      forall f | 0 <= f < |s.flushes|
        ensures f < |s'.flushes| && FoundBy(s'.flushes[f]) == FoundBy(s.flushes[f])
        ensures s'.flushes[f].openedAt == s.flushes[f].openedAt && s'.tracker.reported == s.tracker.reported
        ensures s'.flushes[f].stage.Active() ==> s.flushes[f].stage.Active()
      {
        FlushKeepsItsOpening(s, e, f);
        if s.flushes[f].stage.Answered? {
          StagesStay(s, e, f);
        }
      }
      SumSame(FoundBy, s.flushes, s'.flushes);
    }
  }

  lemma TelescopesReport(s: System, f: nat)
    requires Inv(s) && Fits(s) && Enabled(s, Report(f)) && Telescopes(s)
    ensures Telescopes(Next(s, Report(f)))
  {
    SumUpdate(FoundBy, s.flushes, f, Next(s, Report(f)).flushes[f]);
    WindowIsExact(s, f);
  }

  lemma {:induction false} TelescopesRun(s: System, events: seq<Event>)
    requires Inv(s) && Fits(s) && SerialRun(s, events) && Telescopes(s)
    ensures Telescopes(After(s, events))
    decreases |events|
  {
    if events == [] {
    } else {
      TelescopesStep(s, events[0]);
      StepPreserves(s, events[0]);
      TelescopesRun(Next(s, events[0]), events[1..]);
    }
  }

  /** When flushes never overlap, what they found adds up to every loss ever reported, once each. */
  lemma SerialFlushesTelescope(events: seq<Event>)
    requires SerialRun(INIT, events)
    ensures SumFound(After(INIT, events).flushes) == After(INIT, events).tracker.reported
  {
    InitOk();
    TelescopesRun(INIT, events);
  }
}
