/**
 * What an Ok flush passes over, counted on every run: nothing is assumed of the broker, the callers
 * or the client, and every count may wrap. From it, exactly when an Ok is sound.
 */
module FlushAudit {
  import opened Prelude
  import opened Delivery
  import opened DeliveryProtocol
  import opened DeliveryTheorems

  /** Every run, honest or not: each count of the code is its tally less what is owed. */
  lemma EveryRunBalances(events: seq<Event>)
    requires ValidRun(INIT, events)
    ensures
      var s := After(INIT, events);
      && s.tracker.unacked + s.debt.open == Tally(s.pubs, KOutstanding)
      && s.tracker.lost + s.debt.missed == Tally(s.pubs, KLost)
      && s.tracker.reported + s.debt.told == Tally(s.pubs, KReported)
      && s.debt.open >= 0
  {
    InitOk();
    RunBalances(INIT, events);
  }

  // -- what a drained flush leaves outstanding ---------------------------------

  /** The outstanding publishes counted before a flush opened, and those counted since. */
  function Earlier(s: System, f: nat): nat
    requires f < |s.flushes| && s.flushes[f].seen <= |s.pubs|
  {
    Tally(s.pubs[..s.flushes[f].seen], KOutstanding)
  }

  function Later(s: System, f: nat): nat
    requires f < |s.flushes| && s.flushes[f].seen <= |s.pubs|
  {
    Tally(s.pubs[s.flushes[f].seen..], KOutstanding)
  }

  /**
   * Every run: a check that drains a flush passes over exactly as many outstanding publishes as are
   * owed, so over one the flush must answer for if and only if more is owed than was counted since.
   */
  lemma DrainedFlushPassesOver(events: seq<Event>, f: nat)
    requires ValidRun(INIT, events) && Enabled(After(INIT, events), Check(f))
    requires Next(After(INIT, events), Check(f)).flushes[f].stage.Drained?
    ensures
      var s := After(INIT, events);
      && s.flushes[f].seen <= |s.pubs|
      && Earlier(s, f) + Later(s, f) == s.debt.open
      && ((exists p :: 0 <= p < s.flushes[f].seen && s.pubs[p].fate.Outstanding?) <==> s.debt.open > Later(s, f))
  {
    InitOk();
    RunBalances(INIT, events);
    PassedOver(After(INIT, events), f);
  }

  lemma PassedOver(s: System, f: nat)
    requires Balanced(s) && s.tracker.unacked == 0 && f < |s.flushes|
    ensures Earlier(s, f) + Later(s, f) == s.debt.open
    ensures (exists p :: 0 <= p < s.flushes[f].seen && s.pubs[p].fate.Outstanding?) <==> s.debt.open > Later(s, f)
  {
    var seen := s.flushes[f].seen;
    SumSplit(IsKind(KOutstanding), s.pubs, seen);
    NoneOfAKind(s.pubs[..seen]);
    assert forall p | 0 <= p < seen :: s.pubs[..seen][p] == s.pubs[p];
  }

  // -- the audit of every flush ------------------------------------------------

  /** Reported by a flush that answered before `f` opened. */
  predicate ReportedBefore(pub: Pub, f: nat) {
    pub.fate.Reported? && pub.fate.openings <= f
  }

  /** An Ok from flush `f` passes over this publish: it is outstanding, or no earlier flush told of its loss. */
  predicate PassedBy(pub: Pub, f: nat) {
    pub.fate.Outstanding? || pub.fate.Lost? || (pub.fate.Reported? && pub.fate.openings > f)
  }

  function BeforeWeight(f: nat): Pub -> nat {
    (pub: Pub) => if ReportedBefore(pub, f) then 1 else 0
  }

  function PassedWeight(f: nat): Pub -> nat {
    (pub: Pub) => if PassedBy(pub, f) then 1 else 0
  }

  function CountBefore(pubs: seq<Pub>, f: nat): nat {
    Sum(BeforeWeight(f), pubs)
  }

  function CountPassed(pubs: seq<Pub>, f: nat): nat {
    Sum(PassedWeight(f), pubs)
  }

  lemma {:induction false} PassedOrBefore(pubs: seq<Pub>, f: nat)
    ensures CountPassed(pubs, f) + CountBefore(pubs, f)
            == Tally(pubs, KOutstanding) + Tally(pubs, KLost) + Tally(pubs, KReported)
  {
    if pubs == [] {
    } else {
      PassedOrBefore(pubs[..|pubs| - 1], f);
    }
  }

  /** Each report is made under the number of flushes opened by then. */
  predicate ReportsDated(s: System) {
    forall p | 0 <= p < |s.pubs| :: s.pubs[p].fate.Reported? ==>
      s.pubs[p].fate.flush < s.pubs[p].fate.openings <= |s.flushes|
  }

  /** What was reported before a flush opened is what it read, and what nobody was told by then. */
  predicate FlushAudited(s: System, f: nat)
    requires f < |s.flushes|
  {
    CountBefore(s.pubs, f) == s.flushes[f].openedAt + s.flushes[f].toldAt
  }

  predicate Audited(s: System) {
    && Balanced(s) && ReportsDated(s)
    && forall f | 0 <= f < |s.flushes| :: FlushAudited(s, f)
  }

  lemma DatedStep(s: System, e: Event)
    requires Enabled(s, e) && ReportsDated(s)
    ensures ReportsDated(Next(s, e))
  {
  }

  /** No event but an opening changes what was reported before a flush opened. */
  lemma BeforeStays(s: System, e: Event, f: nat)
    requires Enabled(s, e) && f < |s.flushes|
    ensures CountBefore(Next(s, e).pubs, f) == CountBefore(s.pubs, f)
  {
    var pubs' := Next(s, e).pubs;
    if e.CountPublish? {
      SumAppend(BeforeWeight(f), s.pubs, pubs'[|s.pubs|]);
    } else {
      forall p | 0 <= p < |s.pubs|
        ensures |pubs'| == |s.pubs| && ReportedBefore(pubs'[p], f) == ReportedBefore(s.pubs[p], f)
      {
        ReportedBeforeStays(s, e, f, p);
      }
      if s.pubs == [] {
        ReportedBeforeOfNone(s, e);
      }
      SumSame(BeforeWeight(f), s.pubs, pubs');
    }
  }

  lemma ReportedBeforeOfNone(s: System, e: Event)
    requires Enabled(s, e) && s.pubs == [] && !e.CountPublish?
    ensures Next(s, e).pubs == []
  {
  }

  lemma ReportedBeforeStays(s: System, e: Event, f: nat, p: nat)
    requires Enabled(s, e) && !e.CountPublish? && f < |s.flushes| && p < |s.pubs|
    ensures |Next(s, e).pubs| == |s.pubs|
    ensures ReportedBefore(Next(s, e).pubs[p], f) == ReportedBefore(s.pubs[p], f)
  {
    if !e.Report? {
      FateStep(s, e, p);
    }
  }

  lemma OpeningIsAudited(s: System)
    requires Balanced(s) && ReportsDated(s)
    ensures FlushAudited(Next(s, OpenFlush), |s.flushes|)
  {
    SumSame(BeforeWeight(|s.flushes|), s.pubs, s.pubs);
    AllBefore(s.pubs, |s.flushes|);
  }

  lemma {:induction false} AllBefore(pubs: seq<Pub>, f: nat)
    requires forall p | 0 <= p < |pubs| :: pubs[p].fate.Reported? ==> pubs[p].fate.openings <= f
    ensures CountBefore(pubs, f) == Tally(pubs, KReported)
  {
    if pubs == [] {
    } else {
      var n := |pubs| - 1;
      assert forall p | 0 <= p < n :: pubs[..n][p] == pubs[p];
      AllBefore(pubs[..n], f);
    }
  }

  lemma AuditedStep(s: System, e: Event)
    requires Audited(s) && Enabled(s, e)
    ensures Audited(Next(s, e))
  {
    StepBalances(s, e);
    DatedStep(s, e);
    forall f | 0 <= f < |Next(s, e).flushes|
      ensures FlushAudited(Next(s, e), f)
    {
      if f < |s.flushes| {
        assert FlushAudited(s, f);
        BeforeStays(s, e, f);
        OpeningStays(s, e, f);
      } else {
        OpeningIsAudited(s);
      }
    }
  }

  lemma OpeningStays(s: System, e: Event, f: nat)
    requires Enabled(s, e) && f < |s.flushes|
    ensures f < |Next(s, e).flushes|
    ensures Next(s, e).flushes[f].openedAt == s.flushes[f].openedAt
    ensures Next(s, e).flushes[f].toldAt == s.flushes[f].toldAt
    ensures Next(s, e).flushes[f].seen == s.flushes[f].seen
  {
  }

  lemma {:induction false} AuditedRun(s: System, events: seq<Event>)
    requires Audited(s) && ValidRun(s, events)
    ensures Audited(After(s, events))
    decreases |events|
  {
    if events == [] {
    } else {
      AuditedStep(s, events[0]);
      AuditedRun(Next(s, events[0]), events[1..]);
    }
  }

  /**
   * How many publishes an Ok passes over: those the count still shows, those it fails to show, and
   * the losses reported since the flush opened that nobody was told.
   */
  function Owed(s: System, f: nat): int
    requires f < |s.flushes|
  {
    s.tracker.unacked + s.debt.open + s.debt.told - s.flushes[f].toldAt
  }

  /** Of the publishes an Ok passes over, those counted after the flush opened. */
  function PassedSince(s: System, f: nat): nat
    requires f < |s.flushes| && s.flushes[f].seen <= |s.pubs|
  {
    CountPassed(s.pubs[s.flushes[f].seen..], f)
  }

  predicate PassesOverWhatIsOwed(s: System, f: nat) {
    && f < |s.flushes| && s.flushes[f].seen <= |s.pubs|
    && CountPassed(s.pubs, f) == Owed(s, f)
    && ((exists p :: 0 <= p < s.flushes[f].seen && PassedBy(s.pubs[p], f)) <==> Owed(s, f) > PassedSince(s, f))
  }

  /**
   * Every run: a flush that reports and answers Ok passes over exactly as many publishes as are owed,
   * and over one it must answer for if and only if more are owed than were counted since it opened.
   */
  lemma OkFlushPassesBy(events: seq<Event>, f: nat)
    requires ValidRun(INIT, events) && Enabled(After(INIT, events), Report(f))
    requires AnsweredOk(Next(After(INIT, events), Report(f)), f)
    ensures PassesOverWhatIsOwed(Next(After(INIT, events), Report(f)), f)
  {
    TruthfulFromTheStart(events);
    OkReportPassesBy(After(INIT, events), f);
  }

  lemma OkReportPassesBy(s: System, f: nat)
    requires Audited(s) && Enabled(s, Report(f)) && AnsweredOk(Next(s, Report(f)), f)
    ensures PassesOverWhatIsOwed(Next(s, Report(f)), f)
  {
    var end := Next(s, Report(f));
    AuditedStep(s, Report(f));
    assert FlushAudited(end, f);
    OkReadsNothingNew(s, f);
    PassedOrBefore(end.pubs, f);
    SomePassed(end, f);
  }

  /** An Ok is what a flush says when the total it reads back is the one it opened with. */
  lemma OkReadsNothingNew(s: System, f: nat)
    requires Enabled(s, Report(f))
    ensures
      var end := Next(s, Report(f));
      && end.tracker.lost == 0 && end.debt.missed == 0
      && (AnsweredOk(end, f) <==> end.tracker.reported == end.flushes[f].openedAt)
  {
  }

  lemma SomePassed(s: System, f: nat)
    requires f < |s.flushes| && s.flushes[f].seen <= |s.pubs|
    ensures
      (exists p :: 0 <= p < s.flushes[f].seen && PassedBy(s.pubs[p], f)) <==> CountPassed(s.pubs, f) > PassedSince(s, f)
  {
    var seen := s.flushes[f].seen;
    SumSplit(PassedWeight(f), s.pubs, seen);
    SumZero(PassedWeight(f), s.pubs[..seen]);
    assert forall p | 0 <= p < seen :: s.pubs[..seen][p] == s.pubs[p];
    assert forall pub :: PassedWeight(f)(pub) == 0 <==> !PassedBy(pub, f);
  }

  // -- exactly when an Ok is sound ---------------------------------------------

  /** While every recorded loss was counted, what a flush marked as reported it told of. */
  predicate Truthful(s: System) {
    && s.debt.missed >= 0 && s.debt.told >= 0
    && (forall f | 0 <= f < |s.flushes| :: 0 <= s.flushes[f].toldAt <= s.debt.told)
    && (s.debt.missed + s.debt.told == 0 ==> AllTold(s))
  }

  predicate AllTold(s: System) {
    && (forall f | 0 <= f < |s.flushes| :: s.flushes[f].openedAt <= s.tracker.reported)
    && (forall p | 0 <= p < |s.pubs| :: s.pubs[p].fate.Reported? ==>
          s.pubs[p].fate.flush < |s.flushes| && ReportedALoss(s.flushes[s.pubs[p].fate.flush].stage))
  }

  lemma TruthfulStep(s: System, e: Event)
    requires Audited(s) && Truthful(s) && Enabled(s, e)
    ensures Truthful(Next(s, e))
  {
    DebtsGrow(s, e);
    if Next(s, e).debt.missed + Next(s, e).debt.told == 0 {
      if e.Report? {
        ToldByReport(s, e.flush);
      } else {
        ToldStays(s, e);
      }
    }
  }

  /** What was missed or never told stays so. */
  lemma DebtsGrow(s: System, e: Event)
    requires Truthful(s) && s.debt.open >= 0 && Enabled(s, e)
    ensures
      var s' := Next(s, e);
      && s'.debt.missed >= 0 && s'.debt.told >= s.debt.told
      && s'.debt.missed + s'.debt.told >= s.debt.missed + s.debt.told
      && forall f | 0 <= f < |s'.flushes| :: 0 <= s'.flushes[f].toldAt <= s'.debt.told
  {
    var s' := Next(s, e);
    forall f | 0 <= f < |s'.flushes|
      ensures 0 <= s'.flushes[f].toldAt <= s'.debt.told
    {
      if f < |s.flushes| {
        OpeningStays(s, e, f);
      }
    }
  }

  lemma ToldStays(s: System, e: Event)
    requires Enabled(s, e) && !e.Report? && AllTold(s)
    ensures AllTold(Next(s, e))
  {
    var s' := Next(s, e);
    forall f | 0 <= f < |s'.flushes|
      ensures s'.flushes[f].openedAt <= s'.tracker.reported
    {
      if f < |s.flushes| {
        FlushKeepsItsOpening(s, e, f);
      }
    }
    forall p | 0 <= p < |s'.pubs| && s'.pubs[p].fate.Reported?
      ensures s'.pubs[p].fate.flush < |s'.flushes| && ReportedALoss(s'.flushes[s'.pubs[p].fate.flush].stage)
    {
      if p < |s.pubs| {
        FateStep(s, e, p);
        StagesStay(s, e, s.pubs[p].fate.flush);
      }
    }
  }

  lemma ToldByReport(s: System, f: nat)
    requires Balanced(s) && AllTold(s) && Enabled(s, Report(f))
    requires Next(s, Report(f)).debt.told == 0 && s.debt.missed == 0 && s.debt.told == 0
    ensures AllTold(Next(s, Report(f)))
  {
    NoneOfAKind(s.pubs);
    assert s.flushes[f].openedAt <= s.tracker.reported && s.tracker.reported + s.tracker.lost < U64;
    if s.tracker.lost > 0 {
      LossIsTold(s, f);
    }
    OthersStay(s, f);
  }

  lemma LossIsTold(s: System, f: nat)
    requires Enabled(s, Report(f)) && s.flushes[f].openedAt <= s.tracker.reported
    requires s.tracker.lost > 0 && s.tracker.reported + s.tracker.lost < U64
    ensures ReportedALoss(Next(s, Report(f)).flushes[f].stage)
  {
  }

  lemma OthersStay(s: System, f: nat)
    requires Enabled(s, Report(f)) && s.tracker.reported + s.tracker.lost < U64
    ensures
      var s' := Next(s, Report(f));
      && |s'.flushes| == |s.flushes| && !s.flushes[f].stage.Answered?
      && s'.tracker.reported == s.tracker.reported + s.tracker.lost
      && (forall g | 0 <= g < |s.flushes| :: s'.flushes[g].openedAt == s.flushes[g].openedAt)
      && (forall g | 0 <= g < |s.flushes| :: g != f ==> s'.flushes[g] == s.flushes[g])
  {
  }

  lemma {:induction false} TruthfulRun(s: System, events: seq<Event>)
    requires Audited(s) && Truthful(s) && ValidRun(s, events)
    ensures Truthful(After(s, events))
    decreases |events|
  {
    if events == [] {
    } else {
      TruthfulStep(s, events[0]);
      AuditedStep(s, events[0]);
      TruthfulRun(Next(s, events[0]), events[1..]);
    }
  }

  lemma NothingYetAudited(s: System)
    requires s.tracker == FRESH && s.pubs == [] && s.flushes == [] && s.debt == NO_DEBT
    ensures Audited(s) && Truthful(s)
  {
  }

  lemma TruthfulFromTheStart(events: seq<Event>)
    requires ValidRun(INIT, events)
    ensures Audited(After(INIT, events)) && Truthful(After(INIT, events))
  {
    NothingYetAudited(INIT);
    AuditedRun(INIT, events);
    TruthfulRun(INIT, events);
  }

  /**
   * The exact condition, on every run whose recorded losses were all counted and told, whatever the
   * broker, the callers and the client did. When a flush answers Ok, it accounts for every publish
   * counted before it opened if and only if no more is outstanding by the count, and owed by it,
   * than was counted since it opened.
   */
  lemma OkIsSoundExactlyWhen(events: seq<Event>, f: nat)
    requires ValidRun(INIT, events) && Enabled(After(INIT, events), Report(f))
    requires AnsweredOk(Next(After(INIT, events), Report(f)), f)
    requires Next(After(INIT, events), Report(f)).debt.told == 0
    ensures SoundWhenLittleIsOwed(Next(After(INIT, events), Report(f)), f)
  {
    TruthfulFromTheStart(events);
    OkIsSoundIn(After(INIT, events), f);
  }

  predicate SoundWhenLittleIsOwed(s: System, f: nat) {
    && f < |s.flushes| && s.flushes[f].seen <= |s.pubs|
    && ((forall p | 0 <= p < s.flushes[f].seen :: AccountsFor(s, f, p)) <==>
          s.tracker.unacked + s.debt.open <= PassedSince(s, f))
  }

  lemma OkIsSoundIn(s: System, f: nat)
    requires Audited(s) && Truthful(s) && Enabled(s, Report(f))
    requires AnsweredOk(Next(s, Report(f)), f) && Next(s, Report(f)).debt.told == 0
    ensures SoundWhenLittleIsOwed(Next(s, Report(f)), f)
  {
    var end := Next(s, Report(f));
    OkReportPassesBy(s, f);
    AuditedStep(s, Report(f));
    TruthfulStep(s, Report(f));
    OkReadsNothingNew(s, f);
    NoneOfAKind(end.pubs);
    forall p | 0 <= p < |end.pubs|
      ensures AccountsFor(end, f, p) <==> !PassedBy(end.pubs[p], f)
    {
    }
  }
}
