/**
 * The sequence rule of section 6.4.5 (Payload) of Sparkplug 3.0 as an atomic counter, one per
 * edge node. A reservation is one atomic episode. A committed episode appends its messages and
 * moves the count; a dropped one leaves the count and appends only what the client had already
 * taken.
 */
module SeqSpec {
  import opened Prelude
  import opened Types
  import opened Topic

  /** One message the client took. `task` names the publish call that sent it. */
  datatype Sent = Sent(topic: SparkplugTopic, number: u8, task: nat) {
    predicate IsNBirth() { topic.messageType.NBIRTH? }
  }

  /** One life of the gate: the topics it covers, how many the client took, and its end. */
  datatype Episode = Episode(task: nat, topics: seq<SparkplugTopic>, taken: nat, committed: bool) {
    /** A first message may be an NBIRTH, the second of a pair is not. */
    predicate Valid() {
      && |topics| >= 1
      && taken <= |topics|
      && (committed ==> taken == |topics|)
      && (forall i | 1 <= i < |topics| :: !topics[i].messageType.NBIRTH?)
    }
  }

  datatype Counter = Counter(count: u8, log: seq<Sent>)

  /** The number a reservation draws: an NBIRTH restarts the count, any other message adds 1. */
  function Draw(mt: MessageType, previous: u8): u8 {
    if mt.NBIRTH? then 0 else Succ8(previous)
  }

  /** The number the i-th message of one reservation carries. */
  function Number(previous: u8, topics: seq<SparkplugTopic>, i: nat): u8
    requires i < |topics|
  {
    if i == 0 then Draw(topics[0].messageType, previous) else Succ8(Number(previous, topics, i - 1))
  }

  function Messages(previous: u8, task: nat, topics: seq<SparkplugTopic>, taken: nat): (r: seq<Sent>)
    requires taken <= |topics|
    ensures |r| == taken
  {
    seq(taken, i requires 0 <= i < taken => Sent(topics[i], Number(previous, topics, i), task))
  }

  function Apply(c: Counter, e: Episode): Counter
    requires e.Valid()
  {
    Counter(
      if e.committed then Number(c.count, e.topics, |e.topics| - 1) else c.count,
      c.log + Messages(c.count, e.task, e.topics, e.taken))
  }

  ghost predicate ValidHistory(eps: seq<Episode>) {
    forall j | 0 <= j < |eps| :: eps[j].Valid()
  }

  function Replay(eps: seq<Episode>): Counter
    requires ValidHistory(eps)
  {
    if eps == [] then Counter(0, []) else Apply(Replay(eps[..|eps| - 1]), eps[|eps| - 1])
  }

  function Log(eps: seq<Episode>): seq<Sent>
    requires ValidHistory(eps)
  {
    Replay(eps).log
  }

  function Count(eps: seq<Episode>): u8
    requires ValidHistory(eps)
  {
    Replay(eps).count
  }

  lemma ReplayAppend(eps: seq<Episode>, e: Episode)
    requires ValidHistory(eps) && e.Valid()
    ensures ValidHistory(eps + [e])
    ensures Replay(eps + [e]) == Apply(Replay(eps), e)
  {
    assert (eps + [e])[..|eps|] == eps;
  }

  /** One more message taken under a reservation is one more message on the log. */
  lemma TakenGrows(eps: seq<Episode>, e: Episode)
    requires ValidHistory(eps) && e.Valid() && !e.committed && e.taken < |e.topics|
    ensures
      var next := e.(taken := e.taken + 1);
      var m := Sent(e.topics[e.taken], Number(Count(eps), e.topics, e.taken), e.task);
      && ValidHistory(eps + [e]) && ValidHistory(eps + [next])
      && Log(eps + [next]) == Log(eps + [e]) + [m]
  {
    var next := e.(taken := e.taken + 1);
    ReplayAppend(eps, e);
    ReplayAppend(eps, next);
    var m := Sent(e.topics[e.taken], Number(Count(eps), e.topics, e.taken), e.task);
    assert Messages(Count(eps), e.task, e.topics, next.taken) ==
           Messages(Count(eps), e.task, e.topics, e.taken) + [m];
  }

  /** How a reservation ends decides the count, and nothing about the log. */
  lemma EndDecidesTheCountOnly(eps: seq<Episode>, e: Episode)
    requires ValidHistory(eps) && e.Valid()
    ensures
      var open := e.(committed := false);
      && open.Valid() && ValidHistory(eps + [e]) && ValidHistory(eps + [open])
      && Log(eps + [e]) == Log(eps + [open])
      && Count(eps + [e]) == if e.committed then Number(Count(eps), e.topics, |e.topics| - 1) else Count(eps)
  {
    ReplayAppend(eps, e);
    ReplayAppend(eps, e.(committed := false));
  }

  // -- which episode sent which message ----------------------------------------

  /** The index of the episode that sent the i-th message. */
  function Owner(eps: seq<Episode>, i: nat): (j: nat)
    requires ValidHistory(eps) && i < |Log(eps)|
    ensures j < |eps| && eps[j].taken > 0
  {
    var before := eps[..|eps| - 1];
    if i < |Log(before)| then Owner(before, i) else |eps| - 1
  }

  /** Episodes stand on the wire in order, and none overlaps the next. */
  lemma {:induction false} StartsInOrder(eps: seq<Episode>, j: nat, k: nat)
    requires ValidHistory(eps) && j < k <= |eps|
    ensures |Log(eps[..j])| + eps[j].taken <= |Log(eps[..k])|
    decreases k
  {
    assert eps[..k][..k - 1] == eps[..k - 1];
    if j == k - 1 {
    } else {
      StartsInOrder(eps, j, k - 1);
    }
  }

  /** Where the messages of episode `j` stand in the log, and what they carry. */
  lemma {:induction false} EpisodeSpan(eps: seq<Episode>, j: nat, i: nat)
    requires ValidHistory(eps) && j < |eps| && i < eps[j].taken
    ensures |Log(eps[..j])| + i < |Log(eps)|
    ensures Log(eps)[|Log(eps[..j])| + i] ==
            Sent(eps[j].topics[i], Number(Count(eps[..j]), eps[j].topics, i), eps[j].task)
    ensures Owner(eps, |Log(eps[..j])| + i) == j
    decreases |eps|
  {
    if j == |eps| - 1 {
    } else {
      EpisodeSpan(eps[..|eps| - 1], j, i);
      assert eps[..|eps| - 1][..j] == eps[..j];
    }
  }

  /** Every message is some message of its owner. */
  lemma {:induction false} OwnerSpan(eps: seq<Episode>, p: nat) returns (i: nat)
    requires ValidHistory(eps) && p < |Log(eps)|
    ensures i < eps[Owner(eps, p)].taken
    ensures p == |Log(eps[..Owner(eps, p)])| + i
    decreases |eps|
  {
    var before := eps[..|eps| - 1];
    if p < |Log(before)| {
      i := OwnerSpan(before, p);
      assert before[..Owner(eps, p)] == eps[..Owner(eps, p)];
    } else {
      i := p - |Log(before)|;
    }
  }

  /** Episodes that sent nothing leave the counter alone. */
  lemma {:induction false} SilentEpisodes(eps: seq<Episode>, j: nat)
    requires ValidHistory(eps) && j <= |eps|
    requires forall m | j <= m < |eps| :: eps[m].taken == 0
    ensures Replay(eps) == Replay(eps[..j])
    decreases |eps|
  {
    if j < |eps| {
      SilentEpisodes(eps[..|eps| - 1], j);
      assert eps[..|eps| - 1][..j] == eps[..j];
      var c := Replay(eps[..|eps| - 1]);
      assert c.log + [] == c.log;
    } else {
      assert eps[..j] == eps;
    }
  }

  // -- the sequence rule -------------------------------------------------------

  /** The exact number of every message that follows another on the wire. */
  lemma NextNumber(eps: seq<Episode>, p: nat)
    requires ValidHistory(eps) && p + 1 < |Log(eps)|
    ensures
      var a, b := Log(eps)[p], Log(eps)[p + 1];
      var j := Owner(eps, p);
      b.number ==
        if b.IsNBirth() then 0
        else if Owner(eps, p + 1) == j || eps[j].committed then Succ8(a.number)
        else Succ8(Count(eps[..j]))
    ensures Owner(eps, p) <= Owner(eps, p + 1)
  {
    OwnersInOrder(eps, p);
    if Owner(eps, p) == Owner(eps, p + 1) {
      NumberInside(eps, p);
    } else {
      NumberAcross(eps, p);
    }
  }

  lemma OwnersInOrder(eps: seq<Episode>, p: nat)
    requires ValidHistory(eps) && p + 1 < |Log(eps)|
    ensures Owner(eps, p) <= Owner(eps, p + 1)
  {
    var j, k := Owner(eps, p), Owner(eps, p + 1);
    var i := OwnerSpan(eps, p);
    var l := OwnerSpan(eps, p + 1);
    if k < j {
      StartsInOrder(eps, k, j);
    }
  }

  /** Within one reservation each message adds 1, and only the first may be an NBIRTH. */
  lemma NumberInside(eps: seq<Episode>, p: nat)
    requires ValidHistory(eps) && p + 1 < |Log(eps)| && Owner(eps, p) == Owner(eps, p + 1)
    ensures !Log(eps)[p + 1].IsNBirth() && Log(eps)[p + 1].number == Succ8(Log(eps)[p].number)
  {
    var j := Owner(eps, p);
    var i := OwnerSpan(eps, p);
    var l := OwnerSpan(eps, p + 1);
    EpisodeSpan(eps, j, i);
    EpisodeSpan(eps, j, l);
  }

  /** Between two reservations the next message goes on from where the first left the count. */
  lemma NumberAcross(eps: seq<Episode>, p: nat)
    requires ValidHistory(eps) && p + 1 < |Log(eps)| && Owner(eps, p) < Owner(eps, p + 1)
    ensures
      var a, b := Log(eps)[p], Log(eps)[p + 1];
      var j := Owner(eps, p);
      b.number ==
        if b.IsNBirth() then 0
        else if eps[j].committed then Succ8(a.number)
        else Succ8(Count(eps[..j]))
  {
    var j := Owner(eps, p);
    NothingBetween(eps, p);
    assert eps[..j + 1][..j] == eps[..j];
  }

  /** Between the owners of two neighbours no episode sent anything. */
  lemma NothingBetween(eps: seq<Episode>, p: nat)
    requires ValidHistory(eps) && p + 1 < |Log(eps)|
    requires Owner(eps, p) < Owner(eps, p + 1)
    ensures Count(eps[..Owner(eps, p + 1)]) == Count(eps[..Owner(eps, p) + 1])
    ensures Log(eps)[p + 1].topic == eps[Owner(eps, p + 1)].topics[0]
    ensures Log(eps)[p].topic == eps[Owner(eps, p)].topics[eps[Owner(eps, p)].taken - 1]
    ensures Log(eps)[p].number ==
            Number(Count(eps[..Owner(eps, p)]), eps[Owner(eps, p)].topics, eps[Owner(eps, p)].taken - 1)
    ensures Log(eps)[p + 1].number == Draw(Log(eps)[p + 1].topic.messageType, Count(eps[..Owner(eps, p + 1)]))
  {
    var j, k := Owner(eps, p), Owner(eps, p + 1);
    var i := OwnerSpan(eps, p);
    var l := OwnerSpan(eps, p + 1);
    StartsInOrder(eps, j, k);
    assert l == 0 && i == eps[j].taken - 1;
    EpisodeSpan(eps, j, i);
    EpisodeSpan(eps, k, 0);
    forall m | j < m < k
      ensures eps[m].taken == 0
    {
      StartsInOrder(eps, j, m);
      StartsInOrder(eps, m, k);
    }
    assert eps[..k][..j + 1] == eps[..j + 1];
    SilentEpisodes(eps[..k], j + 1);
  }

  /** The first message ever carries 0 when it is an NBIRTH and 1 otherwise. */
  lemma FirstNumber(eps: seq<Episode>)
    requires ValidHistory(eps) && |Log(eps)| > 0
    ensures Log(eps)[0].number == if Log(eps)[0].IsNBirth() then 0 else 1
  {
    var j := Owner(eps, 0);
    var i := OwnerSpan(eps, 0);
    EpisodeSpan(eps, j, 0);
    forall m | 0 <= m < j
      ensures eps[m].taken == 0
    {
      StartsInOrder(eps, m, j);
    }
    SilentEpisodes(eps[..j], 0);
    assert eps[..j][..0] == [];
  }

  /**
   * The open window: when the client took the only message of a reservation and the call was then
   * cancelled, the next message that is no NBIRTH repeats that number exactly.
   */
  lemma TakenThenDroppedIsRepeated(eps: seq<Episode>, p: nat)
    requires ValidHistory(eps) && p + 1 < |Log(eps)|
    requires
      var e := eps[Owner(eps, p)];
      !e.committed && |e.topics| == 1 && !Log(eps)[p].IsNBirth()
    requires !Log(eps)[p + 1].IsNBirth()
    ensures Log(eps)[p + 1].number == Log(eps)[p].number
  {
    NextNumber(eps, p);
    var j := Owner(eps, p);
    var i := OwnerSpan(eps, p);
    EpisodeSpan(eps, j, i);
    var l := OwnerSpan(eps, p + 1);
    assert Owner(eps, p + 1) != j;
  }

  /** A committed birth stands on the wire as 0 then 1, side by side. */
  lemma CommittedPairIsAdjacent(eps: seq<Episode>, j: nat) returns (p: nat)
    requires ValidHistory(eps) && j < |eps|
    requires eps[j].committed && |eps[j].topics| == 2 && eps[j].topics[0].messageType.NBIRTH?
    ensures p + 1 < |Log(eps)|
    ensures Log(eps)[p] == Sent(eps[j].topics[0], 0, eps[j].task)
    ensures Log(eps)[p + 1] == Sent(eps[j].topics[1], 1, eps[j].task)
  {
    p := |Log(eps[..j])|;
    EpisodeSpan(eps, j, 0);
    EpisodeSpan(eps, j, 1);
  }

  // -- the number a count stands for -------------------------------------------

  /** The number of the latest message of a call in `kept`, 0 when there is none. */
  function LastKept(kept: set<nat>, w: seq<Sent>): u8 {
    if w == [] then 0
    else if w[|w| - 1].task in kept then w[|w| - 1].number
    else LastKept(kept, w[..|w| - 1])
  }

  lemma {:induction false} LastKeptOfAppend(kept: set<nat>, w: seq<Sent>, v: seq<Sent>, task: nat)
    requires forall i | 0 <= i < |v| :: v[i].task == task
    ensures task !in kept || v == [] ==> LastKept(kept, w + v) == LastKept(kept, w)
    ensures task in kept && v != [] ==> LastKept(kept, w + v) == v[|v| - 1].number
  {
    if v == [] {
      assert w + v == w;
    } else {
      var n := |v| - 1;
      assert (w + v)[..|w + v| - 1] == w + v[..n];
      LastKeptOfAppend(kept, w, v[..n], task);
    }
  }

  /** `kept` names the calls whose reservations were committed. */
  ghost predicate KeptAre(kept: set<nat>, eps: seq<Episode>) {
    forall j | 0 <= j < |eps| :: eps[j].task in kept <==> eps[j].committed
  }

  /** The count an edge node goes on from is the number of the last message it kept. */
  lemma {:induction false} CountIsTheLastKeptNumber(eps: seq<Episode>, kept: set<nat>)
    requires ValidHistory(eps) && KeptAre(kept, eps)
    ensures Count(eps) == LastKept(kept, Log(eps))
  {
    if eps == [] {
    } else {
      var before, e := eps[..|eps| - 1], eps[|eps| - 1];
      CountIsTheLastKeptNumber(before, kept);
      LastKeptOfAppend(kept, Log(before), Messages(Count(before), e.task, e.topics, e.taken), e.task);
    }
  }

  /** No two reservations belong to one call. */
  ghost predicate OneEach(eps: seq<Episode>) {
    forall i, j | 0 <= i < j < |eps| :: eps[i].task != eps[j].task
  }

  /**
   * The sequence rule, read off the wire and the calls that kept their numbers. A message goes on by
   * 1 from the one before it, unless that one's call was dropped; after a dropped call it goes on by
   * 1 from the last message that was kept.
   */
  lemma NumberAfter(eps: seq<Episode>, kept: set<nat>, p: nat)
    requires ValidHistory(eps) && KeptAre(kept, eps) && OneEach(eps) && p + 1 < |Log(eps)|
    ensures
      var w := Log(eps);
      w[p + 1].number ==
        if w[p + 1].IsNBirth() then 0
        else if w[p].task in kept || w[p].task == w[p + 1].task then Succ8(w[p].number)
        else Succ8(LastKept(kept, w[..p + 1]))
  {
    NextNumber(eps, p);
    var j, k := Owner(eps, p), Owner(eps, p + 1);
    var i := OwnerSpan(eps, p);
    var l := OwnerSpan(eps, p + 1);
    EpisodeSpan(eps, j, i);
    EpisodeSpan(eps, k, l);
    if j < k && !eps[j].committed {
      DroppedOwnerLeavesTheCount(eps, kept, p);
    }
  }

  lemma DroppedOwnerLeavesTheCount(eps: seq<Episode>, kept: set<nat>, p: nat)
    requires ValidHistory(eps) && KeptAre(kept, eps) && p + 1 < |Log(eps)|
    requires Owner(eps, p) < Owner(eps, p + 1) && !eps[Owner(eps, p)].committed
    ensures Count(eps[..Owner(eps, p)]) == LastKept(kept, Log(eps)[..p + 1])
  {
    var j := Owner(eps, p);
    var e := eps[j];
    var i := OwnerSpan(eps, p);
    if i + 1 < e.taken {
      EpisodeSpan(eps, j, i + 1);
    }
    assert eps[..j + 1][..j] == eps[..j];
    LogUpTo(eps, j, p);
    CountIsTheLastKeptNumber(eps[..j], kept);
    LastKeptOfAppend(kept, Log(eps[..j]), Messages(Count(eps[..j]), e.task, e.topics, e.taken), e.task);
  }

  /** The wire up to the last message of an episode is the log of the episodes so far. */
  lemma {:induction false} LogUpTo(eps: seq<Episode>, j: nat, p: nat)
    requires ValidHistory(eps) && j < |eps| && p + 1 == |Log(eps[..j + 1])|
    ensures p < |Log(eps)| && Log(eps)[..p + 1] == Log(eps[..j + 1])
    decreases |eps|
  {
    if j + 1 < |eps| {
      assert eps[..|eps| - 1][..j + 1] == eps[..j + 1];
      LogUpTo(eps[..|eps| - 1], j, p);
    } else {
      assert eps[..j + 1] == eps;
    }
  }

  // -- the closed form ---------------------------------------------------------

  /** No episode but the last was dropped after the client took from it. */
  ghost predicate Clean(eps: seq<Episode>) {
    forall j | 0 <= j < |eps| - 1 :: eps[j].taken > 0 ==> eps[j].committed
  }

  /** How many messages back from `i` the latest NBIRTH stands; `i + 1` when there was none. */
  function SinceBirth(w: seq<Sent>, i: nat): nat
    requires i < |w|
  {
    if w[i].IsNBirth() then 0 else if i == 0 then 1 else 1 + SinceBirth(w, i - 1)
  }

  lemma {:induction false} SinceBirthMeaning(w: seq<Sent>, i: nat)
    requires i < |w|
    ensures SinceBirth(w, i) <= i + 1
    ensures forall k | i - SinceBirth(w, i) < k <= i :: !w[k].IsNBirth()
    ensures SinceBirth(w, i) <= i ==> w[i - SinceBirth(w, i)].IsNBirth()
  {
    if w[i].IsNBirth() || i == 0 {
    } else {
      SinceBirthMeaning(w, i - 1);
    }
  }

  lemma SuccOfResidue(n: nat)
    ensures Succ8(n % U8) == (n + 1) % U8
  {
  }

  /** In a clean history every message goes on from the one before it. */
  lemma CleanStep(eps: seq<Episode>, p: nat)
    requires ValidHistory(eps) && Clean(eps) && p + 1 < |Log(eps)|
    ensures Log(eps)[p + 1].number == if Log(eps)[p + 1].IsNBirth() then 0 else Succ8(Log(eps)[p].number)
  {
    NextNumber(eps, p);
  }

  /** In a clean history the i-th message after the latest NBIRTH carries i mod 256. */
  lemma {:induction false} ClosedForm(eps: seq<Episode>, i: nat)
    requires ValidHistory(eps) && Clean(eps) && i < |Log(eps)|
    ensures Log(eps)[i].number == SinceBirth(Log(eps), i) % U8
  {
    if i == 0 {
      FirstNumber(eps);
    } else {
      ClosedForm(eps, i - 1);
      CleanStep(eps, i - 1);
      SuccOfResidue(SinceBirth(Log(eps), i - 1));
    }
  }

  /** So 256 consecutive messages with no later NBIRTH carry 256 distinct numbers. */
  lemma NoRepeatWithin256(eps: seq<Episode>, i: nat, k: nat)
    requires ValidHistory(eps) && Clean(eps)
    requires i < k < |Log(eps)| && k - i < U8
    requires forall m | i < m <= k :: !Log(eps)[m].IsNBirth()
    ensures Log(eps)[i].number != Log(eps)[k].number
  {
    ClosedForm(eps, i);
    ClosedForm(eps, k);
    SinceBirthAdds(Log(eps), i, k);
    DistinctResidues(SinceBirth(Log(eps), i), k - i);
  }

  lemma DistinctResidues(s: nat, d: nat)
    requires 0 < d < U8
    ensures s % U8 != (s + d) % U8
  {
  }

  lemma {:induction false} SinceBirthAdds(w: seq<Sent>, i: nat, k: nat)
    requires i <= k < |w|
    requires forall m | i < m <= k :: !w[m].IsNBirth()
    ensures SinceBirth(w, k) == SinceBirth(w, i) + (k - i)
    decreases k
  {
    if i == k {
    } else {
      SinceBirthAdds(w, i, k - 1);
    }
  }
}
