/** How often a message is delivered before it is requeued, and why a threshold of 1 is different. */
module DeliveryBound {
  import opened Tables
  import opened Ordering
  import opened Claims
  import opened Enqueue
  import opened Lifecycle
  import opened Machine
  import opened RowHistory
  import opened Histories
  import opened ExclusiveClaims
  import opened DeadLetters
  import opened ConfigReads

  /** Claims the message may still see on its own topic. */
  function Attempts(m: Message): nat {
    if m.status == Pending then
      if m.maxRetries == 0 then 1 else if m.retryCount < m.maxRetries then m.maxRetries - m.retryCount else 0
    else if m.status == Processing then
      if m.maxRetries != 0 && m.retryCount + 1 < m.maxRetries then m.maxRetries - m.retryCount - 1 else 0
    else 0
  }

  predicate Alive(m: Message) {
    m.status == Pending || m.status == Processing
  }

  /** An upper bound on the claims still to come: one more is kept in reserve for the dead letter. */
  function Credit(m: Option<Message>): nat {
    if m.None? || !Alive(m.value) then 0
    else if m.value.originalTopic.Some? then (if m.value.status == Pending then 1 else 0)
    else Attempts(m.value) + 1
  }

  /** Promotions still to come. */
  function PromotionsLeft(m: Option<Message>): nat {
    if m.Some? && Alive(m.value) && m.value.originalTopic.None? then 1 else 0
  }

  ghost function ClaimCount(h: Run, id: Id, i: nat, j: nat): nat
    requires Shaped(h) && i <= j <= |h.events|
    decreases j
  {
    if i == j then 0 else ClaimCount(h, id, i, j - 1) + if ClaimedAt(h, j - 1, id) then 1 else 0
  }

  ghost function Promotions(p: Settings, h: Run, id: Id, i: nat, j: nat): nat
    requires Shaped(h) && i <= j <= |h.events|
    decreases j
  {
    if i == j then 0 else Promotions(p, h, id, i, j - 1) + if PromotedAt(p, h, j - 1, id) then 1 else 0
  }

  /** One step spends what it delivers or promotes. */
  lemma StepSpends(p: Settings, db: Db, e: Event, reply: Reply, id: Id, a: Option<Message>, b: Option<Message>)
    requires RowStep(p, db, e, reply, id, a, b) && a == Row(db, id)
    requires a.Some? ==> SettledRow(a.value) && a.value.key.None?
    requires a.None? ==> id !in NewIds(e.op)
    requires NackSeesNone(db, e.op) && p.dlqThreshold != 1
    requires !(e.op.OpRequeue? && e.op.id == id && reply == Done)
    ensures b.Some? ==> a.Some? && b.value.key.None?
    ensures
      var claimed := (e.op.OpDequeue? || e.op.OpDequeueN?) && id in Rows(reply);
      var promoted := && e.op.OpNack? && e.op.id == id && reply == Done && a.Some?
                      && ReachesThreshold(Threshold(p, e.op.cfg), a.value.retryCount);
      && (if claimed then 1 else 0) + Credit(b) <= Credit(a)
      && (if promoted then 1 else 0) + PromotionsLeft(b) <= PromotionsLeft(a)
  {
  }

  lemma SpendsAt(p: Settings, h: Run, id: Id, i: nat, j: nat)
    requires Chronicle(p, h) && i <= j < |h.events|
    requires p.dlqThreshold != 1 && ReservedUnconfigured(h)
    requires Introduced(h, i, id) && !RequeuedAt(h, j, id)
    requires id in h.states[j].messages ==> h.states[j].messages[id].key.None?
    ensures id in h.states[j + 1].messages ==> h.states[j + 1].messages[id].key.None?
    ensures (if ClaimedAt(h, j, id) then 1 else 0) + Credit(Row(h.states[j + 1], id)) <= Credit(Row(h.states[j], id))
    ensures (if PromotedAt(p, h, j, id) then 1 else 0) + PromotionsLeft(Row(h.states[j + 1], id)) <= PromotionsLeft(Row(h.states[j], id))
  {
    RowSettled(p, h, id, j);
    var db := h.states[j];
    assert RowAt(p, h, j, id) && NackSeesNone(db, h.events[j].op);
    NotBroughtAgain(h, i, j, id);
    StepSpends(p, db, h.events[j], h.replies[j], id, Row(db, id), Row(h.states[j + 1], id));
  }

  lemma {:induction false} Spends(p: Settings, h: Run, id: Id, i: nat, j: nat)
    requires Chronicle(p, h) && i <= j <= |h.events|
    requires p.dlqThreshold != 1 && ReservedUnconfigured(h) && Introduced(h, i, id)
    requires id in h.states[i].messages ==> h.states[i].messages[id].key.None?
    requires forall k :: i <= k < j ==> !RequeuedAt(h, k, id)
    ensures ClaimCount(h, id, i, j) + Credit(Row(h.states[j], id)) <= Credit(Row(h.states[i], id))
    ensures Promotions(p, h, id, i, j) + PromotionsLeft(Row(h.states[j], id)) <= PromotionsLeft(Row(h.states[i], id))
    ensures id in h.states[j].messages ==> h.states[j].messages[id].key.None?
    decreases j
  {
    if i < j {
      Spends(p, h, id, i, j - 1);
      SpendsAt(p, h, id, i, j - 1);
    }
  }

  /** Call i inserts the keyless message id with the given max_retries. */
  ghost predicate InsertedAt(h: Run, i: nat, id: Id, maxRetries: int)
    requires Shaped(h) && i < |h.events|
  {
    && id !in h.states[i].messages && id in h.states[i + 1].messages
    && h.states[i + 1].messages[id].key.None? && h.states[i + 1].messages[id].maxRetries == maxRetries
  }

  /** A run in which id is inserted at i and not requeued before j ... */
  ghost predicate LivesUntil(p: Settings, h: Run, id: Id, maxRetries: int, i: nat, j: nat) {
    && History(p, h) && i < j <= |h.events|
    && InsertedAt(h, i, id, maxRetries)
    && forall k :: i < k < j ==> !RequeuedAt(h, k, id)
  }

  /** ... and nacks of dead letters see no configuration. */
  ghost predicate UninterruptedLife(p: Settings, h: Run, id: Id, maxRetries: int, i: nat, j: nat) {
    LivesUntil(p, h, id, maxRetries, i, j) && ReservedUnconfigured(h)
  }

  function Bound(maxRetries: int): nat {
    (if maxRetries > 1 then maxRetries else 1) + 1
  }

  /** Whatever the per-topic thresholds do meanwhile: at most max(1, R) + 1 claims and one promotion. */
  lemma DeliveriesBounded(p: Settings, h: Run, id: Id, maxRetries: int, i: nat, j: nat)
    requires p.dlqThreshold != 1 && UninterruptedLife(p, h, id, maxRetries, i, j)
    ensures ClaimCount(h, id, i + 1, j) <= Bound(maxRetries)
    ensures Promotions(p, h, id, i + 1, j) <= 1
  {
    ChronicleOf(p, h);
    assert RowAt(p, h, i, id);
    BornRow(p, h.states[i], h.events[i], h.replies[i], id, Row(h.states[i], id), Row(h.states[i + 1], id));
    Newborn(p, h.states[i], h.events[i], h.replies[i], id, Row(h.states[i], id), Row(h.states[i + 1], id));
    assert SoundAt(h, i + 1);
    Spends(p, h, id, i + 1, j);
  }

  lemma Newborn(p: Settings, db: Db, e: Event, reply: Reply, id: Id, a: Option<Message>, b: Option<Message>)
    requires RowStep(p, db, e, reply, id, a, b) && a.None? && b.Some?
    ensures b.value.status == Pending && b.value.retryCount == 0
    ensures Credit(b) <= Bound(b.value.maxRetries)
  {
  }

  /** The measure that makes retrying stop: each claim followed by a nack strictly lowers it. */
  lemma CycleDecreases(p: Settings, m: Message, deadline: Time, reason: string, cfg: Option<TopicConfig>, now: Time)
    requires m.status == Pending && (m.maxRetries == 0 || m.retryCount < m.maxRetries)
    requires SettledRow(m) && (Reserved(m.topic) ==> cfg.None?) && p.dlqThreshold != 1
    ensures Credit(Some(NackRow(Claim(m, deadline), reason, Threshold(p, cfg), now))) < Credit(Some(m))
  {
  }

  // -------------------------------------------------- a global threshold of 1

  /** A topic configuration under which messages never expire. */
  const Lasting := TopicConfig(Some(1), Some(0), None, false, None, None)

  /** A run that configures topic "a", inserts one keyless message there, and has cycled it k times through claim, nack
      and promotion; every call sees the configuration row there is. */
  ghost predicate Cycling(p: Settings, h: Run, k: nat) {
    && History(p, h) && |h.events| == 2 * k + 2 && Informed(h)
    && Undisturbed(h)
    && InsertedAt(h, 1, 0, 1)
    && ClaimCount(h, 0, 2, |h.events|) == k
    && CyclingState(h.states[|h.events|])
    && (k == 0 ==> h.states[|h.events|].messages[0].topic == "a")
  }

  /** Everything happens at once, nothing is requeued, and nothing new comes after the first two calls. */
  ghost predicate Undisturbed(h: Run) {
    forall i :: 0 <= i < |h.events| ==>
      h.events[i].now == 0.0 && !h.events[i].op.OpRequeue? && (i > 1 ==> NewIds(h.events[i].op) == {})
  }

  ghost predicate CyclingState(db: Db) {
    && db.messages.Keys == {0} && db.buckets == map[] && db.config == map["a" := Lasting]
    && Ready(db.messages[0])
    && (db.messages[0].topic == "a" || Reserved(db.messages[0].topic))
  }

  /** A nack promotes the message: by its topic's own limit, or by the global threshold. */
  ghost predicate Promotes(p: Settings, db: Db) {
    0 in db.messages && (p.dlqThreshold == 1 || db.messages[0].topic == "a")
  }

  predicate Ready(m: Message) {
    && m.status == Pending && m.visibility.None? && m.expiresAt.None? && m.key.None?
    && m.retryCount >= 0 && (m.maxRetries == 0 || m.retryCount < m.maxRetries)
  }

  function ClaimIt(db: Db): Event
    requires 0 in db.messages
  {
    Event(OpDequeue(db.messages[0].topic, 1.0), 0.0)
  }

  function NackIt(db: Db): Event
    requires 0 in db.messages
  {
    Event(OpNack(0, "", RowOf(db, db.messages[0].topic)), 0.0)
  }

  /** A claim and a nack by which the message goes one level further down. */
  ghost predicate DownOnce(p: Settings, db: Db, e1: Event, r1: Reply, db1: Db, e2: Event, r2: Reply, db2: Db) {
    && e1.op.OpDequeue? && 0 in Rows(r1) && e1.now == 0.0 && SeesRow(db, e1.op)
    && e2.op.OpNack? && e2.op.id == 0 && r2 == Done && e2.now == 0.0 && SeesRow(db1, e2.op)
    && 0 in db.messages && 0 in db1.messages && db1.messages[0].topic == db.messages[0].topic
    && ReachesThreshold(Threshold(p, e2.op.cfg), db1.messages[0].retryCount)
    && CyclingState(db2)
    && db2.messages[0].topic == DlqTopic(db.messages[0].topic)
    && db2.messages[0].originalTopic == Some(db.messages[0].topic)
  }

  lemma CycleOnce(p: Settings, db: Db)
    requires CyclingState(db) && Promotes(p, db)
    ensures
      var (db1, r1) := Step(p, db, ClaimIt(db));
      var (db2, r2) := Step(p, db1, NackIt(db));
      DownOnce(p, db, ClaimIt(db), r1, db1, NackIt(db), r2, db2)
  {
    ClaimOnce(p, db);
    var db1 := Step(p, db, ClaimIt(db)).0;
    NackOnce(p, db, db1, Step(p, db1, NackIt(db)).0, NackIt(db));
  }

  lemma ClaimOnce(p: Settings, db: Db)
    requires CyclingState(db)
    ensures
      var (db1, r1) := Step(p, db, ClaimIt(db));
      db1 == db.(messages := map[0 := Claim(db.messages[0], Deadline(p, 0.0, 1.0))]) && r1.Claimed? && 0 in r1.rows
  {
    var topic := db.messages[0].topic;
    assert Claimable(db.messages, topic, 0.0) == {0};
    assert Oldest(db.messages, {0}) == 0;
  }

  lemma NackOnce(p: Settings, db: Db, db1: Db, db2: Db, e: Event)
    requires CyclingState(db) && Promotes(p, db) && e == NackIt(db) && db2 == Step(p, db1, e).0
    requires db1 == db.(messages := map[0 := Claim(db.messages[0], Deadline(p, 0.0, 1.0))])
    ensures Step(p, db1, e).1 == Done && SeesRow(db1, e.op)
    ensures ReachesThreshold(Threshold(p, e.op.cfg), db1.messages[0].retryCount)
    ensures CyclingState(db2) && db2.messages[0] == Promote(db1.messages[0], "", 0.0)
  {
    assert db2.messages.Keys == {0};
  }

  ghost function Extend(p: Settings, h: Run, e: Event): (g: Run)
    requires Shaped(h) && Enabled(h.states[|h.events|], e)
    ensures Shaped(g) && |g.events| == |h.events| + 1
  {
    var (db, reply) := Step(p, h.states[|h.events|], e);
    Run(h.events + [e], h.replies + [reply], h.states + [db])
  }

  lemma ExtendKeepsTrace(p: Settings, h: Run, e: Event)
    requires Trace(p, h) && Enabled(h.states[|h.events|], e) && !e.op.OpReplay?
    requires forall i :: 0 <= i < |h.events| ==> h.events[i].now <= e.now && NewIds(h.events[i].op) !! NewIds(e.op)
    ensures Trace(p, Extend(p, h, e))
  {
    var g := Extend(p, h, e);
    forall i | 0 <= i < |g.events| ensures StepAt(p, g, i) {
      if i < |h.events| {
        assert StepAt(p, h, i);
      }
    }
  }

  lemma {:induction false} CountIgnoresTail(h: Run, g: Run, id: Id, i: nat, j: nat)
    requires Shaped(h) && Shaped(g) && i <= j <= |h.events| <= |g.events|
    requires h.events <= g.events && h.replies <= g.replies
    ensures ClaimCount(g, id, i, j) == ClaimCount(h, id, i, j)
    decreases j
  {
    if i < j {
      CountIgnoresTail(h, g, id, i, j - 1);
    }
  }

  /** g is h and two more calls, by which the message goes one level further down. */
  ghost predicate Cycled(p: Settings, h: Run, g: Run) {
    var n := |h.events|;
    && Shaped(h) && History(p, g) && |g.events| == n + 2
    && h.events <= g.events && h.replies <= g.replies && h.states <= g.states
    && DownOnce(p, h.states[n], g.events[n], g.replies[n], g.states[n + 1], g.events[n + 1], g.replies[n + 1], g.states[n + 2])
  }

  lemma OneMoreCycle(p: Settings, h: Run) returns (g: Run)
    requires History(p, h) && CyclingState(h.states[|h.events|]) && Promotes(p, h.states[|h.events|])
    requires Undisturbed(h)
    ensures Cycled(p, h, g)
  {
    var db := h.states[|h.events|];
    CycleOnce(p, db);
    g := TwoMoreCalls(p, h, ClaimIt(db), NackIt(db));
  }

  lemma OneMoreCall(p: Settings, h: Run, e: Event) returns (g: Run)
    requires History(p, h) && Enabled(h.states[|h.events|], e) && !e.op.OpReplay?
    requires forall i :: 0 <= i < |h.events| ==> h.events[i].now <= e.now && NewIds(h.events[i].op) !! NewIds(e.op)
    ensures
      var (after, reply) := Step(p, h.states[|h.events|], e);
      && History(p, g) && g.events == h.events + [e] && g.replies == h.replies + [reply] && g.states == h.states + [after]
  {
    g := Extend(p, h, e);
    ExtendKeepsTrace(p, h, e);
  }

  lemma TwoMoreCalls(p: Settings, h: Run, e1: Event, e2: Event) returns (g: Run)
    requires History(p, h) && !e1.op.OpReplay? && !e2.op.OpReplay?
    requires e1.now == e2.now && NewIds(e1.op) !! NewIds(e2.op)
    requires forall i :: 0 <= i < |h.events| ==>
      h.events[i].now <= e1.now && NewIds(h.events[i].op) !! NewIds(e1.op) + NewIds(e2.op)
    ensures
      var (db1, r1) := Step(p, h.states[|h.events|], e1);
      var (db2, r2) := Step(p, db1, e2);
      && History(p, g) && g.events == h.events + [e1, e2] && g.replies == h.replies + [r1, r2]
      && g.states == h.states + [db1, db2]
  {
    var g1 := OneMoreCall(p, h, e1);
    g := OneMoreCall(p, g1, e2);
  }

  lemma OneMoreClaim(p: Settings, h: Run, g: Run)
    requires Shaped(h) && |h.events| >= 2 && Cycled(p, h, g)
    ensures ClaimCount(g, 0, 2, |g.events|) == ClaimCount(h, 0, 2, |h.events|) + 1
  {
    var n := |h.events|;
    CountIgnoresTail(h, g, 0, 2, n);
    assert ClaimedAt(g, n, 0) && !ClaimedAt(g, n + 1, 0);
    assert ClaimCount(g, 0, 2, n + 1) == ClaimCount(h, 0, 2, n) + 1;
  }

  lemma StaysInformed(p: Settings, h: Run, g: Run)
    requires Shaped(h) && Informed(h) && Cycled(p, h, g)
    ensures Informed(g)
  {
    forall i | 0 <= i < |g.events| ensures SeesRow(g.states[i], g.events[i].op) {
      if i < |h.events| {
        assert SeesRow(h.states[i], h.events[i].op);
      }
    }
  }

  lemma StaysUndisturbed(p: Settings, h: Run, g: Run)
    requires Undisturbed(h) && Cycled(p, h, g)
    ensures Undisturbed(g)
  {
    forall i | 0 <= i < |g.events|
      ensures g.events[i].now == 0.0 && !g.events[i].op.OpRequeue? && (i > 1 ==> NewIds(g.events[i].op) == {})
    {
      if i < |h.events| {
        assert g.events[i] == h.events[i];
      }
    }
  }

  lemma CyclesGoOn(p: Settings, h: Run, k: nat) returns (g: Run)
    requires Cycling(p, h, k) && Promotes(p, h.states[|h.events|])
    ensures Cycling(p, g, k + 1) && Cycled(p, h, g)
  {
    g := OneMoreCycle(p, h);
    OneMoreClaim(p, h, g);
    StaysInformed(p, h, g);
    StaysUndisturbed(p, h, g);
  }

  lemma FirstEnqueue(p: Settings, e0: Event, e1: Event)
    requires e0 == Event(OpUpsertConfig("a", Lasting), 0.0)
    requires e1 == Event(OpEnqueue("a", "", map[], None, None, Some(Lasting), 0), 0.0)
    ensures
      var (db1, r1) := Step(p, EmptyDb, e0);
      var (db2, r2) := Step(p, db1, e1);
      && db1 == EmptyDb.(config := map["a" := Lasting]) && CyclingState(db2)
      && db2.messages[0].topic == "a" && db2.messages[0].maxRetries == 1
  {
    var db1 := Step(p, EmptyDb, e0).0;
    assert db1.config == map["a" := Lasting];
    assert Holders(db1, "a", None) == {} == Waiting(db1, "a");
    assert Step(p, db1, e1).0.messages.Keys == {0};
  }

  lemma FirstCycle(p: Settings) returns (h: Run)
    ensures Cycling(p, h, 0)
  {
    var e0 := Event(OpUpsertConfig("a", Lasting), 0.0);
    var e1 := Event(OpEnqueue("a", "", map[], None, None, Some(Lasting), 0), 0.0);
    FirstEnqueue(p, e0, e1);
    h := TwoMoreCalls(p, Run([], [], [EmptyDb]), e0, e1);
  }

  /** No row is ever a reserved topic's. */
  lemma InformedMeansUnconfigured(p: Settings, h: Run)
    requires History(p, h) && Informed(h)
    ensures ReservedUnconfigured(h)
  {
    forall i | 0 <= i < |h.events| ensures NackSeesNone(h.states[i], h.events[i].op) {
      DeadLetterProvenance(p, h, i);
      assert SeesRow(h.states[i], h.events[i].op);
    }
  }

  /** With a threshold of 1 a single message can be claimed any number of times without a requeue. */
  lemma {:induction false} UnboundedAtThresholdOne(p: Settings, k: nat) returns (h: Run)
    requires p.dlqThreshold == 1
    ensures UninterruptedLife(p, h, 0, 1, 1, |h.events|)
    ensures ClaimCount(h, 0, 2, |h.events|) == k
    ensures Cycling(p, h, k)
    decreases k
  {
    if k == 0 {
      h := FirstCycle(p);
    } else {
      var g := UnboundedAtThresholdOne(p, k - 1);
      h := CyclesGoOn(p, g, k - 1);
    }
    InformedMeansUnconfigured(p, h);
  }

  ghost predicate AlwaysBounded(p: Settings) {
    forall h, id, maxRetries, i: nat, j: nat :: UninterruptedLife(p, h, id, maxRetries, i, j) ==>
      ClaimCount(h, id, i + 1, j) <= Bound(maxRetries)
  }

  /** The bound holds of every run exactly when the global threshold is not 1. */
  lemma BoundedIffThresholdNotOne(p: Settings)
    ensures AlwaysBounded(p) <==> p.dlqThreshold != 1
  {
    if p.dlqThreshold == 1 {
      var h := UnboundedAtThresholdOne(p, Bound(1) + 1);
      assert !(ClaimCount(h, 0, 1 + 1, |h.events|) <= Bound(1));
    } else {
      forall h, id, maxRetries, i: nat, j: nat | UninterruptedLife(p, h, id, maxRetries, i, j)
        ensures ClaimCount(h, id, i + 1, j) <= Bound(maxRetries)
      {
        DeliveriesBounded(p, h, id, maxRetries, i, j);
      }
    }
  }
}
