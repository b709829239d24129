/** Every pending row can be claimed, so the oldest unexpired one always is. */
module Fifo {
  import opened Tables
  import opened Ordering
  import opened Throttle
  import opened Claims
  import opened Enqueue
  import opened Machine
  import opened RowHistory
  import opened Histories

  predicate SaneConfig(cfg: Option<TopicConfig>) {
    cfg.Some? && cfg.value.maxRetries.Some? ==> cfg.value.maxRetries.value >= 0
  }

  /** Limits are never negative. */
  ghost predicate SaneLimits(p: Settings, h: Run) {
    && p.maxRetries >= 0 && p.dlqThreshold >= 0 && p.deliveryRetries >= 0
    && forall i :: 0 <= i < |h.events| ==> SaneOp(h.events[i].op)
  }

  predicate SaneOp(op: Op) {
    match op
    case OpEnqueue(_, _, _, _, _, cfg, _) => SaneConfig(cfg)
    case OpNack(_, _, cfg) => SaneConfig(cfg)
    case OpRequeue(_, cfg) => SaneConfig(cfg)
    case _ => true
  }

  /** A keyed upsert does not lower max_retries to or below the retries already used. */
  ghost predicate GentleUpsert(p: Settings, db: Db, e: Event, reply: Reply) {
    e.op.OpEnqueue? && reply.Stored? && reply.id in db.messages ==>
      var r := ResolveMaxRetries(p, e.op.cfg);
      r == 0 || db.messages[reply.id].retryCount < r
  }

  ghost predicate GentleUpserts(p: Settings, h: Run)
    requires Shaped(h)
  {
    forall i :: 0 <= i < |h.events| ==> GentleUpsert(p, h.states[i], h.events[i], h.replies[i])
  }

  /** No deadline, and retries left. */
  predicate ReadyRow(m: Message) {
    && m.retryCount >= 0 && m.maxRetries >= 0
    && (m.status == Pending ==> m.visibility.None? && (m.maxRetries == 0 || m.retryCount < m.maxRetries))
  }

  predicate ReadyDelivery(d: Delivery) {
    && d.retryCount >= 0 && d.maxRetries >= 0
    && (d.status == Pending ==> d.visibility.None? && (d.maxRetries == 0 || d.retryCount < d.maxRetries))
  }

  ghost predicate AllReady(db: Db) {
    && (forall id :: id in db.messages ==> ReadyRow(db.messages[id]))
    && (forall k :: k in db.deliveries ==> ReadyDelivery(db.deliveries[k]))
    && (forall r :: r in db.log ==> r.maxRetries >= 0)
  }

  lemma RowStaysReady(p: Settings, db: Db, e: Event, reply: Reply, id: Id, a: Option<Message>, b: Option<Message>)
    requires RowStep(p, db, e, reply, id, a, b) && a == Row(db, id) && AllReady(db)
    requires SaneOp(e.op) && p.maxRetries >= 0 && p.dlqThreshold >= 0 && GentleUpsert(p, db, e, reply)
    ensures b.Some? ==> ReadyRow(b.value)
  {
  }

  lemma DeliveryStaysReady(p: Settings, db: Db, e: Event, reply: Reply, k: DeliveryKey, a: Option<Delivery>, b: Option<Delivery>)
    requires DeliveryStep(p, db, e, reply, k, a, b) && a == DeliveryAt(db, k) && AllReady(db)
    requires p.deliveryRetries >= 0
    ensures b.Some? ==> ReadyDelivery(b.value)
  {
  }

  lemma {:induction false} StaysReady(p: Settings, h: Run, i: nat)
    requires Chronicle(p, h) && i <= |h.events| && SaneLimits(p, h) && GentleUpserts(p, h)
    ensures AllReady(h.states[i])
    decreases i
  {
    if i > 0 {
      StaysReady(p, h, i - 1);
      var db, e, reply, after := h.states[i - 1], h.events[i - 1], h.replies[i - 1], h.states[i];
      assert GentleUpsert(p, db, e, reply) && SaneOp(e.op);
      forall id | id in after.messages ensures ReadyRow(after.messages[id]) {
        assert RowAt(p, h, i - 1, id);
        RowStaysReady(p, db, e, reply, id, Row(db, id), Row(after, id));
      }
      forall k | k in after.deliveries ensures ReadyDelivery(after.deliveries[k]) {
        assert DeliveryRowAt(p, h, i - 1, k);
        DeliveryStaysReady(p, db, e, reply, k, DeliveryAt(db, k), DeliveryAt(after, k));
      }
      assert LogAt(h, i - 1);
    }
  }

  /** The upsert leaves a ready pending row ready exactly when it is gentle. */
  lemma UpsertStaysReadyIffGentle(m: Message, payload: string, metadata: map<string, string>, r: int)
    requires ReadyRow(m) && m.status == Pending && r >= 0
    ensures ReadyRow(Overwrite(m, payload, metadata, r)) <==> r == 0 || m.retryCount < r
  {
  }

  lemma UngentleStrands(p: Settings, h: Run, i: nat)
    requires Trace(p, h) && Chronicle(p, h) && i < |h.events|
    requires !GentleUpsert(p, h.states[i], h.events[i], h.replies[i])
    ensures !AllReady(h.states[i + 1])
  {
    assert StepAt(p, h, i) && SoundAt(h, i) && RowAt(p, h, i, h.replies[i].id);
    assert !ReadyRow(h.states[i + 1].messages[h.replies[i].id]);
  }

  /** With limits that are not negative, every row is ready at every point of a run exactly when every upsert is gentle. */
  lemma AlwaysReadyIffGentle(p: Settings, h: Run)
    requires History(p, h) && SaneLimits(p, h)
    ensures (forall i :: 0 <= i <= |h.events| ==> AllReady(h.states[i])) <==> GentleUpserts(p, h)
  {
    ChronicleOf(p, h);
    if GentleUpserts(p, h) {
      forall i | 0 <= i <= |h.events| ensures AllReady(h.states[i]) {
        StaysReady(p, h, i);
      }
    } else {
      var i :| 0 <= i < |h.events| && !GentleUpsert(p, h.states[i], h.events[i], h.replies[i]);
      UngentleStrands(p, h, i);
    }
  }

  /** Keyless runs have no upserts at all. */
  lemma KeylessIsGentle(p: Settings, h: Run)
    requires History(p, h)
    requires forall i :: 0 <= i < |h.events| && h.events[i].op.OpEnqueue? ==> h.events[i].op.key.None?
    ensures GentleUpserts(p, h)
  {
    ChronicleOf(p, h);
    forall i | 0 <= i < |h.events| ensures GentleUpsert(p, h.states[i], h.events[i], h.replies[i]) {
      if h.replies[i].Stored? {
        assert RowAt(p, h, i, h.replies[i].id);
      }
    }
  }

  function InLine(db: Db, topic: string, now: Time): set<Id> {
    set i | i in db.messages && db.messages[i].topic == topic && db.messages[i].status == Pending
            && Unexpired(db.messages[i], now)
  }

  function InLineFor(db: Db, topic: string, group: string, now: Time): set<Id> {
    set i | i in db.messages && db.messages[i].topic == topic && Unexpired(db.messages[i], now)
            && DeliveryKey(i, group) in db.deliveries && db.deliveries[DeliveryKey(i, group)].status == Pending
  }

  /** Unless throttled, Dequeue hands out the oldest unexpired pending message of the topic, skipping none. */
  lemma DequeueTakesOldest(p: Settings, h: Run, i: nat)
    requires History(p, h) && i < |h.events| && SaneLimits(p, h) && GentleUpserts(p, h)
    requires h.events[i].op.OpDequeue?
    ensures
      var (db, topic, now) := (h.states[i], h.events[i].op.topic, h.events[i].now);
      var waiting := InLine(db, topic, now);
      if ApplyThroughputLimit(db, topic, 1, now).1 == 0 || waiting == {} then h.replies[i] == Fail(ErrNoMessage)
      else
        var id := Oldest(db.messages, waiting);
        && h.replies[i] == Claimed(map[id := Show(db.messages[id])])
        && forall other :: other in waiting ==> db.messages[id].createdAt <= db.messages[other].createdAt
  {
    ChronicleOf(p, h);
    StaysReady(p, h, i);
    assert StepAt(p, h, i);
    var (db, topic, now) := (h.states[i], h.events[i].op.topic, h.events[i].now);
    assert InLine(db, topic, now) == Claimable(db.messages, topic, now);
  }

  /** The same for a consumer group, over its own pending deliveries. */
  lemma GroupDequeueTakesOldest(p: Settings, h: Run, i: nat)
    requires History(p, h) && i < |h.events| && SaneLimits(p, h) && GentleUpserts(p, h)
    requires h.events[i].op.OpDequeueForGroup?
    ensures
      var (db, topic, group, now) := (h.states[i], h.events[i].op.topic, h.events[i].op.group, h.events[i].now);
      var waiting := InLineFor(db, topic, group, now);
      if ApplyThroughputLimit(db, topic, 1, now).1 == 0 || waiting == {} then h.replies[i] == Fail(ErrNoMessage)
      else
        var id := Oldest(db.messages, waiting);
        && h.replies[i] == Claimed(map[id := ShowFor(db.messages[id], db.deliveries[DeliveryKey(id, group)])])
        && forall other :: other in waiting ==> db.messages[id].createdAt <= db.messages[other].createdAt
  {
    ChronicleOf(p, h);
    StaysReady(p, h, i);
    assert StepAt(p, h, i);
    var (db, topic, group, now) := (h.states[i], h.events[i].op.topic, h.events[i].op.group, h.events[i].now);
    assert InLineFor(db, topic, group, now) == ClaimableFor(db, topic, group, now);
  }
}
