/** Archive-reaper passes anywhere in a run leave what a later replay copies as it is. */
module ReplayErasure {
  import opened Tables
  import opened Throttle
  import opened Claims
  import opened Enqueue
  import opened Lifecycle
  import opened Maintenance
  import opened Replay
  import opened Machine
  import opened RowHistory
  import opened Erasure

  ghost function After(p: Settings, db: Db, es: seq<Event>): Db
    requires NoReplay(es)
    decreases |es|
  {
    if es == [] then db else After(p, Step(p, db, es[0]).0, es[1..])
  }

  predicate IsArchivePass(op: Op) {
    op.OpArchiveReap?
  }

  predicate KeepsConfigOf(op: Op, topic: string) {
    !((op.OpUpsertConfig? || op.OpDeleteConfig?) && op.topic == topic)
  }

  /** a is b without some log rows; those of the topic have aged. */
  ghost predicate Trails(a: Db, b: Db, topic: string, now: Time) {
    && SameButLog(a, b)
    && (forall r :: r in a.log && r.topic == topic ==> r in b.log)
    && (forall r :: r in b.log && r !in a.log && r.topic == topic ==> Aged(b.config, r, now))
  }

  // No call but a replay looks at the log.

  predicate SameButLog(a: Db, b: Db) {
    && a.messages == b.messages && a.deliveries == b.deliveries && a.groups == b.groups
    && a.config == b.config && a.buckets == b.buckets
  }

  lemma LimitIgnoresLog(a: Db, b: Db, topic: string, n: int, now: Time)
    requires SameButLog(a, b)
    ensures
      var (x, y) := (ApplyThroughputLimit(a, topic, n, now), ApplyThroughputLimit(b, topic, n, now));
      SameButLog(x.0, y.0) && x.1 == y.1
  {
  }

  lemma DequeueIgnoresLog(p: Settings, a: Db, b: Db, topic: string, vt: Time, now: Time)
    requires SameButLog(a, b)
    ensures SameButLog(Dequeue(p, a, topic, vt, now).0, Dequeue(p, b, topic, vt, now).0)
  {
    LimitIgnoresLog(a, b, topic, 1, now);
  }

  lemma DequeueNIgnoresLog(p: Settings, a: Db, b: Db, topic: string, n: int, vt: Time, now: Time)
    requires SameButLog(a, b)
    ensures SameButLog(DequeueN(p, a, topic, n, vt, now).0, DequeueN(p, b, topic, n, vt, now).0)
  {
    LimitIgnoresLog(a, b, topic, n, now);
  }

  lemma ClaimableIgnoresLog(a: Db, b: Db, topic: string, group: string, now: Time)
    requires SameButLog(a, b)
    ensures ClaimableFor(a, topic, group, now) == ClaimableFor(b, topic, group, now)
  {
  }

  lemma GroupDequeueIgnoresLog(p: Settings, a: Db, b: Db, topic: string, group: string, vt: Time, now: Time)
    requires SameButLog(a, b)
    ensures SameButLog(DequeueForGroup(p, a, topic, group, vt, now).0, DequeueForGroup(p, b, topic, group, vt, now).0)
  {
    LimitIgnoresLog(a, b, topic, 1, now);
    ClaimableIgnoresLog(ApplyThroughputLimit(a, topic, 1, now).0, ApplyThroughputLimit(b, topic, 1, now).0, topic, group, now);
  }

  lemma GroupDequeueNIgnoresLog(p: Settings, a: Db, b: Db, topic: string, group: string, n: int, vt: Time, now: Time)
    requires SameButLog(a, b)
    ensures SameButLog(DequeueNForGroup(p, a, topic, group, n, vt, now).0, DequeueNForGroup(p, b, topic, group, n, vt, now).0)
  {
    LimitIgnoresLog(a, b, topic, n, now);
    ClaimableIgnoresLog(ApplyThroughputLimit(a, topic, n, now).0, ApplyThroughputLimit(b, topic, n, now).0, topic, group, now);
  }

  lemma ClaimsIgnoreLog(p: Settings, a: Db, b: Db, e: Event)
    requires SameButLog(a, b) && IsClaim(e.op)
    ensures SameButLog(Step(p, a, e).0, Step(p, b, e).0)
  {
    match e.op
    case OpDequeue(topic, vt) => DequeueIgnoresLog(p, a, b, topic, vt, e.now);
    case OpDequeueN(topic, n, vt) => DequeueNIgnoresLog(p, a, b, topic, n, vt, e.now);
    case OpDequeueForGroup(topic, group, vt) => GroupDequeueIgnoresLog(p, a, b, topic, group, vt, e.now);
    case OpDequeueNForGroup(topic, group, n, vt) => GroupDequeueNIgnoresLog(p, a, b, topic, group, n, vt, e.now);
  }

  lemma UpsertIgnoresLog(p: Settings, a: Db, b: Db, newId: Id, m: Message)
    requires SameButLog(a, b)
    ensures SameButLog(Upsert(p, a, newId, m).0, Upsert(p, b, newId, m).0)
  {
    assert Holders(a, m.topic, m.key) == Holders(b, m.topic, m.key);
  }

  lemma EnqueueIgnoresLog(p: Settings, a: Db, b: Db, e: Event)
    requires SameButLog(a, b) && e.op.OpEnqueue?
    ensures SameButLog(Step(p, a, e).0, Step(p, b, e).0)
  {
    UpsertIgnoresLog(p, a, b, e.op.newId,
      NewMessage(e.op.topic, e.op.key, e.op.payload, e.op.metadata, ResolveMaxRetries(p, e.op.cfg),
                 ResolveExpiresAt(p, e.op.cfg, e.now), e.now));
    assert Waiting(a, e.op.topic) == Waiting(b, e.op.topic);
  }

  lemma AckIgnoresLog(a: Db, b: Db, id: Id, now: Time)
    requires SameButLog(a, b)
    ensures SameButLog(Ack(a, id, now).0, Ack(b, id, now).0) && Ack(a, id, now).1 == Ack(b, id, now).1
  {
  }

  lemma GroupAckIgnoresLog(a: Db, b: Db, id: Id, group: string, now: Time)
    requires SameButLog(a, b)
    ensures SameButLog(AckForGroup(a, id, group, now).0, AckForGroup(b, id, group, now).0)
    ensures AckForGroup(a, id, group, now).1 == AckForGroup(b, id, group, now).1
  {
    var k := DeliveryKey(id, group);
    assert DeliveriesOf(DropDelivery(a, k), id) == DeliveriesOf(DropDelivery(b, k), id);
  }

  lemma KeyTakenIgnoresLog(a: Db, b: Db, topic: string, key: Option<string>, id: Id)
    requires a.messages == b.messages
    ensures KeyTaken(a, topic, key, id) <==> KeyTaken(b, topic, key, id)
  {
  }

  lemma NacksIgnoreLog(p: Settings, a: Db, b: Db, id: Id, group: string, reason: string, cfg: Option<TopicConfig>, now: Time)
    requires SameButLog(a, b)
    ensures SameButLog(Nack(p, a, id, reason, cfg, now).0, Nack(p, b, id, reason, cfg, now).0)
    ensures SameButLog(NackForGroup(p, a, id, group, reason, cfg).0, NackForGroup(p, b, id, group, reason, cfg).0)
    ensures SameButLog(Requeue(p, a, id, cfg).0, Requeue(p, b, id, cfg).0)
  {
    if id in a.messages {
      var m := NackRow(a.messages[id], reason, Threshold(p, cfg), now);
      KeyTakenIgnoresLog(a, b, m.topic, m.key, id);
      if IsDeadLetter(a.messages[id]) {
        KeyTakenIgnoresLog(a, b, a.messages[id].originalTopic.value, a.messages[id].key, id);
      }
    }
  }

  lemma SettlingIgnoresLog(p: Settings, a: Db, b: Db, e: Event)
    requires SameButLog(a, b) && IsSettling(e.op)
    ensures SameButLog(Step(p, a, e).0, Step(p, b, e).0)
    ensures e.op.OpAck? || e.op.OpAckForGroup? ==> Step(p, a, e).1 == Step(p, b, e).1
  {
    match e.op
    case OpAck(id) => AckIgnoresLog(a, b, id, e.now);
    case OpAckForGroup(id, group) => GroupAckIgnoresLog(a, b, id, group, e.now);
    case OpNack(id, reason, cfg) => NacksIgnoreLog(p, a, b, id, "", reason, cfg, e.now);
    case OpNackForGroup(id, group, reason, cfg) => NacksIgnoreLog(p, a, b, id, group, reason, cfg, e.now);
    case OpRequeue(id, cfg) => NacksIgnoreLog(p, a, b, id, "", "", cfg, e.now);
  }

  lemma DeletesIgnoreLog(a: Db, b: Db, gone: set<Id>)
    requires SameButLog(a, b)
    ensures SameButLog(DeleteMessages(a, gone), DeleteMessages(b, gone))
  {
  }

  lemma RemovalsIgnoreLog(p: Settings, a: Db, b: Db, e: Event)
    requires SameButLog(a, b) && IsRemoval(e.op)
    ensures SameButLog(Step(p, a, e).0, Step(p, b, e).0)
  {
    match e.op
    case OpDeleteReap =>
      assert ExpiredIds(a) == ExpiredIds(b);
      DeletesIgnoreLog(a, b, ExpiredIds(a));
    case OpPurgeTopic(topic, statuses) =>
      assert PurgeTopicIds(a, topic, statuses) == PurgeTopicIds(b, topic, statuses);
      DeletesIgnoreLog(a, b, PurgeTopicIds(a, topic, statuses));
    case OpPurgeByKey(topic, key) =>
      assert PurgeKeyIds(a, topic, key) == PurgeKeyIds(b, topic, key);
      DeletesIgnoreLog(a, b, PurgeKeyIds(a, topic, key));
    case _ =>
  }

  lemma RegistryIgnoresLog(p: Settings, a: Db, b: Db, e: Event)
    requires SameButLog(a, b) && (e.op.OpRegister? || e.op.OpUnregister?)
    ensures SameButLog(Step(p, a, e).0, Step(p, b, e).0)
  {
  }

  lemma StepIgnoresLog(p: Settings, a: Db, b: Db, e: Event)
    requires SameButLog(a, b) && !e.op.OpReplay?
    ensures SameButLog(Step(p, a, e).0, Step(p, b, e).0)
    ensures e.op.OpAck? || e.op.OpAckForGroup? ==> Step(p, a, e).1 == Step(p, b, e).1
  {
    if IsClaim(e.op) {
      ClaimsIgnoreLog(p, a, b, e);
    } else if e.op.OpEnqueue? {
      EnqueueIgnoresLog(p, a, b, e);
    } else if IsSettling(e.op) {
      SettlingIgnoresLog(p, a, b, e);
    } else if IsRemoval(e.op) {
      RemovalsIgnoreLog(p, a, b, e);
    } else if e.op.OpRegister? || e.op.OpUnregister? {
      RegistryIgnoresLog(p, a, b, e);
    }
  }

  lemma SameLogged(a: Db, b: Db, e: Event, r: Reply, q: Reply, row: LogRow)
    requires SameButLog(a, b) && (e.op.OpAck? || e.op.OpAckForGroup? ==> r == q)
    ensures Logs(a, e, r, row) <==> Logs(b, e, q, row)
  {
  }

  /** The same call on both. */
  lemma BothStep(p: Settings, a: Db, b: Db, e: Event, topic: string)
    requires Trails(a, b, topic, e.now) && !e.op.OpReplay? && KeepsConfigOf(e.op, topic)
    requires BringsNewIds(a, e.op) && BringsNewIds(b, e.op)
    ensures Trails(Step(p, a, e).0, Step(p, b, e).0, topic, e.now)
  {
    var (x, r) := Step(p, a, e);
    var (y, q) := Step(p, b, e);
    StepIgnoresLog(p, a, b, e);
    LogSteps(p, a, e);
    LogSteps(p, b, e);
    ConfigSteps(p, b, e);
    forall row: LogRow | row.topic == topic
      ensures row in x.log ==> row in y.log
      ensures row in y.log && row !in x.log ==> Aged(y.config, row, e.now)
    {
      SameLogged(a, b, e, r, q, row);
    }
  }

  /** An archive pass on the first alone. */
  lemma PassStep(p: Settings, a: Db, b: Db, e: Event, topic: string)
    requires Trails(a, b, topic, e.now) && e.op.OpArchiveReap?
    ensures Trails(Step(p, a, e).0, b, topic, e.now)
  {
  }

  lemma TrailsLater(a: Db, b: Db, topic: string, t: Time, u: Time)
    requires Trails(a, b, topic, t) && t <= u
    ensures Trails(a, b, topic, u)
  {
  }

  lemma {:induction false} StillTrails(p: Settings, a: Db, b: Db, es: seq<Event>, topic: string, now: Time)
    requires NoReplay(es) && FreshFor(a, es) && FreshFor(b, es) && ClockAdvances(es)
    requires forall i :: 0 <= i < |es| ==> KeepsConfigOf(es[i].op, topic) && es[i].now <= now
    requires Trails(a, b, topic, if es == [] then now else es[0].now)
    ensures Trails(After(p, a, es), After(p, b, Without(es, IsArchivePass)), topic, now)
    ensures topic in a.config ==> topic in After(p, a, es).config && After(p, a, es).config[topic] == a.config[topic]
    decreases |es|
  {
    if es != [] {
      var e, rest := es[0], es[1..];
      var a1 := Step(p, a, e).0;
      FreshForRest(p, a, es);
      ConfigSteps(p, a, e);
      var later := if rest == [] then now else rest[0].now;
      if IsArchivePass(e.op) {
        PassStep(p, a, b, e, topic);
        TrailsLater(a1, b, topic, e.now, later);
        FreshForTail(b, es);
        StillTrails(p, a1, b, rest, topic, now);
        WithoutDrops(es, IsArchivePass);
      } else {
        var b1 := Step(p, b, e).0;
        BothStep(p, a, b, e, topic);
        TrailsLater(a1, b1, topic, e.now, later);
        FreshForRest(p, b, es);
        StillTrails(p, a1, b1, rest, topic, now);
        WithoutKeeps(es, IsArchivePass);
      }
    }
  }

  /** Erasing every archive-reaper pass from a run in which the topic's configuration stays as it is - whatever else
      happens between the passes - leaves what a later replay of the topic copies unchanged. */
  lemma ArchivePassesLeaveReplay(p: Settings, db: Db, es: seq<Event>, topic: string, from: Option<Time>, now: Time)
    requires NoReplay(es) && FreshFor(db, es) && ClockAdvances(es) && topic in db.config
    requires forall i :: 0 <= i < |es| ==> KeepsConfigOf(es[i].op, topic) && es[i].now <= now
    ensures
      var cfg := Some(db.config[topic]);
      ReplayRows(After(p, db, es), topic, from, cfg, now)
        == ReplayRows(After(p, db, Without(es, IsArchivePass)), topic, from, cfg, now)
  {
    StillTrails(p, db, db, es, topic, now);
  }
}
