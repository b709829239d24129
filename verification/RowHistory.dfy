/** What one step may do to one message row and to one delivery row. */
module RowHistory {
  import opened Tables
  import opened Claims
  import opened Enqueue
  import opened Lifecycle
  import opened Groups
  import opened Maintenance
  import opened Replay
  import opened Machine

  function Row(db: Db, id: Id): Option<Message> {
    if id in db.messages then Some(db.messages[id]) else None
  }

  function DeliveryAt(db: Db, k: DeliveryKey): Option<Delivery> {
    if k in db.deliveries then Some(db.deliveries[k]) else None
  }

  /** Every delivery refers to a live message. */
  ghost predicate Linked(db: Db) {
    forall k :: k in db.deliveries ==> k.id in db.messages
  }

  ghost predicate BringsNewIds(db: Db, op: Op) {
    DistinctIds(op) && NewIds(op) !! db.messages.Keys
  }

  /** The step e, answered with reply, takes row id from a to b. */
  ghost predicate RowStep(p: Settings, db: Db, e: Event, reply: Reply, id: Id, a: Option<Message>, b: Option<Message>) {
    match e.op
    case OpEnqueue(topic, payload, metadata, key, refusal, cfg, newId) =>
      if reply != Stored(id) then b == a
      else if a.None? then
        && id == newId && !Reserved(topic)
        && b == Some(NewMessage(topic, key, payload, metadata, ResolveMaxRetries(p, cfg), ResolveExpiresAt(p, cfg, e.now), e.now))
      else
        && key.Some? && PendingUnder(a.value, topic, key) && !Reserved(topic)
        && b == Some(Overwrite(a.value, payload, metadata, ResolveMaxRetries(p, cfg)))
    case OpDequeue(topic, vt) => ClaimStep(p, topic, vt, e.now, reply, id, a, b)
    case OpDequeueN(topic, n, vt) => ClaimStep(p, topic, vt, e.now, reply, id, a, b)
    case OpAck(x) =>
      if x == id && reply == Done then a.Some? && a.value.status == Processing && b.None? else b == a
    case OpNack(x, reason, cfg) =>
      if x == id && reply == Done then
        && a.Some? && a.value.status == Processing
        && b == Some(NackRow(a.value, reason, Threshold(p, cfg), e.now))
      else b == a
    case OpAckForGroup(x, g) =>
      if x == id && reply == Done && DeliveriesOf(db, x) == {DeliveryKey(x, g)} then a.Some? && b.None? else b == a
    case OpRequeue(x, cfg) =>
      if x == id && reply == Done then
        && a.Some? && IsDeadLetter(a.value)
        && b == Some(RequeueRow(a.value, Threshold(p, cfg)))
      else b == a
    case OpExpiryReap =>
      b == if a.Some? && Lapsed(a.value, e.now) then Some(a.value.(status := Expired)) else a
    case OpDeleteReap =>
      b == if a.Some? && a.value.status == Expired then None else a
    case OpPurgeTopic(topic, statuses) =>
      b == if a.Some? && a.value.topic == topic && a.value.status in statuses then None else a
    case OpPurgeByKey(topic, key) =>
      b == if a.Some? && a.value.topic == topic && a.value.key == Some(key) then None else a
    case OpReplay(topic, from, cfg, rows, ids) =>
      if a.Some? || b.None? then b == a
      else
        id in ids && exists r :: r in ReplayRows(db, topic, from, cfg, e.now)
                                && b == Some(Copy(r, ResolveExpiresAt(p, cfg, e.now), e.now))
    case _ => b == a
  }

  ghost predicate ClaimStep(p: Settings, topic: string, vt: Time, now: Time, reply: Reply, id: Id,
                            a: Option<Message>, b: Option<Message>) {
    if id in Rows(reply) then
      && a.Some? && Eligible(a.value, topic, now)
      && b == Some(Claim(a.value, Deadline(p, now, vt)))
      && Rows(reply)[id] == Show(a.value)
    else b == a
  }

  lemma {:induction false} CopiesOnlyAdd(p: Settings, db: Db, rows: seq<LogRow>, ids: seq<Id>,
                                         expiresAt: Option<Time>, now: Time, id: Id)
    requires |rows| <= |ids|
    requires forall i, j :: 0 <= i < j < |ids| ==> ids[i] != ids[j]
    requires forall i :: 0 <= i < |ids| ==> ids[i] !in db.messages
    ensures
      var db1 := InsertCopies(p, db, rows, ids, expiresAt, now).0;
      && db1.groups == db.groups && db1.config == db.config && db1.buckets == db.buckets && db1.log == db.log
      && (id in db.messages ==> id in db1.messages && db1.messages[id] == db.messages[id])
      && (id !in db.messages && id in db1.messages ==>
            id in ids && exists r :: r in rows && db1.messages[id] == Copy(r, expiresAt, now))
    decreases |rows|
  {
    if rows != [] {
      var m := Copy(rows[0], expiresAt, now);
      var db0 := if KeyTaken(db, m.topic, m.key, ids[0]) then db else InsertMessage(p, db, ids[0], m);
      CopiesOnlyAdd(p, db0, rows[1..], ids[1..], expiresAt, now, id);
      assert InsertCopies(p, db, rows, ids, expiresAt, now).0 == InsertCopies(p, db0, rows[1..], ids[1..], expiresAt, now).0;
    }
  }

  lemma RowStoring(p: Settings, db: Db, e: Event, id: Id)
    requires Enabled(db, e) && BringsNewIds(db, e.op)
    requires e.op.OpEnqueue?
    ensures
      var (db1, reply) := Step(p, db, e);
      RowStep(p, db, e, reply, id, Row(db, id), Row(db1, id))
  {
  }

  lemma RowClaiming(p: Settings, db: Db, e: Event, id: Id)
    requires Enabled(db, e) && BringsNewIds(db, e.op)
    requires e.op.OpDequeue? || e.op.OpDequeueN?
    ensures
      var (db1, reply) := Step(p, db, e);
      RowStep(p, db, e, reply, id, Row(db, id), Row(db1, id))
  {
  }

  lemma RowGroupClaiming(p: Settings, db: Db, e: Event, id: Id)
    requires Enabled(db, e) && BringsNewIds(db, e.op)
    requires e.op.OpDequeueForGroup? || e.op.OpDequeueNForGroup?
    ensures
      var (db1, reply) := Step(p, db, e);
      RowStep(p, db, e, reply, id, Row(db, id), Row(db1, id))
  {
  }

  lemma RowSettling(p: Settings, db: Db, e: Event, id: Id)
    requires Enabled(db, e) && BringsNewIds(db, e.op)
    requires e.op.OpAck? || e.op.OpNack? || e.op.OpRequeue?
    ensures
      var (db1, reply) := Step(p, db, e);
      RowStep(p, db, e, reply, id, Row(db, id), Row(db1, id))
  {
  }

  lemma RowGroupSettling(p: Settings, db: Db, e: Event, id: Id)
    requires Enabled(db, e) && BringsNewIds(db, e.op)
    requires e.op.OpAckForGroup? || e.op.OpNackForGroup?
    ensures
      var (db1, reply) := Step(p, db, e);
      RowStep(p, db, e, reply, id, Row(db, id), Row(db1, id))
  {
    if e.op.OpAckForGroup? {
      LastDelivery(db, DeliveryKey(e.op.id, e.op.group));
    }
  }

  lemma RowRegistry(p: Settings, db: Db, e: Event, id: Id)
    requires Enabled(db, e) && BringsNewIds(db, e.op)
    requires e.op.OpRegister? || e.op.OpUnregister?
    ensures
      var (db1, reply) := Step(p, db, e);
      RowStep(p, db, e, reply, id, Row(db, id), Row(db1, id))
  {
  }

  lemma RowUpkeep(p: Settings, db: Db, e: Event, id: Id)
    requires Enabled(db, e) && BringsNewIds(db, e.op)
    requires e.op.OpExpiryReap? || e.op.OpDeleteReap? || e.op.OpArchiveReap? || e.op.OpPurgeTopic? || e.op.OpPurgeByKey? || e.op.OpTrim? || e.op.OpUpsertConfig? || e.op.OpDeleteConfig?
    ensures
      var (db1, reply) := Step(p, db, e);
      RowStep(p, db, e, reply, id, Row(db, id), Row(db1, id))
  {
  }

  lemma RowSteps(p: Settings, db: Db, e: Event, id: Id)
    requires Enabled(db, e) && BringsNewIds(db, e.op)
    ensures
      var (db1, reply) := Step(p, db, e);
      RowStep(p, db, e, reply, id, Row(db, id), Row(db1, id))
  {
    if e.op.OpEnqueue? {
      RowStoring(p, db, e, id);
    } else if e.op.OpDequeue? || e.op.OpDequeueN? {
      RowClaiming(p, db, e, id);
    } else if e.op.OpDequeueForGroup? || e.op.OpDequeueNForGroup? {
      RowGroupClaiming(p, db, e, id);
    } else if e.op.OpAck? || e.op.OpNack? || e.op.OpRequeue? {
      RowSettling(p, db, e, id);
    } else if e.op.OpAckForGroup? || e.op.OpNackForGroup? {
      RowGroupSettling(p, db, e, id);
    } else if e.op.OpRegister? || e.op.OpUnregister? {
      RowRegistry(p, db, e, id);
    } else if e.op.OpReplay? {
      CopiesOnlyAdd(p, db, e.op.rows, e.op.ids, ResolveExpiresAt(p, e.op.cfg, e.now), e.now, id);
    } else {
      RowUpkeep(p, db, e, id);
    }
  }

  /** Dropping k leaves the message without deliveries exactly when k was its only one. */
  lemma LastDelivery(db: Db, k: DeliveryKey)
    ensures k in db.deliveries ==>
      (DeliveriesOf(DropDelivery(db, k), k.id) == {} <==> DeliveriesOf(db, k.id) == {k})
  {
    assert DeliveriesOf(DropDelivery(db, k), k.id) == DeliveriesOf(db, k.id) - {k};
    if k in db.deliveries {
      assert k in DeliveriesOf(db, k.id);
      if DeliveriesOf(db, k.id) - {k} == {} {
        assert DeliveriesOf(db, k.id) == {k};
      }
    }
  }

  /** The step e, answered with reply, takes delivery k from a to b. */
  ghost predicate DeliveryStep(p: Settings, db: Db, e: Event, reply: Reply, k: DeliveryKey, a: Option<Delivery>, b: Option<Delivery>) {
    match e.op
    case OpEnqueue(topic, payload, metadata, key, refusal, cfg, newId) =>
      b == if reply == Stored(newId) && k.id == newId && GroupKey(topic, k.group) in db.groups
           then Some(NewDelivery(p.deliveryRetries)) else a
    case OpDequeueForGroup(topic, group, vt) => GroupClaimStep(p, db, topic, group, vt, e.now, reply, k, a, b)
    case OpDequeueNForGroup(topic, group, n, vt) => GroupClaimStep(p, db, topic, group, vt, e.now, reply, k, a, b)
    case OpAck(x) => b == if x == k.id && reply == Done then None else a
    case OpAckForGroup(x, g) =>
      if k == DeliveryKey(x, g) && reply == Done then a.Some? && a.value.status == Processing && b.None? else b == a
    case OpNackForGroup(x, g, reason, cfg) =>
      if k == DeliveryKey(x, g) && reply == Done then
        && a.Some? && a.value.status == Processing
        && b == Some(NackDelivery(a.value, reason, Threshold(p, cfg)))
      else b == a
    case OpRegister(topic, group, cfg) =>
      b == if reply == Done && k.group == group && a.None? && OnTopic(db, k.id, topic) && db.messages[k.id].status == Pending
           then Some(NewDelivery(db.messages[k.id].maxRetries)) else a
    case OpUnregister(topic, group) =>
      b == if reply == Done && k.group == group && OnTopic(db, k.id, topic) then None else a
    case OpDeleteReap => b == if k.id in db.messages && db.messages[k.id].status == Expired then None else a
    case OpPurgeTopic(topic, statuses) => b == if k.id in PurgeTopicIds(db, topic, statuses) then None else a
    case OpPurgeByKey(topic, key) => b == if k.id in PurgeKeyIds(db, topic, key) then None else a
    case OpReplay(topic, from, cfg, rows, ids) =>
      if a.Some? || b.None? then b == a else k.id in ids && b == Some(NewDelivery(p.deliveryRetries))
    case _ => b == a
  }

  ghost predicate GroupClaimStep(p: Settings, db: Db, topic: string, group: string, vt: Time, now: Time, reply: Reply,
                                 k: DeliveryKey, a: Option<Delivery>, b: Option<Delivery>) {
    if k.group == group && k.id in Rows(reply) then
      && a.Some? && k.id in db.messages && EligibleFor(a.value, db.messages[k.id], topic, now)
      && b == Some(ClaimDelivery(a.value, Deadline(p, now, vt)))
      && Rows(reply)[k.id] == ShowFor(db.messages[k.id], a.value)
    else b == a
  }

  lemma {:induction false} CopiesKeepDeliveries(p: Settings, db: Db, rows: seq<LogRow>, ids: seq<Id>,
                                                expiresAt: Option<Time>, now: Time, k: DeliveryKey)
    requires |rows| <= |ids| && Linked(db)
    requires forall i, j :: 0 <= i < j < |ids| ==> ids[i] != ids[j]
    requires forall i :: 0 <= i < |ids| ==> ids[i] !in db.messages
    ensures
      var db1 := InsertCopies(p, db, rows, ids, expiresAt, now).0;
      && Linked(db1)
      && (k in db.deliveries ==> k in db1.deliveries && db1.deliveries[k] == db.deliveries[k])
      && (k !in db.deliveries && k in db1.deliveries ==> k.id in ids && db1.deliveries[k] == NewDelivery(p.deliveryRetries))
    decreases |rows|
  {
    if rows != [] {
      var m := Copy(rows[0], expiresAt, now);
      var db0 := if KeyTaken(db, m.topic, m.key, ids[0]) then db else InsertMessage(p, db, ids[0], m);
      CopiesKeepDeliveries(p, db0, rows[1..], ids[1..], expiresAt, now, k);
      assert InsertCopies(p, db, rows, ids, expiresAt, now).0 == InsertCopies(p, db0, rows[1..], ids[1..], expiresAt, now).0;
    }
  }

  lemma DeliveryStoring(p: Settings, db: Db, e: Event, k: DeliveryKey)
    requires Enabled(db, e) && BringsNewIds(db, e.op) && Linked(db)
    requires e.op.OpEnqueue?
    ensures
      var (db1, reply) := Step(p, db, e);
      && DeliveryStep(p, db, e, reply, k, DeliveryAt(db, k), DeliveryAt(db1, k))
      && (k in db1.deliveries ==> k.id in db1.messages)
  {
  }

  lemma DeliveryClaiming(p: Settings, db: Db, e: Event, k: DeliveryKey)
    requires Enabled(db, e) && BringsNewIds(db, e.op) && Linked(db)
    requires e.op.OpDequeue? || e.op.OpDequeueN?
    ensures
      var (db1, reply) := Step(p, db, e);
      && DeliveryStep(p, db, e, reply, k, DeliveryAt(db, k), DeliveryAt(db1, k))
      && (k in db1.deliveries ==> k.id in db1.messages)
  {
  }

  lemma DeliveryGroupClaiming(p: Settings, db: Db, e: Event, k: DeliveryKey)
    requires Enabled(db, e) && BringsNewIds(db, e.op) && Linked(db)
    requires e.op.OpDequeueForGroup? || e.op.OpDequeueNForGroup?
    ensures
      var (db1, reply) := Step(p, db, e);
      && DeliveryStep(p, db, e, reply, k, DeliveryAt(db, k), DeliveryAt(db1, k))
      && (k in db1.deliveries ==> k.id in db1.messages)
  {
  }

  lemma DeliverySettling(p: Settings, db: Db, e: Event, k: DeliveryKey)
    requires Enabled(db, e) && BringsNewIds(db, e.op) && Linked(db)
    requires e.op.OpAck? || e.op.OpNack? || e.op.OpRequeue?
    ensures
      var (db1, reply) := Step(p, db, e);
      && DeliveryStep(p, db, e, reply, k, DeliveryAt(db, k), DeliveryAt(db1, k))
      && (k in db1.deliveries ==> k.id in db1.messages)
  {
  }

  lemma DeliveryAckForGroup(db: Db, id: Id, group: string, now: Time, k: DeliveryKey)
    requires Linked(db)
    ensures
      var (db1, reply) := AckForGroup(db, id, group, now);
      && (if k == DeliveryKey(id, group) && reply == Done then
            k in db.deliveries && db.deliveries[k].status == Processing && k !in db1.deliveries
          else DeliveryAt(db1, k) == DeliveryAt(db, k))
      && (k in db1.deliveries ==> k.id in db1.messages)
  {
    var x := DeliveryKey(id, group);
    LastDelivery(db, x);
    if k in db.deliveries && k != x && k.id == id {
      assert k in DeliveriesOf(DropDelivery(db, x), id);
    }
  }

  lemma DeliveryGroupSettling(p: Settings, db: Db, e: Event, k: DeliveryKey)
    requires Enabled(db, e) && BringsNewIds(db, e.op) && Linked(db)
    requires e.op.OpAckForGroup? || e.op.OpNackForGroup?
    ensures
      var (db1, reply) := Step(p, db, e);
      && DeliveryStep(p, db, e, reply, k, DeliveryAt(db, k), DeliveryAt(db1, k))
      && (k in db1.deliveries ==> k.id in db1.messages)
  {
    if e.op.OpAckForGroup? {
      DeliveryAckForGroup(db, e.op.id, e.op.group, e.now, k);
    }
  }

  lemma DeliveryRegistry(p: Settings, db: Db, e: Event, k: DeliveryKey)
    requires Enabled(db, e) && BringsNewIds(db, e.op) && Linked(db)
    requires e.op.OpRegister? || e.op.OpUnregister?
    ensures
      var (db1, reply) := Step(p, db, e);
      && DeliveryStep(p, db, e, reply, k, DeliveryAt(db, k), DeliveryAt(db1, k))
      && (k in db1.deliveries ==> k.id in db1.messages)
  {
  }

  lemma DeliveryUpkeep(p: Settings, db: Db, e: Event, k: DeliveryKey)
    requires Enabled(db, e) && BringsNewIds(db, e.op) && Linked(db)
    requires e.op.OpExpiryReap? || e.op.OpDeleteReap? || e.op.OpArchiveReap? || e.op.OpPurgeTopic? || e.op.OpPurgeByKey? || e.op.OpTrim? || e.op.OpUpsertConfig? || e.op.OpDeleteConfig?
    ensures
      var (db1, reply) := Step(p, db, e);
      && DeliveryStep(p, db, e, reply, k, DeliveryAt(db, k), DeliveryAt(db1, k))
      && (k in db1.deliveries ==> k.id in db1.messages)
  {
  }

  lemma DeliverySteps(p: Settings, db: Db, e: Event, k: DeliveryKey)
    requires Enabled(db, e) && BringsNewIds(db, e.op) && Linked(db)
    ensures
      var (db1, reply) := Step(p, db, e);
      && DeliveryStep(p, db, e, reply, k, DeliveryAt(db, k), DeliveryAt(db1, k))
      && (k in db1.deliveries ==> k.id in db1.messages)
  {
    if e.op.OpEnqueue? {
      DeliveryStoring(p, db, e, k);
    } else if e.op.OpDequeue? || e.op.OpDequeueN? {
      DeliveryClaiming(p, db, e, k);
    } else if e.op.OpDequeueForGroup? || e.op.OpDequeueNForGroup? {
      DeliveryGroupClaiming(p, db, e, k);
    } else if e.op.OpAck? || e.op.OpNack? || e.op.OpRequeue? {
      DeliverySettling(p, db, e, k);
    } else if e.op.OpAckForGroup? || e.op.OpNackForGroup? {
      DeliveryGroupSettling(p, db, e, k);
    } else if e.op.OpRegister? || e.op.OpUnregister? {
      DeliveryRegistry(p, db, e, k);
    } else if e.op.OpReplay? {
      CopiesKeepDeliveries(p, db, e.op.rows, e.op.ids, ResolveExpiresAt(p, e.op.cfg, e.now), e.now, k);
    } else {
      DeliveryUpkeep(p, db, e, k);
    }
  }

  lemma StaysLinked(p: Settings, db: Db, e: Event)
    requires Enabled(db, e) && BringsNewIds(db, e.op) && Linked(db)
    ensures Linked(Step(p, db, e).0)
  {
    forall k | k in Step(p, db, e).0.deliveries ensures k.id in Step(p, db, e).0.messages {
      DeliverySteps(p, db, e, k);
    }
  }

  /** The step acknowledges the whole message: a plain ack, or the ack of its last delivery. */
  ghost predicate AcksMessage(db: Db, op: Op, reply: Reply, id: Id) {
    reply == Done &&
    (|| op == OpAck(id)
     || (op.OpAckForGroup? && op.id == id && DeliveriesOf(db, id) == {DeliveryKey(id, op.group)}))
  }

  /** The log row an acknowledgement writes: a group's row carries its own delivery's counters. */
  ghost function AckedRow(db: Db, e: Event, id: Id): LogRow
    requires id in db.messages
    requires e.op.OpAckForGroup? ==> DeliveryKey(id, e.op.group) in db.deliveries
  {
    var m := db.messages[id];
    if e.op.OpAckForGroup? then
      var d := db.deliveries[DeliveryKey(id, e.op.group)];
      Archived(id, m, d.retryCount, d.maxRetries, d.lastError, e.now)
    else Archived(id, m, m.retryCount, m.maxRetries, m.lastError, e.now)
  }

  /** These steps delete log row r. */
  ghost predicate Erases(db: Db, e: Event, r: LogRow) {
    || (e.op.OpTrim? && Trimmed(r, e.op.topic, e.op.before))
    || ((e.op.OpArchiveReap? || e.op.OpDeleteReap?) && Aged(db.config, r, e.now))
  }

  ghost predicate Logs(db: Db, e: Event, reply: Reply, r: LogRow) {
    && r.id in db.messages && AcksMessage(db, e.op, reply, r.id) && IsReplayable(db, db.messages[r.id].topic)
    && (e.op.OpAckForGroup? ==> DeliveryKey(r.id, e.op.group) in db.deliveries)
    && r == AckedRow(db, e, r.id)
  }

  /** The log after one step: erased rows leave, the acknowledged message enters if its topic is replayable. */
  ghost predicate LogStep(db: Db, e: Event, reply: Reply, after: Db) {
    forall r :: r in after.log <==> (r in db.log && !Erases(db, e, r)) || Logs(db, e, reply, r)
  }

  lemma AckLogs(p: Settings, db: Db, e: Event)
    requires Enabled(db, e) && e.op.OpAck?
    ensures LogStep(db, e, Step(p, db, e).1, Step(p, db, e).0)
  {
  }

  lemma GroupAckLogs(p: Settings, db: Db, e: Event)
    requires Enabled(db, e) && e.op.OpAckForGroup?
    ensures LogStep(db, e, Step(p, db, e).1, Step(p, db, e).0)
  {
    var k := DeliveryKey(e.op.id, e.op.group);
    LastDelivery(db, k);
    assert DeliveriesOf(db, e.op.id) == {k} ==> k in DeliveriesOf(db, e.op.id);
  }

  lemma ReapersLog(p: Settings, db: Db, e: Event)
    requires e.op.OpTrim? || e.op.OpArchiveReap? || e.op.OpDeleteReap?
    ensures LogStep(db, e, Step(p, db, e).1, Step(p, db, e).0)
  {
  }

  predicate IsClaim(op: Op) {
    op.OpDequeue? || op.OpDequeueN? || op.OpDequeueForGroup? || op.OpDequeueNForGroup?
  }

  predicate IsSettling(op: Op) {
    op.OpAck? || op.OpNack? || op.OpAckForGroup? || op.OpNackForGroup? || op.OpRequeue?
  }

  predicate IsRemoval(op: Op) {
    op.OpExpiryReap? || op.OpDeleteReap? || op.OpArchiveReap? || op.OpPurgeTopic? || op.OpPurgeByKey? || op.OpTrim?
  }

  /** These steps write to the log. */
  predicate WritesLog(op: Op) {
    op.OpAck? || op.OpAckForGroup? || op.OpTrim? || op.OpArchiveReap? || op.OpDeleteReap?
  }

  lemma PlainClaimsTouch(p: Settings, db: Db, e: Event)
    requires e.op.OpDequeue? || e.op.OpDequeueN?
    ensures
      var after := Step(p, db, e).0;
      after.log == db.log && after.config == db.config && after.groups == db.groups
  {
  }

  lemma ClaimsTouch(p: Settings, db: Db, e: Event)
    requires IsClaim(e.op)
    ensures
      var after := Step(p, db, e).0;
      after.log == db.log && after.config == db.config && after.groups == db.groups
  {
    if e.op.OpDequeue? || e.op.OpDequeueN? {
      PlainClaimsTouch(p, db, e);
    }
  }

  lemma SettlingTouches(p: Settings, db: Db, e: Event)
    requires IsSettling(e.op)
    ensures
      var after := Step(p, db, e).0;
      && after.config == db.config && after.groups == db.groups && after.buckets == db.buckets
      && (!WritesLog(e.op) ==> after.log == db.log)
  {
  }

  lemma RemovalsTouch(p: Settings, db: Db, e: Event)
    requires IsRemoval(e.op)
    ensures
      var after := Step(p, db, e).0;
      && after.config == db.config && after.groups == db.groups && after.buckets == db.buckets
      && (!WritesLog(e.op) ==> after.log == db.log)
  {
  }

  predicate OnlyRows(db: Db, after: Db) {
    after.log == db.log && after.config == db.config && after.groups == db.groups && after.buckets == db.buckets
  }

  lemma EnqueueTouches(p: Settings, db: Db, topic: string, payload: string, metadata: map<string, string>, key: Option<string>,
                       refusal: Option<Error>, cfg: Option<TopicConfig>, newId: Id, now: Time)
    ensures OnlyRows(db, Enqueue.Enqueue(p, db, topic, payload, metadata, key, refusal, cfg, newId, now).0)
  {
  }

  lemma {:induction false} CopiesTouch(p: Settings, db: Db, rows: seq<LogRow>, ids: seq<Id>, expiresAt: Option<Time>, now: Time)
    requires |rows| <= |ids|
    ensures OnlyRows(db, InsertCopies(p, db, rows, ids, expiresAt, now).0)
    decreases |rows|
  {
    if rows != [] {
      var m := Copy(rows[0], expiresAt, now);
      var db0 := if KeyTaken(db, m.topic, m.key, ids[0]) then db else InsertMessage(p, db, ids[0], m);
      CopiesTouch(p, db0, rows[1..], ids[1..], expiresAt, now);
    }
  }

  lemma StoringTouches(p: Settings, db: Db, e: Event)
    requires Enabled(db, e) && BringsNewIds(db, e.op) && (e.op.OpEnqueue? || e.op.OpReplay?)
    ensures OnlyRows(db, Step(p, db, e).0)
  {
    if e.op.OpReplay? {
      CopiesTouch(p, db, e.op.rows, e.op.ids, ResolveExpiresAt(p, e.op.cfg, e.now), e.now);
    } else {
      EnqueueTouches(p, db, e.op.topic, e.op.payload, e.op.metadata, e.op.key, e.op.refusal, e.op.cfg, e.op.newId, e.now);
    }
  }

  lemma OthersLeaveLog(p: Settings, db: Db, e: Event)
    requires Enabled(db, e) && BringsNewIds(db, e.op) && !WritesLog(e.op)
    ensures Step(p, db, e).0.log == db.log
  {
    if IsClaim(e.op) {
      ClaimsTouch(p, db, e);
    } else if IsSettling(e.op) {
      SettlingTouches(p, db, e);
    } else if IsRemoval(e.op) {
      RemovalsTouch(p, db, e);
    } else if e.op.OpEnqueue? || e.op.OpReplay? {
      StoringTouches(p, db, e);
    }
  }

  lemma LogSteps(p: Settings, db: Db, e: Event)
    requires Enabled(db, e) && BringsNewIds(db, e.op)
    ensures LogStep(db, e, Step(p, db, e).1, Step(p, db, e).0)
  {
    if e.op.OpAck? {
      AckLogs(p, db, e);
    } else if e.op.OpAckForGroup? {
      GroupAckLogs(p, db, e);
    } else if e.op.OpTrim? || e.op.OpArchiveReap? || e.op.OpDeleteReap? {
      ReapersLog(p, db, e);
    } else {
      OthersLeaveLog(p, db, e);
    }
  }

  /** The configuration after one step. */
  ghost predicate ConfigStep(db: Db, e: Event, reply: Reply, after: Db) {
    match e.op
    case OpUpsertConfig(topic, cfg) =>
      if Reserved(topic) then after.config == db.config else after.config == db.config[topic := cfg]
    case OpDeleteConfig(topic) => after.config == db.config - {topic}
    case _ => after.config == db.config
  }

  lemma ConfigSteps(p: Settings, db: Db, e: Event)
    requires Enabled(db, e) && BringsNewIds(db, e.op)
    ensures ConfigStep(db, e, Step(p, db, e).1, Step(p, db, e).0)
  {
    if IsClaim(e.op) {
      ClaimsTouch(p, db, e);
    } else if IsSettling(e.op) {
      SettlingTouches(p, db, e);
    } else if IsRemoval(e.op) {
      RemovalsTouch(p, db, e);
    } else if e.op.OpEnqueue? || e.op.OpReplay? {
      StoringTouches(p, db, e);
    } else if e.op.OpDeleteConfig? {
      assert e.op.topic !in db.config ==> db.config - {e.op.topic} == db.config;
    }
  }

  /** Which calls succeed, and how the others fail. */
  ghost predicate Outcome(p: Settings, db: Db, e: Event, reply: Reply) {
    match e.op
    case OpEnqueue(topic, _, _, key, refusal, cfg, newId) =>
      key.None? && ResolveMaxDepth(cfg) <= 0 ==>
        reply == if Reserved(topic) then Fail(ErrReservedTopic)
                 else if p.requireRegistration && cfg.None? then Fail(ErrTopicNotRegistered)
                 else if refusal.Some? then Fail(refusal.value)
                 else Stored(newId)
    case OpAck(id) =>
      reply == if Row(db, id).Some? && db.messages[id].status == Processing then Done else Fail(ErrNotFound)
    case OpNack(id, reason, cfg) =>
      var m := Row(db, id);
      if m.None? then reply == Fail(ErrNotFound)
      else if m.value.status != Processing then reply == Fail(ErrNotProcessing)
      else
        var n := NackRow(m.value, reason, Threshold(p, cfg), e.now);
        reply == if n.status == Pending && KeyTaken(db, n.topic, n.key, id) then Fail(UniqueViolation) else Done
    case OpAckForGroup(id, group) =>
      var d := DeliveryAt(db, DeliveryKey(id, group));
      reply == if d.Some? && d.value.status == Processing then Done else Fail(ErrNotFound)
    case OpNackForGroup(id, group, _, _) =>
      var d := DeliveryAt(db, DeliveryKey(id, group));
      reply == if d.None? then Fail(ErrNotFound) else if d.value.status != Processing then Fail(ErrNotProcessing) else Done
    case OpRequeue(id, cfg) =>
      var m := Row(db, id);
      if m.None? then reply == Fail(ErrNotFound)
      else if !IsDeadLetter(m.value) then reply == Fail(ErrNotDLQ)
      else
        reply == if KeyTaken(db, m.value.originalTopic.value, m.value.key, id) then Fail(UniqueViolation) else Done
    case OpRegister(topic, group, cfg) =>
      reply == if p.requireRegistration && cfg.None? then Fail(ErrTopicNotRegistered)
               else if GroupKey(topic, group) in db.groups then Fail(ErrConsumerGroupExists) else Done
    case OpUnregister(topic, group) =>
      reply == if GroupKey(topic, group) in db.groups then Done else Fail(ErrConsumerGroupNotFound)
    case _ => true
  }

  lemma Outcomes(p: Settings, db: Db, e: Event)
    requires Enabled(db, e) && Linked(db)
    ensures Outcome(p, db, e, Step(p, db, e).1)
  {
    if e.op.OpEnqueue? {
      assert e.op.key.None? ==> Holders(db, e.op.topic, e.op.key) == {};
    }
  }

  /** The registry, and the buckets where no claim is made, after one step. */
  ghost predicate SideStep(db: Db, e: Event, reply: Reply, after: Db) {
    && after.groups == (if e.op.OpRegister? && reply == Done then db.groups + {GroupKey(e.op.topic, e.op.group)}
                        else if e.op.OpUnregister? then db.groups - {GroupKey(e.op.topic, e.op.group)}
                        else db.groups)
    && (!IsClaim(e.op) ==>
          after.buckets == if e.op.OpDeleteConfig? && e.op.topic in db.config then db.buckets - {e.op.topic} else db.buckets)
  }

  lemma RegistrySides(p: Settings, db: Db, e: Event)
    requires e.op.OpRegister? || e.op.OpUnregister?
    ensures SideStep(db, e, Step(p, db, e).1, Step(p, db, e).0)
  {
    if e.op.OpUnregister? {
      assert GroupKey(e.op.topic, e.op.group) !in db.groups ==> db.groups - {GroupKey(e.op.topic, e.op.group)} == db.groups;
    }
  }

  lemma SideSteps(p: Settings, db: Db, e: Event)
    requires Enabled(db, e) && BringsNewIds(db, e.op)
    ensures SideStep(db, e, Step(p, db, e).1, Step(p, db, e).0)
  {
    if IsClaim(e.op) {
      ClaimsTouch(p, db, e);
    } else if IsSettling(e.op) {
      SettlingTouches(p, db, e);
    } else if IsRemoval(e.op) {
      RemovalsTouch(p, db, e);
    } else if e.op.OpEnqueue? || e.op.OpReplay? {
      StoringTouches(p, db, e);
    } else if e.op.OpRegister? || e.op.OpUnregister? {
      RegistrySides(p, db, e);
    }
  }
}
