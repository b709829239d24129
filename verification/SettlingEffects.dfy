/** How one ack, nack or requeue is answered, and which rows it leaves alone. */
module SettlingEffects {
  import opened Tables
  import opened Lifecycle
  import opened Machine
  import opened RowHistory

  predicate IsProcessing(db: Db, id: Id) {
    id in db.messages && db.messages[id].status == Processing
  }

  /** The message and its deliveries are gone, and everything else but the archive is as before. */
  ghost predicate OnlyGone(db: Db, after: Db, id: Id) {
    && after == db.(messages := after.messages, deliveries := after.deliveries, log := after.log)
    && (forall x :: Row(after, x) == if x == id then None else Row(db, x))
    && (forall k :: DeliveryAt(after, k) == if k.id == id then None else DeliveryAt(db, k))
  }

  /** The archive has r as well, if its topic is replayable. */
  predicate Archives(db: Db, after: Db, r: LogRow) {
    after.log == if r.topic in db.config && db.config[r.topic].replayable then db.log + {r} else db.log
  }

  /** An ack of a message being processed removes and archives it; any other is refused. */
  lemma AckEffect(p: Settings, db: Db, e: Event)
    requires e.op.OpAck?
    ensures
      var (after, reply) := Step(p, db, e);
      if IsProcessing(db, e.op.id) then
        var m := db.messages[e.op.id];
        && reply == Done && OnlyGone(db, after, e.op.id)
        && Archives(db, after, LogRow(e.op.id, m.topic, m.key, m.payload, m.metadata, m.retryCount, m.maxRetries,
                                      m.lastError, m.originalTopic, m.createdAt, e.now))
      else (after, reply) == (db, Fail(ErrNotFound))
  {
  }

  /** Another pending message of the topic has the key. */
  predicate PendingElsewhere(db: Db, topic: string, key: Option<string>, id: Id) {
    key.Some? && exists x :: x in db.messages && x != id && db.messages[x].status == Pending
                             && db.messages[x].topic == topic && db.messages[x].key == key
  }

  lemma TakenElsewhere(db: Db, topic: string, key: Option<string>, id: Id)
    ensures KeyTaken(db, topic, key, id) <==> PendingElsewhere(db, topic, key, id)
  {
    if KeyTaken(db, topic, key, id) {
      var x :| x in db.messages && x != id && PendingUnder(db.messages[x], topic, key);
    }
    if PendingElsewhere(db, topic, key, id) {
      var x :| x in db.messages && x != id && db.messages[x].status == Pending
               && db.messages[x].topic == topic && db.messages[x].key == key;
      assert PendingUnder(db.messages[x], topic, key);
    }
  }

  /** A nack changes the one row, if it is being processed and would not become a second pending one of its key. */
  lemma NackEffect(p: Settings, db: Db, e: Event)
    requires e.op.OpNack?
    ensures
      var (after, reply) := Step(p, db, e);
      var id := e.op.id;
      if id !in db.messages then (after, reply) == (db, Fail(ErrNotFound))
      else if db.messages[id].status != Processing then (after, reply) == (db, Fail(ErrNotProcessing))
      else if reply == Done then
        && id in after.messages && after == db.(messages := db.messages[id := after.messages[id]])
        && (after.messages[id].status == Pending ==> !PendingElsewhere(db, after.messages[id].topic, db.messages[id].key, id))
      else
        && (after, reply) == (db, Fail(UniqueViolation))
        && (PendingElsewhere(db, db.messages[id].topic, db.messages[id].key, id)
            || PendingElsewhere(db, db.messages[id].topic + ".dlq", db.messages[id].key, id))
  {
  }

  /** A requeue changes the one row, if it has an original topic that is not the empty one and its key is free there. */
  lemma RequeueEffect(p: Settings, db: Db, e: Event)
    requires e.op.OpRequeue?
    ensures
      var (after, reply) := Step(p, db, e);
      var id := e.op.id;
      if id !in db.messages then (after, reply) == (db, Fail(ErrNotFound))
      else if db.messages[id].originalTopic.None? || db.messages[id].originalTopic.value == "" then (after, reply) == (db, Fail(ErrNotDLQ))
      else if PendingElsewhere(db, db.messages[id].originalTopic.value, db.messages[id].key, id) then
        (after, reply) == (db, Fail(UniqueViolation))
      else reply == Done && id in after.messages && after == db.(messages := db.messages[id := after.messages[id]])
  {
    var id := e.op.id;
    if id in db.messages && db.messages[id].originalTopic.Some? {
      TakenElsewhere(db, db.messages[id].originalTopic.value, db.messages[id].key, id);
    }
  }

  ghost predicate OthersHold(db: Db, k: DeliveryKey) {
    exists x :: x in db.deliveries && x != k && x.id == k.id
  }

  /** A group's ack removes its delivery, if it is being processed, and with the last one the message, which is archived
      with that delivery's counters and error; any other is refused. */
  lemma AckForGroupEffect(p: Settings, db: Db, e: Event)
    requires e.op.OpAckForGroup? && Linked(db)
    ensures
      var (after, reply) := Step(p, db, e);
      var k := DeliveryKey(e.op.id, e.op.group);
      if k !in db.deliveries || db.deliveries[k].status != Processing then (after, reply) == (db, Fail(ErrNotFound))
      else if OthersHold(db, k) then
        reply == Done && after == db.(deliveries := after.deliveries)
        && forall x :: DeliveryAt(after, x) == if x == k then None else DeliveryAt(db, x)
      else
        var (m, d) := (db.messages[k.id], db.deliveries[k]);
        && reply == Done && OnlyGone(db, after, k.id)
        && Archives(db, after, LogRow(k.id, m.topic, m.key, m.payload, m.metadata, d.retryCount, d.maxRetries,
                                      d.lastError, m.originalTopic, m.createdAt, e.now))
  {
    var k := DeliveryKey(e.op.id, e.op.group);
    var left := DeliveriesOf(DropDelivery(db, k), k.id);
    if OthersHold(db, k) {
      var x :| x in db.deliveries && x != k && x.id == k.id;
      assert x in left;
    }
  }

  /** A group's nack changes its delivery, if it is being processed. */
  lemma NackForGroupEffect(p: Settings, db: Db, e: Event)
    requires e.op.OpNackForGroup? && Linked(db)
    ensures
      var (after, reply) := Step(p, db, e);
      var k := DeliveryKey(e.op.id, e.op.group);
      if k !in db.deliveries then (after, reply) == (db, Fail(ErrNotFound))
      else if db.deliveries[k].status != Processing then (after, reply) == (db, Fail(ErrNotProcessing))
      else reply == Done && k in after.deliveries && after == db.(deliveries := db.deliveries[k := after.deliveries[k]])
  {
  }
}
