/** lifecycle.go: acknowledging, retrying, dead-lettering and requeueing. */
module Lifecycle {
  import opened Tables

  /** effectiveDLQThreshold: the topic's max_retries, when set, beats the global threshold. */
  function Threshold(p: Settings, cfg: Option<TopicConfig>): int {
    if cfg.Some? then OrElse(cfg.value.maxRetries, p.dlqThreshold) else p.dlqThreshold
  }

  predicate IsReplayable(db: Db, topic: string) {
    topic in db.config && db.config[topic].replayable
  }

  function Archived(id: Id, m: Message, retryCount: int, maxRetries: int, lastError: Option<string>, now: Time): LogRow {
    LogRow(id, m.topic, m.key, m.payload, m.metadata, retryCount, maxRetries, lastError, m.originalTopic, m.createdAt, now)
  }

  /** archiveToLog: a no-op unless the topic is replayable. */
  function ArchiveToLog(db: Db, row: LogRow): Db {
    if IsReplayable(db, row.topic) then db.(log := db.log + {row}) else db
  }

  function Ack(db: Db, id: Id, now: Time): (Db, Reply) {
    if id !in db.messages || db.messages[id].status != Processing then (db, Fail(ErrNotFound))
    else
      var m := db.messages[id];
      (DeleteMessages(ArchiveToLog(db, Archived(id, m, m.retryCount, m.maxRetries, m.lastError, now)), {id}), Done)
  }

  /** The threshold comparison of Nack and NackForGroup. */
  predicate ReachesThreshold(threshold: int, retryCount: int) {
    threshold > 0 && retryCount + 1 >= threshold
  }

  function Promote(m: Message, reason: string, now: Time): Message {
    m.(topic := DlqTopic(m.topic), originalTopic := Some(m.topic), status := Pending, retryCount := 0,
       maxRetries := 0, lastError := Some(reason), dlqMovedAt := Some(now), visibility := None)
  }

  function Retry(m: Message, reason: string): Message {
    m.(retryCount := m.retryCount + 1, lastError := Some(reason), visibility := None,
       status := if m.retryCount + 1 >= m.maxRetries then Failed else Pending)
  }

  function NackRow(m: Message, reason: string, threshold: int, now: Time): Message {
    if ReachesThreshold(threshold, m.retryCount) then Promote(m, reason, now) else Retry(m, reason)
  }

  function Nack(p: Settings, db: Db, id: Id, reason: string, cfg: Option<TopicConfig>, now: Time): (Db, Reply) {
    if id !in db.messages then (db, Fail(ErrNotFound))
    else if db.messages[id].status != Processing then (db, Fail(ErrNotProcessing))
    else
      var m := NackRow(db.messages[id], reason, Threshold(p, cfg), now);
      if m.status == Pending then UpdateToPending(db, id, m)
      else (db.(messages := db.messages[id := m]), Done)
  }

  function DeliveriesOf(db: Db, id: Id): set<DeliveryKey> {
    set d | d in db.deliveries && d.id == id
  }

  function DropDelivery(db: Db, k: DeliveryKey): Db {
    db.(deliveries := db.deliveries - {k})
  }

  predicate DeliveryHeld(db: Db, k: DeliveryKey) {
    k in db.deliveries && k.id in db.messages
  }

  function AckForGroup(db: Db, id: Id, group: string, now: Time): (Db, Reply) {
    var k := DeliveryKey(id, group);
    if !DeliveryHeld(db, k) || db.deliveries[k].status != Processing then (db, Fail(ErrNotFound))
    else
      var m, d := db.messages[id], db.deliveries[k];
      var db1 := DropDelivery(db, k);
      if DeliveriesOf(db1, id) != {} then (db1, Done)
      else
        (DeleteMessages(ArchiveToLog(db1, Archived(id, m, d.retryCount, d.maxRetries, d.lastError, now)), {id}), Done)
  }

  /** At the threshold the delivery fails and keeps its deadline; max_retries = 0 never fails otherwise. */
  function NackDelivery(d: Delivery, reason: string, threshold: int): Delivery {
    if ReachesThreshold(threshold, d.retryCount) then
      d.(status := Failed, retryCount := d.retryCount + 1, lastError := Some(reason))
    else
      d.(retryCount := d.retryCount + 1, lastError := Some(reason), visibility := None,
         status := if d.maxRetries > 0 && d.retryCount + 1 >= d.maxRetries then Failed else Pending)
  }

  function NackForGroup(p: Settings, db: Db, id: Id, group: string, reason: string, cfg: Option<TopicConfig>): (Db, Reply) {
    var k := DeliveryKey(id, group);
    if !DeliveryHeld(db, k) then (db, Fail(ErrNotFound))
    else if db.deliveries[k].status != Processing then (db, Fail(ErrNotProcessing))
    else
      (db.(deliveries := db.deliveries[k := NackDelivery(db.deliveries[k], reason, Threshold(p, cfg))]), Done)
  }

  predicate IsDeadLetter(m: Message) {
    m.originalTopic.Some? && m.originalTopic.value != ""
  }

  function RequeueRow(m: Message, threshold: int): Message
    requires m.originalTopic.Some?
  {
    m.(topic := m.originalTopic.value, originalTopic := None, dlqMovedAt := None, status := Pending,
       retryCount := 0, maxRetries := threshold, visibility := None)
  }

  /** `cfg` is the configuration of the original topic. */
  function Requeue(p: Settings, db: Db, id: Id, cfg: Option<TopicConfig>): (Db, Reply) {
    if id !in db.messages then (db, Fail(ErrNotFound))
    else if !IsDeadLetter(db.messages[id]) then (db, Fail(ErrNotDLQ))
    else UpdateToPending(db, id, RequeueRow(db.messages[id], Threshold(p, cfg)))
  }
}
