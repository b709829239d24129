/** dequeue.go: the four claim operations. */
module Claims {
  import opened Tables
  import opened Ordering
  import opened Throttle

  /** A requested timeout wins over the default when positive; whole seconds are used. */
  function Deadline(p: Settings, now: Time, requested: Time): Time {
    now + Trunc(if requested > 0.0 then requested else p.visibilityTimeout) as real
  }

  predicate Unexpired(m: Message, now: Time) {
    m.expiresAt.None? || m.expiresAt.value > now
  }

  /** The filter shared by the plain claim statements. */
  predicate Eligible(m: Message, topic: string, now: Time) {
    && m.topic == topic
    && m.status == Pending
    && (m.visibility.None? || m.visibility.value < now)
    && Unexpired(m, now)
    && (m.maxRetries == 0 || m.retryCount < m.maxRetries)
  }

  function Claimable(ms: map<Id, Message>, topic: string, now: Time): set<Id> {
    set i | i in ms && Eligible(ms[i], topic, now)
  }

  /** The filter shared by the group claim statements. */
  predicate EligibleFor(d: Delivery, m: Message, topic: string, now: Time) {
    && m.topic == topic
    && d.status == Pending
    && (d.visibility.None? || d.visibility.value < now)
    && Unexpired(m, now)
    && (d.maxRetries == 0 || d.retryCount < d.maxRetries)
  }

  function ClaimableFor(db: Db, topic: string, group: string, now: Time): set<Id> {
    set i | i in db.messages && DeliveryKey(i, group) in db.deliveries
            && EligibleFor(db.deliveries[DeliveryKey(i, group)], db.messages[i], topic, now)
  }

  function Show(m: Message): View {
    View(m.topic, m.key, m.payload, m.metadata, m.retryCount, m.maxRetries, OrElse(m.lastError, ""),
         m.expiresAt, m.createdAt, OrElse(m.originalTopic, ""), m.dlqMovedAt)
  }

  /** A group sees the counters and the error of its own delivery. */
  function ShowFor(m: Message, d: Delivery): View {
    Show(m).(retryCount := d.retryCount, maxRetries := d.maxRetries, lastError := OrElse(d.lastError, ""))
  }

  function Claim(m: Message, deadline: Time): Message {
    m.(status := Processing, visibility := Some(deadline))
  }

  function ClaimDelivery(d: Delivery, deadline: Time): Delivery {
    d.(status := Processing, visibility := Some(deadline))
  }

  /** UPDATE messages SET status = 'processing' WHERE id IN ids. */
  function ClaimRows(ms: map<Id, Message>, ids: set<Id>, deadline: Time): map<Id, Message> {
    map i | i in ms :: if i in ids then Claim(ms[i], deadline) else ms[i]
  }

  function ClaimAll(db: Db, ids: set<Id>, deadline: Time): Db {
    db.(messages := ClaimRows(db.messages, ids, deadline))
  }

  function ClaimDeliveries(ds: map<DeliveryKey, Delivery>, group: string, ids: set<Id>, deadline: Time): map<DeliveryKey, Delivery> {
    map d | d in ds :: if d.group == group && d.id in ids then ClaimDelivery(ds[d], deadline) else ds[d]
  }

  function ClaimAllFor(db: Db, group: string, ids: set<Id>, deadline: Time): Db {
    db.(deliveries := ClaimDeliveries(db.deliveries, group, ids, deadline))
  }

  function Shown(ms: map<Id, Message>, ids: set<Id>): map<Id, View>
    requires ids <= ms.Keys
  {
    map i | i in ids :: Show(ms[i])
  }

  function ShownFor(db: Db, group: string, ids: set<Id>): map<Id, View>
    requires ids <= db.messages.Keys
    requires forall i :: i in ids ==> DeliveryKey(i, group) in db.deliveries
  {
    map i | i in ids :: ShowFor(db.messages[i], db.deliveries[DeliveryKey(i, group)])
  }

  ghost function Dequeue(p: Settings, db: Db, topic: string, vt: Time, now: Time): (Db, Reply) {
    var (db1, allowed) := ApplyThroughputLimit(db, topic, 1, now);
    var c := Claimable(db1.messages, topic, now);
    if allowed == 0 || c == {} then (db1, Fail(ErrNoMessage))
    else
      var o := {Oldest(db1.messages, c)};
      (ClaimAll(db1, o, Deadline(p, now, vt)), Claimed(Shown(db1.messages, o)))
  }

  ghost function DequeueForGroup(p: Settings, db: Db, topic: string, group: string, vt: Time, now: Time): (Db, Reply) {
    var (db1, allowed) := ApplyThroughputLimit(db, topic, 1, now);
    var c := ClaimableFor(db1, topic, group, now);
    if allowed == 0 || c == {} then (db1, Fail(ErrNoMessage))
    else
      var o := {Oldest(db1.messages, c)};
      (ClaimAllFor(db1, group, o, Deadline(p, now, vt)), Claimed(ShownFor(db1, group, o)))
  }

  /** Dead-letter topics are never claimed in batches. */
  ghost function DequeueN(p: Settings, db: Db, topic: string, n: int, vt: Time, now: Time): (Db, Reply) {
    if n < 1 || n > 1000 then (db, Fail(ErrInvalidBatchSize))
    else
      var (db1, allowed) := ApplyThroughputLimit(db, topic, n, now);
      if allowed == 0 then (db1, Claimed(map[]))
      else
        var ids := if Reserved(topic) then {} else FirstN(db1.messages, Claimable(db1.messages, topic, now), allowed);
        (ClaimAll(db1, ids, Deadline(p, now, vt)), Claimed(Shown(db1.messages, ids)))
  }

  ghost function DequeueNForGroup(p: Settings, db: Db, topic: string, group: string, n: int, vt: Time, now: Time): (Db, Reply) {
    if n < 1 || n > 1000 then (db, Fail(ErrInvalidBatchSize))
    else
      var (db1, allowed) := ApplyThroughputLimit(db, topic, n, now);
      if allowed == 0 then (db1, Claimed(map[]))
      else
        var ids := FirstN(db1.messages, ClaimableFor(db1, topic, group, now), allowed);
        (ClaimAllFor(db1, group, ids, Deadline(p, now, vt)), Claimed(ShownFor(db1, group, ids)))
  }
}
