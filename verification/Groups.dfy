/** consumer_group.go: registering with backfill, unregistering with clean-up. */
module Groups {
  import opened Tables

  function Backfilled(db: Db, topic: string, group: string): map<DeliveryKey, Delivery> {
    map i | i in db.messages && db.messages[i].topic == topic && db.messages[i].status == Pending
            && DeliveryKey(i, group) !in db.deliveries
      :: DeliveryKey(i, group) := NewDelivery(db.messages[i].maxRetries)
  }

  function Register(p: Settings, db: Db, topic: string, group: string, cfg: Option<TopicConfig>): (Db, Reply) {
    if p.requireRegistration && cfg.None? then (db, Fail(ErrTopicNotRegistered))
    else if GroupKey(topic, group) in db.groups then (db, Fail(ErrConsumerGroupExists))
    else
      (db.(groups := db.groups + {GroupKey(topic, group)},
           deliveries := db.deliveries + Backfilled(db, topic, group)), Done)
  }

  predicate OnTopic(db: Db, id: Id, topic: string) {
    id in db.messages && db.messages[id].topic == topic
  }

  function Unregister(db: Db, topic: string, group: string): (Db, Reply) {
    if GroupKey(topic, group) !in db.groups then (db, Fail(ErrConsumerGroupNotFound))
    else
      (db.(groups := db.groups - {GroupKey(topic, group)},
           deliveries := map d | d in db.deliveries && !(d.group == group && OnTopic(db, d.id, topic)) :: db.deliveries[d]),
       Done)
  }
}
