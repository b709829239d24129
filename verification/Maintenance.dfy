/** reaper.go, purge.go, the log trim of replay.go and the two writers of topic_config.go. */
module Maintenance {
  import opened Tables

  predicate Lapsed(m: Message, now: Time) {
    m.expiresAt.Some? && m.expiresAt.value < now && m.status in {Pending, Processing}
  }

  /** RunExpiryReaperOnce. */
  function ExpiryReap(db: Db, now: Time): (Db, Reply) {
    (db.(messages := map i | i in db.messages ::
       if Lapsed(db.messages[i], now) then db.messages[i].(status := Expired) else db.messages[i]),
     Count(|set i | i in db.messages && Lapsed(db.messages[i], now)|))
  }

  /** archiveReaperSQL: which log rows have aged past their topic's replay window. */
  predicate Aged(config: map<string, TopicConfig>, r: LogRow, now: Time) {
    && r.topic in config
    && config[r.topic].replayable
    && config[r.topic].replayWindow.Some?
    && config[r.topic].replayWindow.value > 0
    && r.ackedAt < now - config[r.topic].replayWindow.value as real
  }

  function ArchiveReap(db: Db, now: Time): (Db, Reply) {
    (db.(log := set r | r in db.log && !Aged(db.config, r, now)),
     Count(|set r | r in db.log && Aged(db.config, r, now)|))
  }

  function ExpiredIds(db: Db): set<Id> {
    set i | i in db.messages && db.messages[i].status == Expired
  }

  /** runDeleteWork: expired messages and aged log rows go in one transaction. */
  function DeleteReap(db: Db, now: Time): (Db, Reply) {
    (ArchiveReap(DeleteMessages(db, ExpiredIds(db)), now).0, Count(|ExpiredIds(db)|))
  }

  function PurgeTopicIds(db: Db, topic: string, statuses: set<Status>): set<Id> {
    set i | i in db.messages && db.messages[i].topic == topic && db.messages[i].status in statuses
  }

  function PurgeTopic(db: Db, topic: string, statuses: set<Status>): (Db, Reply) {
    (DeleteMessages(db, PurgeTopicIds(db, topic, statuses)), Count(|PurgeTopicIds(db, topic, statuses)|))
  }

  function PurgeKeyIds(db: Db, topic: string, key: string): set<Id> {
    set i | i in db.messages && db.messages[i].topic == topic && db.messages[i].key == Some(key)
  }

  function PurgeByKey(db: Db, topic: string, key: string): (Db, Reply) {
    (DeleteMessages(db, PurgeKeyIds(db, topic, key)), Count(|PurgeKeyIds(db, topic, key)|))
  }

  predicate Trimmed(r: LogRow, topic: string, before: Time) {
    r.topic == topic && r.ackedAt < before
  }

  function TrimMessageLog(db: Db, topic: string, before: Time): (Db, Reply) {
    (db.(log := set r | r in db.log && !Trimmed(r, topic, before)),
     Count(|set r | r in db.log && Trimmed(r, topic, before)|))
  }

  /** The database part of UpsertTopicConfig. */
  function UpsertConfig(db: Db, topic: string, cfg: TopicConfig): (Db, Reply) {
    if Reserved(topic) then (db, Fail(ErrReservedTopic))
    else (db.(config := db.config[topic := cfg]), Done)
  }

  /** The database part of DeleteTopicConfig: the bucket goes with the row. */
  function DeleteConfig(db: Db, topic: string): (Db, Reply) {
    if topic !in db.config then (db, Fail(ErrNotFound))
    else (db.(config := db.config - {topic}, buckets := db.buckets - {topic}), Done)
  }
}
