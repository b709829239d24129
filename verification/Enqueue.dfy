/** enqueue.go: parameter resolution, the depth guard and the keyed upsert. */
module Enqueue {
  import opened Tables

  /** The topic's TTL beats the global one; a topic TTL of zero means "never". */
  function ResolveExpiresAt(p: Settings, cfg: Option<TopicConfig>, now: Time): Option<Time> {
    var fallback := if p.messageTtl > 0.0 then Some(now + p.messageTtl) else None;
    if cfg.None? || cfg.value.ttlSeconds.None? then fallback
    else if cfg.value.ttlSeconds.value == 0 then None
    else Some(now + cfg.value.ttlSeconds.value as real)
  }

  function ResolveMaxRetries(p: Settings, cfg: Option<TopicConfig>): int {
    if cfg.Some? then OrElse(cfg.value.maxRetries, p.maxRetries) else p.maxRetries
  }

  function ResolveMaxDepth(cfg: Option<TopicConfig>): int {
    if cfg.Some? then OrElse(cfg.value.maxDepth, 0) else 0
  }

  function Waiting(db: Db, topic: string): set<Id> {
    set i | i in db.messages && db.messages[i].topic == topic && db.messages[i].status in {Pending, Processing}
  }

  function NewMessage(topic: string, key: Option<string>, payload: string, metadata: map<string, string>,
                      maxRetries: int, expiresAt: Option<Time>, now: Time): Message {
    Message(topic, key, payload, metadata, Pending, 0, maxRetries, None, None, None, None, expiresAt, now)
  }

  function Holders(db: Db, topic: string, key: Option<string>): set<Id> {
    set i | key.Some? && i in db.messages && PendingUnder(db.messages[i], topic, key)
  }

  function Overwrite(m: Message, payload: string, metadata: map<string, string>, maxRetries: int): Message {
    m.(payload := payload, metadata := metadata, maxRetries := maxRetries)
  }

  /** INSERT ... ON CONFLICT (topic, key) WHERE pending DO UPDATE ... RETURNING id. */
  ghost function Upsert(p: Settings, db: Db, newId: Id, m: Message): (Db, Reply) {
    var holders := Holders(db, m.topic, m.key);
    if holders == {} then
      (InsertMessage(p, db, newId, m), Stored(newId))
    else
      var id :| id in holders;
      (db.(messages := db.messages[id := Overwrite(db.messages[id], m.payload, m.metadata, m.maxRetries)]), Stored(id))
  }

  /** `refusal` is what the schema check objected, `cfg` what GetTopicConfig returned. */
  ghost function Enqueue(p: Settings, db: Db, topic: string, payload: string, metadata: map<string, string>,
                         key: Option<string>, refusal: Option<Error>, cfg: Option<TopicConfig>, newId: Id, now: Time): (Db, Reply) {
    if Reserved(topic) then (db, Fail(ErrReservedTopic))
    else if p.requireRegistration && cfg.None? then (db, Fail(ErrTopicNotRegistered))
    else if refusal.Some? then (db, Fail(refusal.value))
    else if ResolveMaxDepth(cfg) > 0 && |Waiting(db, topic)| >= ResolveMaxDepth(cfg) then (db, Fail(ErrQueueFull))
    else
      Upsert(p, db, newId,
        NewMessage(topic, key, payload, metadata, ResolveMaxRetries(p, cfg), ResolveExpiresAt(p, cfg, now), now))
  }
}
