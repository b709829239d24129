/** Which configuration a call reads, and runs in which it always is the row in the table. */
module ConfigReads {
  import opened Tables
  import opened Machine
  import opened Histories

  /** The topic whose configuration a call reads. */
  function ReadTopic(db: Db, op: Op): Option<string> {
    match op
    case OpEnqueue(topic, _, _, _, _, _, _) => Some(topic)
    case OpNack(id, _, _) => if id in db.messages then Some(db.messages[id].topic) else None
    case OpNackForGroup(id, _, _, _) => if id in db.messages then Some(db.messages[id].topic) else None
    case OpRequeue(id, _) => if id in db.messages then db.messages[id].originalTopic else None
    case OpRegister(topic, _, _) => Some(topic)
    case OpReplay(topic, _, _, _, _) => Some(topic)
    case _ => None
  }

  function CfgOf(op: Op): Option<TopicConfig> {
    match op
    case OpEnqueue(_, _, _, _, _, cfg, _) => cfg
    case OpNack(_, _, cfg) => cfg
    case OpNackForGroup(_, _, _, cfg) => cfg
    case OpRequeue(_, cfg) => cfg
    case OpRegister(_, _, cfg) => cfg
    case OpReplay(_, _, cfg, _, _) => cfg
    case _ => None
  }

  function RowOf(db: Db, topic: string): Option<TopicConfig> {
    if topic in db.config then Some(db.config[topic]) else None
  }

  /** The call sees what the table holds. */
  predicate SeesRow(db: Db, op: Op) {
    ReadTopic(db, op).Some? ==> CfgOf(op) == RowOf(db, ReadTopic(db, op).value)
  }

  ghost predicate Informed(h: Run)
    requires Shaped(h)
  {
    forall i :: 0 <= i < |h.events| ==> SeesRow(h.states[i], h.events[i].op)
  }

  /** The limit on retries for a call that sees cfg: the topic's own, if it sets one, else the global threshold. */
  predicate SeesLimit(p: Settings, cfg: Option<TopicConfig>, limit: int) {
    if cfg.Some? && cfg.value.maxRetries.Some? then limit == cfg.value.maxRetries.value else limit == p.dlqThreshold
  }

  /** The max_retries a message is stored with: the topic's, if it sets one, else the service's default. */
  predicate StoredRetries(p: Settings, cfg: Option<TopicConfig>, n: int) {
    if cfg.Some? && cfg.value.maxRetries.Some? then n == cfg.value.maxRetries.value else n == p.maxRetries
  }

  /** When a message stored now expires: by the topic's TTL, if it sets one, where 0 means never; else by the global one,
      if that is positive. */
  predicate StoredExpiry(p: Settings, cfg: Option<TopicConfig>, now: Time, expiresAt: Option<Time>) {
    if cfg.Some? && cfg.value.ttlSeconds.Some? then
      if cfg.value.ttlSeconds.value == 0 then expiresAt == None
      else expiresAt == Some(now + cfg.value.ttlSeconds.value as real)
    else if p.messageTtl > 0.0 then expiresAt == Some(now + p.messageTtl)
    else expiresAt == None
  }

  /** A replay asked for from this time on reaches back to an ack at `at`; asked for without one, it reaches back as far
      as the topic's window, or to the beginning. */
  predicate ReachesBack(at: Time, from: Option<Time>, cfg: TopicConfig, now: Time) {
    match from
    case Some(t) => t <= at
    case None => cfg.replayWindow.Some? && cfg.replayWindow.value > 0 ==> now - at <= cfg.replayWindow.value as real
  }
}
