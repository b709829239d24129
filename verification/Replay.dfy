/** replay.go: re-enqueueing copies of archived messages. */
module Replay {
  import opened Tables
  import opened Enqueue

  /** The lower bound on acked_at: the caller's, else the start of the window, else none. */
  function EffectiveFrom(cfg: TopicConfig, from: Option<Time>, now: Time): Option<Time> {
    if from.Some? then from else WindowStart(cfg, now)
  }

  function WindowStart(cfg: TopicConfig, now: Time): Option<Time> {
    if cfg.replayWindow.Some? && cfg.replayWindow.value > 0 then Some(now - cfg.replayWindow.value as real) else None
  }

  predicate TooOld(cfg: TopicConfig, from: Option<Time>, now: Time) {
    from.Some? && WindowStart(cfg, now).Some? && from.value < WindowStart(cfg, now).value
  }

  function Selected(log: set<LogRow>, topic: string, from: Option<Time>): set<LogRow> {
    set r | r in log && r.topic == topic && (from.Some? ==> r.ackedAt >= from.value)
  }

  function Copy(r: LogRow, expiresAt: Option<Time>, now: Time): Message {
    Message(r.topic, r.key, r.payload, r.metadata, Pending, 0, r.maxRetries, None, r.originalTopic, None, None,
            expiresAt, now)
  }

  /** INSERT ... SELECT ... ON CONFLICT DO NOTHING, over the rows in the order the database visits them. */
  function InsertCopies(p: Settings, db: Db, rows: seq<LogRow>, ids: seq<Id>, expiresAt: Option<Time>, now: Time): (Db, nat)
    requires |rows| <= |ids|
    decreases |rows|
  {
    if rows == [] then (db, 0)
    else
      var m := Copy(rows[0], expiresAt, now);
      if KeyTaken(db, m.topic, m.key, ids[0]) then InsertCopies(p, db, rows[1..], ids[1..], expiresAt, now)
      else
        var (rest, n) := InsertCopies(p, InsertMessage(p, db, ids[0], m), rows[1..], ids[1..], expiresAt, now);
        (rest, n + 1)
  }

  predicate Enumerates(rows: seq<LogRow>, s: set<LogRow>) {
    && (forall i :: 0 <= i < |rows| ==> rows[i] in s)
    && (forall r :: r in s ==> r in rows)
    && (forall i, j :: 0 <= i < j < |rows| ==> rows[i] != rows[j])
  }

  /** The rows ReplayTopic copies, when it copies any. */
  function ReplayRows(db: Db, topic: string, from: Option<Time>, cfg: Option<TopicConfig>, now: Time): set<LogRow> {
    if cfg.None? || !cfg.value.replayable || TooOld(cfg.value, from, now) then {}
    else Selected(db.log, topic, EffectiveFrom(cfg.value, from, now))
  }

  /** `rows` lists the selected rows in visiting order, `ids` the identifiers generated for them. */
  function ReplayTopic(p: Settings, db: Db, topic: string, from: Option<Time>, cfg: Option<TopicConfig>,
                       rows: seq<LogRow>, ids: seq<Id>, now: Time): (Db, Reply)
    requires Enumerates(rows, ReplayRows(db, topic, from, cfg, now)) && |rows| <= |ids|
  {
    if cfg.None? || !cfg.value.replayable then (db, Fail(ErrTopicNotReplayable))
    else if TooOld(cfg.value, from, now) then (db, Fail(ErrReplayWindowTooOld))
    else
      var (db1, n) := InsertCopies(p, db, rows, ids, ResolveExpiresAt(p, cfg, now), now);
      (db1, Count(n))
  }
}
