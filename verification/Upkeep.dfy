/** What the reapers, the purges and the trim remove, keep and count. */
module Upkeep {
  import opened Tables
  import opened Maintenance
  import opened Machine

  lemma MapLoses<K, V>(m: map<K, V>, gone: set<K>)
    requires gone <= m.Keys
    ensures |m - gone| == |m| - |gone|
  {
    assert (m - gone).Keys == m.Keys - gone;
    SetLoses(m.Keys, gone);
  }

  lemma SetLoses<T>(s: set<T>, gone: set<T>)
    requires gone <= s
    ensures |s - gone| == |s| - |gone|
  {
    assert s == (s - gone) + gone;
  }

  /** The archive and the registries are as before. */
  predicate SameAround(db: Db, after: Db) {
    after.groups == db.groups && after.config == db.config && after.buckets == db.buckets
  }

  /** The reply is the number of rows by which a table has shrunk. */
  predicate Counts(reply: Reply, before: nat, after: nat) {
    reply.Count? && reply.n + after == before
  }

  /** The rows a pass has changed. */
  function Changed(db: Db, after: Db): set<Id> {
    set id | id in db.messages && id in after.messages && after.messages[id] != db.messages[id]
  }

  /** An expiry pass marks exactly the pending and processing messages whose expiry has passed, changes nothing else of
      them, and counts them. */
  lemma ExpiryPass(p: Settings, db: Db, e: Event)
    requires e.op.OpExpiryReap?
    ensures
      var (after, reply) := Step(p, db, e);
      && after == db.(messages := after.messages) && after.messages.Keys == db.messages.Keys
      && reply == Count(|Changed(db, after)|)
      && forall id :: id in db.messages ==>
           var m := db.messages[id];
           if (m.status == Pending || m.status == Processing) && m.expiresAt.Some? && m.expiresAt.value < e.now
           then after.messages[id] == m.(status := Expired) else after.messages[id] == m
  {
    var after := Step(p, db, e).0;
    assert Changed(db, after) == set i | i in db.messages && Lapsed(db.messages[i], e.now);
  }

  /** r was acknowledged longer ago than its topic's replay window. */
  predicate OutOfWindow(config: map<string, TopicConfig>, r: LogRow, now: Time) {
    r.topic in config && config[r.topic].replayable &&
    match config[r.topic].replayWindow
    case None => false
    case Some(seconds) => 0 < seconds && seconds as real < now - r.ackedAt
  }

  lemma AgedIsOut(config: map<string, TopicConfig>, r: LogRow, now: Time)
    ensures Aged(config, r, now) <==> OutOfWindow(config, r, now)
  {
  }

  lemma Reaped(db: Db, now: Time)
    ensures
      var (after, reply) := ArchiveReap(db, now);
      && (forall r :: r in after.log <==> r in db.log && !OutOfWindow(db.config, r, now))
      && Counts(reply, |db.log|, |after.log|)
  {
    var after := ArchiveReap(db, now).0;
    forall r ensures Aged(db.config, r, now) <==> OutOfWindow(db.config, r, now) {
      AgedIsOut(db.config, r, now);
    }
    var gone := set r | r in db.log && Aged(db.config, r, now);
    assert after.log == db.log - gone;
    SetLoses(db.log, gone);
  }

  /** An archive pass deletes exactly the rows that are out of their topic's window, and counts them. */
  lemma ArchivePass(p: Settings, db: Db, e: Event)
    requires e.op.OpArchiveReap?
    ensures
      var (after, reply) := Step(p, db, e);
      && after == db.(log := after.log)
      && (forall r :: r in after.log <==> r in db.log && !OutOfWindow(db.config, r, e.now))
      && Counts(reply, |db.log|, |after.log|)
  {
    Reaped(db, e.now);
  }

  /** Exactly these messages go, each with its deliveries, and are counted. */
  ghost predicate Removed(db: Db, after: Db, reply: Reply) {
    && (forall id :: id in after.messages ==> id in db.messages && after.messages[id] == db.messages[id])
    && (forall k :: k in after.deliveries <==> k in db.deliveries && (k.id in db.messages ==> k.id in after.messages))
    && (forall k :: k in after.deliveries ==> after.deliveries[k] == db.deliveries[k])
    && SameAround(db, after)
    && Counts(reply, |db.messages|, |after.messages|)
  }

  lemma DeletingRemoves(db: Db, after: Db, gone: set<Id>)
    requires gone <= db.messages.Keys && after == DeleteMessages(db, gone).(log := after.log)
    ensures Removed(db, after, Count(|gone|))
    ensures forall id :: id in db.messages ==> (id in after.messages <==> id !in gone)
  {
    MapLoses(db.messages, gone);
  }

  /** A delete pass removes exactly the messages marked expired, and what an archive pass would. */
  lemma DeletePass(p: Settings, db: Db, e: Event)
    requires e.op.OpDeleteReap?
    ensures
      var (after, reply) := Step(p, db, e);
      && Removed(db, after, reply)
      && (forall id :: id in db.messages ==> (id in after.messages <==> db.messages[id].status != Expired))
      && (forall r :: r in after.log <==> r in db.log && !OutOfWindow(db.config, r, e.now))
  {
    DeletingRemoves(db, Step(p, db, e).0, ExpiredIds(db));
    Reaped(DeleteMessages(db, ExpiredIds(db)), e.now);
  }

  /** Purging a topic removes exactly its messages in the given statuses. */
  lemma TopicPurge(p: Settings, db: Db, e: Event)
    requires e.op.OpPurgeTopic?
    ensures
      var (after, reply) := Step(p, db, e);
      && Removed(db, after, reply) && after.log == db.log
      && forall id :: id in db.messages ==>
           (id !in after.messages <==> db.messages[id].topic == e.op.topic && db.messages[id].status in e.op.statuses)
  {
    DeletingRemoves(db, Step(p, db, e).0, PurgeTopicIds(db, e.op.topic, e.op.statuses));
  }

  /** Purging a key removes exactly the topic's messages with it, whatever their status. */
  lemma KeyPurge(p: Settings, db: Db, e: Event)
    requires e.op.OpPurgeByKey?
    ensures
      var (after, reply) := Step(p, db, e);
      && Removed(db, after, reply) && after.log == db.log
      && forall id :: id in db.messages ==>
           (id !in after.messages <==> db.messages[id].topic == e.op.topic && db.messages[id].key == Some(e.op.purged))
  {
    DeletingRemoves(db, Step(p, db, e).0, PurgeKeyIds(db, e.op.topic, e.op.purged));
  }

  /** A trim deletes exactly the topic's rows acknowledged before the cut, and counts them. */
  lemma Trim(p: Settings, db: Db, e: Event)
    requires e.op.OpTrim?
    ensures
      var (after, reply) := Step(p, db, e);
      && after == db.(log := after.log)
      && (forall r :: r in after.log <==> r in db.log && (r.topic == e.op.topic ==> e.op.before <= r.ackedAt))
      && Counts(reply, |db.log|, |after.log|)
  {
    var gone := set r | r in db.log && Trimmed(r, e.op.topic, e.op.before);
    assert Step(p, db, e).0.log == db.log - gone;
    SetLoses(db.log, gone);
  }

  /** Writing a topic's configuration replaces its row and nothing else; a reserved topic is refused. */
  lemma ConfigWritten(p: Settings, db: Db, e: Event)
    requires e.op.OpUpsertConfig?
    ensures
      var (after, reply) := Step(p, db, e);
      if |e.op.topic| >= 4 && e.op.topic[|e.op.topic| - 4..] == ".dlq" then (after, reply) == (db, Fail(ErrReservedTopic))
      else
        && after == db.(config := after.config) && reply == Done
        && after.config.Keys == db.config.Keys + {e.op.topic}
        && forall t :: t in after.config ==> after.config[t] == if t == e.op.topic then e.op.newCfg else db.config[t]
  {
  }

  /** Deleting it deletes the topic's bucket with it. */
  lemma ConfigDeleted(p: Settings, db: Db, e: Event)
    requires e.op.OpDeleteConfig?
    ensures
      var (after, reply) := Step(p, db, e);
      if e.op.topic !in db.config then (after, reply) == (db, Fail(ErrNotFound))
      else
        && after == db.(config := after.config, buckets := after.buckets) && reply == Done
        && e.op.topic !in after.config && e.op.topic !in after.buckets
        && (forall t :: t != e.op.topic ==>
              && (t in after.config <==> t in db.config) && (t in db.config ==> after.config[t] == db.config[t])
              && (t in after.buckets <==> t in db.buckets) && (t in db.buckets ==> after.buckets[t] == db.buckets[t]))
  {
  }
}
