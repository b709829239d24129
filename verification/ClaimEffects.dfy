/** What one claim takes, marks, shows and costs. */
module ClaimEffects {
  import opened Tables
  import opened Ordering
  import opened Throttle
  import opened Claims
  import opened Machine
  import BatchClaim

  // ---------------------------------------------------------------- the grant

  /** What the topic's bucket holds now: the limit when it is new, else what it held and has earned since, up to the limit. */
  predicate Holding(db: Db, topic: string, limit: int, now: Time, tokens: real) {
    if topic !in db.buckets then tokens == limit as real
    else
      var b := db.buckets[topic];
      var grown := b.tokens + limit as real * (now - b.lastRefill);
      tokens <= limit as real && tokens <= grown && (tokens == limit as real || tokens == grown)
  }

  /** n is what is left of want: all of it, or as many as there are whole tokens. */
  predicate WholeTokens(tokens: real, want: nat, n: nat) {
    if tokens < 1.0 then n == 0 else if want as real <= tokens then n == want else n as real <= tokens < n as real + 1.0
  }

  /** A request for `want` is granted n and leaves the topic's bucket so; without a limit, or with a limit of 0, it is
      granted in full and leaves no trace. */
  ghost predicate Granted(db: Db, topic: string, want: nat, now: Time, n: nat, buckets: map<string, Bucket>) {
    if topic !in db.config || db.config[topic].throughputLimit in {None, Some(0)} then n == want && buckets == db.buckets
    else
      exists tokens :: Holding(db, topic, db.config[topic].throughputLimit.value, now, tokens) && WholeTokens(tokens, want, n)
                       && buckets == db.buckets[topic := Bucket(tokens - n as real, now)]
  }

  lemma GrantIs(db: Db, topic: string, want: nat, now: Time)
    ensures
      var (limited, n) := ApplyThroughputLimit(db, topic, want, now);
      Granted(db, topic, want, now, n, limited.buckets) && limited == db.(buckets := limited.buckets)
  {
    var limit := LimitOf(db, topic);
    if limit.Some? && limit.value != 0 {
      var full := Refill(BucketOf(db, topic), limit.value, now);
      assert Holding(db, topic, limit.value, now, full.tokens);
      SpentIs(full, want);
    }
  }

  lemma SpentIs(b: Bucket, want: nat)
    ensures
      var (left, n) := Spend(b, want);
      WholeTokens(b.tokens, want, n) && left == Bucket(b.tokens - n as real, b.lastRefill)
  {
  }

  // --------------------------------------------------------------- the deadline

  /** seconds is asked without its fraction. */
  predicate WholeSeconds(asked: Time, seconds: int) {
    if asked >= 0.0 then seconds as real <= asked < seconds as real + 1.0
    else seconds as real - 1.0 < asked <= seconds as real
  }

  /** The deadline is so many whole seconds from now: the caller's, if positive, else the default. */
  ghost predicate Due(p: Settings, vt: Time, now: Time, deadline: Time) {
    SecondsFrom(now, if vt > 0.0 then vt else p.visibilityTimeout, deadline)
  }

  ghost predicate SecondsFrom(now: Time, asked: Time, deadline: Time) {
    exists seconds :: WholeSeconds(asked, seconds) && deadline == now + seconds as real
  }

  lemma DeadlineIs(p: Settings, now: Time, vt: Time)
    ensures Due(p, vt, now, Deadline(p, now, vt))
  {
    var seconds := Trunc(if vt > 0.0 then vt else p.visibilityTimeout);
    assert WholeSeconds(if vt > 0.0 then vt else p.visibilityTimeout, seconds);
  }

  // ----------------------------------------------------------------- plain claims

  /** Waiting on the topic, past any deadline, not expired, and with retries left or without limit. */
  predicate MayBeClaimed(m: Message, topic: string, now: Time) {
    && m.topic == topic && m.status == Pending
    && (m.visibility.Some? ==> m.visibility.value < now) && (m.expiresAt.Some? ==> now < m.expiresAt.value)
    && (m.maxRetries != 0 ==> m.retryCount < m.maxRetries)
  }

  predicate SameText(shown: string, o: Option<string>) {
    if o.Some? then shown == o.value else shown == ""
  }

  /** The view shows the row; what is absent shows as empty text. */
  predicate Shows(m: Message, retryCount: int, maxRetries: int, lastError: Option<string>, v: View) {
    && v.topic == m.topic && v.key == m.key && v.payload == m.payload && v.metadata == m.metadata
    && v.retryCount == retryCount && v.maxRetries == maxRetries && SameText(v.lastError, lastError)
    && v.expiresAt == m.expiresAt && v.createdAt == m.createdAt
    && SameText(v.originalTopic, m.originalTopic) && v.dlqMovedAt == m.dlqMovedAt
  }

  /** The rows taken are shown and marked; the others are left alone. */
  ghost predicate Marked(p: Settings, db: Db, after: Db, rows: map<Id, View>, vt: Time, now: Time) {
    && after == db.(messages := after.messages, buckets := after.buckets) && after.messages.Keys == db.messages.Keys
    && forall id :: id in db.messages ==>
         if id in rows then Taken(p, db.messages[id], after.messages[id], rows[id], vt, now)
         else after.messages[id] == db.messages[id]
  }

  ghost predicate Taken(p: Settings, m: Message, b: Message, v: View, vt: Time, now: Time) {
    && Shows(m, m.retryCount, m.maxRetries, m.lastError, v)
    && b.visibility.Some? && Due(p, vt, now, b.visibility.value)
    && b == m.(status := Processing, visibility := b.visibility)
  }

  ghost predicate TakesOldest(db: Db, candidates: set<Id>, after: Db, rows: map<Id, View>, topic: string, want: nat, now: Time)
    requires candidates <= db.messages.Keys
  {
    && (exists n :: Granted(db, topic, want, now, n, after.buckets) && OldestOf(db.messages, candidates, rows.Keys, n))
    && forall x, y :: x in rows && y in candidates && y !in rows ==>
         x in candidates && db.messages[x].createdAt <= db.messages[y].createdAt
  }

  /** What is among the n oldest is no younger than what is not. */
  lemma OldestAreOlder(ms: map<Id, Message>, c: set<Id>, ids: set<Id>, n: nat)
    requires c <= ms.Keys && OldestOf(ms, c, ids, n)
    ensures forall x, y :: x in ids && y in c && y !in ids ==> x in c && ms[x].createdAt <= ms[y].createdAt
  {
    forall x, y | x in ids && y in c && y !in ids ensures x in c && ms[x].createdAt <= ms[y].createdAt {
      assert Before(ms, x, y);
    }
  }

  function Candidates(db: Db, topic: string, now: Time): set<Id> {
    set i | i in db.messages && MayBeClaimed(db.messages[i], topic, now)
  }

  lemma CandidatesAre(db: Db, topic: string, now: Time)
    ensures Candidates(db, topic, now) == Claimable(db.messages, topic, now)
  {
  }

  lemma ClaimsMark(p: Settings, db: Db, after: Db, ids: set<Id>, vt: Time, now: Time)
    requires ids <= db.messages.Keys
    requires after == db.(buckets := after.buckets, messages := ClaimRows(db.messages, ids, Deadline(p, now, vt)))
    ensures Marked(p, db, after, Shown(db.messages, ids), vt, now)
  {
    DeadlineIs(p, now, vt);
  }

  lemma BatchEffect(p: Settings, db: Db, topic: string, n: nat, vt: Time, now: Time, after: Db, rows: map<Id, View>)
    requires BatchClaim.IsBatch(p, db, topic, n, vt, now, after, rows)
    ensures TakesOldest(db, Candidates(db, topic, now), after, rows, topic, n, now) && Marked(p, db, after, rows, vt, now)
  {
    var (limited, granted) := ApplyThroughputLimit(db, topic, n, now);
    var ids := BatchClaim.Taken(db.messages, topic, granted, now);
    CandidatesAre(db, topic, now);
    assert rows.Keys == ids;
    TakesOldestOf(db, Claimable(db.messages, topic, now), limited, after, rows, topic, n, granted, now);
    ClaimsMark(p, db, after, ids, vt, now);
  }

  lemma TakesOldestOf(db: Db, c: set<Id>, limited: Db, after: Db, rows: map<Id, View>, topic: string, want: nat, granted: nat, now: Time)
    requires c <= db.messages.Keys && ApplyThroughputLimit(db, topic, want, now) == (limited, granted)
    requires after.buckets == limited.buckets && rows.Keys == FirstN(db.messages, c, granted)
    ensures TakesOldest(db, c, after, rows, topic, want, now)
  {
    GrantIs(db, topic, want, now);
    FirstNIsOldest(db.messages, c, granted);
    OldestAreOlder(db.messages, c, rows.Keys, granted);
  }

  lemma NothingTaken(p: Settings, db: Db, after: Db, topic: string, want: nat, vt: Time, now: Time)
    requires after == db.(buckets := ApplyThroughputLimit(db, topic, want, now).0.buckets)
    ensures TakesOldest(db, {}, after, map[], topic, want, now) && Marked(p, db, after, map[], vt, now)
  {
    var (limited, granted) := ApplyThroughputLimit(db, topic, want, now);
    FirstNone(db.messages, {}, granted);
    TakesOldestOf(db, {}, limited, after, map[], topic, want, granted, now);
  }

  /** Dequeue takes the oldest row that may be claimed, if it is granted a token and there is one. */
  lemma DequeueEffect(p: Settings, db: Db, e: Event)
    requires e.op.OpDequeue?
    ensures
      var (after, reply) := Step(p, db, e);
      && (if Rows(reply) == map[] then reply == Fail(ErrNoMessage) else reply.Claimed?)
      && TakesOldest(db, Candidates(db, e.op.topic, e.now), after, Rows(reply), e.op.topic, 1, e.now)
      && Marked(p, db, after, Rows(reply), e.op.vt, e.now)
  {
    var (after, reply) := Step(p, db, e);
    BatchClaim.OneIsBatch(p, db, e.op.topic, e.op.vt, e.now);
    BatchEffect(p, db, e.op.topic, 1, e.op.vt, e.now, after, Rows(reply));
  }

  /** DequeueN takes that many of the oldest, and none on a dead-letter topic. */
  lemma DequeueNEffect(p: Settings, db: Db, e: Event)
    requires e.op.OpDequeueN?
    ensures
      var (after, reply) := Step(p, db, e);
      if 1 <= e.op.n <= 1000 then
        && reply.Claimed?
        && TakesOldest(db, if Reserved(e.op.topic) then {} else Candidates(db, e.op.topic, e.now), after, Rows(reply),
                       e.op.topic, e.op.n, e.now)
        && Marked(p, db, after, Rows(reply), e.op.vt, e.now)
      else (after, reply) == (db, Fail(ErrInvalidBatchSize))
  {
    if 1 <= e.op.n <= 1000 {
      var (after, reply) := Step(p, db, e);
      BatchClaim.DequeueNIsBatch(p, db, e.op.topic, e.op.n, e.op.vt, e.now);
      if Reserved(e.op.topic) {
        NothingTaken(p, db, after, e.op.topic, e.op.n, e.op.vt, e.now);
      } else {
        BatchEffect(p, db, e.op.topic, e.op.n, e.op.vt, e.now, after, Rows(reply));
      }
    }
  }

  // ----------------------------------------------------------------- group claims

  /** The group's delivery of a message on the topic waits, past any deadline, the message has not expired, and there
      are retries left or no limit. */
  predicate MayBeClaimedFor(d: Delivery, m: Message, topic: string, now: Time) {
    && m.topic == topic && d.status == Pending
    && (d.visibility.Some? ==> d.visibility.value < now) && (m.expiresAt.Some? ==> now < m.expiresAt.value)
    && (d.maxRetries != 0 ==> d.retryCount < d.maxRetries)
  }

  function CandidatesFor(db: Db, topic: string, group: string, now: Time): set<Id> {
    set i | i in db.messages && DeliveryKey(i, group) in db.deliveries
            && MayBeClaimedFor(db.deliveries[DeliveryKey(i, group)], db.messages[i], topic, now)
  }

  lemma CandidatesForAre(db: Db, topic: string, group: string, now: Time)
    ensures CandidatesFor(db, topic, group, now) == ClaimableFor(db, topic, group, now)
  {
  }

  /** The deliveries taken are marked, and shown with their own counters; the others are left alone. */
  ghost predicate MarkedFor(p: Settings, db: Db, after: Db, group: string, rows: map<Id, View>, vt: Time, now: Time) {
    && after == db.(deliveries := after.deliveries, buckets := after.buckets) && after.deliveries.Keys == db.deliveries.Keys
    && (forall id :: id in rows ==> id in db.messages && DeliveryKey(id, group) in db.deliveries)
    && forall k :: k in db.deliveries ==>
         if k.group == group && k.id in rows then
           TakenFor(p, db.messages[k.id], db.deliveries[k], after.deliveries[k], rows[k.id], vt, now)
         else after.deliveries[k] == db.deliveries[k]
  }

  ghost predicate TakenFor(p: Settings, m: Message, d: Delivery, b: Delivery, v: View, vt: Time, now: Time) {
    && Shows(m, d.retryCount, d.maxRetries, d.lastError, v)
    && b.visibility.Some? && Due(p, vt, now, b.visibility.value)
    && b == d.(status := Processing, visibility := b.visibility)
  }

  lemma GroupClaimsMark(p: Settings, db: Db, after: Db, group: string, ids: set<Id>, vt: Time, now: Time)
    requires ids <= db.messages.Keys && forall i :: i in ids ==> DeliveryKey(i, group) in db.deliveries
    requires after == db.(buckets := after.buckets,
                          deliveries := ClaimDeliveries(db.deliveries, group, ids, Deadline(p, now, vt)))
    ensures MarkedFor(p, db, after, group, ShownFor(db, group, ids), vt, now)
  {
    DeadlineIs(p, now, vt);
  }

  lemma GroupBatchEffect(p: Settings, db: Db, topic: string, group: string, n: nat, vt: Time, now: Time, after: Db, rows: map<Id, View>)
    requires BatchClaim.IsGroupBatch(p, db, topic, group, n, vt, now, after, rows)
    ensures TakesOldest(db, CandidatesFor(db, topic, group, now), after, rows, topic, n, now)
    ensures MarkedFor(p, db, after, group, rows, vt, now)
  {
    var (limited, granted) := ApplyThroughputLimit(db, topic, n, now);
    var ids := BatchClaim.TakenFor(db, topic, group, granted, now);
    CandidatesForAre(db, topic, group, now);
    assert rows.Keys == ids;
    TakesOldestOf(db, ClaimableFor(db, topic, group, now), limited, after, rows, topic, n, granted, now);
    GroupClaimsMark(p, db, after, group, ids, vt, now);
  }

  /** DequeueForGroup takes the oldest delivery of the group that may be claimed. */
  lemma DequeueForGroupEffect(p: Settings, db: Db, e: Event)
    requires e.op.OpDequeueForGroup?
    ensures
      var (after, reply) := Step(p, db, e);
      && (if Rows(reply) == map[] then reply == Fail(ErrNoMessage) else reply.Claimed?)
      && TakesOldest(db, CandidatesFor(db, e.op.topic, e.op.group, e.now), after, Rows(reply), e.op.topic, 1, e.now)
      && MarkedFor(p, db, after, e.op.group, Rows(reply), e.op.vt, e.now)
  {
    var (after, reply) := Step(p, db, e);
    BatchClaim.OneIsGroupBatch(p, db, e.op.topic, e.op.group, e.op.vt, e.now);
    GroupBatchEffect(p, db, e.op.topic, e.op.group, 1, e.op.vt, e.now, after, Rows(reply));
  }

  /** DequeueNForGroup takes that many of the oldest, on any topic. */
  lemma DequeueNForGroupEffect(p: Settings, db: Db, e: Event)
    requires e.op.OpDequeueNForGroup?
    ensures
      var (after, reply) := Step(p, db, e);
      if 1 <= e.op.n <= 1000 then
        && reply.Claimed?
        && TakesOldest(db, CandidatesFor(db, e.op.topic, e.op.group, e.now), after, Rows(reply), e.op.topic, e.op.n, e.now)
        && MarkedFor(p, db, after, e.op.group, Rows(reply), e.op.vt, e.now)
      else (after, reply) == (db, Fail(ErrInvalidBatchSize))
  {
    if 1 <= e.op.n <= 1000 {
      var (after, reply) := Step(p, db, e);
      BatchClaim.DequeueNForGroupIsBatch(p, db, e.op.topic, e.op.group, e.op.n, e.op.vt, e.now);
      GroupBatchEffect(p, db, e.op.topic, e.op.group, e.op.n, e.op.vt, e.now, after, Rows(reply));
    }
  }
}
