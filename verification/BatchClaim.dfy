/** A batch claim is the same as that many single claims at one instant. */
module BatchClaim {
  import opened Tables
  import opened Ordering
  import opened Throttle
  import opened Claims

  /** The arguments repeated from one claim to the next. */
  datatype Call = Call(p: Settings, topic: string, group: string, vt: Time, now: Time)

  type Claimer = (Call, Db) -> (Db, map<Id, View>)
  type Relation = (Call, Db, nat, Db, map<Id, View>) -> bool

  /** n successive single claims, and all they hand out. */
  ghost function Repeat(single: Claimer, call: Call, db: Db, n: nat): (Db, map<Id, View>)
    decreases n
  {
    if n == 0 then (db, map[])
    else
      var (db1, rows) := single(call, db);
      var (db2, rest) := Repeat(single, call, db1, n - 1);
      (db2, rows + rest)
  }

  ghost function DequeueOnce(call: Call, db: Db): (Db, map<Id, View>) {
    var (after, reply) := Dequeue(call.p, db, call.topic, call.vt, call.now);
    (after, Rows(reply))
  }

  /** n successive Dequeue calls. */
  ghost function Singles(p: Settings, db: Db, topic: string, n: nat, vt: Time, now: Time): (Db, map<Id, View>) {
    Repeat(DequeueOnce, Call(p, topic, "", vt, now), db, n)
  }

  ghost function DequeueOnceForGroup(call: Call, db: Db): (Db, map<Id, View>) {
    var (after, reply) := DequeueForGroup(call.p, db, call.topic, call.group, call.vt, call.now);
    (after, Rows(reply))
  }

  /** n successive DequeueForGroup calls. */
  ghost function GroupSingles(p: Settings, db: Db, topic: string, group: string, n: nat, vt: Time, now: Time): (Db, map<Id, View>) {
    Repeat(DequeueOnceForGroup, Call(p, topic, group, vt, now), db, n)
  }

  ghost predicate OneIs(single: Claimer, batch: Relation, call: Call, d: Db) {
    batch(call, d, 1, single(call, d).0, single(call, d).1)
  }

  ghost predicate Joins(batch: Relation, call: Call, n: nat, a: Db, b: Db, x: map<Id, View>, c: Db, y: map<Id, View>) {
    n >= 1 && batch(call, a, 1, b, x) && batch(call, b, n, c, y) ==> batch(call, a, n + 1, c, x + y)
  }

  /** If a single claim is a batch of one, and one followed by n is a batch of n + 1, then n singles are a batch of n. */
  lemma {:induction false} RepeatIsBatch(single: Claimer, batch: Relation, call: Call, db: Db, n: nat)
    requires n >= 1
    requires forall d :: OneIs(single, batch, call, d)
    requires forall k, a, b, x, c, y :: Joins(batch, call, k, a, b, x, c, y)
    ensures batch(call, db, n, Repeat(single, call, db, n).0, Repeat(single, call, db, n).1)
    decreases n
  {
    var (db1, rows) := single(call, db);
    assert OneIs(single, batch, call, db);
    if n == 1 {
      assert Repeat(single, call, db1, 0) == (db1, map[]);
      assert rows + map[] == rows;
    } else {
      RepeatIsBatch(single, batch, call, db1, n - 1);
      var (db2, rest) := Repeat(single, call, db1, n - 1);
      assert Joins(batch, call, n - 1, db, db1, rows, db2, rest);
    }
  }

  // ---------------------------------------------------------------- tokens

  lemma RefillAtOnce(full: Bucket, limit: int, now: Time)
    requires full.lastRefill == now && full.tokens <= limit as real
    ensures Refill(Some(full), limit, now) == full
  {
    assert limit as real * (now - now) == 0.0;
  }

  lemma SpendSplits(full: Bucket, n: nat)
    ensures
      var one := Spend(full, 1);
      var more, all := Spend(one.0, n), Spend(full, n + 1);
      more.0 == all.0 && one.1 + more.1 == all.1
  {
    if full.tokens >= 1.0 {
      assert Trunc(full.tokens - 1.0) == Trunc(full.tokens) - 1;
    }
  }

  /** Asking for one and then for n more grants and spends what asking for n + 1 does. */
  lemma TokensSplit(db: Db, db1: Db, topic: string, n: nat, now: Time)
    requires db1.config == db.config && db1.buckets == ApplyThroughputLimit(db, topic, 1, now).0.buckets
    requires n >= 1
    ensures
      var one, more := ApplyThroughputLimit(db, topic, 1, now), ApplyThroughputLimit(db1, topic, n, now);
      var all := ApplyThroughputLimit(db, topic, n + 1, now);
      one.1 + more.1 == all.1 && more.0.buckets == all.0.buckets
  {
    var limit := LimitOf(db, topic);
    if limit.Some? && limit.value != 0 {
      var full := Refill(BucketOf(db, topic), limit.value, now);
      SpendSplits(full, n);
      assert BucketOf(db1, topic) == Some(Spend(full, 1).0);
      RefillAtOnce(Spend(full, 1).0, limit.value, now);
    }
  }

  lemma LimitKeepsRows(db: Db, topic: string, n: int, now: Time)
    ensures
      var db1 := ApplyThroughputLimit(db, topic, n, now).0;
      db1 == db.(buckets := db1.buckets)
  {
  }

  // ---------------------------------------------------------------- rows

  lemma OldestFirst(ms: map<Id, Message>, c: set<Id>)
    requires c <= ms.Keys && c != {}
    ensures FirstN(ms, c, 1) == {Oldest(ms, c)}
  {
    FirstNStep(ms, c, Oldest(ms, c), 1);
    FirstNone(ms, c - {Oldest(ms, c)}, 0);
  }

  /** Taking the first a <= 1 and then the first k of the rest takes the first a + k. */
  lemma FirstThenRest(ms: map<Id, Message>, c: set<Id>, a: nat, k: nat)
    requires c <= ms.Keys && a <= 1
    ensures FirstN(ms, c, a) + FirstN(ms, c - FirstN(ms, c, a), k) == FirstN(ms, c, a + k)
  {
    if a == 0 {
      FirstNone(ms, c, a);
      assert c - {} == c;
    } else if c == {} {
      FirstNone(ms, c, a);
      FirstNone(ms, c, a + k);
      FirstNone(ms, c - {}, k);
    } else {
      OldestFirst(ms, c);
      FirstNStep(ms, c, Oldest(ms, c), 1 + k);
    }
  }

  lemma ClaimsKeepOrder(ms: map<Id, Message>, ids: set<Id>, c: set<Id>, k: nat, deadline: Time)
    requires c <= ms.Keys
    ensures FirstN(ClaimRows(ms, ids, deadline), c, k) == FirstN(ms, c, k)
  {
    SameTimesSameOrder(ms, ClaimRows(ms, ids, deadline), c, k);
  }

  lemma ClaimRowsTwice(ms: map<Id, Message>, a: set<Id>, b: set<Id>, deadline: Time)
    ensures ClaimRows(ClaimRows(ms, a, deadline), b, deadline) == ClaimRows(ms, a + b, deadline)
  {
  }

  lemma ClaimNoRows(ms: map<Id, Message>, deadline: Time)
    ensures ClaimRows(ms, {}, deadline) == ms
  {
  }

  lemma ClaimedNoMore(ms: map<Id, Message>, ids: set<Id>, topic: string, deadline: Time, now: Time)
    requires ids <= Claimable(ms, topic, now)
    ensures Claimable(ClaimRows(ms, ids, deadline), topic, now) == Claimable(ms, topic, now) - ids
  {
  }

  /** The messages a plain claim of up to n takes when `granted` tokens are granted. */
  ghost function Taken(ms: map<Id, Message>, topic: string, granted: nat, now: Time): set<Id> {
    FirstN(ms, Claimable(ms, topic, now), granted)
  }

  /** Two rounds of taking are one. */
  lemma TakenJoins(ms: map<Id, Message>, topic: string, a: nat, k: nat, deadline: Time, now: Time)
    requires a <= 1
    ensures
      var first := Taken(ms, topic, a, now);
      var later := ClaimRows(ms, first, deadline);
      && first + Taken(later, topic, k, now) == Taken(ms, topic, a + k, now)
      && first !! Taken(later, topic, k, now)
      && ClaimRows(later, Taken(later, topic, k, now), deadline) == ClaimRows(ms, Taken(ms, topic, a + k, now), deadline)
  {
    var c := Claimable(ms, topic, now);
    var first := Taken(ms, topic, a, now);
    ClaimedNoMore(ms, first, topic, deadline, now);
    ClaimsKeepOrder(ms, first, c - first, k, deadline);
    FirstThenRest(ms, c, a, k);
    ClaimRowsTwice(ms, first, Taken(ClaimRows(ms, first, deadline), topic, k, now), deadline);
  }

  lemma ShownJoins(ms: map<Id, Message>, a: set<Id>, b: set<Id>, deadline: Time)
    requires a <= ms.Keys && b <= ms.Keys && a !! b
    ensures Shown(ms, a) + Shown(ClaimRows(ms, a, deadline), b) == Shown(ms, a + b)
  {
  }

  /** The outcome of claiming up to n at once. */
  ghost predicate IsBatch(p: Settings, db: Db, topic: string, n: nat, vt: Time, now: Time, after: Db, rows: map<Id, View>) {
    var (limited, granted) := ApplyThroughputLimit(db, topic, n, now);
    var ids := Taken(db.messages, topic, granted, now);
    && after == db.(buckets := limited.buckets, messages := ClaimRows(db.messages, ids, Deadline(p, now, vt)))
    && rows == Shown(db.messages, ids)
  }

  lemma OneIsBatch(p: Settings, db: Db, topic: string, vt: Time, now: Time)
    ensures
      var (after, reply) := Dequeue(p, db, topic, vt, now);
      IsBatch(p, db, topic, 1, vt, now, after, Rows(reply))
  {
    var (limited, granted) := ApplyThroughputLimit(db, topic, 1, now);
    LimitKeepsRows(db, topic, 1, now);
    var c := Claimable(db.messages, topic, now);
    if granted == 0 || c == {} {
      FirstNone(db.messages, c, granted);
      ClaimNoRows(db.messages, Deadline(p, now, vt));
    } else {
      OldestFirst(db.messages, c);
    }
  }

  ghost predicate Batch(call: Call, a: Db, n: nat, b: Db, rows: map<Id, View>) {
    IsBatch(call.p, a, call.topic, n, call.vt, call.now, b, rows)
  }

  /** Two batches in a row, the first of one, make one batch. */
  lemma BatchesJoin(call: Call, n: nat, a: Db, b: Db, x: map<Id, View>, c: Db, y: map<Id, View>)
    requires n >= 1 && Batch(call, a, 1, b, x) && Batch(call, b, n, c, y)
    ensures Batch(call, a, n + 1, c, x + y)
  {
    var deadline := Deadline(call.p, call.now, call.vt);
    var one := ApplyThroughputLimit(a, call.topic, 1, call.now).1;
    var more := ApplyThroughputLimit(b, call.topic, n, call.now).1;
    TokensSplit(a, b, call.topic, n, call.now);
    var all := ApplyThroughputLimit(a, call.topic, n + 1, call.now);
    assert all.1 == one + more;
    var first, second := Taken(a.messages, call.topic, one, call.now), Taken(b.messages, call.topic, more, call.now);
    TakenJoins(a.messages, call.topic, one, more, deadline, call.now);
    ShownJoins(a.messages, first, second, deadline);
    assert c == a.(buckets := all.0.buckets, messages := c.messages);
    assert c.messages == ClaimRows(a.messages, first + second, deadline);
    assert x + y == Shown(a.messages, first + second);
  }

  lemma SingleIsBatch(call: Call, d: Db)
    ensures OneIs(DequeueOnce, Batch, call, d)
  {
    OneIsBatch(call.p, d, call.topic, call.vt, call.now);
  }

  lemma BatchesJoinUp(call: Call, n: nat, a: Db, b: Db, x: map<Id, View>, c: Db, y: map<Id, View>)
    ensures Joins(Batch, call, n, a, b, x, c, y)
  {
    if n >= 1 && Batch(call, a, 1, b, x) && Batch(call, b, n, c, y) {
      BatchesJoin(call, n, a, b, x, c, y);
    }
  }

  /** n singles come to a batch of n. */
  lemma SinglesAreBatch(call: Call, db: Db, n: nat)
    requires n >= 1
    ensures Batch(call, db, n, Repeat(DequeueOnce, call, db, n).0, Repeat(DequeueOnce, call, db, n).1)
  {
    forall d ensures OneIs(DequeueOnce, Batch, call, d) {
      SingleIsBatch(call, d);
    }
    forall k, a, b, x, c, y ensures Joins(Batch, call, k, a, b, x, c, y) {
      BatchesJoinUp(call, k, a, b, x, c, y);
    }
    RepeatIsBatch(DequeueOnce, Batch, call, db, n);
  }

  /** What DequeueN does, as a batch: on a dead-letter topic it claims nothing. */
  lemma DequeueNIsBatch(p: Settings, db: Db, topic: string, n: int, vt: Time, now: Time)
    requires 1 <= n <= 1000
    ensures
      var (after, reply) := DequeueN(p, db, topic, n, vt, now);
      var (limited, granted) := ApplyThroughputLimit(db, topic, n, now);
      && reply.Claimed?
      && (if Reserved(topic) then after == db.(buckets := limited.buckets) && reply.rows == map[]
          else IsBatch(p, db, topic, n, vt, now, after, reply.rows))
  {
    LimitKeepsRows(db, topic, n, now);
    ClaimNoRows(db.messages, Deadline(p, now, vt));
    FirstNone(db.messages, Claimable(db.messages, topic, now), 0);
  }

  /** DequeueN is n Dequeues, tokens included - exactly unless the topic is a dead-letter topic with something to claim. */
  lemma BatchRefinesSingles(p: Settings, db: Db, topic: string, n: int, vt: Time, now: Time)
    requires 1 <= n <= 1000
    ensures
      var (db1, rows) := Singles(p, db, topic, n, vt, now);
      DequeueN(p, db, topic, n, vt, now) == (db1, Claimed(rows)) <==>
        !Reserved(topic) || ApplyThroughputLimit(db, topic, n, now).1 == 0 || Claimable(db.messages, topic, now) == {}
  {
    SinglesAreBatch(Call(p, topic, "", vt, now), db, n);
    var (db1, rows) := Singles(p, db, topic, n, vt, now);
    DequeueNIsBatch(p, db, topic, n, vt, now);
    var granted := ApplyThroughputLimit(db, topic, n, now).1;
    var c := Claimable(db.messages, topic, now);
    ClaimNoRows(db.messages, Deadline(p, now, vt));
    if granted == 0 || c == {} {
      FirstNone(db.messages, c, granted);
    } else {
      FirstNStep(db.messages, c, Oldest(db.messages, c), granted);
      assert Oldest(db.messages, c) in rows;
    }
  }

  // ---------------------------------------------------------------- groups

  lemma ClaimDeliveriesTwice(ds: map<DeliveryKey, Delivery>, group: string, a: set<Id>, b: set<Id>, deadline: Time)
    ensures ClaimDeliveries(ClaimDeliveries(ds, group, a, deadline), group, b, deadline) == ClaimDeliveries(ds, group, a + b, deadline)
  {
  }

  lemma ClaimNoDeliveries(ds: map<DeliveryKey, Delivery>, group: string, deadline: Time)
    ensures ClaimDeliveries(ds, group, {}, deadline) == ds
  {
  }

  lemma ClaimedNoMoreFor(db: Db, after: Db, ids: set<Id>, topic: string, group: string, deadline: Time, now: Time)
    requires ids <= ClaimableFor(db, topic, group, now) && after.messages == db.messages
    requires after.deliveries == ClaimDeliveries(db.deliveries, group, ids, deadline)
    ensures ClaimableFor(after, topic, group, now) == ClaimableFor(db, topic, group, now) - ids
  {
  }

  ghost function TakenFor(db: Db, topic: string, group: string, granted: nat, now: Time): set<Id> {
    FirstN(db.messages, ClaimableFor(db, topic, group, now), granted)
  }

  ghost predicate IsGroupBatch(p: Settings, db: Db, topic: string, group: string, n: nat, vt: Time, now: Time,
                               after: Db, rows: map<Id, View>) {
    var (limited, granted) := ApplyThroughputLimit(db, topic, n, now);
    && after == db.(buckets := limited.buckets, deliveries := after.deliveries)
    && ClaimedFor(db, after, topic, group, granted, Deadline(p, now, vt), now, rows)
  }

  lemma TakenJoinsFor(db: Db, after: Db, topic: string, group: string, a: nat, k: nat, deadline: Time, now: Time)
    requires a <= 1 && after.messages == db.messages
    requires after.deliveries == ClaimDeliveries(db.deliveries, group, TakenFor(db, topic, group, a, now), deadline)
    ensures
      var first, second := TakenFor(db, topic, group, a, now), TakenFor(after, topic, group, k, now);
      && first + second == TakenFor(db, topic, group, a + k, now)
      && first !! second
      && ClaimDeliveries(after.deliveries, group, second, deadline)
         == ClaimDeliveries(db.deliveries, group, TakenFor(db, topic, group, a + k, now), deadline)
      && ShownFor(db, group, first) + ShownFor(after, group, second) == ShownFor(db, group, first + second)
  {
    var first := TakenFor(db, topic, group, a, now);
    ClaimedNoMoreFor(db, after, first, topic, group, deadline, now);
    FirstThenRest(db.messages, ClaimableFor(db, topic, group, now), a, k);
    var second := TakenFor(after, topic, group, k, now);
    ClaimDeliveriesTwice(db.deliveries, group, first, second, deadline);
    ShownForJoins(db, after, group, first, second, deadline);
  }

  /** The second round shows deliveries the first has left alone. */
  lemma ShownForJoins(db: Db, after: Db, group: string, a: set<Id>, b: set<Id>, deadline: Time)
    requires after.messages == db.messages && after.deliveries == ClaimDeliveries(db.deliveries, group, a, deadline)
    requires a !! b && a + b <= db.messages.Keys
    requires forall i :: i in a + b ==> DeliveryKey(i, group) in db.deliveries
    ensures ShownFor(db, group, a) + ShownFor(after, group, b) == ShownFor(db, group, a + b)
  {
  }

  lemma OneIsGroupBatch(p: Settings, db: Db, topic: string, group: string, vt: Time, now: Time)
    ensures
      var (after, reply) := DequeueForGroup(p, db, topic, group, vt, now);
      IsGroupBatch(p, db, topic, group, 1, vt, now, after, Rows(reply))
  {
    var (limited, granted) := ApplyThroughputLimit(db, topic, 1, now);
    LimitKeepsRows(db, topic, 1, now);
    var c := ClaimableFor(db, topic, group, now);
    if granted == 0 || c == {} {
      FirstNone(db.messages, c, granted);
      ClaimNoDeliveries(db.deliveries, group, Deadline(p, now, vt));
    } else {
      OldestFirst(db.messages, c);
    }
  }

  /** What up to k claims at once do to the deliveries, and what they hand out. */
  ghost predicate ClaimedFor(db: Db, after: Db, topic: string, group: string, k: nat, deadline: Time, now: Time, rows: map<Id, View>) {
    && after.deliveries == ClaimDeliveries(db.deliveries, group, TakenFor(db, topic, group, k, now), deadline)
    && rows == ShownFor(db, group, TakenFor(db, topic, group, k, now))
  }

  lemma RowsJoinFor(a: Db, b: Db, c: Db, topic: string, group: string, one: nat, more: nat, deadline: Time, now: Time,
                    x: map<Id, View>, y: map<Id, View>)
    requires one <= 1 && b.messages == a.messages
    requires ClaimedFor(a, b, topic, group, one, deadline, now, x) && ClaimedFor(b, c, topic, group, more, deadline, now, y)
    ensures ClaimedFor(a, c, topic, group, one + more, deadline, now, x + y)
  {
    TakenJoinsFor(a, b, topic, group, one, more, deadline, now);
  }

  ghost predicate GroupBatch(call: Call, a: Db, n: nat, b: Db, rows: map<Id, View>) {
    IsGroupBatch(call.p, a, call.topic, call.group, n, call.vt, call.now, b, rows)
  }

  lemma GroupBatchesJoin(call: Call, n: nat, a: Db, b: Db, x: map<Id, View>, c: Db, y: map<Id, View>)
    requires n >= 1 && GroupBatch(call, a, 1, b, x) && GroupBatch(call, b, n, c, y)
    ensures GroupBatch(call, a, n + 1, c, x + y)
  {
    var one := ApplyThroughputLimit(a, call.topic, 1, call.now).1;
    var more := ApplyThroughputLimit(b, call.topic, n, call.now).1;
    TokensSplit(a, b, call.topic, n, call.now);
    var all := ApplyThroughputLimit(a, call.topic, n + 1, call.now);
    assert all.1 == one + more;
    assert c == a.(buckets := all.0.buckets, deliveries := c.deliveries);
    var deadline := Deadline(call.p, call.now, call.vt);
    RowsJoinFor(a, b, c, call.topic, call.group, one, more, deadline, call.now, x, y);
    assert ClaimedFor(a, c, call.topic, call.group, all.1, deadline, call.now, x + y);
  }

  lemma GroupSingleIsBatch(call: Call, d: Db)
    ensures OneIs(DequeueOnceForGroup, GroupBatch, call, d)
  {
    OneIsGroupBatch(call.p, d, call.topic, call.group, call.vt, call.now);
  }

  lemma GroupBatchesJoinUp(call: Call, n: nat, a: Db, b: Db, x: map<Id, View>, c: Db, y: map<Id, View>)
    ensures Joins(GroupBatch, call, n, a, b, x, c, y)
  {
    if n >= 1 && GroupBatch(call, a, 1, b, x) && GroupBatch(call, b, n, c, y) {
      GroupBatchesJoin(call, n, a, b, x, c, y);
    }
  }

  lemma GroupSinglesAreBatch(call: Call, db: Db, n: nat)
    requires n >= 1
    ensures GroupBatch(call, db, n, Repeat(DequeueOnceForGroup, call, db, n).0, Repeat(DequeueOnceForGroup, call, db, n).1)
  {
    forall d ensures OneIs(DequeueOnceForGroup, GroupBatch, call, d) {
      GroupSingleIsBatch(call, d);
    }
    forall k, a, b, x, c, y ensures Joins(GroupBatch, call, k, a, b, x, c, y) {
      GroupBatchesJoinUp(call, k, a, b, x, c, y);
    }
    RepeatIsBatch(DequeueOnceForGroup, GroupBatch, call, db, n);
  }

  /** What DequeueNForGroup does, as a batch. */
  lemma DequeueNForGroupIsBatch(p: Settings, db: Db, topic: string, group: string, n: int, vt: Time, now: Time)
    requires 1 <= n <= 1000
    ensures
      var (after, reply) := DequeueNForGroup(p, db, topic, group, n, vt, now);
      reply.Claimed? && IsGroupBatch(p, db, topic, group, n, vt, now, after, reply.rows)
  {
    LimitKeepsRows(db, topic, n, now);
    ClaimNoDeliveries(db.deliveries, group, Deadline(p, now, vt));
    FirstNone(db.messages, ClaimableFor(db, topic, group, now), 0);
  }

  /** DequeueNForGroup is n DequeueForGroups, on any topic and tokens included. */
  lemma GroupBatchRefinesSingles(p: Settings, db: Db, topic: string, group: string, n: int, vt: Time, now: Time)
    requires 1 <= n <= 1000
    ensures
      var (db1, rows) := GroupSingles(p, db, topic, group, n, vt, now);
      DequeueNForGroup(p, db, topic, group, n, vt, now) == (db1, Claimed(rows))
  {
    GroupSinglesAreBatch(Call(p, topic, group, vt, now), db, n);
    DequeueNForGroupIsBatch(p, db, topic, group, n, vt, now);
  }
}
