/** The token bucket over whole runs: how many messages a limited topic can hand out in a window. */
module Throughput {
  import opened Tables
  import opened Ordering
  import opened Throttle
  import opened Claims
  import opened Machine
  import opened RowHistory
  import opened Histories

  predicate ClaimsOn(op: Op, topic: string) {
    (op.OpDequeue? || op.OpDequeueN? || op.OpDequeueForGroup? || op.OpDequeueNForGroup?) && op.topic == topic
  }

  function Wanted(op: Op): int
    requires op.OpDequeue? || op.OpDequeueN? || op.OpDequeueForGroup? || op.OpDequeueNForGroup?
  {
    if op.OpDequeueN? || op.OpDequeueNForGroup? then op.n else 1
  }

  predicate BatchOutOfRange(op: Op) {
    (op.OpDequeueN? || op.OpDequeueNForGroup?) && (op.n < 1 || op.n > 1000)
  }

  /** A step touches a topic's bucket only by claiming on the topic, or by deleting its configuration. */
  ghost predicate BucketStep(db: Db, e: Event, reply: Reply, after: Db, topic: string) {
    if ClaimsOn(e.op, topic) && !BatchOutOfRange(e.op) then
      var (db1, granted) := ApplyThroughputLimit(db, topic, Wanted(e.op), e.now);
      BucketOf(after, topic) == BucketOf(db1, topic) && |Rows(reply)| <= granted
    else
      && (ClaimsOn(e.op, topic) ==> Rows(reply) == map[])
      && (BucketOf(after, topic) == BucketOf(db, topic) || (e.op == OpDeleteConfig(topic) && BucketOf(after, topic).None?))
  }

  lemma ShownSize(db: Db, ids: set<Id>)
    requires ids <= db.messages.Keys
    ensures |Shown(db.messages, ids)| == |ids|
  {
    assert Shown(db.messages, ids).Keys == ids;
  }

  lemma ShownForSize(db: Db, group: string, ids: set<Id>)
    requires ids <= db.messages.Keys && forall i :: i in ids ==> DeliveryKey(i, group) in db.deliveries
    ensures |ShownFor(db, group, ids)| == |ids|
  {
    assert ShownFor(db, group, ids).Keys == ids;
  }

  lemma DequeuePays(p: Settings, db: Db, topic: string, vt: Time, now: Time)
    ensures
      var (after, reply) := Dequeue(p, db, topic, vt, now);
      var (db1, granted) := ApplyThroughputLimit(db, topic, 1, now);
      after.buckets == db1.buckets && |Rows(reply)| <= granted
  {
    var (db1, granted) := ApplyThroughputLimit(db, topic, 1, now);
    var c := Claimable(db1.messages, topic, now);
    if granted != 0 && c != {} {
      ShownSize(db1, {Oldest(db1.messages, c)});
    }
  }

  lemma DequeueNPays(p: Settings, db: Db, topic: string, n: int, vt: Time, now: Time)
    requires 1 <= n <= 1000
    ensures
      var (after, reply) := DequeueN(p, db, topic, n, vt, now);
      var (db1, granted) := ApplyThroughputLimit(db, topic, n, now);
      after.buckets == db1.buckets && |Rows(reply)| <= granted
  {
    var (db1, granted) := ApplyThroughputLimit(db, topic, n, now);
    var c := Claimable(db1.messages, topic, now);
    FirstNSize(db1.messages, c, granted);
    ShownSize(db1, FirstN(db1.messages, c, granted));
    ShownSize(db1, {});
  }

  lemma DequeueForGroupPays(p: Settings, db: Db, topic: string, group: string, vt: Time, now: Time)
    ensures
      var (after, reply) := DequeueForGroup(p, db, topic, group, vt, now);
      var (db1, granted) := ApplyThroughputLimit(db, topic, 1, now);
      after.buckets == db1.buckets && |Rows(reply)| <= granted
  {
    var (db1, granted) := ApplyThroughputLimit(db, topic, 1, now);
    var c := ClaimableFor(db1, topic, group, now);
    if granted != 0 && c != {} {
      ShownForSize(db1, group, {Oldest(db1.messages, c)});
    }
  }

  lemma DequeueNForGroupPays(p: Settings, db: Db, topic: string, group: string, n: int, vt: Time, now: Time)
    requires 1 <= n <= 1000
    ensures
      var (after, reply) := DequeueNForGroup(p, db, topic, group, n, vt, now);
      var (db1, granted) := ApplyThroughputLimit(db, topic, n, now);
      after.buckets == db1.buckets && |Rows(reply)| <= granted
  {
    var (db1, granted) := ApplyThroughputLimit(db, topic, n, now);
    var c := ClaimableFor(db1, topic, group, now);
    FirstNSize(db1.messages, c, granted);
    ShownForSize(db1, group, FirstN(db1.messages, c, granted));
  }

  /** All four claim operations take their messages out of the topic's bucket. */
  lemma ClaimsPay(p: Settings, db: Db, e: Event)
    requires e.op.OpDequeue? || e.op.OpDequeueN? || e.op.OpDequeueForGroup? || e.op.OpDequeueNForGroup?
    requires !BatchOutOfRange(e.op)
    ensures
      var (after, reply) := Step(p, db, e);
      var (db1, granted) := ApplyThroughputLimit(db, e.op.topic, Wanted(e.op), e.now);
      after.buckets == db1.buckets && |Rows(reply)| <= granted
  {
    match e.op {
      case OpDequeue(topic, vt) => DequeuePays(p, db, topic, vt, e.now);
      case OpDequeueN(topic, n, vt) => DequeueNPays(p, db, topic, n, vt, e.now);
      case OpDequeueForGroup(topic, group, vt) => DequeueForGroupPays(p, db, topic, group, vt, e.now);
      case OpDequeueNForGroup(topic, group, n, vt) => DequeueNForGroupPays(p, db, topic, group, n, vt, e.now);
    }
  }

  lemma OtherTopicsKeepBucket(db: Db, other: string, want: int, now: Time, topic: string)
    requires other != topic
    ensures BucketOf(ApplyThroughputLimit(db, other, want, now).0, topic) == BucketOf(db, topic)
  {
  }

  lemma ClaimBuckets(p: Settings, db: Db, e: Event, topic: string)
    requires e.op.OpDequeue? || e.op.OpDequeueN? || e.op.OpDequeueForGroup? || e.op.OpDequeueNForGroup?
    requires !BatchOutOfRange(e.op)
    ensures BucketStep(db, e, Step(p, db, e).1, Step(p, db, e).0, topic)
  {
    ClaimsPay(p, db, e);
    if e.op.topic != topic {
      OtherTopicsKeepBucket(db, e.op.topic, Wanted(e.op), e.now, topic);
    }
  }

  lemma OtherBuckets(p: Settings, db: Db, e: Event, topic: string)
    requires Enabled(db, e) && BringsNewIds(db, e.op) && !IsClaim(e.op)
    ensures BucketStep(db, e, Step(p, db, e).1, Step(p, db, e).0, topic)
  {
    SideSteps(p, db, e);
  }

  lemma BucketSteps(p: Settings, db: Db, e: Event, topic: string)
    requires Enabled(db, e) && BringsNewIds(db, e.op)
    ensures BucketStep(db, e, Step(p, db, e).1, Step(p, db, e).0, topic)
  {
    if e.op.OpDequeue? || e.op.OpDequeueN? || e.op.OpDequeueForGroup? || e.op.OpDequeueNForGroup? {
      if !BatchOutOfRange(e.op) {
        ClaimBuckets(p, db, e, topic);
      }
    } else {
      OtherBuckets(p, db, e, topic);
    }
  }

  // ------------------------------------------------ the bucket as a potential

  /** Tokens at hand at `now`, were the bucket refilled. */
  function Available(b: Option<Bucket>, limit: int, now: Time): real {
    Refill(b, limit, now).tokens
  }

  /** Tokens are not overdrawn and the last refill is in the past. */
  predicate InCredit(b: Option<Bucket>, now: Time) {
    b.Some? ==> b.value.tokens >= 0.0 && b.value.lastRefill <= now
  }

  lemma EarnedAddsUp(limit: int, a: Time, b: Time, c: Time)
    ensures Earned(limit, a, c) == Earned(limit, a, b) + Earned(limit, b, c)
  {
  }

  lemma AvailableInRange(b: Option<Bucket>, limit: int, now: Time)
    requires limit > 0 && InCredit(b, now)
    ensures 0.0 <= Available(b, limit, now) <= limit as real
  {
  }

  /** Waiting earns at most limit tokens a second. */
  lemma WaitingEarns(b: Option<Bucket>, limit: int, t: Time, u: Time)
    requires limit > 0 && InCredit(b, t) && t <= u
    ensures Available(b, limit, u) <= Available(b, limit, t) + Earned(limit, t, u)
  {
    assert Earned(limit, t, u) >= 0.0;
    if b.Some? {
      EarnedAddsUp(limit, b.value.lastRefill, t, u);
    }
  }

  lemma TruncBelow(x: real)
    requires x >= 0.0
    ensures 0 <= Trunc(x) && Trunc(x) as real <= x
  {
  }

  lemma SpendingPays(full: Bucket, limit: int, want: int, now: Time)
    requires full.lastRefill == now && 0.0 <= full.tokens <= limit as real && want >= 0
    ensures
      var (b, granted) := Spend(full, want);
      InCredit(Some(b), now) && b.tokens <= limit as real && granted as real + Available(Some(b), limit, now) == full.tokens
  {
    TruncBelow(full.tokens);
  }

  /** Each message delivered was paid for with a token. */
  lemma DeliveriesArePaid(db: Db, e: Event, reply: Reply, after: Db, topic: string, limit: int)
    requires BucketStep(db, e, reply, after, topic) && LimitOf(db, topic) == Some(limit) && limit > 0
    requires InCredit(BucketOf(db, topic), e.now) && e.op != OpDeleteConfig(topic)
    ensures InCredit(BucketOf(after, topic), e.now)
    ensures (if ClaimsOn(e.op, topic) then |Rows(reply)| else 0) as real + Available(BucketOf(after, topic), limit, e.now)
         <= Available(BucketOf(db, topic), limit, e.now)
  {
    var b := BucketOf(db, topic);
    AvailableInRange(b, limit, e.now);
    if ClaimsOn(e.op, topic) && !BatchOutOfRange(e.op) {
      SpendingPays(Refill(b, limit, e.now), limit, Wanted(e.op), e.now);
    }
  }

  ghost function Delivered(h: Run, topic: string, i: nat, j: nat): nat
    requires Shaped(h) && i <= j <= |h.events|
    decreases j
  {
    if i == j then 0 else Delivered(h, topic, i, j - 1) + DeliveredAt(h, topic, j - 1)
  }

  /** The topic has this limit in every state from i to j. */
  ghost predicate Limited(h: Run, topic: string, limit: int, i: nat, j: nat)
    requires Shaped(h) && i <= j <= |h.events|
  {
    limit > 0 && forall k :: i <= k <= j ==> LimitOf(h.states[k], topic) == Some(limit)
  }

  lemma PaidAt(p: Settings, h: Run, topic: string, limit: int, k: nat)
    requires History(p, h) && k < |h.events| && Limited(h, topic, limit, k, k + 1)
    requires InCredit(BucketOf(h.states[k], topic), h.events[k].now)
    ensures InCredit(BucketOf(h.states[k + 1], topic), h.events[k].now)
    ensures (if ClaimsOn(h.events[k].op, topic) then |Rows(h.replies[k])| else 0) as real
              + Available(BucketOf(h.states[k + 1], topic), limit, h.events[k].now)
         <= Available(BucketOf(h.states[k], topic), limit, h.events[k].now)
  {
    SoundPrefix(p, h, k);
    assert StepAt(p, h, k);
    BucketSteps(p, h.states[k], h.events[k], topic);
    assert LimitOf(h.states[k + 1], topic).Some?;
    DeliveriesArePaid(h.states[k], h.events[k], h.replies[k], h.states[k + 1], topic, limit);
  }

  /** What call k delivers on the topic. */
  ghost function DeliveredAt(h: Run, topic: string, k: nat): nat
    requires Shaped(h) && k < |h.events|
  {
    if ClaimsOn(h.events[k].op, topic) then |Rows(h.replies[k])| else 0
  }

  ghost function AvailableAt(h: Run, topic: string, limit: int, k: nat, now: Time): real
    requires Shaped(h) && k <= |h.events|
  {
    Available(BucketOf(h.states[k], topic), limit, now)
  }

  /** What is delivered from i to j, and left, costs at most what there was plus what was earned. */
  ghost predicate Affordable(h: Run, topic: string, limit: int, i: nat, j: nat)
    requires Shaped(h) && i < j <= |h.events|
  {
    Delivered(h, topic, i, j) as real + AvailableAt(h, topic, limit, j, h.events[j - 1].now)
      <= AvailableAt(h, topic, limit, i, h.events[i].now) + Earned(limit, h.events[i].now, h.events[j - 1].now)
  }

  /** The cost of one more call, after a wait since time u. */
  lemma OneMoreCall(p: Settings, h: Run, topic: string, limit: int, k: nat, u: Time)
    requires History(p, h) && k < |h.events| && Limited(h, topic, limit, k, k + 1)
    requires u <= h.events[k].now && InCredit(BucketOf(h.states[k], topic), u)
    ensures InCredit(BucketOf(h.states[k + 1], topic), h.events[k].now)
    ensures DeliveredAt(h, topic, k) as real + AvailableAt(h, topic, limit, k + 1, h.events[k].now)
         <= AvailableAt(h, topic, limit, k, u) + Earned(limit, u, h.events[k].now)
  {
    WaitingEarns(BucketOf(h.states[k], topic), limit, u, h.events[k].now);
    PaidAt(p, h, topic, limit, k);
  }

  lemma AddUp(h: Run, topic: string, limit: int, i: nat, j: nat)
    requires Shaped(h) && i < j < |h.events| && limit > 0
    requires Affordable(h, topic, limit, i, j)
    requires h.events[i].now <= h.events[j - 1].now <= h.events[j].now
    requires DeliveredAt(h, topic, j) as real + AvailableAt(h, topic, limit, j + 1, h.events[j].now)
          <= AvailableAt(h, topic, limit, j, h.events[j - 1].now) + Earned(limit, h.events[j - 1].now, h.events[j].now)
    ensures Affordable(h, topic, limit, i, j + 1)
  {
    EarnedAddsUp(limit, h.events[i].now, h.events[j - 1].now, h.events[j].now);
  }

  lemma {:induction false} WindowCost(p: Settings, h: Run, topic: string, limit: int, i: nat, j: nat)
    requires History(p, h) && i < j <= |h.events| && Limited(h, topic, limit, i, j)
    requires InCredit(BucketOf(h.states[i], topic), h.events[i].now)
    ensures InCredit(BucketOf(h.states[j], topic), h.events[j - 1].now)
    ensures Affordable(h, topic, limit, i, j)
    decreases j
  {
    if i + 1 == j {
      OneMoreCall(p, h, topic, limit, i, h.events[i].now);
      assert Delivered(h, topic, i, i) == 0;
    } else {
      WindowCost(p, h, topic, limit, i, j - 1);
      OneMoreCall(p, h, topic, limit, j - 1, h.events[j - 2].now);
      AddUp(h, topic, limit, i, j - 1);
    }
  }

  /** No configured limit is negative. */
  ghost predicate LimitsNotNegative(h: Run)
    requires Shaped(h)
  {
    forall i, topic :: 0 <= i < |h.states| ==> NotNegative(LimitOf(h.states[i], topic))
  }

  predicate NotNegative(limit: Option<int>) {
    limit.Some? ==> limit.value >= 0
  }

  lemma StepKeepsCredit(db: Db, e: Event, reply: Reply, after: Db, topic: string)
    requires BucketStep(db, e, reply, after, topic) && NotNegative(LimitOf(db, topic))
    requires InCredit(BucketOf(db, topic), e.now)
    ensures InCredit(BucketOf(after, topic), e.now)
  {
    var limit := LimitOf(db, topic);
    if limit.Some? && limit.value > 0 && e.op != OpDeleteConfig(topic) {
      DeliveriesArePaid(db, e, reply, after, topic, limit.value);
    }
  }

  lemma CreditAfter(p: Settings, h: Run, topic: string, i: nat)
    requires History(p, h) && i < |h.events| && LimitsNotNegative(h)
    requires InCredit(BucketOf(h.states[i], topic), h.events[i].now)
    ensures InCredit(BucketOf(h.states[i + 1], topic), h.events[i].now)
  {
    SoundPrefix(p, h, i);
    assert StepAt(p, h, i) && NotNegative(LimitOf(h.states[i], topic));
    BucketSteps(p, h.states[i], h.events[i], topic);
    StepKeepsCredit(h.states[i], h.events[i], h.replies[i], h.states[i + 1], topic);
  }

  /** In every run, every bucket is in credit at every call. */
  lemma {:induction false} AlwaysInCredit(p: Settings, h: Run, topic: string, i: nat)
    requires History(p, h) && i <= |h.events| && LimitsNotNegative(h)
    ensures i < |h.events| ==> InCredit(BucketOf(h.states[i], topic), h.events[i].now)
    ensures i > 0 ==> InCredit(BucketOf(h.states[i], topic), h.events[i - 1].now)
    decreases i
  {
    if i > 0 {
      AlwaysInCredit(p, h, topic, i - 1);
      CreditAfter(p, h, topic, i - 1);
      assert i < |h.events| ==> h.events[i - 1].now <= h.events[i].now;
    }
  }

  /** At most limit + limit * elapsed messages leave the topic, over all four claim operations together. */
  lemma ThroughputBound(p: Settings, h: Run, topic: string, limit: int, i: nat, j: nat)
    requires History(p, h) && LimitsNotNegative(h)
    requires i < j <= |h.events| && Limited(h, topic, limit, i, j)
    ensures Delivered(h, topic, i, j) as real <= limit as real + Earned(limit, h.events[i].now, h.events[j - 1].now)
  {
    AlwaysInCredit(p, h, topic, i);
    AlwaysInCredit(p, h, topic, j);
    WindowCost(p, h, topic, limit, i, j);
    AvailableInRange(BucketOf(h.states[i], topic), limit, h.events[i].now);
    AvailableInRange(BucketOf(h.states[j], topic), limit, h.events[j - 1].now);
    assert AvailableAt(h, topic, limit, i, h.events[i].now) <= limit as real;
    assert AvailableAt(h, topic, limit, j, h.events[j - 1].now) >= 0.0;
    assert Delivered(h, topic, i, j) as real <= limit as real + Earned(limit, h.events[i].now, h.events[j - 1].now);
  }

  /** Under a limit, a claim leaves between 0 and limit tokens, and the bucket stays within while the limit does. */
  lemma TokensStayInRange(p: Settings, h: Run, topic: string, limit: int, k: nat)
    requires History(p, h) && LimitsNotNegative(h) && k < |h.events| && Limited(h, topic, limit, k, k + 1)
    requires topic in h.states[k + 1].buckets
    requires (ClaimsOn(h.events[k].op, topic) && !BatchOutOfRange(h.events[k].op))
          || (topic in h.states[k].buckets && h.states[k].buckets[topic].tokens <= limit as real)
    ensures 0.0 <= h.states[k + 1].buckets[topic].tokens <= limit as real
  {
    AlwaysInCredit(p, h, topic, k);
    AlwaysInCredit(p, h, topic, k + 1);
    SoundPrefix(p, h, k);
    assert StepAt(p, h, k) && LimitOf(h.states[k + 1], topic).Some?;
    BucketSteps(p, h.states[k], h.events[k], topic);
    if ClaimsOn(h.events[k].op, topic) && !BatchOutOfRange(h.events[k].op) {
      AvailableInRange(BucketOf(h.states[k], topic), limit, h.events[k].now);
      SpendingPays(Refill(BucketOf(h.states[k], topic), limit, h.events[k].now), limit, Wanted(h.events[k].op), h.events[k].now);
    }
  }

  lemma Quotient(l: real, n: real, idle: real)
    requires l > 0.0 && idle >= n / l
    ensures l * idle >= n
  {
    var wait := n / l;
    assert l * wait == n;
    assert l * (idle - wait) >= 0.0;
    assert l * idle == l * wait + l * (idle - wait);
  }

  lemma EarnedByIdling(limit: int, n: int, since: Time, now: Time)
    requires limit > 0 && now - since >= n as real / limit as real
    ensures Earned(limit, since, now) >= n as real
  {
    Quotient(limit as real, n as real, now - since);
  }

  /** After idling n / limit seconds, a request for n up to the limit is granted in full. */
  lemma IdlingRefills(db: Db, topic: string, limit: int, n: int, now: Time)
    requires LimitOf(db, topic) == Some(limit) && 0 < n <= limit
    requires InCredit(BucketOf(db, topic), now)
    requires topic in db.buckets ==> now - db.buckets[topic].lastRefill >= n as real / limit as real
    ensures ApplyThroughputLimit(db, topic, n, now).1 == n
  {
    if topic in db.buckets {
      EarnedByIdling(limit, n, db.buckets[topic].lastRefill, now);
    }
    var full := Refill(BucketOf(db, topic), limit, now);
    assert full.tokens >= n as real;
  }
}
