/** throttle.go: the per-topic token bucket, with real-valued tokens. */
module Throttle {
  import opened Tables

  /** limit tokens a second. */
  function Earned(limit: int, since: Time, until: Time): (tokens: real)
    ensures limit >= 0 && since <= until ==> tokens >= 0.0
    ensures since == until ==> tokens == 0.0
  {
    limit as real * (until - since)
  }

  /** The bucket after the upsert at `now`: full when new, else refilled and capped at the limit. */
  function Refill(b: Option<Bucket>, limit: int, now: Time): Bucket {
    match b
    case None => Bucket(limit as real, now)
    case Some(b) =>
      var grown := b.tokens + Earned(limit, b.lastRefill, now);
      Bucket(if grown < limit as real then grown else limit as real, now)
  }

  function BucketOf(db: Db, topic: string): Option<Bucket> {
    if topic in db.buckets then Some(db.buckets[topic]) else None
  }

  /** Grant what the bucket can afford and deduct it. */
  function Spend(b: Bucket, requested: int): (r: (Bucket, int))
    ensures requested >= 0 ==> 0 <= r.1 <= requested
  {
    var allowed := if requested < Trunc(b.tokens) then requested else Trunc(b.tokens);
    if allowed <= 0 then (b, 0) else (b.(tokens := b.tokens - allowed as real), allowed)
  }

  /** consumeTokens: refill, then spend. */
  function ConsumeTokens(db: Db, topic: string, limit: int, requested: int, now: Time): (r: (Db, int))
    ensures requested >= 0 ==> 0 <= r.1 <= requested
  {
    var (b, allowed) := Spend(Refill(BucketOf(db, topic), limit, now), requested);
    (db.(buckets := db.buckets[topic := b]), allowed)
  }

  function LimitOf(db: Db, topic: string): Option<int> {
    if topic in db.config then db.config[topic].throughputLimit else None
  }

  /** applyThroughputLimit: a missing or zero limit grants everything. */
  function ApplyThroughputLimit(db: Db, topic: string, want: int, now: Time): (r: (Db, int))
    ensures want >= 0 ==> 0 <= r.1 <= want
    ensures r.0.messages == db.messages && r.0.deliveries == db.deliveries
  {
    match LimitOf(db, topic)
    case None => (db, want)
    case Some(limit) => if limit == 0 then (db, want) else ConsumeTokens(db, topic, limit, want, now)
  }
}
