/** A group's delivery counts its own claims, and its limits bound them. */
module GroupDeliveryBound {
  import opened Tables
  import opened Lifecycle
  import opened Machine
  import opened RowHistory
  import opened Histories
  import opened ExclusiveClaims
  import opened ConfigReads

  ghost function GroupClaimCount(h: Run, d: DeliveryKey, i: nat, j: nat): nat
    requires Shaped(h) && i <= j <= |h.events|
    decreases j
  {
    if i == j then 0 else GroupClaimCount(h, d, i, j - 1) + if GroupClaimedAt(h, j - 1, d) then 1 else 0
  }

  /** Call i creates the delivery, with this max_retries, and it stays until j. */
  ghost predicate Lifetime(p: Settings, h: Run, d: DeliveryKey, maxRetries: int, i: nat, j: nat) {
    && Chronicle(p, h) && i < j <= |h.events|
    && d !in h.states[i].deliveries
    && (forall k :: i < k <= j ==> d in h.states[k].deliveries)
    && h.states[i + 1].deliveries[d].maxRetries == maxRetries
  }

  /** Claims seen so far, by the delivery's own account. */
  function Account(d: Delivery): int {
    d.retryCount + if d.status == Processing then 1 else 0
  }

  /** What a delivery with max_retries R looks like when no nack of it saw a threshold outside 1 to T. */
  predicate WithinLimits(d: Delivery, R: int, T: int) {
    && d.maxRetries == R && d.retryCount >= 0
    && (R > 0 ==> Account(d) <= R)
    && (T > 0 ==> Account(d) <= T && (d.status == Pending ==> d.retryCount < T))
    && (R == 0 && T == 0 ==> d.status != Failed)
  }

  ghost predicate NackedUnder(p: Settings, op: Op, d: DeliveryKey, T: int) {
    op.OpNackForGroup? && op.id == d.id && op.group == d.group ==>
      forall limit :: SeesLimit(p, op.cfg, limit) ==> if T > 0 then 0 < limit <= T else limit <= 0
  }

  lemma Created(p: Settings, db: Db, e: Event, reply: Reply, d: DeliveryKey, b: Option<Delivery>)
    requires DeliveryStep(p, db, e, reply, d, None, b) && b.Some?
    ensures b.value == NewDelivery(b.value.maxRetries)
  {
  }

  lemma StepCounts(p: Settings, db: Db, e: Event, reply: Reply, d: DeliveryKey, a: Delivery, b: Delivery)
    requires DeliveryStep(p, db, e, reply, d, Some(a), Some(b)) && d.id !in NewIds(e.op)
    ensures
      var claimed := (e.op.OpDequeueForGroup? || e.op.OpDequeueNForGroup?) && e.op.group == d.group && d.id in Rows(reply);
      Account(b) == Account(a) + (if claimed then 1 else 0) && b.maxRetries == a.maxRetries
  {
  }

  lemma StepStaysWithin(p: Settings, db: Db, e: Event, reply: Reply, d: DeliveryKey, a: Delivery, b: Delivery, R: int, T: int)
    requires DeliveryStep(p, db, e, reply, d, Some(a), Some(b)) && d.id !in NewIds(e.op)
    requires WithinLimits(a, R, T) && NackedUnder(p, e.op, d, T)
    ensures WithinLimits(b, R, T)
  {
    assert e.op.OpNackForGroup? ==> SeesLimit(p, e.op.cfg, Threshold(p, e.op.cfg));
  }

  /** The step at k, for a delivery that is there before and after. */
  lemma Between(p: Settings, h: Run, d: DeliveryKey, k: nat)
    requires Chronicle(p, h) && k < |h.events| && d in h.states[k].deliveries && d in h.states[k + 1].deliveries
    ensures DeliveryStep(p, h.states[k], h.events[k], h.replies[k], d,
                         Some(h.states[k].deliveries[d]), Some(h.states[k + 1].deliveries[d]))
    ensures d.id !in NewIds(h.events[k].op)
  {
    assert DeliveryRowAt(p, h, k, d) && SoundAt(h, k);
  }

  /** From its creation on, a delivery's retry count, plus one while it is being processed, is the number of times its
      group has claimed it; max_retries never changes. */
  lemma {:induction false} ClaimsAreCounted(p: Settings, h: Run, d: DeliveryKey, R: int, i: nat, j: nat)
    requires Lifetime(p, h, d, R, i, j)
    ensures GroupClaimCount(h, d, i + 1, j) == Account(h.states[j].deliveries[d])
    ensures h.states[j].deliveries[d].maxRetries == R
    decreases j
  {
    if i + 1 == j {
      assert DeliveryRowAt(p, h, i, d);
      Created(p, h.states[i], h.events[i], h.replies[i], d, DeliveryAt(h.states[j], d));
    } else {
      ClaimsAreCounted(p, h, d, R, i, j - 1);
      Between(p, h, d, j - 1);
      StepCounts(p, h.states[j - 1], h.events[j - 1], h.replies[j - 1], d,
                 h.states[j - 1].deliveries[d], h.states[j].deliveries[d]);
    }
  }

  lemma {:induction false} StaysWithin(p: Settings, h: Run, d: DeliveryKey, R: int, T: int, i: nat, j: nat)
    requires Lifetime(p, h, d, R, i, j) && R >= 0 && T >= 0
    requires forall k :: i < k < j ==> NackedUnder(p, h.events[k].op, d, T)
    ensures WithinLimits(h.states[j].deliveries[d], R, T)
    decreases j
  {
    if i + 1 == j {
      assert DeliveryRowAt(p, h, i, d);
      Created(p, h.states[i], h.events[i], h.replies[i], d, DeliveryAt(h.states[j], d));
    } else {
      StaysWithin(p, h, d, R, T, i, j - 1);
      Between(p, h, d, j - 1);
      StepStaysWithin(p, h.states[j - 1], h.events[j - 1], h.replies[j - 1], d,
                      h.states[j - 1].deliveries[d], h.states[j].deliveries[d], R, T);
    }
  }

  /** Where the threshold is not reached, max_retries = 0 means opposite things: the message fails on its first nack,
      the delivery on none. */
  lemma ZeroRetries(m: Message, d: Delivery, reason: string, threshold: int, now: Time)
    requires m.maxRetries == 0 && m.retryCount >= 0 && !ReachesThreshold(threshold, m.retryCount)
    requires d.maxRetries == 0 && !ReachesThreshold(threshold, d.retryCount)
    ensures NackRow(m, reason, threshold, now).status == Failed
    ensures NackDelivery(d, reason, threshold).status == Pending
  {
  }

  /** A group claims a message at most R times if its delivery has max_retries R, and at most T times if every nack of it
      sees a threshold between 1 and T; with neither limit its delivery never fails. */
  lemma GroupDeliveriesBounded(p: Settings, h: Run, d: DeliveryKey, R: int, T: int, i: nat, j: nat)
    requires History(p, h) && i < j <= |h.events| && R >= 0 && T >= 0
    requires d !in h.states[i].deliveries && (forall k :: i < k <= j ==> d in h.states[k].deliveries)
    requires h.states[i + 1].deliveries[d].maxRetries == R
    requires forall k :: i < k < j ==> NackedUnder(p, h.events[k].op, d, T)
    ensures R > 0 ==> GroupClaimCount(h, d, i + 1, j) <= R
    ensures T > 0 ==> GroupClaimCount(h, d, i + 1, j) <= T
    ensures R == 0 && T == 0 ==> h.states[j].deliveries[d].status != Failed
  {
    ChronicleOf(p, h);
    ClaimsAreCounted(p, h, d, R, i, j);
    StaysWithin(p, h, d, R, T, i, j);
  }
}
