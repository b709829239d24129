/** Which nack of a message promotes it, which fails it, and under which limit. */
module RetryLaw {
  import opened Tables
  import opened Machine
  import opened RowHistory
  import opened Histories
  import opened ConfigReads
  import opened DeadLetters
  import opened ExclusiveClaims
  import opened GroupDeliveryBound

  ghost predicate NackedAt(h: Run, k: nat, id: Id)
    requires Shaped(h) && k < |h.events|
  {
    h.events[k].op.OpNack? && h.events[k].op.id == id && h.replies[k] == Done
  }

  ghost function NackCount(h: Run, id: Id, i: nat, j: nat): nat
    requires Shaped(h) && i <= j <= |h.events|
    decreases j
  {
    if i == j then 0 else NackCount(h, id, i, j - 1) + if NackedAt(h, j - 1, id) then 1 else 0
  }

  /** Call i brings the message, it is not requeued before j, and its nacks until then are all under one limit. */
  ghost predicate RetriedUnder(p: Settings, h: Run, id: Id, limit: int, i: nat, j: nat) {
    && Shaped(h) && i < j <= |h.events|
    && id !in h.states[i].messages && id in h.states[i + 1].messages
    && (forall k :: i < k < j ==> !RequeuedAt(h, k, id))
    && forall k :: i < k < j && NackedAt(h, k, id) ==> SeesLimit(p, h.events[k].op.cfg, limit)
  }

  /** b is m after its n-th nack, which does not promote it. */
  predicate Retried(m: Message, b: Message, n: int, reason: string) {
    && b.topic == m.topic && b.originalTopic == m.originalTopic && b.retryCount == n && b.maxRetries == m.maxRetries
    && b.status == (if n >= m.maxRetries then Failed else Pending) && b.lastError == Some(reason) && b.visibility.None?
  }

  /** b is m after the nack that promotes it. */
  predicate Promoted(m: Message, b: Message, reason: string, now: Time) {
    && b.topic == m.topic + ".dlq" && b.originalTopic == Some(m.topic) && b.dlqMovedAt == Some(now)
    && b.status == Pending && b.retryCount == 0 && b.maxRetries == 0 && b.lastError == Some(reason) && b.visibility.None?
  }

  lemma StepRetries(p: Settings, db: Db, e: Event, reply: Reply, id: Id, a: Message, b: Message, limit: int)
    requires RowStep(p, db, e, reply, id, Some(a), Some(b)) && id !in NewIds(e.op)
    requires !(e.op.OpRequeue? && e.op.id == id && reply == Done)
    ensures
      var nacked := e.op.OpNack? && e.op.id == id && reply == Done;
      && (!nacked ==> b.retryCount == a.retryCount && b.topic == a.topic && b.originalTopic == a.originalTopic)
      && (nacked && SeesLimit(p, e.op.cfg, limit) ==>
            && a.status == Processing
            && if limit >= 1 && a.retryCount + 1 >= limit then Promoted(a, b, e.op.reason, e.now)
               else Retried(a, b, a.retryCount + 1, e.op.reason))
  {
  }

  /** Until its nacks reach the limit, a message's retry count is the number of them, and it stays on its topic. */
  lemma {:induction false} NacksAreCounted(p: Settings, h: Run, id: Id, limit: int, i: nat, j: nat)
    requires Chronicle(p, h) && RetriedUnder(p, h, id, limit, i, j) && id in h.states[j].messages
    requires limit <= 0 || NackCount(h, id, i + 1, j) < limit
    ensures
      var (m, b) := (h.states[i + 1].messages[id], h.states[j].messages[id]);
      b.retryCount == NackCount(h, id, i + 1, j) && b.topic == m.topic && b.originalTopic == m.originalTopic
    decreases j
  {
    if i + 1 == j {
      assert RowAt(p, h, i, id);
      FreshRow(p, h.states[i], h.events[i], h.replies[i], id, h.states[j].messages[id]);
    } else {
      StillThere(p, h, id, i, j - 1);
      NacksAreCounted(p, h, id, limit, i, j - 1);
      CountsNext(p, h, id, limit, i, j - 1);
    }
  }

  lemma CountsNext(p: Settings, h: Run, id: Id, limit: int, i: nat, j: nat)
    requires Chronicle(p, h) && i < j < |h.events| && RetriedUnder(p, h, id, limit, i, j + 1)
    requires id in h.states[j].messages && id in h.states[j + 1].messages && id !in NewIds(h.events[j].op)
    requires h.states[j].messages[id].retryCount == NackCount(h, id, i + 1, j)
    requires limit <= 0 || NackCount(h, id, i + 1, j + 1) < limit
    ensures
      var (a, b) := (h.states[j].messages[id], h.states[j + 1].messages[id]);
      b.retryCount == NackCount(h, id, i + 1, j + 1) && b.topic == a.topic && b.originalTopic == a.originalTopic
  {
    assert RowAt(p, h, j, id) && !RequeuedAt(h, j, id);
    StepRetries(p, h.states[j], h.events[j], h.replies[j], id, h.states[j].messages[id], h.states[j + 1].messages[id], limit);
  }

  lemma FreshRow(p: Settings, db: Db, e: Event, reply: Reply, id: Id, b: Message)
    requires RowStep(p, db, e, reply, id, None, Some(b))
    ensures b.retryCount == 0 && b.status == Pending
  {
  }

  /** A message that is there at j + 1 was there at j, and no call has brought it since i. */
  lemma StillThere(p: Settings, h: Run, id: Id, i: nat, j: nat)
    requires Chronicle(p, h) && i < j < |h.events| && id in h.states[i + 1].messages && id in h.states[j + 1].messages
    ensures id in h.states[j].messages && id !in NewIds(h.events[j].op)
  {
    assert SoundAt(h, i + 1) && Introduced(h, i + 1, id);
    NotBroughtAgain(h, i + 1, j, id);
    if id !in h.states[j].messages {
      GoneForGood(p, h, id, j, j + 1);
    }
  }

  /** With nacks under a limit of at least 1, the topic's or the global one, the message is promoted at the nack whose
      number is the limit and at no earlier one; under no limit it is never promoted. Every other nack retries it, and
      fails it from its max_retries on. */
  lemma PromotedAtTheLimit(p: Settings, h: Run, id: Id, limit: int, i: nat, k: nat)
    requires History(p, h) && k < |h.events| && RetriedUnder(p, h, id, limit, i, k + 1) && i < k && NackedAt(h, k, id)
    requires limit <= 0 || NackCount(h, id, i + 1, k) < limit
    ensures id in h.states[k].messages && id in h.states[k + 1].messages
    ensures
      var (m, b) := (h.states[k].messages[id], h.states[k + 1].messages[id]);
      var n := NackCount(h, id, i + 1, k + 1);
      if n == limit then Promoted(m, b, h.events[k].op.reason, h.events[k].now)
      else Retried(m, b, n, h.events[k].op.reason)
  {
    ChronicleOf(p, h);
    assert RowAt(p, h, k, id);
    NacksAreCounted(p, h, id, limit, i, k);
    StillThere(p, h, id, i, k);
    StepRetries(p, h.states[k], h.events[k], h.replies[k], id, h.states[k].messages[id], h.states[k + 1].messages[id], limit);
  }

  // ----------------------------------------------- failing for good by max_retries

  /** Call i stores a keyless message of a topic that sets no limit. */
  ghost predicate StoredByDefault(h: Run, i: nat, id: Id)
    requires Shaped(h) && i < |h.events|
  {
    h.events[i].op.OpEnqueue? && h.events[i].op.key.None? && SetsNoLimit(h.events[i].op.cfg) && h.replies[i] == Stored(id)
  }

  predicate SetsNoLimit(cfg: Option<TopicConfig>) {
    cfg.None? || cfg.value.maxRetries.None?
  }

  function AtLeastOne(n: int): nat {
    if n > 1 then n else 1
  }

  lemma StepKeepsLimit(p: Settings, db: Db, e: Event, reply: Reply, id: Id, a: Message, b: Message)
    requires RowStep(p, db, e, reply, id, Some(a), Some(b)) && a.key.None? && id !in NewIds(e.op)
    requires !(e.op.OpRequeue? && e.op.id == id && reply == Done) && !(e.op.OpNack? && e.op.id == id && reply == Done)
    ensures b.key.None? && b.maxRetries == a.maxRetries && (a.status == Failed <==> b.status == Failed)
  {
  }

  lemma StoredDefault(p: Settings, db: Db, e: Event, reply: Reply, id: Id, b: Option<Message>)
    requires RowStep(p, db, e, reply, id, Row(db, id), b) && e.op.OpEnqueue? && reply == Stored(id)
    requires e.op.key.None? && SetsNoLimit(e.op.cfg)
    ensures id !in db.messages && b.Some? && b.value.key.None? && b.value.maxRetries == p.maxRetries && b.value.status == Pending
  {
  }

  /** Short of the limit, it has failed exactly if it has been nacked max(1, maxRetries) times, and never more often. */
  lemma {:induction false} FailedMeansNacked(p: Settings, h: Run, id: Id, limit: int, i: nat, j: nat)
    requires Chronicle(p, h) && RetriedUnder(p, h, id, limit, i, j) && StoredByDefault(h, i, id) && id in h.states[j].messages
    requires limit <= 0 || NackCount(h, id, i + 1, j) < limit
    ensures
      var (b, n) := (h.states[j].messages[id], NackCount(h, id, i + 1, j));
      && b.key.None? && b.maxRetries == p.maxRetries && n <= AtLeastOne(p.maxRetries)
      && (b.status == Failed <==> n == AtLeastOne(p.maxRetries))
    decreases j
  {
    assert RowAt(p, h, i, id) && RowAt(p, h, j - 1, id);
    if i + 1 == j {
      StoredDefault(p, h.states[i], h.events[i], h.replies[i], id, Row(h.states[j], id));
    } else {
      StillThere(p, h, id, i, j - 1);
      FailedMeansNacked(p, h, id, limit, i, j - 1);
      NacksAreCounted(p, h, id, limit, i, j - 1);
      assert !RequeuedAt(h, j - 1, id);
      var a, b := h.states[j - 1].messages[id], h.states[j].messages[id];
      if NackedAt(h, j - 1, id) {
        StepRetries(p, h.states[j - 1], h.events[j - 1], h.replies[j - 1], id, a, b, limit);
      } else {
        StepKeepsLimit(p, h.states[j - 1], h.events[j - 1], h.replies[j - 1], id, a, b);
      }
    }
  }

  /** A keyless message of a topic that sets no limit, whose nacks stay short of the limit they are under, fails at
      nack number max(1, maxRetries) of the settings: not before, and there is none after. */
  lemma FailsByDefaultLimit(p: Settings, h: Run, id: Id, limit: int, i: nat, k: nat)
    requires History(p, h) && i < k < |h.events| && RetriedUnder(p, h, id, limit, i, k + 1)
    requires StoredByDefault(h, i, id) && NackedAt(h, k, id)
    requires limit <= 0 || NackCount(h, id, i + 1, k + 1) < limit
    ensures id in h.states[k + 1].messages
    ensures NackCount(h, id, i + 1, k + 1) <= AtLeastOne(p.maxRetries)
    ensures h.states[k + 1].messages[id].status == Failed <==> NackCount(h, id, i + 1, k + 1) == AtLeastOne(p.maxRetries)
  {
    ChronicleOf(p, h);
    PromotedAtTheLimit(p, h, id, limit, i, k);
    FailedMeansNacked(p, h, id, limit, i, k + 1);
  }

  // -------------------------------------------------------------- group deliveries

  ghost predicate GroupNackedAt(h: Run, k: nat, d: DeliveryKey)
    requires Shaped(h) && k < |h.events|
  {
    h.events[k].op.OpNackForGroup? && h.events[k].op.id == d.id && h.events[k].op.group == d.group && h.replies[k] == Done
  }

  ghost function GroupNackCount(h: Run, d: DeliveryKey, i: nat, j: nat): nat
    requires Shaped(h) && i <= j <= |h.events|
    decreases j
  {
    if i == j then 0 else GroupNackCount(h, d, i, j - 1) + if GroupNackedAt(h, j - 1, d) then 1 else 0
  }

  /** b is a after its n-th nack. At the limit the delivery keeps its deadline. */
  predicate DeliveryRetried(a: Delivery, b: Delivery, n: int, limit: int, reason: string) {
    && b.retryCount == n && b.maxRetries == a.maxRetries && b.lastError == Some(reason)
    && b.status == (if (limit >= 1 && n >= limit) || (a.maxRetries >= 1 && n >= a.maxRetries) then Failed else Pending)
    && b.visibility == if limit >= 1 && n >= limit then a.visibility else None
  }

  lemma StepRetriesDelivery(p: Settings, db: Db, e: Event, reply: Reply, d: DeliveryKey, a: Delivery, b: Delivery, limit: int)
    requires DeliveryStep(p, db, e, reply, d, Some(a), Some(b)) && d.id !in NewIds(e.op)
    ensures
      var nacked := e.op.OpNackForGroup? && e.op.id == d.id && e.op.group == d.group && reply == Done;
      && (!nacked ==> b.retryCount == a.retryCount)
      && (nacked && SeesLimit(p, e.op.cfg, limit) ==>
            a.status == Processing && DeliveryRetried(a, b, a.retryCount + 1, limit, e.op.reason))
  {
  }

  lemma {:induction false} GroupNacksAreCounted(p: Settings, h: Run, d: DeliveryKey, R: int, i: nat, j: nat)
    requires Lifetime(p, h, d, R, i, j)
    ensures h.states[j].deliveries[d].retryCount == GroupNackCount(h, d, i + 1, j)
    decreases j
  {
    if i + 1 == j {
      assert DeliveryRowAt(p, h, i, d);
      Created(p, h.states[i], h.events[i], h.replies[i], d, DeliveryAt(h.states[j], d));
    } else {
      GroupNacksAreCounted(p, h, d, R, i, j - 1);
      Between(p, h, d, j - 1);
      CountsDelivery(p, h.states[j - 1], h.events[j - 1], h.replies[j - 1], d,
                     h.states[j - 1].deliveries[d], h.states[j].deliveries[d]);
    }
  }

  lemma CountsDelivery(p: Settings, db: Db, e: Event, reply: Reply, d: DeliveryKey, a: Delivery, b: Delivery)
    requires DeliveryStep(p, db, e, reply, d, Some(a), Some(b)) && d.id !in NewIds(e.op)
    ensures
      var nacked := e.op.OpNackForGroup? && e.op.id == d.id && e.op.group == d.group && reply == Done;
      b.retryCount == a.retryCount + if nacked then 1 else 0
  {
  }

  /** A group's delivery fails at the nack whose number reaches the limit that nack sees, or its own max_retries, and
      is pending after any other. */
  lemma DeliveryFailsAtTheLimit(p: Settings, h: Run, d: DeliveryKey, R: int, limit: int, i: nat, k: nat)
    requires History(p, h) && i < k < |h.events|
    requires d !in h.states[i].deliveries && (forall x :: i < x <= k + 1 ==> d in h.states[x].deliveries)
    requires h.states[i + 1].deliveries[d].maxRetries == R
    requires GroupNackedAt(h, k, d) && SeesLimit(p, h.events[k].op.cfg, limit)
    ensures h.states[k].deliveries[d].maxRetries == R
    ensures DeliveryRetried(h.states[k].deliveries[d], h.states[k + 1].deliveries[d],
                            GroupNackCount(h, d, i + 1, k + 1), limit, h.events[k].op.reason)
  {
    ChronicleOf(p, h);
    ClaimsAreCounted(p, h, d, R, i, k);
    GroupNacksAreCounted(p, h, d, R, i, k);
    Between(p, h, d, k);
    StepRetriesDelivery(p, h.states[k], h.events[k], h.replies[k], d, h.states[k].deliveries[d], h.states[k + 1].deliveries[d], limit);
  }

  // ------------------------------------------------------- what consumers are shown

  /** Short of the limit, a claim shows the number of nacks so far. */
  lemma ShownRetries(p: Settings, h: Run, id: Id, limit: int, i: nat, k: nat)
    requires History(p, h) && k < |h.events| && RetriedUnder(p, h, id, limit, i, k)
    requires limit <= 0 || NackCount(h, id, i + 1, k) < limit
    requires ClaimedAt(h, k, id)
    ensures Rows(h.replies[k])[id].retryCount == NackCount(h, id, i + 1, k)
  {
    ChronicleOf(p, h);
    assert RowAt(p, h, k, id);
    NacksAreCounted(p, h, id, limit, i, k);
  }

  /** A group is shown the number of its own nacks. */
  lemma GroupShownRetries(p: Settings, h: Run, d: DeliveryKey, i: nat, k: nat)
    requires History(p, h) && i < k < |h.events|
    requires d !in h.states[i].deliveries && (forall x :: i < x <= k ==> d in h.states[x].deliveries)
    requires GroupClaimedAt(h, k, d)
    ensures Rows(h.replies[k])[d.id].retryCount == GroupNackCount(h, d, i + 1, k)
  {
    ChronicleOf(p, h);
    assert DeliveryRowAt(p, h, k, d);
    GroupNacksAreCounted(p, h, d, h.states[i + 1].deliveries[d].maxRetries, i, k);
  }
}
