/** Over whole runs, a claimed message or delivery is not handed out again until it is released. */
module ExclusiveClaims {
  import opened Tables
  import opened Groups
  import opened Machine
  import opened RowHistory
  import opened Histories

  ghost predicate ClaimedAt(h: Run, i: nat, id: Id)
    requires Shaped(h) && i < |h.events|
  {
    (h.events[i].op.OpDequeue? || h.events[i].op.OpDequeueN?) && id in Rows(h.replies[i])
  }

  ghost predicate ReleasedAt(h: Run, i: nat, id: Id)
    requires Shaped(h) && i < |h.events|
  {
    var op := h.events[i].op;
    (op.OpNack? || op.OpRequeue?) && op.id == id && h.replies[i] == Done
  }

  predicate IsPending(m: Option<Message>) {
    m.Some? && m.value.status == Pending
  }

  lemma StepTakes(p: Settings, db: Db, e: Event, reply: Reply, id: Id, a: Option<Message>, b: Option<Message>)
    requires RowStep(p, db, e, reply, id, a, b) && id !in NewIds(e.op) && !IsPending(a)
    requires !((e.op.OpNack? || e.op.OpRequeue?) && e.op.id == id && reply == Done)
    ensures !IsPending(b)
  {
  }

  lemma {:induction false} StaysTaken(p: Settings, h: Run, id: Id, i: nat, j: nat)
    requires Chronicle(p, h) && i <= j <= |h.events|
    requires Introduced(h, i, id) && !IsPending(Row(h.states[i], id))
    requires forall k :: i <= k < j ==> !ReleasedAt(h, k, id)
    ensures !IsPending(Row(h.states[j], id))
    decreases j
  {
    if i < j {
      StaysTaken(p, h, id, i, j - 1);
      NotBroughtAgain(h, i, j - 1, id);
      assert RowAt(p, h, j - 1, id) && !ReleasedAt(h, j - 1, id);
      StepTakes(p, h.states[j - 1], h.events[j - 1], h.replies[j - 1], id, Row(h.states[j - 1], id), Row(h.states[j], id));
    }
  }

  /** A claim finds the message pending and leaves it taken. */
  lemma ClaimTakes(p: Settings, h: Run, id: Id, i: nat)
    requires Chronicle(p, h) && i < |h.events| && ClaimedAt(h, i, id)
    ensures IsPending(Row(h.states[i], id)) && !IsPending(Row(h.states[i + 1], id)) && Introduced(h, i + 1, id)
  {
    assert RowAt(p, h, i, id) && SoundAt(h, i + 1);
  }

  lemma ReleasedBetween(p: Settings, h: Run, id: Id, i: nat, j: nat)
    requires Chronicle(p, h) && i < j < |h.events|
    requires ClaimedAt(h, i, id) && ClaimedAt(h, j, id)
    ensures exists k :: i < k < j && ReleasedAt(h, k, id)
  {
    ClaimTakes(p, h, id, i);
    ClaimTakes(p, h, id, j);
    if forall k :: i < k < j ==> !ReleasedAt(h, k, id) {
      StaysTaken(p, h, id, i + 1, j);
      assert false;
    }
  }

  /** Between two plain claims of a message lies a successful Nack or Requeue of it. */
  lemma ClaimsAreExclusive(p: Settings, h: Run, id: Id, i: nat, j: nat)
    requires History(p, h) && i < j < |h.events|
    requires ClaimedAt(h, i, id) && ClaimedAt(h, j, id)
    ensures exists k :: i < k < j && ReleasedAt(h, k, id)
  {
    ChronicleOf(p, h);
    ReleasedBetween(p, h, id, i, j);
  }

  ghost predicate GroupClaimedAt(h: Run, i: nat, d: DeliveryKey)
    requires Shaped(h) && i < |h.events|
  {
    var op := h.events[i].op;
    (op.OpDequeueForGroup? || op.OpDequeueNForGroup?) && op.group == d.group && d.id in Rows(h.replies[i])
  }

  predicate Releases(db: Db, op: Op, d: DeliveryKey) {
    || (op.OpNackForGroup? && op.id == d.id && op.group == d.group)
    || (op.OpRegister? && op.group == d.group && OnTopic(db, d.id, op.topic))
  }

  /** The pair is nacked, or the group is registered anew for the message's topic. */
  ghost predicate GroupReleasedAt(h: Run, i: nat, d: DeliveryKey)
    requires Shaped(h) && i < |h.events|
  {
    var op := h.events[i].op;
    && h.replies[i] == Done
    && Releases(h.states[i], op, d)
  }

  predicate IsPendingDelivery(d: Option<Delivery>) {
    d.Some? && d.value.status == Pending
  }

  lemma StepTakesDelivery(p: Settings, db: Db, e: Event, reply: Reply, d: DeliveryKey, a: Option<Delivery>, b: Option<Delivery>)
    requires DeliveryStep(p, db, e, reply, d, a, b) && d.id !in NewIds(e.op) && !IsPendingDelivery(a)
    requires !(reply == Done && Releases(db, e.op, d))
    ensures !IsPendingDelivery(b)
  {
  }

  lemma {:induction false} DeliveryStaysTaken(p: Settings, h: Run, d: DeliveryKey, i: nat, j: nat)
    requires Chronicle(p, h) && i <= j <= |h.events|
    requires Introduced(h, i, d.id) && !IsPendingDelivery(DeliveryAt(h.states[i], d))
    requires forall k :: i <= k < j ==> !GroupReleasedAt(h, k, d)
    ensures !IsPendingDelivery(DeliveryAt(h.states[j], d))
    decreases j
  {
    if i < j {
      DeliveryStaysTaken(p, h, d, i, j - 1);
      NotBroughtAgain(h, i, j - 1, d.id);
      assert DeliveryRowAt(p, h, j - 1, d) && !GroupReleasedAt(h, j - 1, d);
      StepTakesDelivery(p, h.states[j - 1], h.events[j - 1], h.replies[j - 1], d,
                        DeliveryAt(h.states[j - 1], d), DeliveryAt(h.states[j], d));
    }
  }

  lemma GroupClaimTakes(p: Settings, h: Run, d: DeliveryKey, i: nat)
    requires Chronicle(p, h) && i < |h.events| && GroupClaimedAt(h, i, d)
    ensures IsPendingDelivery(DeliveryAt(h.states[i], d)) && !IsPendingDelivery(DeliveryAt(h.states[i + 1], d))
    ensures Introduced(h, i + 1, d.id)
  {
    assert DeliveryRowAt(p, h, i, d) && SoundAt(h, i);
    assert Introduced(h, i, d.id);
  }

  lemma GroupReleasedBetween(p: Settings, h: Run, d: DeliveryKey, i: nat, j: nat)
    requires Chronicle(p, h) && i < j < |h.events|
    requires GroupClaimedAt(h, i, d) && GroupClaimedAt(h, j, d)
    ensures exists k :: i < k < j && GroupReleasedAt(h, k, d)
  {
    GroupClaimTakes(p, h, d, i);
    GroupClaimTakes(p, h, d, j);
    if forall k :: i < k < j ==> !GroupReleasedAt(h, k, d) {
      DeliveryStaysTaken(p, h, d, i + 1, j);
      assert false;
    }
  }

  /** Between two claims of a message by one group lies a NackForGroup of that pair or a registration of the group. */
  lemma GroupClaimsAreExclusive(p: Settings, h: Run, d: DeliveryKey, i: nat, j: nat)
    requires History(p, h) && i < j < |h.events|
    requires GroupClaimedAt(h, i, d) && GroupClaimedAt(h, j, d)
    ensures exists k :: i < k < j && GroupReleasedAt(h, k, d)
  {
    ChronicleOf(p, h);
    GroupReleasedBetween(p, h, d, i, j);
  }
}
