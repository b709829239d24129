/** What one consumer group gets does not depend on what the other groups do. */
module GroupIndependence {
  import opened Tables
  import opened Ordering
  import opened Throttle
  import opened Claims
  import opened Enqueue
  import opened Lifecycle
  import opened Machine
  import opened RowHistory
  import opened Erasure

  predicate Unlimited(cfg: TopicConfig) {
    cfg.throughputLimit.None? || cfg.throughputLimit.value == 0
  }

  /** Calls that belong to no group: keyless enqueues without a depth limit, unthrottled configuration, reapers. */
  predicate Shared(op: Op) {
    || (op.OpEnqueue? && op.key.None? && ResolveMaxDepth(op.cfg) <= 0)
    || (op.OpUpsertConfig? && Unlimited(op.newCfg))
    || op.OpDeleteConfig? || op.OpExpiryReap? || op.OpDeleteReap? || op.OpArchiveReap? || op.OpTrim?
  }

  predicate IsDelivering(op: Op) {
    op.OpDequeueForGroup? || op.OpDequeueNForGroup? || op.OpAckForGroup? || op.OpNackForGroup?
  }

  predicate BelongsTo(op: Op, group: string) {
    IsDelivering(op) && op.group == group
  }

  predicate BelongsToOther(op: Op, group: string) {
    (IsDelivering(op) || op.OpRegister? || op.OpUnregister?) && op.group != group
  }

  /** The databases hold the same for the group: its deliveries, their messages, its registrations. */
  ghost predicate AgreeFor(a: Db, b: Db, group: string) {
    && (forall id :: SameFor(a, b, group, id))
    && (forall topic :: GroupKey(topic, group) in a.groups <==> GroupKey(topic, group) in b.groups)
    && a.config == b.config
    && (forall topic :: topic in a.config ==> Unlimited(a.config[topic]))
  }

  ghost predicate SameFor(a: Db, b: Db, group: string, id: Id) {
    var k := DeliveryKey(id, group);
    DeliveryAt(a, k) == DeliveryAt(b, k) && (k in a.deliveries ==> Row(a, id) == Row(b, id))
  }

  lemma Unthrottled(a: Db, b: Db, group: string, topic: string, n: int, now: Time)
    requires AgreeFor(a, b, group)
    ensures ApplyThroughputLimit(a, topic, n, now) == (a, n) && ApplyThroughputLimit(b, topic, n, now) == (b, n)
  {
  }

  lemma SameClaimable(a: Db, b: Db, group: string, topic: string, now: Time)
    requires AgreeFor(a, b, group)
    ensures ClaimableFor(a, topic, group, now) == ClaimableFor(b, topic, group, now)
    ensures forall i :: i in ClaimableFor(a, topic, group, now) ==>
      a.messages[i] == b.messages[i] && a.deliveries[DeliveryKey(i, group)] == b.deliveries[DeliveryKey(i, group)]
  {
    forall i
      ensures i in ClaimableFor(a, topic, group, now) <==> i in ClaimableFor(b, topic, group, now)
      ensures i in ClaimableFor(a, topic, group, now) ==>
        a.messages[i] == b.messages[i] && a.deliveries[DeliveryKey(i, group)] == b.deliveries[DeliveryKey(i, group)]
    {
      assert SameFor(a, b, group, i);
    }
  }

  lemma SameDequeue(p: Settings, a: Db, b: Db, group: string, topic: string, vt: Time, now: Time)
    requires AgreeFor(a, b, group)
    ensures DequeueForGroup(p, a, topic, group, vt, now).1 == DequeueForGroup(p, b, topic, group, vt, now).1
  {
    Unthrottled(a, b, group, topic, 1, now);
    SameClaimable(a, b, group, topic, now);
    var c := ClaimableFor(a, topic, group, now);
    if c != {} {
      SameTimesSameOrder(a.messages, b.messages, c, 0);
      assert IsOldest(b.messages, c, Oldest(a.messages, c));
    }
  }

  lemma SameDequeueN(p: Settings, a: Db, b: Db, group: string, topic: string, n: int, vt: Time, now: Time)
    requires AgreeFor(a, b, group)
    ensures DequeueNForGroup(p, a, topic, group, n, vt, now).1 == DequeueNForGroup(p, b, topic, group, n, vt, now).1
  {
    Unthrottled(a, b, group, topic, n, now);
    SameClaimable(a, b, group, topic, now);
    SameTimesSameOrder(a.messages, b.messages, ClaimableFor(a, topic, group, now), n);
  }

  /** The group's own calls are answered alike. */
  lemma SameReply(p: Settings, a: Db, b: Db, group: string, e: Event)
    requires AgreeFor(a, b, group) && Linked(a) && Linked(b) && BelongsTo(e.op, group)
    ensures Step(p, a, e).1 == Step(p, b, e).1
  {
    match e.op {
      case OpDequeueForGroup(topic, _, vt) => SameDequeue(p, a, b, group, topic, vt, e.now);
      case OpDequeueNForGroup(topic, _, n, vt) => SameDequeueN(p, a, b, group, topic, n, vt, e.now);
      case OpAckForGroup(id, _) =>
        assert SameFor(a, b, group, id);
        Outcomes(p, a, e);
        Outcomes(p, b, e);
      case OpNackForGroup(id, _, _, _) =>
        assert SameFor(a, b, group, id);
        Outcomes(p, a, e);
        Outcomes(p, b, e);
    }
  }

  /** Another group's call changes nothing the group holds - though its ack may delete a message it no longer does. */
  lemma OtherKeeps(p: Settings, db: Db, group: string, e: Event, reply: Reply, id: Id,
                   x: Option<Delivery>, m: Option<Message>)
    requires BelongsToOther(e.op, group)
    requires DeliveryStep(p, db, e, reply, DeliveryKey(id, group), DeliveryAt(db, DeliveryKey(id, group)), x)
    requires RowStep(p, db, e, reply, id, Row(db, id), m)
    ensures x == DeliveryAt(db, DeliveryKey(id, group)) && (x.Some? ==> m == Row(db, id))
  {
    var k := DeliveryKey(id, group);
    assert k in db.deliveries ==> k in DeliveriesOf(db, id);
  }

  lemma OtherStep(p: Settings, a: Db, b: Db, group: string, e: Event)
    requires AgreeFor(a, b, group) && Linked(a) && BelongsToOther(e.op, group)
    ensures AgreeFor(Step(p, a, e).0, b, group)
  {
    var (after, reply) := Step(p, a, e);
    forall id ensures SameFor(after, b, group, id) {
      assert SameFor(a, b, group, id);
      RowSteps(p, a, e, id);
      DeliverySteps(p, a, e, DeliveryKey(id, group));
      OtherKeeps(p, a, group, e, reply, id, DeliveryAt(after, DeliveryKey(id, group)), Row(after, id));
    }
    ConfigSteps(p, a, e);
    SideSteps(p, a, e);
    assert forall topic :: GroupKey(topic, group) in a.groups <==> GroupKey(topic, group) in b.groups;
  }

  /** The same call keeps both databases the same for the group. */
  lemma StoringKeeps(p: Settings, a: Db, b: Db, group: string, e: Event, r: Reply, q: Reply, id: Id,
                     x: Option<Delivery>, y: Option<Delivery>, m: Option<Message>, n: Option<Message>)
    requires SameFor(a, b, group, id) && a.config == b.config
    requires forall topic :: GroupKey(topic, group) in a.groups <==> GroupKey(topic, group) in b.groups
    requires e.op.OpEnqueue? && Shared(e.op)
    requires NewIds(e.op) !! a.messages.Keys && NewIds(e.op) !! b.messages.Keys && Linked(a) && Linked(b)
    requires DeliveryStep(p, a, e, r, DeliveryKey(id, group), DeliveryAt(a, DeliveryKey(id, group)), x)
    requires DeliveryStep(p, b, e, q, DeliveryKey(id, group), DeliveryAt(b, DeliveryKey(id, group)), y)
    requires RowStep(p, a, e, r, id, Row(a, id), m) && RowStep(p, b, e, q, id, Row(b, id), n)
    requires Outcome(p, a, e, r) && Outcome(p, b, e, q)
    requires (x.Some? ==> m.Some?) && (y.Some? ==> n.Some?)
    ensures x == y && (x.Some? ==> m == n)
  {
  }

  lemma UpkeepKeeps(p: Settings, a: Db, b: Db, group: string, e: Event, r: Reply, q: Reply, id: Id,
                    x: Option<Delivery>, y: Option<Delivery>, m: Option<Message>, n: Option<Message>)
    requires SameFor(a, b, group, id) && a.config == b.config
    requires forall topic :: GroupKey(topic, group) in a.groups <==> GroupKey(topic, group) in b.groups
    requires !e.op.OpEnqueue? && Shared(e.op)
    requires NewIds(e.op) !! a.messages.Keys && NewIds(e.op) !! b.messages.Keys && Linked(a) && Linked(b)
    requires DeliveryStep(p, a, e, r, DeliveryKey(id, group), DeliveryAt(a, DeliveryKey(id, group)), x)
    requires DeliveryStep(p, b, e, q, DeliveryKey(id, group), DeliveryAt(b, DeliveryKey(id, group)), y)
    requires RowStep(p, a, e, r, id, Row(a, id), m) && RowStep(p, b, e, q, id, Row(b, id), n)
    requires Outcome(p, a, e, r) && Outcome(p, b, e, q)
    requires (x.Some? ==> m.Some?) && (y.Some? ==> n.Some?)
    ensures x == y && (x.Some? ==> m == n)
  {
  }

  lemma OwnKeeps(p: Settings, a: Db, b: Db, group: string, e: Event, r: Reply, q: Reply, id: Id,
                 x: Option<Delivery>, y: Option<Delivery>, m: Option<Message>, n: Option<Message>)
    requires SameFor(a, b, group, id) && a.config == b.config
    requires forall topic :: GroupKey(topic, group) in a.groups <==> GroupKey(topic, group) in b.groups
    requires BelongsTo(e.op, group) && r == q
    requires NewIds(e.op) !! a.messages.Keys && NewIds(e.op) !! b.messages.Keys && Linked(a) && Linked(b)
    requires DeliveryStep(p, a, e, r, DeliveryKey(id, group), DeliveryAt(a, DeliveryKey(id, group)), x)
    requires DeliveryStep(p, b, e, q, DeliveryKey(id, group), DeliveryAt(b, DeliveryKey(id, group)), y)
    requires RowStep(p, a, e, r, id, Row(a, id), m) && RowStep(p, b, e, q, id, Row(b, id), n)
    requires Outcome(p, a, e, r) && Outcome(p, b, e, q)
    requires (x.Some? ==> m.Some?) && (y.Some? ==> n.Some?)
    ensures x == y && (x.Some? ==> m == n)
  {
  }

  lemma BothRows(p: Settings, a: Db, b: Db, group: string, e: Event, id: Id)
    requires AgreeFor(a, b, group) && Linked(a) && Linked(b) && (Shared(e.op) || BelongsTo(e.op, group))
    requires NewIds(e.op) !! a.messages.Keys && NewIds(e.op) !! b.messages.Keys
    requires BelongsTo(e.op, group) ==> Step(p, a, e).1 == Step(p, b, e).1
    requires Outcome(p, a, e, Step(p, a, e).1) && Outcome(p, b, e, Step(p, b, e).1)
    ensures SameFor(Step(p, a, e).0, Step(p, b, e).0, group, id)
  {
    var (x, r) := Step(p, a, e);
    var (y, q) := Step(p, b, e);
    var k := DeliveryKey(id, group);
    RowSteps(p, a, e, id);
    RowSteps(p, b, e, id);
    DeliverySteps(p, a, e, k);
    DeliverySteps(p, b, e, k);
    assert SameFor(a, b, group, id);
    if BelongsTo(e.op, group) {
      OwnKeeps(p, a, b, group, e, r, q, id, DeliveryAt(x, k), DeliveryAt(y, k), Row(x, id), Row(y, id));
    } else if e.op.OpEnqueue? {
      StoringKeeps(p, a, b, group, e, r, q, id, DeliveryAt(x, k), DeliveryAt(y, k), Row(x, id), Row(y, id));
    } else {
      UpkeepKeeps(p, a, b, group, e, r, q, id, DeliveryAt(x, k), DeliveryAt(y, k), Row(x, id), Row(y, id));
    }
  }

  lemma BothStep(p: Settings, a: Db, b: Db, group: string, e: Event)
    requires AgreeFor(a, b, group) && Linked(a) && Linked(b) && (Shared(e.op) || BelongsTo(e.op, group))
    requires NewIds(e.op) !! a.messages.Keys && NewIds(e.op) !! b.messages.Keys
    ensures AgreeFor(Step(p, a, e).0, Step(p, b, e).0, group)
    ensures BelongsTo(e.op, group) ==> Step(p, a, e).1 == Step(p, b, e).1
  {
    var (x, r) := Step(p, a, e);
    var (y, q) := Step(p, b, e);
    if BelongsTo(e.op, group) {
      SameReply(p, a, b, group, e);
    }
    Outcomes(p, a, e);
    Outcomes(p, b, e);
    forall id ensures SameFor(x, y, group, id) {
      BothRows(p, a, b, group, e, id);
    }
    BothAside(p, a, b, group, e);
  }

  lemma BothAside(p: Settings, a: Db, b: Db, group: string, e: Event)
    requires AgreeFor(a, b, group) && (Shared(e.op) || BelongsTo(e.op, group))
    requires NewIds(e.op) !! a.messages.Keys && NewIds(e.op) !! b.messages.Keys
    ensures
      var x, y := Step(p, a, e).0, Step(p, b, e).0;
      && (forall topic :: GroupKey(topic, group) in x.groups <==> GroupKey(topic, group) in y.groups)
      && x.config == y.config && (forall topic :: topic in x.config ==> Unlimited(x.config[topic]))
  {
    ConfigSteps(p, a, e);
    ConfigSteps(p, b, e);
    SideSteps(p, a, e);
    SideSteps(p, b, e);
  }

  ghost function Mine(group: string): Op -> bool {
    (op: Op) => BelongsTo(op, group)
  }

  ghost function Theirs(group: string): Op -> bool {
    (op: Op) => BelongsToOther(op, group)
  }

  lemma {:induction false} SameForGroup(p: Settings, a: Db, b: Db, group: string, es: seq<Event>)
    requires NoReplay(es)
    requires forall i :: 0 <= i < |es| ==> Shared(es[i].op) || BelongsTo(es[i].op, group) || BelongsToOther(es[i].op, group)
    requires FreshFor(a, es) && FreshFor(b, es) && AgreeFor(a, b, group) && Linked(a) && Linked(b)
    ensures Observed(p, a, es, Mine(group)) == Observed(p, b, Without(es, Theirs(group)), Mine(group))
    decreases |es|
  {
    if es != [] {
      var e, rest := es[0], es[1..];
      FreshForRest(p, a, es);
      StaysLinked(p, a, e);
      if BelongsToOther(e.op, group) {
        OtherStep(p, a, b, group, e);
        FreshForTail(b, es);
        SameForGroup(p, Step(p, a, e).0, b, group, rest);
        WithoutDrops(es, Theirs(group));
        Unwatched(p, a, es, Mine(group));
      } else {
        BothStep(p, a, b, group, e);
        FreshForRest(p, b, es);
        StaysLinked(p, b, e);
        SameForGroup(p, Step(p, a, e).0, Step(p, b, e).0, group, rest);
        WithoutKeeps(es, Theirs(group));
      }
    }
  }

  /** Erasing every call of every other group - its claims, acks, nacks, registrations and unregistrations - changes
      nothing in what the group's own dequeues, acks and nacks return. */
  lemma GroupsAreIndependent(p: Settings, db: Db, group: string, es: seq<Event>)
    requires NoReplay(es) && FreshFor(db, es) && Linked(db)
    requires forall i :: 0 <= i < |es| ==> Shared(es[i].op) || BelongsTo(es[i].op, group) || BelongsToOther(es[i].op, group)
    requires forall topic :: topic in db.config ==> Unlimited(db.config[topic])
    ensures Observed(p, db, es, Mine(group)) == Observed(p, db, Without(es, Theirs(group)), Mine(group))
  {
    SameForGroup(p, db, db, group, es);
  }
}
