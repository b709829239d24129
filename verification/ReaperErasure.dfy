/** The expiry and delete reapers are invisible to consumers. */
module ReaperErasure {
  import opened Tables
  import opened Ordering
  import opened Throttle
  import opened Claims
  import opened Enqueue
  import opened Lifecycle
  import opened Machine
  import opened RowHistory
  import opened Erasure
  import opened Throughput

  /** The row, if it has not expired. */
  function Live(m: Option<Message>, now: Time): Option<Message> {
    if m.Some? && Unexpired(m.value, now) then m else None
  }

  function LiveRow(db: Db, id: Id, now: Time): Option<Message> {
    Live(Row(db, id), now)
  }

  /** The delivery, if its message has not expired. */
  function LiveDelivery(db: Db, k: DeliveryKey, now: Time): Option<Delivery> {
    if LiveRow(db, k.id, now).Some? then DeliveryAt(db, k) else None
  }

  /** The two databases differ in nothing a consumer can be affected by from `now` on. */
  ghost predicate Agree(a: Db, b: Db, now: Time) {
    && (forall id :: LiveRow(a, id, now) == LiveRow(b, id, now))
    && (forall k :: LiveDelivery(a, k, now) == LiveDelivery(b, k, now))
    && a.groups == b.groups && a.config == b.config && a.buckets == b.buckets
  }

  /** What a run needs for its databases to be comparable: no keys, no dangling deliveries, and expired means expired. */
  ghost predicate Tame(db: Db, now: Time) {
    && Linked(db)
    && (forall id :: id in db.messages ==> TameRow(db.messages[id], now))
  }

  predicate TameRow(m: Message, now: Time) {
    m.key.None? && (m.status == Expired ==> !Unexpired(m, now))
  }

  predicate IsReaper(op: Op) {
    op.OpExpiryReap? || op.OpDeleteReap? || op.OpArchiveReap?
  }

  /** Keyless enqueues, and anything but a replay. */
  predicate Keyless(op: Op) {
    !op.OpReplay? && (op.OpEnqueue? ==> op.key.None?)
  }

  /** Claims and enqueues: what producers and consumers are answered. */
  predicate Answered(op: Op) {
    IsClaim(op) || op.OpEnqueue?
  }

  lemma AgreeLater(a: Db, b: Db, t: Time, u: Time)
    requires Agree(a, b, t) && t <= u
    ensures Agree(a, b, u)
  {
    forall id ensures LiveRow(a, id, u) == LiveRow(b, id, u) {
      assert LiveRow(a, id, t) == LiveRow(b, id, t);
    }
    forall k ensures LiveDelivery(a, k, u) == LiveDelivery(b, k, u) {
      assert LiveDelivery(a, k, t) == LiveDelivery(b, k, t) && LiveRow(a, k.id, t) == LiveRow(b, k.id, t);
    }
  }

  lemma RowStaysTame(p: Settings, db: Db, e: Event, reply: Reply, id: Id, x: Option<Message>, y: Option<Message>)
    requires RowStep(p, db, e, reply, id, x, y) && Keyless(e.op)
    requires x.Some? ==> TameRow(x.value, e.now)
    ensures y.Some? ==> TameRow(y.value, e.now)
  {
  }

  lemma StaysTame(p: Settings, db: Db, e: Event)
    requires Keyless(e.op) && Tame(db, e.now) && NewIds(e.op) !! db.messages.Keys
    ensures Tame(Step(p, db, e).0, e.now)
  {
    var (after, reply) := Step(p, db, e);
    forall id | id in after.messages ensures TameRow(after.messages[id], e.now) {
      RowSteps(p, db, e, id);
      RowStaysTame(p, db, e, reply, id, Row(db, id), Row(after, id));
    }
    StaysLinked(p, db, e);
  }

  // ------------------------------------------------------------ reaper steps

  lemma ReaperKeepsRow(p: Settings, db: Db, e: Event, reply: Reply, id: Id, x: Option<Message>, y: Option<Message>)
    requires RowStep(p, db, e, reply, id, x, y) && IsReaper(e.op)
    requires x.Some? ==> TameRow(x.value, e.now)
    ensures Live(y, e.now) == Live(x, e.now)
  {
  }

  /** A reaper changes nothing that is live. */
  lemma ReaperStep(p: Settings, a: Db, b: Db, e: Event)
    requires Agree(a, b, e.now) && Tame(a, e.now) && IsReaper(e.op)
    ensures Agree(Step(p, a, e).0, b, e.now)
  {
    var (after, reply) := Step(p, a, e);
    forall id ensures LiveRow(after, id, e.now) == LiveRow(a, id, e.now) {
      RowSteps(p, a, e, id);
      ReaperKeepsRow(p, a, e, reply, id, Row(a, id), Row(after, id));
    }
    forall k ensures LiveDelivery(after, k, e.now) == LiveDelivery(b, k, e.now) {
      DeliverySteps(p, a, e, k);
      assert LiveDelivery(a, k, e.now) == LiveDelivery(b, k, e.now) && LiveRow(after, k.id, e.now) == LiveRow(a, k.id, e.now);
    }
    ConfigSteps(p, a, e);
    SideSteps(p, a, e);
    assert forall id :: LiveRow(a, id, e.now) == LiveRow(b, id, e.now);
  }

  // ------------------------------------------------------------- claim steps

  lemma SameClaimable(a: Db, b: Db, topic: string, now: Time)
    requires Agree(a, b, now)
    ensures Claimable(a.messages, topic, now) == Claimable(b.messages, topic, now)
    ensures forall i :: i in Claimable(a.messages, topic, now) ==> a.messages[i] == b.messages[i]
  {
    forall i ensures i in Claimable(a.messages, topic, now) <==> i in Claimable(b.messages, topic, now)
             ensures i in Claimable(a.messages, topic, now) ==> a.messages[i] == b.messages[i]
    {
      assert LiveRow(a, i, now) == LiveRow(b, i, now);
    }
  }

  lemma SameClaimableFor(a: Db, b: Db, topic: string, group: string, now: Time)
    requires Agree(a, b, now)
    ensures ClaimableFor(a, topic, group, now) == ClaimableFor(b, topic, group, now)
    ensures forall i :: i in ClaimableFor(a, topic, group, now) ==>
      a.messages[i] == b.messages[i] && a.deliveries[DeliveryKey(i, group)] == b.deliveries[DeliveryKey(i, group)]
  {
    forall i
      ensures i in ClaimableFor(a, topic, group, now) <==> i in ClaimableFor(b, topic, group, now)
      ensures i in ClaimableFor(a, topic, group, now) ==>
        a.messages[i] == b.messages[i] && a.deliveries[DeliveryKey(i, group)] == b.deliveries[DeliveryKey(i, group)]
    {
      assert LiveRow(a, i, now) == LiveRow(b, i, now);
      assert LiveDelivery(a, DeliveryKey(i, group), now) == LiveDelivery(b, DeliveryKey(i, group), now);
    }
  }

  lemma SameGrant(a: Db, b: Db, topic: string, n: int, now: Time)
    requires a.config == b.config && a.buckets == b.buckets
    ensures
      var x, y := ApplyThroughputLimit(a, topic, n, now), ApplyThroughputLimit(b, topic, n, now);
      && x.1 == y.1 && x.0.buckets == y.0.buckets
      && x.0 == a.(buckets := x.0.buckets) && y.0 == b.(buckets := y.0.buckets)
  {
  }

  lemma SameOldest(a: map<Id, Message>, b: map<Id, Message>, c: set<Id>)
    requires c <= a.Keys && c <= b.Keys && c != {}
    requires forall x :: x in c ==> a[x] == b[x]
    ensures Oldest(a, c) == Oldest(b, c)
  {
    SameTimesSameOrder(a, b, c, 0);
    assert IsOldest(b, c, Oldest(a, c));
  }

  lemma SameDequeue(p: Settings, a: Db, b: Db, topic: string, vt: Time, now: Time)
    requires Agree(a, b, now)
    ensures Dequeue(p, a, topic, vt, now).1 == Dequeue(p, b, topic, vt, now).1
  {
    SameGrant(a, b, topic, 1, now);
    SameClaimable(a, b, topic, now);
    var c := Claimable(a.messages, topic, now);
    if c != {} {
      SameOldest(a.messages, b.messages, c);
    }
  }

  lemma SameDequeueN(p: Settings, a: Db, b: Db, topic: string, n: int, vt: Time, now: Time)
    requires Agree(a, b, now)
    ensures DequeueN(p, a, topic, n, vt, now).1 == DequeueN(p, b, topic, n, vt, now).1
  {
    SameGrant(a, b, topic, n, now);
    SameClaimable(a, b, topic, now);
    SameTimesSameOrder(a.messages, b.messages, Claimable(a.messages, topic, now), ApplyThroughputLimit(a, topic, n, now).1);
  }

  lemma SameGroupDequeue(p: Settings, a: Db, b: Db, topic: string, group: string, vt: Time, now: Time)
    requires Agree(a, b, now)
    ensures DequeueForGroup(p, a, topic, group, vt, now).1 == DequeueForGroup(p, b, topic, group, vt, now).1
  {
    SameGrant(a, b, topic, 1, now);
    SameClaimableFor(a, b, topic, group, now);
    var c := ClaimableFor(a, topic, group, now);
    if c != {} {
      SameOldest(a.messages, b.messages, c);
    }
  }

  lemma SameShown(a: Db, b: Db, group: string, ids: set<Id>)
    requires forall i :: i in ids ==> i in a.messages && i in b.messages && a.messages[i] == b.messages[i]
    requires forall i :: i in ids ==> DeliveryKey(i, group) in a.deliveries && DeliveryKey(i, group) in b.deliveries
                                      && a.deliveries[DeliveryKey(i, group)] == b.deliveries[DeliveryKey(i, group)]
    ensures ShownFor(a, group, ids) == ShownFor(b, group, ids)
  {
  }

  lemma SameGroupDequeueN(p: Settings, a: Db, b: Db, topic: string, group: string, n: int, vt: Time, now: Time)
    requires Agree(a, b, now)
    ensures DequeueNForGroup(p, a, topic, group, n, vt, now).1 == DequeueNForGroup(p, b, topic, group, n, vt, now).1
  {
    SameGrant(a, b, topic, n, now);
    SameClaimableFor(a, b, topic, group, now);
    var (x, y) := (ApplyThroughputLimit(a, topic, n, now), ApplyThroughputLimit(b, topic, n, now));
    var c := ClaimableFor(a, topic, group, now);
    SameTimesSameOrder(a.messages, b.messages, c, x.1);
    SameShown(x.0, y.0, group, FirstN(a.messages, c, x.1));
  }

  /** Databases that agree answer every claim alike. */
  lemma SameClaim(p: Settings, a: Db, b: Db, e: Event)
    requires Agree(a, b, e.now) && IsClaim(e.op)
    ensures Step(p, a, e).1 == Step(p, b, e).1
  {
    match e.op {
      case OpDequeue(topic, vt) => SameDequeue(p, a, b, topic, vt, e.now);
      case OpDequeueN(topic, n, vt) => SameDequeueN(p, a, b, topic, n, vt, e.now);
      case OpDequeueForGroup(topic, group, vt) => SameGroupDequeue(p, a, b, topic, group, vt, e.now);
      case OpDequeueNForGroup(topic, group, n, vt) => SameGroupDequeueN(p, a, b, topic, group, n, vt, e.now);
    }
  }

  lemma SameBuckets(p: Settings, a: Db, b: Db, e: Event)
    requires Agree(a, b, e.now) && IsClaim(e.op)
    ensures Step(p, a, e).0.buckets == Step(p, b, e).0.buckets
  {
    if BatchOutOfRange(e.op) {
    } else {
      ClaimsPay(p, a, e);
      ClaimsPay(p, b, e);
      SameGrant(a, b, e.op.topic, Wanted(e.op), e.now);
    }
  }

  // --------------------------------------------------------------- all steps

  predicate Settles(op: Op, id: Id) {
    (op.OpAck? || op.OpNack? || op.OpRequeue?) && op.id == id
  }

  lemma SameSettling(p: Settings, a: Db, b: Db, e: Event, r: Reply, q: Reply, id: Id)
    requires Settles(e.op, id) && Row(a, id) == Row(b, id) && Row(a, id).Some? && Row(a, id).value.key.None?
    requires Outcome(p, a, e, r) && Outcome(p, b, e, q)
    ensures r == q
  {
  }

  lemma SameGroupSettling(p: Settings, a: Db, b: Db, e: Event, r: Reply, q: Reply)
    requires e.op.OpAckForGroup? || e.op.OpNackForGroup?
    requires DeliveryAt(a, DeliveryKey(e.op.id, e.op.group)) == DeliveryAt(b, DeliveryKey(e.op.id, e.op.group))
    requires Outcome(p, a, e, r) && Outcome(p, b, e, q)
    ensures r == q
  {
  }

  /** Replies that matter to a live row agree. */
  lemma SameOutcome(p: Settings, a: Db, b: Db, e: Event, r: Reply, q: Reply, id: Id)
    requires Agree(a, b, e.now) && Tame(a, e.now) && Tame(b, e.now) && Keyless(e.op)
    requires Outcome(p, a, e, r) && Outcome(p, b, e, q)
    requires LiveRow(a, id, e.now).Some?
    ensures (e.op.OpAck? || e.op.OpNack? || e.op.OpRequeue? || e.op.OpAckForGroup? || e.op.OpNackForGroup?) && e.op.id == id ==> r == q
    ensures e.op.OpRegister? || e.op.OpUnregister? ==> r == q
  {
    assert LiveRow(a, id, e.now) == LiveRow(b, id, e.now) && TameRow(a.messages[id], e.now);
    if Settles(e.op, id) {
      SameSettling(p, a, b, e, r, q, id);
    } else if (e.op.OpAckForGroup? || e.op.OpNackForGroup?) && e.op.id == id {
      var k := DeliveryKey(e.op.id, e.op.group);
      assert LiveDelivery(a, k, e.now) == LiveDelivery(b, k, e.now);
      SameGroupSettling(p, a, b, e, r, q);
    }
  }

  lemma SameDeliveries(a: Db, b: Db, id: Id, now: Time)
    requires Agree(a, b, now) && LiveRow(a, id, now).Some?
    ensures DeliveriesOf(a, id) == DeliveriesOf(b, id)
  {
    assert LiveRow(a, id, now) == LiveRow(b, id, now);
    forall k: DeliveryKey | k.id == id ensures k in a.deliveries <==> k in b.deliveries {
      assert LiveDelivery(a, k, now) == LiveDelivery(b, k, now);
    }
  }

  /** Two steps by the same call leave a row equally live. */
  lemma DeadStaysDead(p: Settings, db: Db, e: Event, reply: Reply, id: Id, x: Option<Message>)
    requires RowStep(p, db, e, reply, id, Row(db, id), x) && id !in NewIds(e.op)
    requires Tame(db, e.now) && Keyless(e.op) && LiveRow(db, id, e.now).None?
    ensures Live(x, e.now).None?
  {
  }

  lemma SameRowAfter(p: Settings, a: Db, b: Db, e: Event, r: Reply, q: Reply, id: Id, x: Option<Message>, y: Option<Message>)
    requires Agree(a, b, e.now) && Tame(a, e.now) && Tame(b, e.now) && Keyless(e.op) && !IsReaper(e.op)
    requires RowStep(p, a, e, r, id, Row(a, id), x) && RowStep(p, b, e, q, id, Row(b, id), y)
    requires Outcome(p, a, e, r) && Outcome(p, b, e, q) && (Answered(e.op) ==> r == q)
    requires NewIds(e.op) !! a.messages.Keys && NewIds(e.op) !! b.messages.Keys
    ensures Live(x, e.now) == Live(y, e.now)
  {
    assert LiveRow(a, id, e.now) == LiveRow(b, id, e.now);
    if LiveRow(a, id, e.now).Some? {
      SameOutcome(p, a, b, e, r, q, id);
      SameDeliveries(a, b, id, e.now);
    } else if id !in NewIds(e.op) {
      DeadStaysDead(p, a, e, r, id, x);
      DeadStaysDead(p, b, e, q, id, y);
    }
  }

  /** What becomes of the deliveries of a message depends on the answer to these calls. */
  predicate RepliesMatter(op: Op, id: Id) {
    || Settles(op, id)
    || ((op.OpAckForGroup? || op.OpNackForGroup?) && op.id == id)
    || op.OpEnqueue? || op.OpRegister? || op.OpUnregister? || IsClaim(op)
  }

  /** Steps with equal replies treat equal deliveries of equal rows alike. */
  lemma SameDeliveryStep(p: Settings, a: Db, b: Db, e: Event, r: Reply, q: Reply, k: DeliveryKey,
                         x: Option<Delivery>, y: Option<Delivery>)
    requires DeliveryStep(p, a, e, r, k, DeliveryAt(a, k), x) && DeliveryStep(p, b, e, q, k, DeliveryAt(b, k), y)
    requires DeliveryAt(a, k) == DeliveryAt(b, k) && Row(a, k.id) == Row(b, k.id) && a.groups == b.groups
    requires !e.op.OpReplay? && !IsReaper(e.op)
    requires RepliesMatter(e.op, k.id) ==> r == q
    ensures x == y
  {
  }

  lemma SameDeliveryAfter(p: Settings, a: Db, b: Db, e: Event, r: Reply, q: Reply, k: DeliveryKey,
                          x: Option<Delivery>, y: Option<Delivery>, m: Option<Message>)
    requires Agree(a, b, e.now) && Tame(a, e.now) && Tame(b, e.now) && Keyless(e.op) && !IsReaper(e.op)
    requires DeliveryStep(p, a, e, r, k, DeliveryAt(a, k), x) && DeliveryStep(p, b, e, q, k, DeliveryAt(b, k), y)
    requires RowStep(p, a, e, r, k.id, Row(a, k.id), m) && Live(m, e.now).Some?
    requires Outcome(p, a, e, r) && Outcome(p, b, e, q) && (Answered(e.op) ==> r == q)
    requires NewIds(e.op) !! a.messages.Keys && NewIds(e.op) !! b.messages.Keys
    ensures x == y
  {
    assert LiveRow(a, k.id, e.now) == LiveRow(b, k.id, e.now);
    if LiveRow(a, k.id, e.now).Some? {
      assert LiveDelivery(a, k, e.now) == LiveDelivery(b, k, e.now);
      SameOutcome(p, a, b, e, r, q, k.id);
    } else {
      LiveIsOld(p, a, e, r, k.id, Row(a, k.id), m);
      assert e.op.newId == k.id;
    }
    SameDeliveryStep(p, a, b, e, r, q, k, x, y);
  }

  /** A row comes alive only by being stored. */
  lemma LiveIsOld(p: Settings, db: Db, e: Event, reply: Reply, id: Id, x: Option<Message>, y: Option<Message>)
    requires RowStep(p, db, e, reply, id, x, y) && Keyless(e.op) && Live(y, e.now).Some? && Live(x, e.now).None?
    requires x.Some? ==> x.value.key.None?
    ensures x.None? && e.op.OpEnqueue? && e.op.newId == id && reply == Stored(id)
  {
  }

  // ------------------------------------------------------------- the depth guard

  /** What the checks before the depth guard object to. */
  function Objection(p: Settings, op: Op): Option<Error>
    requires op.OpEnqueue?
  {
    if Reserved(op.topic) then Some(ErrReservedTopic)
    else if p.requireRegistration && op.cfg.None? then Some(ErrTopicNotRegistered)
    else op.refusal
  }

  /** The depth guard refuses. */
  predicate Full(db: Db, topic: string, cfg: Option<TopicConfig>) {
    ResolveMaxDepth(cfg) > 0 && |Waiting(db, topic)| >= ResolveMaxDepth(cfg)
  }

  lemma KeylessReply(p: Settings, db: Db, e: Event)
    requires e.op.OpEnqueue? && e.op.key.None?
    ensures Step(p, db, e).1 == if Objection(p, e.op).Some? then Fail(Objection(p, e.op).value)
                                else if Full(db, e.op.topic, e.op.cfg) then Fail(ErrQueueFull)
                                else Stored(e.op.newId)
  {
    assert Holders(db, e.op.topic, e.op.key) == {};
  }

  /** Where the depth guard is reached, it decides alike. */
  predicate SameVerdict(p: Settings, a: Db, b: Db, op: Op) {
    op.OpEnqueue? && Objection(p, op).None? ==> (Full(a, op.topic, op.cfg) <==> Full(b, op.topic, op.cfg))
  }

  /** Databases that agree still agree after the same call. */
  lemma AgreeStep(p: Settings, a: Db, b: Db, e: Event)
    requires Agree(a, b, e.now) && Tame(a, e.now) && Tame(b, e.now) && Keyless(e.op) && !IsReaper(e.op)
    requires NewIds(e.op) !! a.messages.Keys && NewIds(e.op) !! b.messages.Keys && SameVerdict(p, a, b, e.op)
    ensures Agree(Step(p, a, e).0, Step(p, b, e).0, e.now)
    ensures Answered(e.op) ==> Step(p, a, e).1 == Step(p, b, e).1
  {
    var (x, r) := Step(p, a, e);
    var (y, q) := Step(p, b, e);
    if IsClaim(e.op) {
      SameClaim(p, a, b, e);
    } else if e.op.OpEnqueue? {
      KeylessReply(p, a, e);
      KeylessReply(p, b, e);
    }
    Outcomes(p, a, e);
    Outcomes(p, b, e);
    forall id ensures LiveRow(x, id, e.now) == LiveRow(y, id, e.now) {
      RowSteps(p, a, e, id);
      RowSteps(p, b, e, id);
      SameRowAfter(p, a, b, e, r, q, id, Row(x, id), Row(y, id));
    }
    forall k ensures LiveDelivery(x, k, e.now) == LiveDelivery(y, k, e.now) {
      assert LiveRow(x, k.id, e.now) == LiveRow(y, k.id, e.now);
      if LiveRow(x, k.id, e.now).Some? {
        DeliverySteps(p, a, e, k);
        DeliverySteps(p, b, e, k);
        RowSteps(p, a, e, k.id);
        SameDeliveryAfter(p, a, b, e, r, q, k, DeliveryAt(x, k), DeliveryAt(y, k), Row(x, k.id));
      }
    }
    AgreeAside(p, a, b, e);
  }

  lemma AgreeAside(p: Settings, a: Db, b: Db, e: Event)
    requires Agree(a, b, e.now) && Tame(a, e.now) && Tame(b, e.now) && Keyless(e.op)
    requires NewIds(e.op) !! a.messages.Keys && NewIds(e.op) !! b.messages.Keys
    ensures
      var x, y := Step(p, a, e).0, Step(p, b, e).0;
      x.groups == y.groups && x.config == y.config && x.buckets == y.buckets
  {
    var (x, r) := Step(p, a, e);
    var (y, q) := Step(p, b, e);
    Outcomes(p, a, e);
    Outcomes(p, b, e);
    if IsClaim(e.op) {
      SameBuckets(p, a, b, e);
    }
    ConfigSteps(p, a, e);
    ConfigSteps(p, b, e);
    SideSteps(p, a, e);
    SideSteps(p, b, e);
  }

  // -------------------------------------------------------------- whole runs

  lemma MoveOn(a: Db, b: Db, t: Time, u: Time)
    requires Agree(a, b, t) && Tame(a, t) && Tame(b, t) && t <= u
    ensures Agree(a, b, u) && Tame(a, u) && Tame(b, u)
  {
    AgreeLater(a, b, t, u);
  }

  /** Two databases that can run the same calls. */
  ghost predicate Comparable(a: Db, b: Db, es: seq<Event>) {
    && NoReplay(es) && (forall i :: 0 <= i < |es| ==> Keyless(es[i].op))
    && FreshFor(a, es) && FreshFor(b, es) && ClockAdvances(es)
    && (es != [] ==> Agree(a, b, es[0].now) && Tame(a, es[0].now) && Tame(b, es[0].now))
  }

  /** Run with the reapers from a and without them from b, every depth guard decides alike. */
  ghost predicate VerdictsAgree(p: Settings, a: Db, b: Db, es: seq<Event>)
    requires NoReplay(es)
    decreases |es|
  {
    es != [] ==>
      var e, a1 := es[0], Step(p, a, es[0]).0;
      if IsReaper(e.op) then VerdictsAgree(p, a1, b, es[1..])
      else SameVerdict(p, a, b, e.op) && VerdictsAgree(p, a1, Step(p, b, e).0, es[1..])
  }

  lemma ReaperGoesOn(p: Settings, a: Db, b: Db, es: seq<Event>)
    requires es != [] && IsReaper(es[0].op) && Comparable(a, b, es)
    ensures Comparable(Step(p, a, es[0]).0, b, es[1..])
  {
    var e, a1 := es[0], Step(p, a, es[0]).0;
    FreshForRest(p, a, es);
    FreshForTail(b, es);
    StaysTame(p, a, e);
    ReaperStep(p, a, b, e);
    if |es| > 1 {
      MoveOn(a1, b, e.now, es[1].now);
    }
  }

  lemma BothGoOn(p: Settings, a: Db, b: Db, es: seq<Event>)
    requires es != [] && !IsReaper(es[0].op) && Comparable(a, b, es) && SameVerdict(p, a, b, es[0].op)
    ensures Comparable(Step(p, a, es[0]).0, Step(p, b, es[0]).0, es[1..])
    ensures Answered(es[0].op) ==> Step(p, a, es[0]).1 == Step(p, b, es[0]).1
  {
    var e := es[0];
    FreshForRest(p, a, es);
    FreshForRest(p, b, es);
    StaysTame(p, a, e);
    StaysTame(p, b, e);
    AgreeStep(p, a, b, e);
    if |es| > 1 {
      MoveOn(Step(p, a, e).0, Step(p, b, e).0, e.now, es[1].now);
    }
  }

  /** As long as every depth guard decides alike, claims and enqueues are answered alike. */
  lemma {:induction false} SameReplies(p: Settings, a: Db, b: Db, es: seq<Event>, watches: Op -> bool)
    requires Comparable(a, b, es) && VerdictsAgree(p, a, b, es)
    requires forall op :: watches(op) ==> Answered(op)
    ensures Observed(p, a, es, watches) == Observed(p, b, Without(es, IsReaper), watches)
    decreases |es|
  {
    if es != [] {
      var e, rest := es[0], es[1..];
      if IsReaper(e.op) {
        ReaperGoesOn(p, a, b, es);
        SameReplies(p, Step(p, a, e).0, b, rest, watches);
        WithoutDrops(es, IsReaper);
        Unwatched(p, a, es, watches);
      } else {
        BothGoOn(p, a, b, es);
        SameReplies(p, Step(p, a, e).0, Step(p, b, e).0, rest, watches);
        WithoutKeeps(es, IsReaper);
      }
    }
  }

  lemma SameHead(h: seq<Reply>, x: seq<Reply>, y: seq<Reply>)
    ensures h + x == h + y ==> x == y
  {
    assert x == (h + x)[|h|..] && y == (h + y)[|h|..];
  }

  lemma OtherHead(r: Reply, q: Reply, x: seq<Reply>, y: seq<Reply>)
    ensures [r] + x == [q] + y ==> r == q
  {
    assert ([r] + x)[0] == r && ([q] + y)[0] == q;
  }

  /** The first depth guard that decides otherwise shows. */
  lemma {:induction false} OtherReplies(p: Settings, a: Db, b: Db, es: seq<Event>)
    requires Comparable(a, b, es) && !VerdictsAgree(p, a, b, es)
    ensures Observed(p, a, es, Answered) != Observed(p, b, Without(es, IsReaper), Answered)
    decreases |es|
  {
    var e, rest := es[0], es[1..];
    if IsReaper(e.op) {
      ReaperGoesOn(p, a, b, es);
      OtherReplies(p, Step(p, a, e).0, b, rest);
      WithoutDrops(es, IsReaper);
      Unwatched(p, a, es, Answered);
    } else {
      WithoutKeeps(es, IsReaper);
      var (a1, r) := Step(p, a, e);
      var (b1, q) := Step(p, b, e);
      var x, y := Observed(p, a1, rest, Answered), Observed(p, b1, Without(rest, IsReaper), Answered);
      if SameVerdict(p, a, b, e.op) {
        BothGoOn(p, a, b, es);
        OtherReplies(p, a1, b1, rest);
        SameHead(if Answered(e.op) then [r] else [], x, y);
      } else {
        KeylessReply(p, a, e);
        KeylessReply(p, b, e);
        OtherHead(r, q, x, y);
      }
    }
  }

  /** Erasing every reaper pass from a run of keyless messages leaves the replies to all claims and enqueues as they are
      if and only if no depth guard on the way decides otherwise. The run may start anywhere; it does not replay. */
  lemma InvisibleIffVerdictsAgree(p: Settings, db: Db, es: seq<Event>)
    requires NoReplay(es) && forall i :: 0 <= i < |es| ==> Keyless(es[i].op) && Tame(db, es[i].now)
    requires FreshFor(db, es) && ClockAdvances(es)
    ensures Observed(p, db, es, Answered) == Observed(p, db, Without(es, IsReaper), Answered) <==> VerdictsAgree(p, db, db, es)
  {
    assert Comparable(db, db, es);
    if VerdictsAgree(p, db, db, es) {
      SameReplies(p, db, db, es, Answered);
    } else {
      OtherReplies(p, db, db, es);
    }
  }

  /** No enqueue has a depth limit. */
  predicate NoDepthLimit(op: Op) {
    op.OpEnqueue? ==> ResolveMaxDepth(op.cfg) <= 0
  }

  lemma {:induction false} NoLimitNoVerdict(p: Settings, a: Db, b: Db, es: seq<Event>)
    requires NoReplay(es) && forall i :: 0 <= i < |es| ==> NoDepthLimit(es[i].op)
    ensures VerdictsAgree(p, a, b, es)
    decreases |es|
  {
    if es != [] {
      NoLimitNoVerdict(p, Step(p, a, es[0]).0, if IsReaper(es[0].op) then b else Step(p, b, es[0]).0, es[1..]);
    }
  }

  /** Without depth limits, erasing every reaper pass changes the reply of no claim. */
  lemma ReapersAreInvisible(p: Settings, db: Db, es: seq<Event>)
    requires NoReplay(es) && forall i :: 0 <= i < |es| ==> Keyless(es[i].op) && NoDepthLimit(es[i].op) && Tame(db, es[i].now)
    requires FreshFor(db, es) && ClockAdvances(es)
    ensures Observed(p, db, es, IsClaim) == Observed(p, db, Without(es, IsReaper), IsClaim)
  {
    NoLimitNoVerdict(p, db, db, es);
    assert Comparable(db, db, es);
    SameReplies(p, db, db, es, IsClaim);
  }

  // ------------------------------------------------------------ they can show

  const Short := Some(TopicConfig(Some(1), Some(1), Some(1), false, None, None))
  const First := Event(OpEnqueue("a", "", map[], None, None, Short, 0), 0.0)
  const Pass := Event(OpExpiryReap, 2.0)
  const Second := Event(OpEnqueue("a", "", map[], None, None, Short, 1), 2.0)

  /** With a depth limit of 1, the expired message blocks the next one until a pass has marked it. */
  lemma PassUnblocks(p: Settings)
    ensures
      var db := Step(p, EmptyDb, First).0;
      !SameVerdict(p, Step(p, db, Pass).0, db, Second.op)
  {
    var db := Step(p, EmptyDb, First).0;
    assert Waiting(EmptyDb, "a") == Holders(EmptyDb, "a", None) == {};
    assert Waiting(db, "a") == {0};
    assert Waiting(Step(p, db, Pass).0, "a") == {};
  }

  lemma VerdictsDiffer(p: Settings)
    ensures !VerdictsAgree(p, EmptyDb, EmptyDb, [First, Pass, Second])
  {
    var db := Step(p, EmptyDb, First).0;
    PassUnblocks(p);
    assert [First, Pass, Second][1..] == [Pass, Second] && [Pass, Second][1..] == [Second];
    assert !VerdictsAgree(p, Step(p, db, Pass).0, db, [Second]);
    assert !VerdictsAgree(p, db, db, [Pass, Second]);
  }

  lemma PassErased()
    ensures Without([First, Pass, Second], IsReaper) == [First, Second]
  {
    assert [First, Pass, Second][1..] == [Pass, Second] && [Pass, Second][1..] == [Second] && [Second][1..] == [];
    assert Without([Second], IsReaper) == [Second];
    WithoutDrops([Pass, Second], IsReaper);
    WithoutKeeps([First, Pass, Second], IsReaper);
  }

  /** Under every setting some run of keyless messages is answered otherwise without its reaper pass. */
  lemma ReapersShow(p: Settings)
    ensures
      var es := [First, Pass, Second];
      && NoReplay(es) && FreshFor(EmptyDb, es) && ClockAdvances(es)
      && (forall i :: 0 <= i < |es| ==> Keyless(es[i].op) && Tame(EmptyDb, es[i].now))
      && Without(es, IsReaper) == [First, Second]
      && Observed(p, EmptyDb, es, Answered) != Observed(p, EmptyDb, [First, Second], Answered)
  {
    PassErased();
    VerdictsDiffer(p);
    InvisibleIffVerdictsAgree(p, EmptyDb, [First, Pass, Second]);
  }
}
