/** With consumer groups only, a message lives until every group has let go of it. */
module FanOut {
  import opened Tables
  import opened Lifecycle
  import opened Groups
  import opened Replay
  import opened Machine
  import opened RowHistory
  import opened Histories

  /** Calls a deployment makes when every consumer belongs to a group and nothing expires or is purged. */
  predicate GroupOnly(op: Op) {
    || op.OpEnqueue? || op.OpDequeueForGroup? || op.OpDequeueNForGroup? || op.OpAckForGroup? || op.OpNackForGroup?
    || op.OpRegister? || op.OpUnregister? || op.OpUpsertConfig? || op.OpDeleteConfig?
    || op.OpArchiveReap? || op.OpTrim? || op.OpReplay?
  }

  ghost predicate GroupsOnly(h: Run) {
    forall i :: 0 <= i < |h.events| ==> GroupOnly(h.events[i].op)
  }

  /** Call i is the group's own ack of the message, or its unregistration from the message's topic. */
  ghost predicate LetsGoAt(h: Run, i: nat, d: DeliveryKey)
    requires Shaped(h) && i < |h.events|
  {
    LetsGo(h.states[i], h.events[i].op, h.replies[i], d)
  }

  ghost predicate LetsGo(db: Db, op: Op, reply: Reply, d: DeliveryKey) {
    && reply == Done
    && (|| op == OpAckForGroup(d.id, d.group)
        || (op.OpUnregister? && op.group == d.group && OnTopic(db, d.id, op.topic)))
  }

  lemma StepHolds(p: Settings, db: Db, e: Event, reply: Reply, d: DeliveryKey, b: Option<Delivery>)
    requires d in db.deliveries && DeliveryStep(p, db, e, reply, d, Some(db.deliveries[d]), b)
    requires Linked(db) && BringsNewIds(db, e.op) && GroupOnly(e.op)
    ensures !LetsGo(db, e.op, reply, d) ==> b.Some?
    ensures db.deliveries[d].status == Failed && !(e.op.OpUnregister? && LetsGo(db, e.op, reply, d)) ==>
              b.Some? && b.value.status == Failed
  {
    assert d.id in db.messages;
  }

  lemma {:induction false} HeldUntilLetGo(p: Settings, h: Run, d: DeliveryKey, i: nat, j: nat)
    requires Chronicle(p, h) && GroupsOnly(h) && i <= j <= |h.events|
    requires d in h.states[i].deliveries
    requires forall k :: i <= k < j ==> !LetsGoAt(h, k, d)
    ensures d in h.states[j].deliveries
    decreases j
  {
    if i < j {
      HeldUntilLetGo(p, h, d, i, j - 1);
      assert DeliveryRowAt(p, h, j - 1, d) && SoundAt(h, j - 1) && !LetsGoAt(h, j - 1, d);
      StepHolds(p, h.states[j - 1], h.events[j - 1], h.replies[j - 1], d, DeliveryAt(h.states[j], d));
    }
  }

  /** A message row disappears only when every group that held a delivery for it has acked it or been unregistered. */
  lemma DisappearsOnlyWhenLetGo(p: Settings, h: Run, d: DeliveryKey, i: nat, j: nat)
    requires History(p, h) && GroupsOnly(h) && i <= j <= |h.events|
    requires d in h.states[i].deliveries && d.id !in h.states[j].messages
    ensures exists k :: i <= k < j && LetsGoAt(h, k, d)
  {
    ChronicleOf(p, h);
    assert SoundAt(h, j);
    if forall k :: i <= k < j ==> !LetsGoAt(h, k, d) {
      HeldUntilLetGo(p, h, d, i, j);
      assert false;
    }
  }

  /** A failed delivery stays, and keeps its message, until its group is unregistered. */
  lemma FailedKeepsAlive(p: Settings, h: Run, d: DeliveryKey, i: nat, j: nat)
    requires History(p, h) && GroupsOnly(h) && i <= j <= |h.events|
    requires d in h.states[i].deliveries && h.states[i].deliveries[d].status == Failed
    requires forall k :: i <= k < j ==> !(h.events[k].op.OpUnregister? && LetsGoAt(h, k, d))
    ensures d in h.states[j].deliveries && d.id in h.states[j].messages
    ensures h.states[j].deliveries[d].status == Failed
  {
    ChronicleOf(p, h);
    FailedHeld(p, h, d, i, j);
    assert SoundAt(h, j);
  }

  lemma {:induction false} FailedHeld(p: Settings, h: Run, d: DeliveryKey, i: nat, j: nat)
    requires Chronicle(p, h) && GroupsOnly(h) && i <= j <= |h.events|
    requires d in h.states[i].deliveries && h.states[i].deliveries[d].status == Failed
    requires forall k :: i <= k < j ==> !(h.events[k].op.OpUnregister? && LetsGoAt(h, k, d))
    ensures d in h.states[j].deliveries && h.states[j].deliveries[d].status == Failed
    decreases j
  {
    if i < j {
      FailedHeld(p, h, d, i, j - 1);
      assert DeliveryRowAt(p, h, j - 1, d) && SoundAt(h, j - 1);
      assert !(h.events[j - 1].op.OpUnregister? && LetsGoAt(h, j - 1, d));
      StepHolds(p, h.states[j - 1], h.events[j - 1], h.replies[j - 1], d, DeliveryAt(h.states[j], d));
    }
  }

  /** One step of a group-only run removes a message exactly when it is the ack of its last delivery. */
  lemma OnlyTheLastAckDeletes(p: Settings, h: Run, i: nat, id: Id)
    requires History(p, h) && GroupsOnly(h) && i < |h.events| && id in h.states[i].messages
    ensures
      var op := h.events[i].op;
      id !in h.states[i + 1].messages <==>
        && op.OpAckForGroup? && op.id == id && h.replies[i] == Done
        && DeliveriesOf(h.states[i], id) == {DeliveryKey(id, op.group)}
  {
    ChronicleOf(p, h);
    assert RowAt(p, h, i, id) && GroupOnly(h.events[i].op);
  }

  /** In any run at all, a delivery refers to a live message. */
  lemma DeliveriesStayLinked(p: Settings, h: Run, i: nat)
    requires History(p, h) && i <= |h.events|
    ensures Linked(h.states[i])
  {
    ChronicleOf(p, h);
    assert SoundAt(h, i);
  }

  /** A group registered for a topic is given a delivery of every message stored on it. */
  lemma StoredForEveryGroup(p: Settings, h: Run, i: nat, group: string)
    requires History(p, h) && i < |h.events|
    requires h.events[i].op.OpEnqueue? && h.replies[i] == Stored(h.events[i].op.newId)
    ensures
      var k := DeliveryKey(h.events[i].op.newId, group);
      && (k in h.states[i + 1].deliveries <==> GroupKey(h.events[i].op.topic, group) in h.states[i].groups)
      && (k in h.states[i + 1].deliveries ==> h.states[i + 1].deliveries[k] == Delivery(Pending, 0, p.deliveryRetries, None, None))
  {
    ChronicleOf(p, h);
    assert DeliveryRowAt(p, h, i, DeliveryKey(h.events[i].op.newId, group)) && SoundAt(h, i);
    assert h.events[i].op.newId in NewIds(h.events[i].op);
  }

  /** ... and of every copy a replay makes. */
  lemma {:induction false} CopiedForEveryGroup(p: Settings, db: Db, rows: seq<LogRow>, ids: seq<Id>, expiresAt: Option<Time>, now: Time,
                                               id: Id, group: string)
    requires |rows| <= |ids| && Linked(db) && id !in db.messages
    requires forall i, j :: 0 <= i < j < |ids| ==> ids[i] != ids[j]
    requires forall i :: 0 <= i < |ids| ==> ids[i] !in db.messages
    requires id in InsertCopies(p, db, rows, ids, expiresAt, now).0.messages
    ensures
      var after := InsertCopies(p, db, rows, ids, expiresAt, now).0;
      var k := DeliveryKey(id, group);
      && (k in after.deliveries <==> GroupKey(after.messages[id].topic, group) in db.groups)
      && (k in after.deliveries ==> after.deliveries[k] == Delivery(Pending, 0, p.deliveryRetries, None, None))
    decreases |rows|
  {
    if rows != [] {
      var m := Copy(rows[0], expiresAt, now);
      var db0 := if KeyTaken(db, m.topic, m.key, ids[0]) then db else InsertMessage(p, db, ids[0], m);
      assert InsertCopies(p, db, rows, ids, expiresAt, now).0 == InsertCopies(p, db0, rows[1..], ids[1..], expiresAt, now).0;
      if id in db0.messages {
        CopiesKeepDeliveries(p, db0, rows[1..], ids[1..], expiresAt, now, DeliveryKey(id, group));
        CopiesOnlyAdd(p, db0, rows[1..], ids[1..], expiresAt, now, id);
      } else {
        CopiedForEveryGroup(p, db0, rows[1..], ids[1..], expiresAt, now, id, group);
      }
    }
  }

  /** A new group is given a delivery of exactly the topic's pending messages, with their max_retries; what it held from
      an earlier registration stays, and nobody else's deliveries change. Otherwise nothing changes. */
  lemma RegistrationBackfills(p: Settings, db: Db, e: Event)
    requires e.op.OpRegister?
    ensures
      var (after, reply) := Step(p, db, e);
      var (topic, group) := (e.op.topic, e.op.group);
      if p.requireRegistration && e.op.cfg.None? then (after, reply) == (db, Fail(ErrTopicNotRegistered))
      else if GroupKey(topic, group) in db.groups then (after, reply) == (db, Fail(ErrConsumerGroupExists))
      else
        && reply == Done && after == db.(groups := db.groups + {GroupKey(topic, group)}, deliveries := after.deliveries)
        && forall k :: DeliveryAt(after, k) ==
             if k in db.deliveries then Some(db.deliveries[k])
             else if k.group == group && k.id in db.messages && db.messages[k.id].topic == topic
                     && db.messages[k.id].status == Pending
             then Some(Delivery(Pending, 0, db.messages[k.id].maxRetries, None, None))
             else None
  {
  }

  /** Unregistering takes exactly the group's deliveries of the topic's messages. */
  lemma UnregistrationCleansUp(p: Settings, db: Db, e: Event)
    requires e.op.OpUnregister?
    ensures
      var (after, reply) := Step(p, db, e);
      var (topic, group) := (e.op.topic, e.op.group);
      if GroupKey(topic, group) !in db.groups then (after, reply) == (db, Fail(ErrConsumerGroupNotFound))
      else
        && reply == Done && after == db.(groups := db.groups - {GroupKey(topic, group)}, deliveries := after.deliveries)
        && forall k :: DeliveryAt(after, k) ==
             if k in db.deliveries && !(k.group == group && k.id in db.messages && db.messages[k.id].topic == topic)
             then Some(db.deliveries[k]) else None
  {
  }
}
