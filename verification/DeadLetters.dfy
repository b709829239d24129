/** Where dead letters come from, and how they return. */
module DeadLetters {
  import opened Tables
  import opened Lifecycle
  import opened Machine
  import opened RowHistory
  import opened Histories
  import opened ConfigReads
  import opened SettlingEffects

  ghost predicate RowProvenance(m: Message) {
    m.originalTopic.Some? ==> m.topic == DlqTopic(m.originalTopic.value)
  }

  ghost predicate Provenance(db: Db) {
    && (forall id :: id in db.messages ==> RowProvenance(db.messages[id]))
    && (forall t :: t in db.config ==> !Reserved(t))
    && (forall r :: r in db.log ==> !Reserved(r.topic) && r.originalTopic.None?)
  }

  lemma RowKeepsProvenance(p: Settings, db: Db, e: Event, reply: Reply, id: Id, a: Option<Message>, b: Option<Message>)
    requires RowStep(p, db, e, reply, id, a, b) && Provenance(db)
    requires a.Some? ==> RowProvenance(a.value)
    ensures b.Some? ==> RowProvenance(b.value)
  {
  }

  /** A dead letter sits on its topic's `.dlq`; no configuration or archive row belongs to a `.dlq` topic,
      and archived rows have no original topic. */
  lemma {:induction false} ProvenanceHolds(p: Settings, h: Run, i: nat)
    requires Chronicle(p, h) && i <= |h.events|
    ensures Provenance(h.states[i])
    decreases i
  {
    if i > 0 {
      ProvenanceHolds(p, h, i - 1);
      var db, after := h.states[i - 1], h.states[i];
      assert LogAt(h, i - 1) && ConfigAt(h, i - 1);
      forall id | id in after.messages ensures RowProvenance(after.messages[id]) {
        assert RowAt(p, h, i - 1, id);
        RowKeepsProvenance(p, db, h.events[i - 1], h.replies[i - 1], id, Row(db, id), Row(after, id));
      }
    }
  }

  lemma DeadLetterProvenance(p: Settings, h: Run, i: nat)
    requires History(p, h) && i <= |h.events|
    ensures Provenance(h.states[i])
  {
    ChronicleOf(p, h);
    ProvenanceHolds(p, h, i);
  }

  /** The configuration Nack reads for a reserved topic is absent, as no such topic is ever configured. */
  ghost predicate ReservedUnconfigured(h: Run)
    requires Shaped(h)
  {
    forall i :: 0 <= i < |h.events| ==> NackSeesNone(h.states[i], h.events[i].op)
  }

  ghost predicate NackSeesNone(db: Db, op: Op) {
    op.OpNack? && op.id in db.messages && Reserved(db.messages[op.id].topic) ==> op.cfg.None?
  }

  /** With a global threshold other than 1, a dead letter is never promoted again. */
  ghost predicate SettledRow(m: Message) {
    && m.retryCount >= 0
    && (m.originalTopic.None? ==> !Reserved(m.topic))
    && (m.originalTopic.Some? ==>
          && m.topic == DlqTopic(m.originalTopic.value) && !Reserved(m.originalTopic.value)
          && m.maxRetries == 0 && (m.status in {Pending, Processing} ==> m.retryCount == 0))
  }

  lemma NackSettles(m: Message, reason: string, threshold: int, now: Time)
    requires SettledRow(m) && m.status == Processing && (Reserved(m.topic) ==> threshold != 1)
    ensures SettledRow(NackRow(m, reason, threshold, now))
  {
    if m.originalTopic.Some? {
      assert Reserved(DlqTopic(m.originalTopic.value));
    }
  }

  lemma RowStaysSettled(p: Settings, db: Db, e: Event, reply: Reply, id: Id, a: Option<Message>, b: Option<Message>)
    requires RowStep(p, db, e, reply, id, a, b) && Provenance(db)
    requires a == Row(db, id) && NackSeesNone(db, e.op) && p.dlqThreshold != 1
    requires a.Some? ==> SettledRow(a.value)
    ensures b.Some? ==> SettledRow(b.value)
  {
    if e.op.OpNack? && e.op.id == id && reply == Done {
      NackSettles(a.value, e.op.reason, Threshold(p, e.op.cfg), e.now);
    }
  }

  lemma {:induction false} RowSettled(p: Settings, h: Run, id: Id, i: nat)
    requires Chronicle(p, h) && i <= |h.events|
    requires p.dlqThreshold != 1 && ReservedUnconfigured(h)
    ensures id in h.states[i].messages ==> SettledRow(h.states[i].messages[id])
    decreases i
  {
    if i > 0 {
      RowSettled(p, h, id, i - 1);
      ProvenanceHolds(p, h, i - 1);
      var db := h.states[i - 1];
      assert RowAt(p, h, i - 1, id) && NackSeesNone(db, h.events[i - 1].op);
      RowStaysSettled(p, db, h.events[i - 1], h.replies[i - 1], id, Row(db, id), Row(h.states[i], id));
    }
  }

  ghost predicate RequeuedAt(h: Run, i: nat, id: Id)
    requires Shaped(h) && i < |h.events|
  {
    h.events[i].op.OpRequeue? && h.events[i].op.id == id && h.replies[i] == Done
  }

  /** Call i is a Nack that moves id to its dead-letter topic. */
  ghost predicate PromotedAt(p: Settings, h: Run, i: nat, id: Id)
    requires Shaped(h) && i < |h.events|
  {
    var op := h.events[i].op;
    && op.OpNack? && op.id == id && h.replies[i] == Done
    && id in h.states[i].messages
    && ReachesThreshold(Threshold(p, op.cfg), h.states[i].messages[id].retryCount)
  }

  /** What survives while message m waits as a dead letter. */
  ghost predicate Embalmed(m: Message, d: Message) {
    && d.topic == DlqTopic(m.topic) && d.originalTopic == Some(m.topic)
    && d.key == m.key && d.payload == m.payload && d.metadata == m.metadata
    && d.createdAt == m.createdAt && d.expiresAt == m.expiresAt
  }

  lemma StepEmbalms(p: Settings, db: Db, e: Event, reply: Reply, id: Id, a: Option<Message>, b: Option<Message>, m: Message)
    requires RowStep(p, db, e, reply, id, a, b) && a == Row(db, id)
    requires a.Some? && Embalmed(m, a.value) && SettledRow(a.value)
    requires NackSeesNone(db, e.op) && p.dlqThreshold != 1
    requires !(e.op.OpRequeue? && e.op.id == id && reply == Done)
    ensures b.Some? ==> Embalmed(m, b.value)
  {
  }

  lemma EmbalmedNext(p: Settings, h: Run, id: Id, m: Message, i: nat)
    requires Chronicle(p, h) && i < |h.events| && p.dlqThreshold != 1 && ReservedUnconfigured(h)
    requires Introduced(h, i, id) && !RequeuedAt(h, i, id)
    requires id in h.states[i].messages ==> Embalmed(m, h.states[i].messages[id]) && SettledRow(h.states[i].messages[id])
    ensures id in h.states[i + 1].messages ==> Embalmed(m, h.states[i + 1].messages[id])
  {
    var db := h.states[i];
    if id in db.messages {
      assert RowAt(p, h, i, id) && NackSeesNone(db, h.events[i].op);
      StepEmbalms(p, db, h.events[i], h.replies[i], id, Row(db, id), Row(h.states[i + 1], id), m);
    } else {
      GoneForGood(p, h, id, i, i + 1);
    }
  }

  lemma EmbalmedLater(p: Settings, h: Run, id: Id, m: Message, i: nat, j: nat)
    requires Chronicle(p, h) && i <= j < |h.events| && p.dlqThreshold != 1 && ReservedUnconfigured(h)
    requires id in h.states[i].messages && !RequeuedAt(h, j, id)
    requires id in h.states[j].messages ==> Embalmed(m, h.states[j].messages[id])
    ensures id in h.states[j + 1].messages ==> Embalmed(m, h.states[j + 1].messages[id])
  {
    RowSettled(p, h, id, j);
    assert SoundAt(h, i) && Introduced(h, i, id);
    NotBroughtAgain(h, i, j, id);
    EmbalmedNext(p, h, id, m, j);
  }

  lemma {:induction false} StaysEmbalmed(p: Settings, h: Run, id: Id, m: Message, i: nat, j: nat)
    requires Chronicle(p, h) && i <= j <= |h.events|
    requires p.dlqThreshold != 1 && ReservedUnconfigured(h)
    requires id in h.states[i].messages && Embalmed(m, h.states[i].messages[id])
    requires forall k :: i <= k < j ==> !RequeuedAt(h, k, id)
    ensures id in h.states[j].messages ==> Embalmed(m, h.states[j].messages[id])
    decreases j
  {
    if i < j {
      StaysEmbalmed(p, h, id, m, i, j - 1);
      EmbalmedLater(p, h, id, m, i, j - 1);
    }
  }

  /** What a requeued message shares with the message m that was promoted. */
  ghost predicate Restored(m: Message, b: Message) {
    && b.topic == m.topic && b.key == m.key && b.payload == m.payload && b.metadata == m.metadata
    && b.createdAt == m.createdAt && b.expiresAt == m.expiresAt
    && b.status == Pending && b.retryCount == 0 && b.visibility.None?
    && b.originalTopic.None? && b.dlqMovedAt.None?
  }

  /** One promotion, whatever happens to the dead letter short of a requeue, then a requeue: the message is back. */
  lemma RoundTrip(p: Settings, h: Run, id: Id, i: nat, j: nat)
    requires History(p, h) && i < j < |h.events|
    requires p.dlqThreshold != 1 && ReservedUnconfigured(h)
    requires PromotedAt(p, h, i, id) && RequeuedAt(h, j, id)
    requires forall k :: i < k < j ==> !RequeuedAt(h, k, id)
    ensures id in h.states[j + 1].messages && Restored(h.states[i].messages[id], h.states[j + 1].messages[id])
    ensures SeesLimit(p, h.events[j].op.cfg, h.states[j + 1].messages[id].maxRetries)
    ensures id in h.states[j].messages && h.states[j + 1].messages[id].lastError == h.states[j].messages[id].lastError
  {
    ChronicleOf(p, h);
    assert RowAt(p, h, i, id) && RowAt(p, h, j, id);
    StaysEmbalmed(p, h, id, h.states[i].messages[id], i + 1, j);
  }

  /** Requeueing a dead letter works exactly when its topic has a name and its key is not pending there. */
  lemma RequeueOutcome(p: Settings, db: Db, id: Id, cfg: Option<TopicConfig>, home: string)
    requires id in db.messages && db.messages[id].originalTopic == Some(home)
    ensures Requeue(p, db, id, cfg).1 == Done <==> home != "" && !PendingElsewhere(db, home, db.messages[id].key, id)
    ensures home == "" ==> Requeue(p, db, id, cfg) == (db, Fail(ErrNotDLQ))
  {
    TakenElsewhere(db, home, db.messages[id].key, id);
  }

  /** With a global threshold of 1, nacking a claimed dead letter sends it one level further down; a requeue then
      brings it back to the dead-letter topic only, stripped of its origin, and a second requeue is refused. */
  lemma OriginLostAtThresholdOne(p: Settings, db: Db, id: Id, m: Message, reason: string, now: Time)
    requires p.dlqThreshold == 1
    requires id in db.messages && Embalmed(m, db.messages[id]) && m.key.None?
    requires db.messages[id].status == Processing && db.messages[id].retryCount >= 0
    ensures
      var (db1, r1) := Nack(p, db, id, reason, None, now);
      var (db2, r2) := Requeue(p, db1, id, None);
      && r1 == Done && r2 == Done && id in db2.messages
      && db2.messages[id].topic == DlqTopic(m.topic) && db2.messages[id].originalTopic.None?
      && Requeue(p, db2, id, None).1 == Fail(ErrNotDLQ)
  {
    assert DlqTopic(m.topic) != "";
  }
}
