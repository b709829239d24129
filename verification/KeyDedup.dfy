/** At most one pending message per topic and key. */
module KeyDedup {
  import opened Tables
  import opened Enqueue
  import opened Lifecycle
  import opened Replay
  import opened Machine
  import opened RowHistory
  import opened Histories
  import opened ConfigReads

  ghost predicate Clash(db: Db, a: Id, b: Id) {
    && a in db.messages && b in db.messages && a != b && db.messages[a].key.Some?
    && db.messages[a].status == Pending
    && PendingUnder(db.messages[b], db.messages[a].topic, db.messages[a].key)
  }

  ghost predicate KeysUnique(db: Db) {
    forall a, b :: !Clash(db, a, b)
  }

  /** Nothing becomes pending, and pending rows keep topic and key. */
  ghost predicate NoNewPending(db: Db, after: Db) {
    forall id :: id in after.messages && after.messages[id].status == Pending ==>
      && id in db.messages && PendingUnder(db.messages[id], after.messages[id].topic, after.messages[id].key)
  }

  lemma NoNewPendingKeepsUnique(db: Db, after: Db)
    requires KeysUnique(db) && NoNewPending(db, after)
    ensures KeysUnique(after)
  {
    forall a, b ensures !Clash(after, a, b) {
      assert !Clash(db, a, b);
    }
  }

  /** One row becomes (or stays) pending under a key nobody else holds. */
  lemma OneNewPendingKeepsUnique(db: Db, id: Id, m: Message)
    requires KeysUnique(db) && !KeyTaken(db, m.topic, m.key, id)
    ensures KeysUnique(db.(messages := db.messages[id := m]))
  {
    var after := db.(messages := db.messages[id := m]);
    forall a, b ensures !Clash(after, a, b) {
      assert !Clash(db, a, b);
    }
  }

  lemma {:induction false} CopiesKeepUnique(p: Settings, db: Db, rows: seq<LogRow>, ids: seq<Id>,
                                            expiresAt: Option<Time>, now: Time)
    requires |rows| <= |ids| && KeysUnique(db)
    ensures KeysUnique(InsertCopies(p, db, rows, ids, expiresAt, now).0)
    decreases |rows|
  {
    if rows != [] {
      var m := Copy(rows[0], expiresAt, now);
      if KeyTaken(db, m.topic, m.key, ids[0]) {
        CopiesKeepUnique(p, db, rows[1..], ids[1..], expiresAt, now);
      } else {
        var db0 := InsertMessage(p, db, ids[0], m);
        OneNewPendingKeepsUnique(db, ids[0], m);
        forall a, b ensures !Clash(db0, a, b) {
          assert !Clash(db.(messages := db.messages[ids[0] := m]), a, b);
        }
        CopiesKeepUnique(p, db0, rows[1..], ids[1..], expiresAt, now);
      }
    }
  }

  lemma UpsertKeepsUnique(p: Settings, db: Db, newId: Id, m: Message)
    requires KeysUnique(db) && newId !in db.messages && m.status == Pending
    ensures KeysUnique(Upsert(p, db, newId, m).0)
  {
    var holders := Holders(db, m.topic, m.key);
    var after := Upsert(p, db, newId, m).0;
    if holders == {} {
      forall i | i in db.messages && m.key.Some? ensures !PendingUnder(db.messages[i], m.topic, m.key) {
        assert i !in holders;
      }
      OneNewPendingKeepsUnique(db, newId, m);
      forall a, b ensures !Clash(after, a, b) {
        assert !Clash(db.(messages := db.messages[newId := m]), a, b);
      }
    } else {
      assert NoNewPending(db, after);
      NoNewPendingKeepsUnique(db, after);
    }
  }

  lemma RowNotNewlyPending(p: Settings, db: Db, e: Event, reply: Reply, id: Id, a: Option<Message>, b: Option<Message>)
    requires RowStep(p, db, e, reply, id, a, b)
    requires !e.op.OpEnqueue? && !e.op.OpNack? && !e.op.OpRequeue? && !e.op.OpReplay?
    ensures b.Some? && b.value.status == Pending ==> a.Some? && PendingUnder(a.value, b.value.topic, b.value.key)
  {
  }

  lemma OthersAddNoPending(p: Settings, db: Db, e: Event)
    requires Enabled(db, e) && BringsNewIds(db, e.op)
    requires !e.op.OpEnqueue? && !e.op.OpNack? && !e.op.OpRequeue? && !e.op.OpReplay?
    ensures NoNewPending(db, Step(p, db, e).0)
  {
    var (after, reply) := Step(p, db, e);
    forall id | id in after.messages && after.messages[id].status == Pending
      ensures id in db.messages && PendingUnder(db.messages[id], after.messages[id].topic, after.messages[id].key)
    {
      RowSteps(p, db, e, id);
      RowNotNewlyPending(p, db, e, reply, id, Row(db, id), Row(after, id));
    }
  }

  lemma NackKeepsUnique(p: Settings, db: Db, id: Id, reason: string, cfg: Option<TopicConfig>, now: Time)
    requires KeysUnique(db)
    ensures KeysUnique(Nack(p, db, id, reason, cfg, now).0)
  {
    var after := Nack(p, db, id, reason, cfg, now).0;
    if id in db.messages {
      var m := NackRow(db.messages[id], reason, Threshold(p, cfg), now);
      if m.status != Pending {
        NoNewPendingKeepsUnique(db, after);
      } else if !KeyTaken(db, m.topic, m.key, id) {
        OneNewPendingKeepsUnique(db, id, m);
      }
    }
  }

  lemma RequeueKeepsUnique(p: Settings, db: Db, id: Id, cfg: Option<TopicConfig>)
    requires KeysUnique(db)
    ensures KeysUnique(Requeue(p, db, id, cfg).0)
  {
    if id in db.messages && IsDeadLetter(db.messages[id]) {
      var m := RequeueRow(db.messages[id], Threshold(p, cfg));
      if !KeyTaken(db, m.topic, m.key, id) {
        OneNewPendingKeepsUnique(db, id, m);
      }
    }
  }

  lemma OthersKeepUnique(p: Settings, db: Db, e: Event)
    requires Enabled(db, e) && BringsNewIds(db, e.op) && KeysUnique(db)
    requires !e.op.OpEnqueue? && !e.op.OpNack? && !e.op.OpRequeue? && !e.op.OpReplay?
    ensures KeysUnique(Step(p, db, e).0)
  {
    OthersAddNoPending(p, db, e);
    NoNewPendingKeepsUnique(db, Step(p, db, e).0);
  }

  lemma ReplayKeepsUnique(p: Settings, db: Db, e: Event)
    requires e.op.OpReplay? && Enabled(db, e) && BringsNewIds(db, e.op) && KeysUnique(db)
    ensures KeysUnique(Step(p, db, e).0)
  {
    CopiesKeepUnique(p, db, e.op.rows, e.op.ids, ResolveExpiresAt(p, e.op.cfg, e.now), e.now);
  }

  lemma EnqueueKeepsUnique(p: Settings, db: Db, e: Event)
    requires e.op.OpEnqueue? && BringsNewIds(db, e.op) && KeysUnique(db)
    ensures KeysUnique(Step(p, db, e).0)
  {
    var op := e.op;
    UpsertKeepsUnique(p, db, op.newId,
      NewMessage(op.topic, op.key, op.payload, op.metadata, ResolveMaxRetries(p, op.cfg), ResolveExpiresAt(p, op.cfg, e.now), e.now));
  }

  /** Upsert, nack, promotion, requeue, replay and every other step keep keys unique among pending messages. */
  lemma StepKeepsKeysUnique(p: Settings, db: Db, e: Event)
    requires Enabled(db, e) && BringsNewIds(db, e.op) && KeysUnique(db)
    ensures KeysUnique(Step(p, db, e).0)
  {
    match e.op {
      case OpEnqueue(_, _, _, _, _, _, _) => EnqueueKeepsUnique(p, db, e);
      case OpNack(id, reason, cfg) => NackKeepsUnique(p, db, id, reason, cfg, e.now);
      case OpRequeue(id, cfg) => RequeueKeepsUnique(p, db, id, cfg);
      case OpReplay(_, _, _, _, _) => ReplayKeepsUnique(p, db, e);
      case _ => OthersKeepUnique(p, db, e);
    }
  }

  lemma {:induction false} KeysStayUnique(p: Settings, h: Run, i: nat)
    requires History(p, h) && i <= |h.events|
    ensures KeysUnique(h.states[i])
    decreases i
  {
    if i > 0 {
      KeysStayUnique(p, h, i - 1);
      SoundPrefix(p, h, i - 1);
      assert StepAt(p, h, i - 1);
      StepKeepsKeysUnique(p, h.states[i - 1], h.events[i - 1]);
    }
  }

  /** A new row: what was sent, by the topic's limits or the service's. */
  predicate StoredAs(p: Settings, e: Event, m: Message)
    requires e.op.OpEnqueue?
  {
    && m.topic == e.op.topic && m.key == e.op.key && m.payload == e.op.payload && m.metadata == e.op.metadata
    && m.status == Pending && m.retryCount == 0 && m.lastError.None? && m.visibility.None?
    && m.originalTopic.None? && m.dlqMovedAt.None? && m.createdAt == e.now
    && StoredRetries(p, e.op.cfg, m.maxRetries) && StoredExpiry(p, e.op.cfg, e.now, m.expiresAt)
  }

  /** b is the pending row a with what was sent, and the limit on retries that holds now. */
  predicate ReplacedBy(p: Settings, e: Event, a: Message, b: Message)
    requires e.op.OpEnqueue?
  {
    && b.payload == e.op.payload && b.metadata == e.op.metadata && StoredRetries(p, e.op.cfg, b.maxRetries)
    && b.topic == a.topic && b.key == a.key && b.status == Pending && b.retryCount == a.retryCount
    && b.lastError == a.lastError && b.originalTopic == a.originalTopic && b.dlqMovedAt == a.dlqMovedAt
    && b.visibility == a.visibility && b.expiresAt == a.expiresAt && b.createdAt == a.createdAt
  }

  lemma EnqueueStores(p: Settings, db: Db, e: Event)
    requires e.op.OpEnqueue? && Step(p, db, e).1.Stored?
    ensures
      var (after, id) := (Step(p, db, e).0, Step(p, db, e).1.id);
      if Holders(db, e.op.topic, e.op.key) == {} then
        && id == e.op.newId && after.messages == db.messages[id := after.messages[id]] && StoredAs(p, e, after.messages[id])
        && after.deliveries == db.deliveries + NewDeliveries(db.groups, id, e.op.topic, p.deliveryRetries)
      else
        && id in Holders(db, e.op.topic, e.op.key) && after == db.(messages := db.messages[id := after.messages[id]])
        && ReplacedBy(p, e, db.messages[id], after.messages[id])
  {
  }

  /** What an accepted enqueue does: it replaces the content and max_retries of the pending holder of the key and nothing
      else, its deliveries included, or stores a new message with its deliveries; a message being processed is never
      touched. */
  lemma UpsertEffect(p: Settings, h: Run, i: nat)
    requires History(p, h) && i < |h.events| && h.events[i].op.OpEnqueue? && h.replies[i].Stored?
    ensures
      var (db, after, op, id) := (h.states[i], h.states[i + 1], h.events[i].op, h.replies[i].id);
      && (forall x :: x in db.messages && x != id ==> x in after.messages && after.messages[x] == db.messages[x])
      && (forall x :: x in db.messages && db.messages[x].status == Processing ==>
            x in after.messages && after.messages[x] == db.messages[x])
      && (Holders(db, op.topic, op.key) == {} ==>
            && id == op.newId && id !in db.messages && id in after.messages && StoredAs(p, h.events[i], after.messages[id])
            && after.deliveries == db.deliveries + NewDeliveries(db.groups, id, op.topic, p.deliveryRetries))
      && (Holders(db, op.topic, op.key) != {} ==>
            && Holders(db, op.topic, op.key) == {id} && after.messages.Keys == db.messages.Keys
            && ReplacedBy(p, h.events[i], db.messages[id], after.messages[id]) && after.deliveries == db.deliveries)
      && Holders(after, op.topic, op.key) == if op.key.Some? then {id} else {}
  {
    var (db, after, op, id) := (h.states[i], h.states[i + 1], h.events[i].op, h.replies[i].id);
    KeysStayUnique(p, h, i);
    KeysStayUnique(p, h, i + 1);
    SoundPrefix(p, h, i);
    assert StepAt(p, h, i);
    assert op.newId in NewIds(op);
    EnqueueStores(p, db, h.events[i]);
    forall a, b | a in Holders(db, op.topic, op.key) && b in Holders(db, op.topic, op.key) ensures a == b {
      assert !Clash(db, a, b);
    }
    forall a | a in Holders(after, op.topic, op.key) ensures a == id {
      assert !Clash(after, a, id);
    }
  }

  /** The messages of the topic that are pending or being processed. */
  function Held(db: Db, topic: string): set<Id> {
    (set i | i in db.messages && db.messages[i].topic == topic && db.messages[i].status == Pending)
    + (set i | i in db.messages && db.messages[i].topic == topic && db.messages[i].status == Processing)
  }

  /** The topic sets a depth limit, and its queue has reached it. */
  predicate AtDepth(db: Db, topic: string, cfg: Option<TopicConfig>) {
    cfg.Some? && cfg.value.maxDepth.Some? && 0 < cfg.value.maxDepth.value <= |Held(db, topic)|
  }

  /** When an enqueue is refused, and for which reason; a refused one changes nothing. */
  lemma EnqueueRefusals(p: Settings, db: Db, e: Event)
    requires e.op.OpEnqueue? && Enabled(db, e)
    ensures
      var (after, reply) := Step(p, db, e);
      var (topic, cfg) := (e.op.topic, e.op.cfg);
      && (reply.Stored? <==> !Reserved(topic) && (p.requireRegistration ==> cfg.Some?) && e.op.refusal.None?
                             && !AtDepth(db, topic, cfg))
      && (!reply.Stored? ==> after == db)
      && (Reserved(topic) ==> reply == Fail(ErrReservedTopic))
      && (!Reserved(topic) && p.requireRegistration && cfg.None? ==> reply == Fail(ErrTopicNotRegistered))
      && (!Reserved(topic) && (p.requireRegistration ==> cfg.Some?) && e.op.refusal.Some? ==> reply == Fail(e.op.refusal.value))
      && (!Reserved(topic) && (p.requireRegistration ==> cfg.Some?) && e.op.refusal.None? && AtDepth(db, topic, cfg) ==>
            reply == Fail(ErrQueueFull))
  {
    assert Waiting(db, e.op.topic) == Held(db, e.op.topic);
  }
}
