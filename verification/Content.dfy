/** What producers send, consumers and the archive receive. */
module Content {
  import opened Tables
  import opened Enqueue
  import opened Lifecycle
  import opened Replay
  import opened Machine
  import opened RowHistory
  import opened Histories
  import opened ConfigReads
  import opened Conservation

  predicate SameContent(m: Message, b: Message) {
    b.key == m.key && b.payload == m.payload && b.metadata == m.metadata && b.createdAt == m.createdAt
  }

  lemma StepKeepsContent(p: Settings, db: Db, e: Event, reply: Reply, id: Id, a: Option<Message>, b: Option<Message>)
    requires RowStep(p, db, e, reply, id, a, b) && a.Some? && a.value.key.None?
    ensures b.Some? ==> SameContent(a.value, b.value)
  {
  }

  /** A keyless message keeps its content for as long as it lives: through claims, retries, promotion and requeue. */
  lemma {:induction false} KeepsContent(p: Settings, h: Run, id: Id, i: nat, j: nat)
    requires Chronicle(p, h) && i <= j <= |h.events|
    requires id in h.states[i].messages && h.states[i].messages[id].key.None?
    ensures id in h.states[j].messages ==> SameContent(h.states[i].messages[id], h.states[j].messages[id])
    decreases j
  {
    if i < j {
      KeepsContent(p, h, id, i, j - 1);
      if id in h.states[j - 1].messages {
        assert RowAt(p, h, j - 1, id);
        StepKeepsContent(p, h.states[j - 1], h.events[j - 1], h.replies[j - 1], id,
                         Row(h.states[j - 1], id), Row(h.states[j], id));
      } else {
        assert SoundAt(h, i) && Introduced(h, i, id);
        NotBroughtAgain(h, i, j - 1, id);
        GoneForGood(p, h, id, j - 1, j);
      }
    }
  }

  lemma ClaimShows(p: Settings, h: Run, id: Id, j: nat)
    requires Chronicle(p, h) && j < |h.events| && id in Rows(h.replies[j]) && IsClaim(h.events[j].op)
    ensures id in h.states[j].messages
    ensures
      var (m, v) := (h.states[j].messages[id], Rows(h.replies[j])[id]);
      v.key == m.key && v.payload == m.payload && v.metadata == m.metadata && v.createdAt == m.createdAt
  {
    if h.events[j].op.OpDequeue? || h.events[j].op.OpDequeueN? {
      assert RowAt(p, h, j, id);
    } else {
      assert DeliveryRowAt(p, h, j, DeliveryKey(id, h.events[j].op.group));
    }
  }

  /** Whoever claims a keyless message, whenever, on its own topic or as a dead letter, gets what was enqueued. */
  lemma ConsumersSeeWhatWasSent(p: Settings, h: Run, id: Id, i: nat, j: nat)
    requires History(p, h) && i < j < |h.events|
    requires h.events[i].op.OpEnqueue? && h.events[i].op.key.None? && h.replies[i] == Stored(id)
    requires IsClaim(h.events[j].op) && id in Rows(h.replies[j])
    ensures
      var (op, v) := (h.events[i].op, Rows(h.replies[j])[id]);
      v.key.None? && v.payload == op.payload && v.metadata == op.metadata && v.createdAt == h.events[i].now
  {
    ChronicleOf(p, h);
    assert RowAt(p, h, i, id) && SoundAt(h, i);
    StoredContent(p, h.states[i], h.events[i], h.replies[i], id, Row(h.states[i], id), Row(h.states[i + 1], id));
    KeepsContent(p, h, id, i + 1, j);
    ClaimShows(p, h, id, j);
  }

  lemma StoredContent(p: Settings, db: Db, e: Event, reply: Reply, id: Id, a: Option<Message>, b: Option<Message>)
    requires RowStep(p, db, e, reply, id, a, b) && e.op.OpEnqueue? && e.op.key.None? && reply == Stored(id)
    ensures a.None? && b.Some? && b.value.key.None?
    ensures b.value.payload == e.op.payload && b.value.metadata == e.op.metadata && b.value.createdAt == e.now
  {
  }

  // ----------------------------------------------------- the archive and replay

  /** Call k acknowledges the message of r, its topic is replayable then, and r is the message as it was, with its own
      counters and error, or its delivery's if a group acknowledged it. */
  ghost predicate ArchivedAt(h: Run, k: nat, r: LogRow)
    requires Shaped(h) && k < |h.events|
  {
    var (db, op) := (h.states[k], h.events[k].op);
    && r.id in db.messages && AcksMessage(db, op, h.replies[k], r.id)
    && r.topic in db.config && db.config[r.topic].replayable && r.ackedAt == h.events[k].now
    && var m := db.messages[r.id];
       && r.topic == m.topic && r.key == m.key && r.payload == m.payload && r.metadata == m.metadata
       && r.originalTopic == m.originalTopic && r.createdAt == m.createdAt
       && if op.OpAckForGroup? then
            DeliveryKey(r.id, op.group) in db.deliveries
            && var d := db.deliveries[DeliveryKey(r.id, op.group)];
               r.retryCount == d.retryCount && r.maxRetries == d.maxRetries && r.lastError == d.lastError
          else r.retryCount == m.retryCount && r.maxRetries == m.maxRetries && r.lastError == m.lastError
  }

  /** Every archive row was written by the acknowledgement of its message, while the topic was replayable. */
  lemma {:induction false} ArchiveProvenance(p: Settings, h: Run, r: LogRow, i: nat)
    requires Chronicle(p, h) && i <= |h.events| && r in h.states[i].log
    ensures exists k :: 0 <= k < i && ArchivedAt(h, k, r)
    decreases i
  {
    if i > 0 {
      assert LogAt(h, i - 1);
      if r in h.states[i - 1].log {
        ArchiveProvenance(p, h, r, i - 1);
      } else {
        assert Logs(h.states[i - 1], h.events[i - 1], h.replies[i - 1], r);
        assert ArchivedAt(h, i - 1, r);
      }
    }
  }

  /** c is a fresh copy, made at `now`, of the message m. */
  predicate FreshCopy(m: Message, c: Message, now: Time) {
    && c.topic == m.topic && c.key == m.key && c.payload == m.payload && c.metadata == m.metadata
    && c.status == Pending && c.retryCount == 0 && c.lastError.None? && c.visibility.None? && c.dlqMovedAt.None?
    && c.originalTopic == m.originalTopic && c.createdAt == now
  }

  /** Call k acknowledges message x, of a topic replayable then, and c is a copy of it, with its max_retries - or its
      delivery's, if a group acknowledged it. */
  ghost predicate CopiedFrom(h: Run, k: nat, x: Id, c: Message, now: Time)
    requires Shaped(h) && k < |h.events|
  {
    var (db, op) := (h.states[k], h.events[k].op);
    && AcksMessage(db, op, h.replies[k], x)
    && x in db.messages && IsReplayable(db, db.messages[x].topic)
    && FreshCopy(db.messages[x], c, now)
    && (if op.OpAckForGroup? then
          DeliveryKey(x, op.group) in db.deliveries && c.maxRetries == db.deliveries[DeliveryKey(x, op.group)].maxRetries
        else c.maxRetries == db.messages[x].maxRetries)
  }

  lemma ArchivedRowCopies(h: Run, k: nat, r: LogRow, expiresAt: Option<Time>, now: Time)
    requires Shaped(h) && k < |h.events| && ArchivedAt(h, k, r)
    ensures CopiedFrom(h, k, r.id, Copy(r, expiresAt, now), now) && r.ackedAt == h.events[k].now
  {
  }

  /** Acknowledge, archive, replay: every message a replay creates is a fresh copy of a message of the same topic that
      was acknowledged earlier, within the range asked for, as it was then. */
  lemma ReplayedCopies(p: Settings, h: Run, j: nat, id: Id) returns (k: nat, x: Id)
    requires History(p, h) && j < |h.events| && h.events[j].op.OpReplay?
    requires id !in h.states[j].messages && id in h.states[j + 1].messages
    ensures
      var (op, now, c) := (h.events[j].op, h.events[j].now, h.states[j + 1].messages[id]);
      && k < j && CopiedFrom(h, k, x, c, now) && c.topic == op.topic && StoredExpiry(p, op.cfg, now, c.expiresAt)
      && op.cfg.Some? && op.cfg.value.replayable && ReachesBack(h.events[k].now, op.from, op.cfg.value, now)
  {
    ChronicleOf(p, h);
    assert RowAt(p, h, j, id);
    var op := h.events[j].op;
    var expiresAt := ResolveExpiresAt(p, op.cfg, h.events[j].now);
    var r :| r in ReplayRows(h.states[j], op.topic, op.from, op.cfg, h.events[j].now)
             && h.states[j + 1].messages[id] == Copy(r, expiresAt, h.events[j].now);
    ArchiveProvenance(p, h, r, j);
    k, x :| 0 <= k < j && ArchivedAt(h, k, r) && x == r.id;
    ArchivedRowCopies(h, k, r, expiresAt, h.events[j].now);
  }

  // ------------------------------------------------------ what a replay must copy

  /** Every keyless row listed is copied, under the identifier next to it. */
  lemma {:induction false} KeylessCopied(p: Settings, db: Db, rows: seq<LogRow>, ids: seq<Id>, expiresAt: Option<Time>, now: Time,
                                         n: nat)
    requires |rows| <= |ids| && n < |rows| && rows[n].key.None?
    requires forall i, j :: 0 <= i < j < |ids| ==> ids[i] != ids[j]
    requires forall i :: 0 <= i < |ids| ==> ids[i] !in db.messages
    ensures
      var after := InsertCopies(p, db, rows, ids, expiresAt, now).0;
      ids[n] in after.messages && after.messages[ids[n]] == Copy(rows[n], expiresAt, now)
    decreases |rows|
  {
    var m := Copy(rows[0], expiresAt, now);
    var db0 := if KeyTaken(db, m.topic, m.key, ids[0]) then db else InsertMessage(p, db, ids[0], m);
    assert InsertCopies(p, db, rows, ids, expiresAt, now).0 == InsertCopies(p, db0, rows[1..], ids[1..], expiresAt, now).0;
    if n == 0 {
      CopiesOnlyAdd(p, db0, rows[1..], ids[1..], expiresAt, now, ids[0]);
    } else {
      KeylessCopied(p, db0, rows[1..], ids[1..], expiresAt, now, n - 1);
    }
  }

  /** A keyless message that was acknowledged while its topic was replayable, and whose row nothing has erased, is copied
      by every replay of the topic that reaches back to the ack. */
  lemma AckedIsReplayed(p: Settings, h: Run, k: nat, x: Id, j: nat) returns (id: Id)
    requires History(p, h) && k < j < |h.events|
    requires AcksMessage(h.states[k], h.events[k].op, h.replies[k], x) && x in h.states[k].messages
    requires h.states[k].messages[x].key.None? && IsReplayable(h.states[k], h.states[k].messages[x].topic)
    requires h.events[k].op.OpAckForGroup? ==> DeliveryKey(x, h.events[k].op.group) in h.states[k].deliveries
    requires forall i :: k < i < j ==> !Erases(h.states[i], h.events[i], AckedRow(h.states[k], h.events[k], x))
    requires h.events[j].op.OpReplay? && h.replies[j].Count? && h.events[j].op.topic == h.states[k].messages[x].topic
    requires h.events[j].op.cfg.Some?
    requires ReachesBack(h.events[k].now, h.events[j].op.from, h.events[j].op.cfg.value, h.events[j].now)
    ensures id !in h.states[j].messages && id in h.states[j + 1].messages
    ensures CopiedFrom(h, k, x, h.states[j + 1].messages[id], h.events[j].now)
  {
    var r := AckedRow(h.states[k], h.events[k], x);
    AckedStaysArchived(p, h, x, k, j);
    assert StepAt(p, h, j);
    ChronicleOf(p, h);
    assert SoundAt(h, j);
    var (db, op, now) := (h.states[j], h.events[j].op, h.events[j].now);
    id := RowIsCopied(p, db, h.events[j], r);
    assert ArchivedAt(h, k, r);
    ArchivedRowCopies(h, k, r, ResolveExpiresAt(p, op.cfg, now), now);
  }

  lemma RowIsCopied(p: Settings, db: Db, e: Event, r: LogRow) returns (id: Id)
    requires e.op.OpReplay? && Enabled(db, e) && BringsNewIds(db, e.op) && Step(p, db, e).1.Count?
    requires r in db.log && r.topic == e.op.topic && r.key.None?
    requires e.op.cfg.Some? && ReachesBack(r.ackedAt, e.op.from, e.op.cfg.value, e.now)
    ensures id !in db.messages && id in Step(p, db, e).0.messages
    ensures Step(p, db, e).0.messages[id] == Copy(r, ResolveExpiresAt(p, e.op.cfg, e.now), e.now)
  {
    var op := e.op;
    assert r in ReplayRows(db, op.topic, op.from, op.cfg, e.now);
    var n :| 0 <= n < |op.rows| && op.rows[n] == r;
    KeylessCopied(p, db, op.rows, op.ids, ResolveExpiresAt(p, op.cfg, e.now), e.now, n);
    id := op.ids[n];
    assert id in NewIds(op);
  }
}
