/** No message is lost, none comes back, and the archive holds exactly what was acknowledged. */
module Conservation {
  import opened Tables
  import opened Lifecycle
  import opened Maintenance
  import opened Machine
  import opened RowHistory
  import opened Histories

  /** Where every identifier ever inserted has ended up, other than in `messages`. */
  datatype Ledger = Ledger(inserted: set<Id>, acked: set<Id>, purged: set<Id>, lapsed: set<Id>)

  ghost function Enter(db: Db, e: Event, reply: Reply, after: Db, l: Ledger): Ledger {
    match e.op
    case OpEnqueue(_, _, _, _, _, _, newId) => if reply == Stored(newId) then l.(inserted := l.inserted + {newId}) else l
    case OpReplay(_, _, _, _, _) => l.(inserted := l.inserted + (after.messages.Keys - db.messages.Keys))
    case OpAck(id) => if AcksMessage(db, e.op, reply, id) then l.(acked := l.acked + {id}) else l
    case OpAckForGroup(id, _) => if AcksMessage(db, e.op, reply, id) then l.(acked := l.acked + {id}) else l
    case OpDeleteReap => l.(lapsed := l.lapsed + ExpiredIds(db))
    case OpPurgeTopic(topic, statuses) => l.(purged := l.purged + PurgeTopicIds(db, topic, statuses))
    case OpPurgeByKey(topic, key) => l.(purged := l.purged + PurgeKeyIds(db, topic, key))
    case _ => l
  }

  /** The books after the first i calls. */
  ghost function Books(h: Run, i: nat): Ledger
    requires Shaped(h) && i <= |h.events|
    decreases i
  {
    if i == 0 then Ledger({}, {}, {}, {})
    else Enter(h.states[i - 1], h.events[i - 1], h.replies[i - 1], h.states[i], Books(h, i - 1))
  }

  /** Live, acknowledged, purged and expired partition what was inserted. */
  ghost predicate Balanced(db: Db, l: Ledger) {
    && l.inserted == db.messages.Keys + l.acked + l.purged + l.lapsed
    && db.messages.Keys !! l.acked !! l.purged !! l.lapsed
  }

  /** Row by row: the one place an inserted identifier is in. */
  ghost predicate InOnePlace(live: bool, l: Ledger, id: Id) {
    && (id in l.inserted <==> live || id in l.acked || id in l.purged || id in l.lapsed)
    && !(live && id in l.acked) && !(live && id in l.purged) && !(live && id in l.lapsed)
    && !(id in l.acked && id in l.purged) && !(id in l.acked && id in l.lapsed) && !(id in l.purged && id in l.lapsed)
  }

  lemma EnterKeepsPlace(p: Settings, db: Db, e: Event, reply: Reply, after: Db, l: Ledger, id: Id)
    requires RowStep(p, db, e, reply, id, Row(db, id), Row(after, id)) && BringsNewIds(db, e.op)
    requires InOnePlace(id in db.messages, l, id) && (id in l.inserted ==> id !in NewIds(e.op))
    ensures InOnePlace(id in after.messages, Enter(db, e, reply, after, l), id)
    ensures id in Enter(db, e, reply, after, l).inserted && id !in l.inserted ==> id in NewIds(e.op)
  {
  }

  lemma PlaceNext(p: Settings, h: Run, i: nat, id: Id)
    requires Chronicle(p, h) && i < |h.events|
    requires InOnePlace(id in h.states[i].messages, Books(h, i), id)
    requires id in Books(h, i).inserted ==> Introduced(h, i, id)
    ensures InOnePlace(id in h.states[i + 1].messages, Books(h, i + 1), id)
    ensures id in Books(h, i + 1).inserted ==> Introduced(h, i + 1, id)
  {
    if id in Books(h, i).inserted {
      NotBroughtAgain(h, i, i, id);
    }
    assert RowAt(p, h, i, id) && SoundAt(h, i);
    EnterKeepsPlace(p, h.states[i], h.events[i], h.replies[i], h.states[i + 1], Books(h, i), id);
    assert id in NewIds(h.events[i].op) ==> Introduced(h, i + 1, id);
  }

  lemma {:induction false} EachInOnePlace(p: Settings, h: Run, i: nat, id: Id)
    requires Chronicle(p, h) && i <= |h.events|
    ensures InOnePlace(id in h.states[i].messages, Books(h, i), id)
    ensures id in Books(h, i).inserted ==> Introduced(h, i, id)
    decreases i
  {
    if i > 0 {
      EachInOnePlace(p, h, i - 1, id);
      PlaceNext(p, h, i - 1, id);
    }
  }

  /** Each identifier ever inserted is in exactly one of: live, acked, purged, removed as expired. */
  lemma Conserved(p: Settings, h: Run, i: nat)
    requires History(p, h) && i <= |h.events|
    ensures Balanced(h.states[i], Books(h, i))
  {
    ChronicleOf(p, h);
    forall id ensures InOnePlace(id in h.states[i].messages, Books(h, i), id) {
      EachInOnePlace(p, h, i, id);
    }
  }

  /** The books never shrink: what was acked, purged or expired stays so, and so never comes back. */
  lemma {:induction false} BooksGrow(h: Run, i: nat, j: nat)
    requires Shaped(h) && i <= j <= |h.events|
    ensures
      var a, b := Books(h, i), Books(h, j);
      a.inserted <= b.inserted && a.acked <= b.acked && a.purged <= b.purged && a.lapsed <= b.lapsed
    decreases j
  {
    if i < j {
      BooksGrow(h, i, j - 1);
    }
  }

  lemma {:induction false} LogIsOfAcked(p: Settings, h: Run, i: nat)
    requires Chronicle(p, h) && i <= |h.events|
    ensures forall r :: r in h.states[i].log ==> r.id in Books(h, i).acked
    ensures forall r, q :: r in h.states[i].log && q in h.states[i].log && r.id == q.id ==> r == q
    decreases i
  {
    if i > 0 {
      LogIsOfAcked(p, h, i - 1);
      assert LogAt(h, i - 1);
      forall r | r in h.states[i - 1].log ensures r.id !in h.states[i - 1].messages {
        EachInOnePlace(p, h, i - 1, r.id);
      }
      forall r | r in h.states[i].log ensures r.id in Books(h, i).acked {
      }
    }
  }

  /** Archived identifiers were acknowledged, so none is live, and none is archived twice. */
  lemma ArchivedOnce(p: Settings, h: Run, i: nat)
    requires History(p, h) && i <= |h.events|
    ensures forall r :: r in h.states[i].log ==> r.id in Books(h, i).acked && r.id !in h.states[i].messages
    ensures forall r, q :: r in h.states[i].log && q in h.states[i].log && r.id == q.id ==> r == q
  {
    ChronicleOf(p, h);
    LogIsOfAcked(p, h, i);
    forall r | r in h.states[i].log ensures r.id !in h.states[i].messages {
      EachInOnePlace(p, h, i, r.id);
    }
  }

  /** A row whose message is gone is in the log at j exactly when it was at i and no step since has erased it. */
  lemma {:induction false} LogRowFate(p: Settings, h: Run, r: LogRow, i: nat, j: nat)
    requires Chronicle(p, h) && i <= j <= |h.events|
    requires r.id !in h.states[i].messages && Introduced(h, i, r.id)
    ensures r in h.states[j].log <==>
              r in h.states[i].log && forall k :: i <= k < j ==> !Erases(h.states[k], h.events[k], r)
    decreases j
  {
    if i < j {
      LogRowFate(p, h, r, i, j - 1);
      GoneForGood(p, h, r.id, i, j - 1);
      assert LogAt(h, j - 1);
    }
  }

  /** The acknowledgement itself: the message leaves, and its row enters the log if the topic is replayable. */
  lemma AckArchives(p: Settings, h: Run, id: Id, i: nat)
    requires Chronicle(p, h) && i < |h.events| && AcksMessage(h.states[i], h.events[i].op, h.replies[i], id)
    requires forall r :: r in h.states[i].log ==> r.id !in h.states[i].messages
    ensures id in h.states[i].messages && id !in h.states[i + 1].messages && Introduced(h, i + 1, id)
    ensures h.events[i].op.OpAckForGroup? ==> DeliveryKey(id, h.events[i].op.group) in h.states[i].deliveries
    ensures IsReplayable(h.states[i], h.states[i].messages[id].topic) <==>
              AckedRow(h.states[i], h.events[i], id) in h.states[i + 1].log
  {
    assert RowAt(p, h, i, id) && SoundAt(h, i) && LogAt(h, i);
    if h.events[i].op.OpAckForGroup? {
      assert DeliveryRowAt(p, h, i, DeliveryKey(id, h.events[i].op.group));
    }
    assert Introduced(h, i, id);
  }

  /** A message acknowledged while its topic is replayable is in the log, with its content, until trimmed or aged out. */
  lemma AckedStaysArchived(p: Settings, h: Run, id: Id, i: nat, j: nat)
    requires History(p, h) && i < j <= |h.events|
    requires AcksMessage(h.states[i], h.events[i].op, h.replies[i], id)
    ensures id in h.states[i].messages && id !in h.states[j].messages
    ensures h.events[i].op.OpAckForGroup? ==> DeliveryKey(id, h.events[i].op.group) in h.states[i].deliveries
    ensures
      var r := AckedRow(h.states[i], h.events[i], id);
      r in h.states[j].log <==>
        && IsReplayable(h.states[i], h.states[i].messages[id].topic)
        && forall k :: i < k < j ==> !Erases(h.states[k], h.events[k], r)
  {
    ArchivedOnce(p, h, i);
    ChronicleOf(p, h);
    AckArchives(p, h, id, i);
    var r := AckedRow(h.states[i], h.events[i], id);
    GoneForGood(p, h, id, i + 1, j);
    LogRowFate(p, h, r, i + 1, j);
  }
}
