/** What an expiry pass changes for the next enqueue, and when an accepted message can be claimed at all. */
module ReapedEnqueue {
  import opened Tables
  import opened Ordering
  import opened Claims
  import opened Enqueue
  import opened Maintenance
  import opened Machine
  import opened KeyDedup
  import opened ReaperErasure

  /** An expiry pass only ever empties the queue. */
  lemma ReapingMakesRoom(db: Db, topic: string, cfg: Option<TopicConfig>, now: Time)
    ensures Waiting(ExpiryReap(db, now).0, topic) == set i | i in Waiting(db, topic) && !Lapsed(db.messages[i], now)
    ensures Full(ExpiryReap(db, now).0, topic, cfg) ==> Full(db, topic, cfg)
  {
    FewerInSubset(Waiting(ExpiryReap(db, now).0, topic), Waiting(db, topic));
  }

  lemma ReapingFreesKeys(db: Db, topic: string, key: Option<string>, now: Time)
    ensures Holders(ExpiryReap(db, now).0, topic, key) == set i | i in Holders(db, topic, key) && !Lapsed(db.messages[i], now)
  {
  }

  lemma OneHolder(db: Db, topic: string, key: Option<string>, h: Id)
    requires KeysUnique(db) && h in Holders(db, topic, key)
    ensures Holders(db, topic, key) == {h}
  {
    forall other | other in Holders(db, topic, key) ensures other == h {
      assert !Clash(db, h, other);
    }
  }

  ghost predicate LapsedHolder(db: Db, topic: string, key: Option<string>, now: Time) {
    exists h :: h in Holders(db, topic, key) && Lapsed(db.messages[h], now)
  }

  /** An enqueue behind the checks that do not look at the messages. */
  lemma EnqueueReply(p: Settings, db: Db, e: Event)
    requires e.op.OpEnqueue? && KeysUnique(db) && Objection(p, e.op).None?
    ensures
      var reply := Step(p, db, e).1;
      if Full(db, e.op.topic, e.op.cfg) then reply == Fail(ErrQueueFull)
      else if Holders(db, e.op.topic, e.op.key) == {} then reply == Stored(e.op.newId)
      else reply.Stored? && Holders(db, e.op.topic, e.op.key) == {reply.id}
  {
    var holders := Holders(db, e.op.topic, e.op.key);
    if holders != {} {
      var h :| h in holders;
      OneHolder(db, e.op.topic, e.op.key, h);
    }
  }

  lemma ReapedKeysUnique(db: Db, now: Time)
    requires KeysUnique(db)
    ensures KeysUnique(ExpiryReap(db, now).0)
  {
    NoNewPendingKeepsUnique(db, ExpiryReap(db, now).0);
  }

  /** An expiry pass changes the reply to an enqueue exactly when the other checks pass and it either brings the queue
      below its depth limit, or expires the pending holder of the key. */
  lemma ReapingChangesEnqueue(p: Settings, db: Db, e: Event)
    requires e.op.OpEnqueue? && KeysUnique(db) && e.op.newId !in db.messages
    ensures
      var (reaped, op) := (ExpiryReap(db, e.now).0, e.op);
      Step(p, db, e).1 != Step(p, reaped, e).1 <==>
        && Objection(p, op).None?
        && (if Full(db, op.topic, op.cfg) then !Full(reaped, op.topic, op.cfg) else LapsedHolder(db, op.topic, op.key, e.now))
  {
    var (reaped, op) := (ExpiryReap(db, e.now).0, e.op);
    if Objection(p, op).None? {
      ReapedKeysUnique(db, e.now);
      EnqueueReply(p, db, e);
      EnqueueReply(p, reaped, e);
      ReapingMakesRoom(db, op.topic, op.cfg, e.now);
      ReapingFreesKeys(db, op.topic, op.key, e.now);
      var holders := Holders(db, op.topic, op.key);
      if holders != {} {
        var h :| h in holders;
        OneHolder(db, op.topic, op.key, h);
        assert LapsedHolder(db, op.topic, op.key, e.now) <==> Lapsed(db.messages[h], e.now);
      }
    }
  }

  /** A stored message can be claimed at once if it is new and not already expired, or if the holder of its key whose
      place it takes has not expired, is not under a deadline, and has retries left under the new limit. */
  lemma StoredIsClaimableIff(p: Settings, db: Db, e: Event)
    requires e.op.OpEnqueue? && KeysUnique(db) && e.op.newId !in db.messages && Step(p, db, e).1.Stored?
    ensures
      var (after, reply) := Step(p, db, e);
      var (op, R) := (e.op, ResolveMaxRetries(p, e.op.cfg));
      var expiresAt := ResolveExpiresAt(p, op.cfg, e.now);
      reply.id in Claimable(after.messages, op.topic, e.now) <==>
        if Holders(db, op.topic, op.key) == {} then (expiresAt.None? || expiresAt.value > e.now) && R >= 0
        else
          && reply.id in Holders(db, op.topic, op.key)
          && var h := db.messages[reply.id];
             && Unexpired(h, e.now) && (h.visibility.None? || h.visibility.value < e.now)
             && (R == 0 || h.retryCount < R)
  {
    EnqueueReply(p, db, e);
  }

  /** So an enqueue over a holder that has lapsed stores what nobody can claim; an expiry pass first would have made
      it claimable, unless it is stored expired. */
  lemma LapsedHolderBuries(p: Settings, db: Db, e: Event)
    requires e.op.OpEnqueue? && KeysUnique(db) && e.op.newId !in db.messages
    requires Step(p, db, e).1.Stored? && LapsedHolder(db, e.op.topic, e.op.key, e.now)
    ensures
      var (after, reply) := Step(p, db, e);
      reply.id !in Claimable(after.messages, e.op.topic, e.now)
    ensures
      var (after, reply) := Step(p, ExpiryReap(db, e.now).0, e);
      var expiresAt := ResolveExpiresAt(p, e.op.cfg, e.now);
      && reply == Stored(e.op.newId)
      && (reply.id in Claimable(after.messages, e.op.topic, e.now) <==>
            (expiresAt.None? || expiresAt.value > e.now) && ResolveMaxRetries(p, e.op.cfg) >= 0)
  {
    var reaped := ExpiryReap(db, e.now).0;
    var h :| h in Holders(db, e.op.topic, e.op.key) && Lapsed(db.messages[h], e.now);
    OneHolder(db, e.op.topic, e.op.key, h);
    StoredIsClaimableIff(p, db, e);
    ReapingFreesKeys(db, e.op.topic, e.op.key, e.now);
    ReapingMakesRoom(db, e.op.topic, e.op.cfg, e.now);
    ReapedKeysUnique(db, e.now);
    EnqueueReply(p, db, e);
    EnqueueReply(p, reaped, e);
    StoredIsClaimableIff(p, reaped, e);
  }
}
