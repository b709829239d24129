/** How many messages a replay creates, in whatever order the archived rows are visited. */
module ReplayCounting {
  import opened Tables
  import opened Enqueue
  import opened Maintenance
  import opened Replay
  import opened RowHistory
  import opened ConfigReads

  ghost predicate KeyPending(db: Db, topic: string, key: string) {
    exists i :: i in db.messages && PendingUnder(db.messages[i], topic, Some(key))
  }

  function KeylessRows(rows: set<LogRow>): set<LogRow> {
    set r | r in rows && r.key.None?
  }

  /** The distinct keys among the rows with no pending message. */
  ghost function NewKeys(db: Db, topic: string, rows: set<LogRow>): set<string> {
    set r | r in rows && r.key.Some? && !KeyPending(db, topic, r.key.value) :: r.key.value
  }

  function Elements(rows: seq<LogRow>): set<LogRow> {
    set r | r in rows
  }

  predicate Distinct<T(==)>(s: seq<T>) {
    forall i, j :: 0 <= i < j < |s| ==> s[i] != s[j]
  }

  ghost predicate NewTo(db: Db, ids: seq<Id>) {
    Distinct(ids) && forall i :: 0 <= i < |ids| ==> ids[i] !in db.messages
  }

  lemma TakenIsPending(db: Db, topic: string, key: Option<string>, id: Id)
    requires id !in db.messages
    ensures KeyTaken(db, topic, key, id) <==> key.Some? && KeyPending(db, topic, key.value)
  {
  }

  /** Inserting a pending copy makes its key, and no other, pending. */
  lemma InsertMakesPending(p: Settings, db: Db, id: Id, m: Message, topic: string, key: string)
    requires id !in db.messages && m.topic == topic && m.status == Pending
    ensures KeyPending(InsertMessage(p, db, id, m), topic, key) <==> KeyPending(db, topic, key) || m.key == Some(key)
  {
    var after := InsertMessage(p, db, id, m);
    if KeyPending(db, topic, key) {
      var i :| i in db.messages && PendingUnder(db.messages[i], topic, Some(key));
      assert PendingUnder(after.messages[i], topic, Some(key));
    }
    if m.key == Some(key) {
      assert PendingUnder(after.messages[id], topic, Some(key));
    }
  }

  lemma KeysAfterInsert(p: Settings, db: Db, id: Id, m: Message, topic: string, rest: set<LogRow>)
    requires id !in db.messages && m.topic == topic && m.status == Pending
    ensures
      var after := InsertMessage(p, db, id, m);
      NewKeys(after, topic, rest) == NewKeys(db, topic, rest) - if m.key.Some? then {m.key.value} else {}
  {
    var after := InsertMessage(p, db, id, m);
    forall key: string
      ensures KeyPending(after, topic, key) <==> KeyPending(db, topic, key) || m.key == Some(key)
    {
      InsertMakesPending(p, db, id, m, topic, key);
    }
    var gone := if m.key.Some? then {m.key.value} else {};
    forall key ensures key in NewKeys(after, topic, rest) <==> key in NewKeys(db, topic, rest) - gone {
    }
  }

  lemma AddToSet<T>(s: set<T>, x: T)
    ensures x !in s ==> |s + {x}| == |s| + 1
    ensures x in s ==> s + {x} == s
  {
  }

  lemma FirstRow(db: Db, topic: string, rows: seq<LogRow>)
    requires rows != [] && Distinct(rows)
    ensures
      var r, rest := rows[0], Elements(rows[1..]);
      && Elements(rows) == rest + {r} && r !in rest
      && KeylessRows(Elements(rows)) == KeylessRows(rest) + (if r.key.None? then {r} else {})
      && NewKeys(db, topic, Elements(rows))
         == NewKeys(db, topic, rest) + (if r.key.Some? && !KeyPending(db, topic, r.key.value) then {r.key.value} else {})
  {
    var r, rest := rows[0], Elements(rows[1..]);
    forall x ensures x in rows <==> x == r || x in rows[1..] {
    }
    assert Elements(rows) == rest + {r};
    var news := if r.key.Some? && !KeyPending(db, topic, r.key.value) then {r.key.value} else {};
    forall key ensures key in NewKeys(db, topic, Elements(rows)) <==> key in NewKeys(db, topic, rest) + news {
    }
  }

  /** n messages were added, one per keyless row and one per new key, and no key of the rows is left to add. */
  ghost predicate Counted(db: Db, topic: string, rows: seq<LogRow>, after: Db, n: nat) {
    && n == |KeylessRows(Elements(rows))| + |NewKeys(db, topic, Elements(rows))|
    && |after.messages| == |db.messages| + n
    && NewKeys(after, topic, Elements(rows)) == {}
  }

  /** A keyed row whose key is pending adds nothing to either count. */
  lemma PendingRowAddsNothing(db: Db, topic: string, rows: seq<LogRow>)
    requires rows != [] && Distinct(rows) && rows[0].key.Some? && KeyPending(db, topic, rows[0].key.value)
    ensures KeylessRows(Elements(rows)) == KeylessRows(Elements(rows[1..]))
    ensures NewKeys(db, topic, Elements(rows)) == NewKeys(db, topic, Elements(rows[1..]))
  {
    FirstRow(db, topic, rows);
    assert KeylessRows(Elements(rows)) == KeylessRows(Elements(rows[1..])) + {};
    assert NewKeys(db, topic, Elements(rows)) == NewKeys(db, topic, Elements(rows[1..])) + {};
  }

  lemma CountSkipped(db: Db, topic: string, rows: seq<LogRow>, after: Db, n: nat)
    requires rows != [] && Distinct(rows) && Counted(db, topic, rows[1..], after, n)
    requires rows[0].key.Some? && KeyPending(db, topic, rows[0].key.value) && KeyPending(after, topic, rows[0].key.value)
    ensures Counted(db, topic, rows, after, n)
  {
    PendingRowAddsNothing(db, topic, rows);
    PendingRowAddsNothing(after, topic, rows);
  }

  lemma KeylessGrows(db: Db, topic: string, rows: seq<LogRow>)
    requires rows != [] && Distinct(rows) && rows[0].key.None?
    ensures |KeylessRows(Elements(rows))| == |KeylessRows(Elements(rows[1..]))| + 1
    ensures NewKeys(db, topic, Elements(rows)) == NewKeys(db, topic, Elements(rows[1..]))
  {
    FirstRow(db, topic, rows);
    AddToSet(KeylessRows(Elements(rows[1..])), rows[0]);
  }

  lemma CountKeyless(p: Settings, db: Db, topic: string, id: Id, m: Message, rows: seq<LogRow>, after: Db, n: nat)
    requires rows != [] && Distinct(rows) && id !in db.messages
    requires m.topic == topic && m.status == Pending && m.key.None? && rows[0].key.None?
    requires Counted(InsertMessage(p, db, id, m), topic, rows[1..], after, n)
    ensures Counted(db, topic, rows, after, n + 1)
  {
    KeysAfterInsert(p, db, id, m, topic, Elements(rows[1..]));
    KeylessGrows(db, topic, rows);
    KeylessGrows(after, topic, rows);
    assert |InsertMessage(p, db, id, m).messages| == |db.messages| + 1;
  }

  lemma KeyedGrows(db: Db, topic: string, rows: seq<LogRow>)
    requires rows != [] && Distinct(rows) && rows[0].key.Some? && !KeyPending(db, topic, rows[0].key.value)
    ensures
      var key, rest := rows[0].key.value, Elements(rows[1..]);
      |NewKeys(db, topic, Elements(rows))| == |NewKeys(db, topic, rest) - {key}| + 1
  {
    var key, rest := rows[0].key.value, Elements(rows[1..]);
    FirstRow(db, topic, rows);
    AddToSet(NewKeys(db, topic, rest) - {key}, key);
    assert NewKeys(db, topic, Elements(rows)) == (NewKeys(db, topic, rest) - {key}) + {key};
  }

  lemma CountKeyed(p: Settings, db: Db, topic: string, id: Id, m: Message, rows: seq<LogRow>, after: Db, n: nat)
    requires rows != [] && Distinct(rows) && id !in db.messages
    requires m.topic == topic && m.status == Pending && m.key.Some? && rows[0].key == m.key
    requires !KeyPending(db, topic, m.key.value) && KeyPending(after, topic, m.key.value)
    requires Counted(InsertMessage(p, db, id, m), topic, rows[1..], after, n)
    ensures Counted(db, topic, rows, after, n + 1)
  {
    var rest := Elements(rows[1..]);
    KeysAfterInsert(p, db, id, m, topic, rest);
    KeyedGrows(db, topic, rows);
    PendingRowAddsNothing(after, topic, rows);
  }

  lemma {:induction false} CopiesCounted(p: Settings, db: Db, topic: string, rows: seq<LogRow>, ids: seq<Id>,
                                         expiresAt: Option<Time>, now: Time)
    requires |rows| <= |ids| && Distinct(rows) && NewTo(db, ids)
    requires forall i :: 0 <= i < |rows| ==> rows[i].topic == topic
    ensures
      var (after, n) := InsertCopies(p, db, rows, ids, expiresAt, now);
      Counted(db, topic, rows, after, n)
    decreases |rows|
  {
    if rows == [] {
      assert KeylessRows(Elements(rows)) == {} && NewKeys(db, topic, Elements(rows)) == {};
    } else {
      var key := rows[0].key;
      var m := Copy(rows[0], expiresAt, now);
      var (after, n) := InsertCopies(p, db, rows, ids, expiresAt, now);
      TakenIsPending(db, topic, key, ids[0]);
      if KeyTaken(db, topic, key, ids[0]) {
        CopiesCounted(p, db, topic, rows[1..], ids[1..], expiresAt, now);
        StaysPending(p, db, topic, rows[1..], ids[1..], expiresAt, now, key.value);
        CountSkipped(db, topic, rows, after, n);
      } else {
        var db0 := InsertMessage(p, db, ids[0], m);
        CopiesCounted(p, db0, topic, rows[1..], ids[1..], expiresAt, now);
        if key.None? {
          CountKeyless(p, db, topic, ids[0], m, rows, after, n - 1);
        } else {
          InsertMakesPending(p, db, ids[0], m, topic, key.value);
          StaysPending(p, db0, topic, rows[1..], ids[1..], expiresAt, now, key.value);
          CountKeyed(p, db, topic, ids[0], m, rows, after, n - 1);
        }
      }
    }
  }

  lemma {:induction false} StaysPending(p: Settings, db: Db, topic: string, rows: seq<LogRow>, ids: seq<Id>,
                                        expiresAt: Option<Time>, now: Time, key: string)
    requires |rows| <= |ids| && NewTo(db, ids) && KeyPending(db, topic, key)
    ensures KeyPending(InsertCopies(p, db, rows, ids, expiresAt, now).0, topic, key)
    decreases |rows|
  {
    if rows != [] {
      var m := Copy(rows[0], expiresAt, now);
      if KeyTaken(db, m.topic, m.key, ids[0]) {
        StaysPending(p, db, topic, rows[1..], ids[1..], expiresAt, now, key);
      } else {
        var db0 := InsertMessage(p, db, ids[0], m);
        var i :| i in db.messages && PendingUnder(db.messages[i], topic, Some(key));
        assert PendingUnder(db0.messages[i], topic, Some(key));
        StaysPending(p, db0, topic, rows[1..], ids[1..], expiresAt, now, key);
      }
    }
  }

  lemma EnumeratesElements(rows: seq<LogRow>, s: set<LogRow>)
    requires Enumerates(rows, s)
    ensures Elements(rows) == s && Distinct(rows)
  {
  }

  /** A replay creates one message for each keyless row in range and one for each distinct key in range that has no
      pending message; the count does not mention the order. */
  lemma ReplayCreates(p: Settings, db: Db, topic: string, from: Option<Time>, cfg: Option<TopicConfig>,
                      rows: seq<LogRow>, ids: seq<Id>, now: Time)
    requires Enumerates(rows, ReplayRows(db, topic, from, cfg, now)) && |rows| <= |ids| && NewTo(db, ids)
    ensures
      var (after, reply) := ReplayTopic(p, db, topic, from, cfg, rows, ids, now);
      var range := ReplayRows(db, topic, from, cfg, now);
      reply.Count? ==>
        && reply.n == |KeylessRows(range)| + |NewKeys(db, topic, range)|
        && |after.messages| == |db.messages| + reply.n
        && NewKeys(after, topic, range) == {}
        && cfg.Some? && forall r :: r in range <==> r in db.log && r.topic == topic && ReachesBack(r.ackedAt, from, cfg.value, now)
  {
    EnumeratesElements(rows, ReplayRows(db, topic, from, cfg, now));
    CopiesCounted(p, db, topic, rows, ids, ResolveExpiresAt(p, cfg, now), now);
  }

  /** An immediate second replay, in whatever order, adds the keyless rows again and nothing else. */
  lemma SecondReplayAddsKeyless(p: Settings, db: Db, topic: string, from: Option<Time>, cfg: Option<TopicConfig>,
                                rows: seq<LogRow>, ids: seq<Id>, rows2: seq<LogRow>, ids2: seq<Id>, now: Time)
    requires Enumerates(rows, ReplayRows(db, topic, from, cfg, now)) && |rows| <= |ids| && NewTo(db, ids)
    requires
      var once := ReplayTopic(p, db, topic, from, cfg, rows, ids, now).0;
      Enumerates(rows2, ReplayRows(once, topic, from, cfg, now)) && |rows2| <= |ids2| && NewTo(once, ids2)
    ensures
      var once := ReplayTopic(p, db, topic, from, cfg, rows, ids, now).0;
      var reply := ReplayTopic(p, once, topic, from, cfg, rows2, ids2, now).1;
      reply.Count? ==> reply.n == |KeylessRows(ReplayRows(db, topic, from, cfg, now))|
  {
    var once := ReplayTopic(p, db, topic, from, cfg, rows, ids, now).0;
    CopiesTouch(p, db, rows, ids, ResolveExpiresAt(p, cfg, now), now);
    ReplayCreates(p, db, topic, from, cfg, rows, ids, now);
    ReplayCreates(p, once, topic, from, cfg, rows2, ids2, now);
  }

  /** What an archive-reaper pass deletes, no later replay under the same configuration would have copied. */
  lemma ReaperLeavesReplay(db: Db, topic: string, from: Option<Time>, t: Time, now: Time)
    requires topic in db.config && t <= now
    ensures
      var cfg := Some(db.config[topic]);
      && ReplayRows(ArchiveReap(db, t).0, topic, from, cfg, now) == ReplayRows(db, topic, from, cfg, now)
      && ReplayRows(DeleteReap(db, t).0, topic, from, cfg, now) == ReplayRows(db, topic, from, cfg, now)
  {
  }

  /** A reaper pass that touches the archive. */
  datatype Pass = ArchivePass(at: Time) | DeletePass(at: Time)

  function AfterPasses(db: Db, passes: seq<Pass>): Db
    decreases |passes|
  {
    if passes == [] then db
    else
      AfterPasses(match passes[0] case ArchivePass(t) => ArchiveReap(db, t).0 case DeletePass(t) => DeleteReap(db, t).0,
                  passes[1..])
  }

  /** However many passes, and whatever messages they delete: a later replay copies the same rows. */
  lemma {:induction false} ReapersLeaveReplay(db: Db, topic: string, from: Option<Time>, passes: seq<Pass>, now: Time)
    requires topic in db.config && forall i :: 0 <= i < |passes| ==> passes[i].at <= now
    ensures ReplayRows(AfterPasses(db, passes), topic, from, Some(db.config[topic]), now)
         == ReplayRows(db, topic, from, Some(db.config[topic]), now)
    decreases |passes|
  {
    if passes != [] {
      var t := passes[0].at;
      ReaperLeavesReplay(db, topic, from, t, now);
      var next := if passes[0].ArchivePass? then ArchiveReap(db, t).0 else DeleteReap(db, t).0;
      ReapersLeaveReplay(next, topic, from, passes[1..], now);
    }
  }

  /** Replay is refused exactly when the topic is not replayable or the start lies before its window. */
  lemma ReplayRefusals(p: Settings, db: Db, topic: string, from: Option<Time>, cfg: Option<TopicConfig>,
                       rows: seq<LogRow>, ids: seq<Id>, now: Time)
    requires Enumerates(rows, ReplayRows(db, topic, from, cfg, now)) && |rows| <= |ids|
    ensures
      var (after, reply) := ReplayTopic(p, db, topic, from, cfg, rows, ids, now);
      var replayable := cfg.Some? && cfg.value.replayable;
      && (reply == Fail(ErrTopicNotReplayable) <==> !replayable)
      && (reply == Fail(ErrReplayWindowTooOld) <==>
            (&& replayable && cfg.value.replayWindow.Some? && cfg.value.replayWindow.value > 0
             && from.Some? && from.value + cfg.value.replayWindow.value as real < now))
      && (reply.Fail? ==> after == db)
  {
  }
}
