/** The queue as a state machine: every service call is one atomic step at one reading of the clock. */
module Machine {
  import opened Tables
  import opened Claims
  import opened Enqueue
  import opened Lifecycle
  import opened Groups
  import opened Maintenance
  import opened Replay

  /** `cfg` arguments are what GetTopicConfig returned to the call; they may be out of date. */
  datatype Op =
    | OpEnqueue(topic: string, payload: string, metadata: map<string, string>, key: Option<string>,
                refusal: Option<Error>, cfg: Option<TopicConfig>, newId: Id)
    | OpDequeue(topic: string, vt: Time)
    | OpDequeueN(topic: string, n: int, vt: Time)
    | OpDequeueForGroup(topic: string, group: string, vt: Time)
    | OpDequeueNForGroup(topic: string, group: string, n: int, vt: Time)
    | OpAck(id: Id)
    | OpNack(id: Id, reason: string, cfg: Option<TopicConfig>)
    | OpAckForGroup(id: Id, group: string)
    | OpNackForGroup(id: Id, group: string, reason: string, cfg: Option<TopicConfig>)
    | OpRequeue(id: Id, cfg: Option<TopicConfig>)
    | OpRegister(topic: string, group: string, cfg: Option<TopicConfig>)
    | OpUnregister(topic: string, group: string)
    | OpExpiryReap
    | OpDeleteReap
    | OpArchiveReap
    | OpPurgeTopic(topic: string, statuses: set<Status>)
    | OpPurgeByKey(topic: string, purged: string)
    | OpTrim(topic: string, before: Time)
    | OpReplay(topic: string, from: Option<Time>, cfg: Option<TopicConfig>, rows: seq<LogRow>, ids: seq<Id>)
    | OpUpsertConfig(topic: string, newCfg: TopicConfig)
    | OpDeleteConfig(topic: string)

  datatype Event = Event(op: Op, now: Time)

  /** A replay needs its rows listed and an identifier for each. */
  ghost predicate Enabled(db: Db, e: Event) {
    e.op.OpReplay? ==>
      && Enumerates(e.op.rows, ReplayRows(db, e.op.topic, e.op.from, e.op.cfg, e.now))
      && |e.op.rows| <= |e.op.ids|
  }

  ghost function Step(p: Settings, db: Db, e: Event): (Db, Reply)
    requires Enabled(db, e)
  {
    match e.op
    case OpEnqueue(topic, payload, metadata, key, refusal, cfg, newId) =>
      Enqueue.Enqueue(p, db, topic, payload, metadata, key, refusal, cfg, newId, e.now)
    case OpDequeue(topic, vt) => Dequeue(p, db, topic, vt, e.now)
    case OpDequeueN(topic, n, vt) => DequeueN(p, db, topic, n, vt, e.now)
    case OpDequeueForGroup(topic, group, vt) => DequeueForGroup(p, db, topic, group, vt, e.now)
    case OpDequeueNForGroup(topic, group, n, vt) => DequeueNForGroup(p, db, topic, group, n, vt, e.now)
    case OpAck(id) => Ack(db, id, e.now)
    case OpNack(id, reason, cfg) => Nack(p, db, id, reason, cfg, e.now)
    case OpAckForGroup(id, group) => AckForGroup(db, id, group, e.now)
    case OpNackForGroup(id, group, reason, cfg) => NackForGroup(p, db, id, group, reason, cfg)
    case OpRequeue(id, cfg) => Requeue(p, db, id, cfg)
    case OpRegister(topic, group, cfg) => Register(p, db, topic, group, cfg)
    case OpUnregister(topic, group) => Unregister(db, topic, group)
    case OpExpiryReap => ExpiryReap(db, e.now)
    case OpDeleteReap => DeleteReap(db, e.now)
    case OpArchiveReap => ArchiveReap(db, e.now)
    case OpPurgeTopic(topic, statuses) => PurgeTopic(db, topic, statuses)
    case OpPurgeByKey(topic, key) => PurgeByKey(db, topic, key)
    case OpTrim(topic, before) => TrimMessageLog(db, topic, before)
    case OpReplay(topic, from, cfg, rows, ids) => ReplayTopic(p, db, topic, from, cfg, rows, ids, e.now)
    case OpUpsertConfig(topic, cfg) => UpsertConfig(db, topic, cfg)
    case OpDeleteConfig(topic) => DeleteConfig(db, topic)
  }

  /** The identifiers a call brings with it. */
  function NewIds(op: Op): set<Id> {
    if op.OpEnqueue? then {op.newId}
    else if op.OpReplay? then set i | i in op.ids
    else {}
  }

  predicate DistinctIds(op: Op) {
    op.OpReplay? ==> forall i, j :: 0 <= i < j < |op.ids| ==> op.ids[i] != op.ids[j]
  }

  /** Generated identifiers are never generated again. */
  ghost predicate IdsNeverRepeat(es: seq<Event>) {
    && (forall i :: 0 <= i < |es| ==> DistinctIds(es[i].op))
    && (forall i, j :: 0 <= i < j < |es| ==> NewIds(es[i].op) !! NewIds(es[j].op))
  }

  ghost predicate ClockAdvances(es: seq<Event>) {
    forall i, j :: 0 <= i <= j < |es| ==> es[i].now <= es[j].now
  }

  /** A run: the calls, what each was answered, and the states before, between and after them. */
  datatype Run = Run(events: seq<Event>, replies: seq<Reply>, states: seq<Db>)

  ghost predicate StepAt(p: Settings, h: Run, i: nat)
    requires i < |h.events| == |h.replies| && |h.states| == |h.events| + 1
  {
    Enabled(h.states[i], h.events[i]) && Step(p, h.states[i], h.events[i]) == (h.states[i + 1], h.replies[i])
  }

  ghost predicate Trace(p: Settings, h: Run) {
    && |h.replies| == |h.events|
    && |h.states| == |h.events| + 1
    && (forall i :: 0 <= i < |h.events| ==> StepAt(p, h, i))
    && IdsNeverRepeat(h.events)
    && ClockAdvances(h.events)
  }

  /** A run from the empty database. */
  ghost predicate History(p: Settings, h: Run) {
    Trace(p, h) && h.states[0] == EmptyDb
  }
}
