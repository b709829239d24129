/** The queue service as an object: tables, caches and configuration are fields, every method updates them the way the
    statements of its source do, and each is proved to be the step the rest of the project reasons about. */
module ServiceObject {
  import opened Tables
  import opened Ordering
  import opened Throttle
  import opened Claims
  import opened Lifecycle
  import opened Groups
  import opened Maintenance
  import opened ConfigReads
  import opened Replay
  import Depositing = Enqueue
  import KeyDedup
  import ConfigCache
  import SchemaCache
  import Avro
  import AvroValues

  /** A message as a batch call returns it. */
  datatype Row = Row(id: Id, view: View)

  datatype Batch = Batch(rows: seq<Row>) | BatchError(error: Error)

  /** rows lists the map, each entry once. */
  predicate Lists(rows: seq<Row>, shown: map<Id, View>) {
    && (forall i :: 0 <= i < |rows| ==> rows[i].id in shown && shown[rows[i].id] == rows[i].view)
    && (forall id :: id in shown ==> exists i :: 0 <= i < |rows| && rows[i].id == id)
    && (forall i, j :: 0 <= i < j < |rows| ==> rows[i].id != rows[j].id)
  }

  predicate OldestFirst(rows: seq<Row>) {
    forall i, j :: 0 <= i <= j < |rows| ==> rows[i].view.createdAt <= rows[j].view.createdAt
  }

  /** b answers as r does. */
  predicate Answers(b: Batch, r: Reply) {
    match r
    case Fail(e) => b == BatchError(e)
    case Claimed(shown) => b.Batch? && Lists(b.rows, shown)
    case _ => false
  }

  lemma OneOldest(ms: map<Id, Message>, c: set<Id>, x: Id)
    requires c <= ms.Keys && IsOldest(ms, c, x)
    ensures Oldest(ms, c) == x
  {
    var o := Oldest(ms, c);
    assert IsOldest(ms, c, o);
  }

  /** The entries not left to list. */
  ghost function Without(all: map<Id, View>, left: set<Id>): map<Id, View> {
    map i | i in all && i !in left :: all[i]
  }

  lemma ListsOneMore(rows: seq<Row>, all: map<Id, View>, left: set<Id>, id: Id)
    requires Lists(rows, Without(all, left)) && id in left && id in all
    ensures Lists(rows + [Row(id, all[id])], Without(all, left - {id}))
  {
    var more := rows + [Row(id, all[id])];
    forall x | x in Without(all, left - {id}) ensures exists i :: 0 <= i < |more| && more[i].id == x {
      if x == id {
        assert more[|rows|].id == x;
      } else {
        assert x in Without(all, left);
        var i :| 0 <= i < |rows| && rows[i].id == x;
        assert more[i].id == x;
      }
    }
  }

  predicate NoneEarlier(rows: seq<Row>, ms: map<Id, Message>, left: set<Id>) {
    forall i, id :: 0 <= i < |rows| && id in left && id in ms ==> rows[i].view.createdAt <= ms[id].createdAt
  }

  lemma SortedOneMore(rows: seq<Row>, ms: map<Id, Message>, left: set<Id>, row: Row)
    requires OldestFirst(rows) && NoneEarlier(rows, ms, left)
    requires left <= ms.Keys && IsOldest(ms, left, row.id) && row.view.createdAt == ms[row.id].createdAt
    ensures OldestFirst(rows + [row]) && NoneEarlier(rows + [row], ms, left - {row.id})
  {
    forall id | id in left - {row.id} ensures row.view.createdAt <= ms[id].createdAt {
      assert Before(ms, row.id, id);
    }
  }

  /** b is the pending row a, claimed until the deadline and otherwise the same. */
  predicate TakenUntil(a: Message, b: Message, deadline: Time) {
    && a.status == Pending && b.status == Processing && b.visibility == Some(deadline)
    && b.(status := Pending, visibility := a.visibility) == a
  }

  predicate HeldUntil(a: Delivery, b: Delivery, deadline: Time) {
    && a.status == Pending && b.status == Processing && b.visibility == Some(deadline)
    && b.(status := Pending, visibility := a.visibility) == a
  }

  lemma TakenRows(ms: map<Id, Message>, after: map<Id, Message>, ids: set<Id>, deadline: Time)
    requires after.Keys == ms.Keys
    requires forall id :: id in after ==> if id in ids then TakenUntil(ms[id], after[id], deadline) else after[id] == ms[id]
    ensures after == ClaimRows(ms, ids, deadline)
  {
  }

  lemma TakenDeliveries(ds: map<DeliveryKey, Delivery>, after: map<DeliveryKey, Delivery>, group: string, ids: set<Id>, deadline: Time)
    requires after.Keys == ds.Keys
    requires forall k :: k in after ==>
      if k.group == group && k.id in ids then HeldUntil(ds[k], after[k], deadline) else after[k] == ds[k]
    ensures after == ClaimDeliveries(ds, group, ids, deadline)
  {
  }

  /** Claiming changes nothing a group is shown. */
  lemma ShownAsBefore(db: Db, group: string, ids: set<Id>, deadline: Time)
    requires ids <= db.messages.Keys && forall i :: i in ids ==> DeliveryKey(i, group) in db.deliveries
    ensures forall i :: i in ids ==> DeliveryKey(i, group) in ClaimAllFor(db, group, ids, deadline).deliveries
    ensures ShownFor(ClaimAllFor(db, group, ids, deadline), group, ids) == ShownFor(db, group, ids)
  {
  }

  /** Forgetting one topic does not change what another reads. */
  lemma OthersReadAsBefore(l1: ConfigCache.L1, l2: ConfigCache.L2, config: map<string, TopicConfig>, after: map<string, TopicConfig>,
                           topic: string, t: string)
    requires t != topic && ConfigCache.Lookup(after, t) == ConfigCache.Lookup(config, t)
    ensures ConfigCache.GetTopicConfig(l1 - {topic}, l2 - {topic}, after, t).2 == ConfigCache.GetTopicConfig(l1, l2, config, t).2
  {
  }

  /** A table scan: every row once, in some order. */
  method Scan(s: set<LogRow>) returns (rows: seq<LogRow>)
    ensures Enumerates(rows, s)
    ensures |rows| == |s|
  {
    rows := [];
    var left := s;
    while left != {}
      invariant left <= s && |rows| + |left| == |s|
      invariant forall i :: 0 <= i < |rows| ==> rows[i] in s && rows[i] !in left
      invariant forall r :: r in s ==> r in left || r in rows
      invariant forall i, j :: 0 <= i < j < |rows| ==> rows[i] != rows[j]
      decreases |left|
    {
      var r :| r in left;
      rows, left := rows + [r], left - {r};
    }
  }

  class Service {
    const settings: Settings
    const parse: string -> Option<Avro.Schema>
    const decode: string -> Option<Avro.Json>

    var messages: map<Id, Message>
    var deliveries: map<DeliveryKey, Delivery>
    var groups: set<GroupKey>
    var config: map<string, TopicConfig>
    var throughput: map<string, Bucket>
    var messageLog: set<LogRow>
    var topicSchemas: map<string, SchemaCache.TopicSchema>

    var topicConfigCache: ConfigCache.L1
    var sharedConfigCache: ConfigCache.L2
    var globalSchemaCache: map<string, SchemaCache.Compiled<Avro.Schema>>
    var sharedSchemaCache: map<string, SchemaCache.Entry>
    var configChanged: seq<string>
    var schemaChanged: seq<string>

    /** The tables of the queue. */
    function Db(): Db
      reads this`messages, this`deliveries, this`groups, this`config, this`throughput, this`messageLog
    {
      Tables.Db(messages, deliveries, groups, config, throughput, messageLog)
    }

    /** What GetTopicConfig would answer. */
    ghost function Seen(topic: string): Option<TopicConfig>
      reads this`topicConfigCache, this`sharedConfigCache, this`config
    {
      ConfigCache.GetTopicConfig(topicConfigCache, sharedConfigCache, config, topic).2
    }

    /** From l1 and l2, the configuration caches have changed at most by reading topic. */
    ghost predicate ConfigRead(l1: ConfigCache.L1, l2: ConfigCache.L2, topic: string)
      reads this`topicConfigCache, this`sharedConfigCache, this`config
    {
      || (topicConfigCache, sharedConfigCache) == (l1, l2)
      || (var (m1, m2, _) := ConfigCache.GetTopicConfig(l1, l2, config, topic);
          (topicConfigCache, sharedConfigCache) == (m1, m2))
    }

    /** The configuration caches after topic was read. */
    ghost function ConfigFetched(topic: string): (ConfigCache.L1, ConfigCache.L2)
      reads this`topicConfigCache, this`sharedConfigCache, this`config
    {
      var (l1, l2, _) := ConfigCache.GetTopicConfig(topicConfigCache, sharedConfigCache, config, topic);
      (l1, l2)
    }

    /** The schema caches after a payload of topic was checked. */
    ghost function SchemaChecked(topic: string): (map<string, SchemaCache.Compiled<Avro.Schema>>, map<string, SchemaCache.Entry>)
      reads this`globalSchemaCache, this`sharedSchemaCache, this`topicSchemas
    {
      var (l2, ts) := SchemaCache.GetTopicSchemaCached(sharedSchemaCache, topicSchemas, topic);
      (if ts.Some? then SchemaCache.ResolveSchema(parse, globalSchemaCache, topic, ts.value).0 else globalSchemaCache, l2)
    }

    constructor (settings: Settings, parse: string -> Option<Avro.Schema>, decode: string -> Option<Avro.Json>)
      ensures this.settings == settings && this.parse == parse && this.decode == decode
      ensures Db() == EmptyDb && topicSchemas == map[]
      ensures topicConfigCache == map[] && sharedConfigCache == map[]
      ensures globalSchemaCache == map[] && sharedSchemaCache == map[]
    {
      this.settings, this.parse, this.decode := settings, parse, decode;
      messages, deliveries, groups, config, throughput, messageLog := map[], map[], {}, map[], map[], {};
      topicSchemas := map[];
      topicConfigCache, sharedConfigCache := map[], map[];
      globalSchemaCache, sharedSchemaCache := map[], map[];
      configChanged, schemaChanged := [], [];
    }

    // ---------------------------------------------------------- topic_config.go

    method GetTopicConfig(topic: string) returns (cfg: Option<TopicConfig>)
      modifies this`topicConfigCache, this`sharedConfigCache
      ensures (topicConfigCache, sharedConfigCache, cfg)
           == ConfigCache.GetTopicConfig(old(topicConfigCache), old(sharedConfigCache), config, topic)
      ensures Seen(topic) == old(Seen(topic)) == cfg
    {
      if topic in topicConfigCache {
        return topicConfigCache[topic];
      }
      if topic in sharedConfigCache {
        match sharedConfigCache[topic] {
          case NotFound =>
            topicConfigCache := topicConfigCache[topic := None];
            return None;
          case Encoded(found) =>
            topicConfigCache := topicConfigCache[topic := Some(found)];
            return Some(found);
          case Corrupt =>
            sharedConfigCache := sharedConfigCache - {topic};
        }
      }
      if topic !in config {
        topicConfigCache := topicConfigCache[topic := None];
        sharedConfigCache := sharedConfigCache[topic := ConfigCache.NotFound];
        assert sharedConfigCache == old(sharedConfigCache)[topic := ConfigCache.NotFound];
        return None;
      }
      topicConfigCache := topicConfigCache[topic := Some(config[topic])];
      sharedConfigCache := sharedConfigCache[topic := ConfigCache.Encoded(config[topic])];
      assert sharedConfigCache == old(sharedConfigCache)[topic := ConfigCache.Encoded(config[topic])];
      return Some(config[topic]);
    }

    method UpsertTopicConfig(topic: string, cfg: TopicConfig) returns (r: Reply)
      modifies this`config, this`topicConfigCache, this`sharedConfigCache, this`configChanged
      ensures (Db(), r) == UpsertConfig(old(Db()), topic, cfg)
      ensures r.Fail? ==> unchanged(this)
      ensures r.Done? ==> configChanged == old(configChanged) + [topic] && Seen(topic) == Some(cfg)
      ensures forall t :: t != topic ==> Seen(t) == old(Seen(t))
    {
      if Reserved(topic) {
        return Fail(ErrReservedTopic);
      }
      config := config[topic := cfg];
      ForgetConfig(topic);
      forall t | t != topic ensures Seen(t) == old(Seen(t)) {
        OthersReadAsBefore(old(topicConfigCache), old(sharedConfigCache), old(config), config, topic, t);
      }
      return Done;
    }

    method DeleteTopicConfig(topic: string) returns (r: Reply)
      modifies this`config, this`throughput, this`topicConfigCache, this`sharedConfigCache, this`configChanged
      ensures (Db(), r) == DeleteConfig(old(Db()), topic)
      ensures r.Fail? ==> unchanged(this)
      ensures r.Done? ==> configChanged == old(configChanged) + [topic] && Seen(topic) == None
      ensures forall t :: t != topic ==> Seen(t) == old(Seen(t))
    {
      if topic !in config {
        return Fail(ErrNotFound);
      }
      config := config - {topic};
      throughput := throughput - {topic};
      ForgetConfig(topic);
      forall t | t != topic ensures Seen(t) == old(Seen(t)) {
        OthersReadAsBefore(old(topicConfigCache), old(sharedConfigCache), old(config), config, topic, t);
      }
      return Done;
    }

    /** The end of either write: both cache entries go, and the other instances are told. */
    method ForgetConfig(topic: string)
      modifies this`topicConfigCache, this`sharedConfigCache, this`configChanged
      ensures topicConfigCache == old(topicConfigCache) - {topic}
      ensures sharedConfigCache == old(sharedConfigCache) - {topic}
      ensures configChanged == old(configChanged) + [topic]
    {
      topicConfigCache := topicConfigCache - {topic};
      sharedConfigCache := sharedConfigCache - {topic};
      configChanged := configChanged + [topic];
    }

    /** The listener's handler: the next read goes past this instance's own entry. */
    method OnConfigChanged(topic: string)
      modifies this`topicConfigCache
      ensures topicConfigCache == old(topicConfigCache) - {topic}
      ensures Seen(topic) == ConfigCache.GetTopicConfig(map[], sharedConfigCache, config, topic).2
    {
      topicConfigCache := topicConfigCache - {topic};
    }

    // ---------------------------------------------------------------- schema.go

    method GetTopicSchemaCached(topic: string) returns (ts: Option<SchemaCache.TopicSchema>)
      modifies this`sharedSchemaCache
      ensures (sharedSchemaCache, ts) == SchemaCache.GetTopicSchemaCached(old(sharedSchemaCache), topicSchemas, topic)
    {
      if topic in sharedSchemaCache {
        match sharedSchemaCache[topic] {
          case NotFound => return None;
          case Encoded(found) => return Some(found);
          case Corrupt => sharedSchemaCache := sharedSchemaCache - {topic};
        }
      }
      if topic !in topicSchemas {
        sharedSchemaCache := sharedSchemaCache[topic := SchemaCache.NotFound];
        assert sharedSchemaCache == old(sharedSchemaCache)[topic := SchemaCache.NotFound];
        return None;
      }
      sharedSchemaCache := sharedSchemaCache[topic := SchemaCache.Encoded(topicSchemas[topic])];
      assert sharedSchemaCache == old(sharedSchemaCache)[topic := SchemaCache.Encoded(topicSchemas[topic])];
      return Some(topicSchemas[topic]);
    }

    method ResolveSchema(topic: string, ts: SchemaCache.TopicSchema) returns (schema: Option<Avro.Schema>)
      modifies this`globalSchemaCache
      ensures (globalSchemaCache, schema) == SchemaCache.ResolveSchema(parse, old(globalSchemaCache), topic, ts)
    {
      if topic in globalSchemaCache {
        var entry := globalSchemaCache[topic];
        if entry.version == ts.version {
          return Some(entry.schema);
        }
      }
      schema := parse(ts.json);
      if schema.Some? {
        globalSchemaCache := globalSchemaCache[topic := SchemaCache.Compiled(schema.value, ts.version)];
      }
    }

    function Verdict(schema: Avro.Schema, payload: string): Option<Error> {
      if decode(payload).Some? && Avro.DocumentValid(schema, decode(payload).value) then None
      else Some(ErrSchemaValidation)
    }

    /** The schema payloads are checked against: none, one that does not parse, or one that does. */
    ghost function CheckedBy(topic: string): Option<Option<Avro.Schema>>
      reads this`globalSchemaCache, this`sharedSchemaCache, this`topicSchemas
    {
      var ts := SchemaCache.GetTopicSchemaCached(sharedSchemaCache, topicSchemas, topic).1;
      if ts.None? then None else Some(SchemaCache.ResolveSchema(parse, globalSchemaCache, topic, ts.value).1)
    }

    /** What the schema check would object to. */
    ghost function Refusal(topic: string, payload: string): Option<Error>
      reads this`globalSchemaCache, this`sharedSchemaCache, this`topicSchemas
    {
      match CheckedBy(topic)
      case None => None
      case Some(None) => Some(ErrInvalidSchema)
      case Some(Some(schema)) => Verdict(schema, payload)
    }

    ghost predicate EncodesValueOf(s: Avro.Schema, payload: string) {
      exists v :: AvroValues.Typed(s, v) && decode(payload) == Some(AvroValues.Encode(v))
    }

    method ValidatePayload(topic: string, payload: string) returns (refusal: Option<Error>)
      modifies this`globalSchemaCache, this`sharedSchemaCache
      ensures refusal == old(Refusal(topic, payload))
      ensures (globalSchemaCache, sharedSchemaCache) == old(SchemaChecked(topic))
      ensures old(CheckedBy(topic)) == None ==> refusal == None
      ensures old(CheckedBy(topic)) == Some(None) ==> refusal == Some(ErrInvalidSchema)
      ensures forall s :: old(CheckedBy(topic)) == Some(Some(s)) && Avro.WellFormed(s) && EncodesValueOf(s, payload) ==> refusal == None
      ensures forall s :: old(CheckedBy(topic)) == Some(Some(s)) && decode(payload).None? ==> refusal == Some(ErrSchemaValidation)
    {
      var ts := GetTopicSchemaCached(topic);
      if ts.None? {
        return None;
      }
      var compiled := ResolveSchema(topic, ts.value);
      if compiled.None? {
        return Some(ErrInvalidSchema);
      }
      forall v | Avro.WellFormed(compiled.value) && AvroValues.Typed(compiled.value, v)
        ensures Avro.DocumentValid(compiled.value, AvroValues.Encode(v))
      {
        AvroValues.EncodingsAccepted(compiled.value, v);
      }
      var document := decode(payload);
      if document.None? || !Avro.DocumentValid(compiled.value, document.value) {
        return Some(ErrSchemaValidation);
      }
      return None;
    }

    /** None for an invalid schema, which changes nothing. */
    method UpsertTopicSchemaAndNotify(topic: string, json: string) returns (ts: Option<SchemaCache.TopicSchema>)
      modifies this`topicSchemas, this`globalSchemaCache, this`sharedSchemaCache, this`schemaChanged
      ensures ts.None? <==> parse(json).None?
      ensures ts.None? ==> unchanged(this)
      ensures ts.Some? ==>
        && ts.value == SchemaCache.Registered(old(topicSchemas), topic, json)
        && topicSchemas == old(topicSchemas)[topic := ts.value]
        && topic !in globalSchemaCache && topic !in sharedSchemaCache
        && schemaChanged == old(schemaChanged) + [topic]
      ensures ts.Some? ==> forall payload :: Refusal(topic, payload) == Verdict(parse(json).value, payload)
    {
      if parse(json).None? {
        return None;
      }
      globalSchemaCache := globalSchemaCache - {topic};
      var row := SchemaCache.Registered(topicSchemas, topic, json);
      topicSchemas := topicSchemas[topic := row];
      sharedSchemaCache := sharedSchemaCache - {topic};
      schemaChanged := schemaChanged + [topic];
      return Some(row);
    }

    method DeleteTopicSchemaAndNotify(topic: string)
      modifies this`topicSchemas, this`globalSchemaCache, this`sharedSchemaCache, this`schemaChanged
      ensures topicSchemas == old(topicSchemas) - {topic}
      ensures topic !in globalSchemaCache && topic !in sharedSchemaCache
      ensures schemaChanged == old(schemaChanged) + [topic]
      ensures forall payload :: Refusal(topic, payload) == None
    {
      globalSchemaCache := globalSchemaCache - {topic};
      topicSchemas := topicSchemas - {topic};
      sharedSchemaCache := sharedSchemaCache - {topic};
      schemaChanged := schemaChanged + [topic];
    }

    // --------------------------------------------------------------- enqueue.go

    /** The unique index holds (KeyDedup.KeysStayUnique); newId comes from the database. */
    method Enqueue(topic: string, payload: string, metadata: map<string, string>, key: Option<string>, newId: Id, now: Time)
      returns (r: Reply)
      requires KeyDedup.KeysUnique(Db())
      modifies this`messages, this`deliveries, this`topicConfigCache, this`sharedConfigCache,
               this`globalSchemaCache, this`sharedSchemaCache
      ensures (Db(), r) == Depositing.Enqueue(settings, old(Db()), topic, payload, metadata, key,
                                           old(Refusal(topic, payload)), old(Seen(topic)), newId, now)
      ensures (topicConfigCache, sharedConfigCache) ==
                if !Reserved(topic) && (settings.requireRegistration || old(Refusal(topic, payload)).None?) then old(ConfigFetched(topic))
                else old((topicConfigCache, sharedConfigCache))
      ensures (globalSchemaCache, sharedSchemaCache) ==
                if !Reserved(topic) && (settings.requireRegistration ==> old(Seen(topic)).Some?) then old(SchemaChecked(topic))
                else old((globalSchemaCache, sharedSchemaCache))
    {
      var objection := Admit(topic, payload);
      if objection.Some? {
        return Fail(objection.value);
      }
      var maxRetries, expiresAt, maxDepth := ResolveEnqueueParams(topic, now);
      if maxDepth > 0 {
        var depth := |Depositing.Waiting(Db(), topic)|;
        if depth >= maxDepth {
          return Fail(ErrQueueFull);
        }
      }
      var row := Depositing.NewMessage(topic, key, payload, metadata, maxRetries, expiresAt, now);
      r := Upsert(row, newId);
    }

    /** The checks of Enqueue that do not look at the messages, in their order. */
    method Admit(topic: string, payload: string) returns (objection: Option<Error>)
      modifies this`topicConfigCache, this`sharedConfigCache, this`globalSchemaCache, this`sharedSchemaCache
      ensures objection ==
                if Reserved(topic) then Some(ErrReservedTopic)
                else if settings.requireRegistration && old(Seen(topic)).None? then Some(ErrTopicNotRegistered)
                else old(Refusal(topic, payload))
      ensures (topicConfigCache, sharedConfigCache) ==
                if !Reserved(topic) && settings.requireRegistration then old(ConfigFetched(topic))
                else old((topicConfigCache, sharedConfigCache))
      ensures Seen(topic) == old(Seen(topic)) && ConfigFetched(topic) == old(ConfigFetched(topic))
      ensures (globalSchemaCache, sharedSchemaCache) ==
                if !Reserved(topic) && (settings.requireRegistration ==> old(Seen(topic)).Some?) then old(SchemaChecked(topic))
                else old((globalSchemaCache, sharedSchemaCache))
    {
      ConfigCache.ReadTwice(topicConfigCache, sharedConfigCache, config, topic);
      if Reserved(topic) {
        return Some(ErrReservedTopic);
      }
      if settings.requireRegistration {
        var registered := GetTopicConfig(topic);
        if registered.None? {
          return Some(ErrTopicNotRegistered);
        }
      }
      objection := ValidatePayload(topic, payload);
    }

    /** INSERT ... ON CONFLICT (topic, key) WHERE pending DO UPDATE ... RETURNING id. */
    method Upsert(row: Message, newId: Id) returns (r: Reply)
      requires KeyDedup.KeysUnique(Db())
      modifies this`messages, this`deliveries
      ensures (Db(), r) == Depositing.Upsert(settings, old(Db()), newId, row)
    {
      var holders := Depositing.Holders(Db(), row.topic, row.key);
      if holders == {} {
        messages := messages[newId := row];
        deliveries := deliveries + NewDeliveries(groups, newId, row.topic, settings.deliveryRetries);
        return Stored(newId);
      }
      var id :| id in holders;
      forall other | other in holders ensures other == id {
        assert !KeyDedup.Clash(Db(), id, other);
      }
      messages := messages[id := messages[id].(payload := row.payload, metadata := row.metadata, maxRetries := row.maxRetries)];
      return Stored(id);
    }

    method ResolveEnqueueParams(topic: string, now: Time) returns (maxRetries: int, expiresAt: Option<Time>, maxDepth: int)
      modifies this`topicConfigCache, this`sharedConfigCache
      ensures maxRetries == Depositing.ResolveMaxRetries(settings, old(Seen(topic)))
      ensures expiresAt == Depositing.ResolveExpiresAt(settings, old(Seen(topic)), now)
      ensures maxDepth == Depositing.ResolveMaxDepth(old(Seen(topic)))
      ensures StoredRetries(settings, old(Seen(topic)), maxRetries) && StoredExpiry(settings, old(Seen(topic)), now, expiresAt)
      ensures old(Seen(topic)).Some? && old(Seen(topic)).value.maxDepth.Some? ==> Some(maxDepth) == old(Seen(topic)).value.maxDepth
      ensures old(Seen(topic)).None? || old(Seen(topic)).value.maxDepth.None? ==> maxDepth == 0
      ensures (topicConfigCache, sharedConfigCache) == old(ConfigFetched(topic)) && Seen(topic) == old(Seen(topic))
    {
      maxRetries, maxDepth := settings.maxRetries, 0;
      var cfg := GetTopicConfig(topic);
      expiresAt := ResolveExpiresAt(cfg, now);
      if cfg.None? {
        return;
      }
      if cfg.value.maxRetries.Some? {
        maxRetries := cfg.value.maxRetries.value;
      }
      if cfg.value.maxDepth.Some? {
        maxDepth := cfg.value.maxDepth.value;
      }
    }

    method ResolveExpiresAt(cfg: Option<TopicConfig>, now: Time) returns (expiresAt: Option<Time>)
      ensures expiresAt == Depositing.ResolveExpiresAt(settings, cfg, now)
    {
      expiresAt := None;
      if settings.messageTtl > 0.0 {
        expiresAt := Some(now + settings.messageTtl);
      }
      if cfg.Some? && cfg.value.ttlSeconds.Some? {
        if cfg.value.ttlSeconds.value == 0 {
          expiresAt := None;
        } else {
          expiresAt := Some(now + cfg.value.ttlSeconds.value as real);
        }
      }
    }

    // -------------------------------------------------- throttle.go, dequeue.go

    method ConsumeTokens(topic: string, limit: int, requested: int, now: Time) returns (allowed: int)
      modifies this`throughput
      ensures (Db(), allowed) == Throttle.ConsumeTokens(old(Db()), topic, limit, requested, now)
    {
      if topic !in throughput {
        throughput := throughput[topic := Bucket(limit as real, now)];
      } else {
        var b := throughput[topic];
        var grown := b.tokens + Earned(limit, b.lastRefill, now);
        throughput := throughput[topic := Bucket(if limit as real <= grown then limit as real else grown, now)];
      }
      var available := throughput[topic].tokens;
      ghost var refilled := Refill(BucketOf(old(Db()), topic), limit, now);
      assert throughput[topic] == refilled;
      assert throughput == old(throughput)[topic := refilled];
      allowed := if requested < Trunc(available) then requested else Trunc(available);
      if allowed <= 0 {
        return 0;
      }
      throughput := throughput[topic := throughput[topic].(tokens := available - allowed as real)];
      assert throughput == old(throughput)[topic := refilled.(tokens := available - allowed as real)];
    }

    method ApplyThroughputLimit(topic: string, want: int, now: Time) returns (allowed: int)
      modifies this`throughput
      ensures (Db(), allowed) == Throttle.ApplyThroughputLimit(old(Db()), topic, want, now)
    {
      if topic !in config || config[topic].throughputLimit.None? || config[topic].throughputLimit.value == 0 {
        return want;
      }
      allowed := ConsumeTokens(topic, config[topic].throughputLimit.value, want, now);
    }

    method Dequeue(topic: string, vt: Time, now: Time) returns (r: Reply)
      modifies this`messages, this`throughput
      ensures (Db(), r) == Claims.Dequeue(settings, old(Db()), topic, vt, now)
    {
      var allowed := ApplyThroughputLimit(topic, 1, now);
      if allowed == 0 {
        return Fail(ErrNoMessage);
      }
      var c := Claimable(messages, topic, now);
      if c == {} {
        return Fail(ErrNoMessage);
      }
      OldestExists(messages, c);
      var id :| IsOldest(messages, c, id);
      OneOldest(messages, c, id);
      ghost var db1 := Db();
      messages := messages[id := messages[id].(status := Processing, visibility := Some(Deadline(settings, now, vt)))];
      assert messages == ClaimRows(db1.messages, {id}, Deadline(settings, now, vt));
      assert Db() == ClaimAll(db1, {id}, Deadline(settings, now, vt));
      assert map[id := Show(messages[id])] == Shown(db1.messages, {id});
      return Claimed(map[id := Show(messages[id])]);
    }

    method DequeueForGroup(topic: string, group: string, vt: Time, now: Time) returns (r: Reply)
      modifies this`deliveries, this`throughput
      ensures (Db(), r) == Claims.DequeueForGroup(settings, old(Db()), topic, group, vt, now)
    {
      var allowed := ApplyThroughputLimit(topic, 1, now);
      if allowed == 0 {
        return Fail(ErrNoMessage);
      }
      var c := ClaimableFor(Db(), topic, group, now);
      if c == {} {
        return Fail(ErrNoMessage);
      }
      OldestExists(messages, c);
      var id :| IsOldest(messages, c, id);
      OneOldest(messages, c, id);
      var k := DeliveryKey(id, group);
      ghost var db1 := Db();
      deliveries := deliveries[k := deliveries[k].(status := Processing, visibility := Some(Deadline(settings, now, vt)))];
      assert deliveries == ClaimDeliveries(db1.deliveries, group, {id}, Deadline(settings, now, vt));
      assert Db() == ClaimAllFor(db1, group, {id}, Deadline(settings, now, vt));
      assert map[id := ShowFor(messages[id], deliveries[k])] == ShownFor(db1, group, {id});
      return Claimed(map[id := ShowFor(messages[id], deliveries[k])]);
    }

    /** UPDATE messages ... RETURNING id: dead-letter topics are never claimed in batches. */
    method ClaimBatch(topic: string, allowed: nat, vt: Time, now: Time) returns (ids: set<Id>)
      modifies this`messages
      ensures if Reserved(topic) then ids == {} else OldestOf(old(messages), Claimable(old(messages), topic, now), ids, allowed)
      ensures messages.Keys == old(messages).Keys
      ensures forall id :: id in messages ==>
        if id in ids then TakenUntil(old(messages)[id], messages[id], Deadline(settings, now, vt)) else messages[id] == old(messages)[id]
      ensures ids <= messages.Keys && Shown(messages, ids) == Shown(old(messages), ids)
    {
      if !Reserved(topic) {
        ids := FirstN(messages, Claimable(messages, topic, now), allowed);
        FirstNIsOldest(messages, Claimable(messages, topic, now), allowed);
      } else {
        ids := {};
      }
      messages := ClaimRows(messages, ids, Deadline(settings, now, vt));
    }

    method DequeueN(topic: string, n: int, vt: Time, now: Time) returns (b: Batch)
      modifies this`messages, this`throughput
      ensures
        var (db, reply) := Claims.DequeueN(settings, old(Db()), topic, n, vt, now);
        Db() == db && Answers(b, reply)
    {
      if n < 1 || n > 1000 {
        return BatchError(ErrInvalidBatchSize);
      }
      var allowed := ApplyThroughputLimit(topic, n, now);
      if allowed == 0 {
        return Batch([]);
      }
      ghost var db1 := Db();
      var ids := ClaimBatch(topic, allowed, vt, now);
      if !Reserved(topic) {
        OldestIsFirstN(db1.messages, Claimable(db1.messages, topic, now), ids, allowed);
      }
      TakenRows(db1.messages, messages, ids, Deadline(settings, now, vt));
      assert Claims.DequeueN(settings, old(Db()), topic, n, vt, now) == (Db(), Claimed(Shown(db1.messages, ids)));
      var rows := Returned(ids);
      return Batch(rows);
    }

    /** The rows an UPDATE ... RETURNING hands back, in no particular order. */
    method Returned(ids: set<Id>) returns (rows: seq<Row>)
      requires ids <= messages.Keys
      ensures Lists(rows, Shown(messages, ids))
    {
      rows := [];
      ghost var all := Shown(messages, ids);
      var left := ids;
      while left != {}
        invariant left <= ids && Lists(rows, Without(all, left))
        decreases |left|
      {
        var id :| id in left;
        ListsOneMore(rows, all, left, id);
        rows, left := rows + [Row(id, Show(messages[id]))], left - {id};
      }
      assert Without(all, left) == all;
    }

    /** UPDATE message_deliveries ... RETURNING message_id. */
    method ClaimForGroup(topic: string, group: string, allowed: nat, vt: Time, now: Time) returns (ids: set<Id>)
      modifies this`deliveries
      ensures OldestOf(messages, ClaimableFor(old(Db()), topic, group, now), ids, allowed)
      ensures deliveries.Keys == old(deliveries).Keys
      ensures forall k :: k in deliveries ==>
        if k.group == group && k.id in ids then HeldUntil(old(deliveries)[k], deliveries[k], Deadline(settings, now, vt))
        else deliveries[k] == old(deliveries)[k]
      ensures (forall i :: i in ids ==> DeliveryKey(i, group) in deliveries) && ShownFor(Db(), group, ids) == ShownFor(old(Db()), group, ids)
    {
      ids := FirstN(messages, ClaimableFor(Db(), topic, group, now), allowed);
      FirstNIsOldest(messages, ClaimableFor(Db(), topic, group, now), allowed);
      ShownAsBefore(Db(), group, ids, Deadline(settings, now, vt));
      deliveries := ClaimDeliveries(deliveries, group, ids, Deadline(settings, now, vt));
    }

    /** SELECT ... WHERE id = ANY(ids) ORDER BY created_at. */
    method Fetch(group: string, ids: set<Id>) returns (rows: seq<Row>)
      requires ids <= messages.Keys && forall i :: i in ids ==> DeliveryKey(i, group) in deliveries
      ensures Lists(rows, ShownFor(Db(), group, ids)) && OldestFirst(rows)
    {
      rows := [];
      ghost var all := ShownFor(Db(), group, ids);
      var left := ids;
      while left != {}
        invariant left <= ids && Lists(rows, Without(all, left)) && OldestFirst(rows)
        invariant NoneEarlier(rows, messages, left)
        decreases |left|
      {
        OldestExists(messages, left);
        var id :| IsOldest(messages, left, id);
        ListsOneMore(rows, all, left, id);
        var row := Row(id, ShowFor(messages[id], deliveries[DeliveryKey(id, group)]));
        SortedOneMore(rows, messages, left, row);
        rows, left := rows + [row], left - {id};
      }
      assert Without(all, left) == all;
    }

    /** The counters and the error a group is shown are untouched by the claim itself. */
    method DequeueNForGroup(topic: string, group: string, n: int, vt: Time, now: Time) returns (b: Batch)
      modifies this`deliveries, this`throughput
      ensures
        var (db, reply) := Claims.DequeueNForGroup(settings, old(Db()), topic, group, n, vt, now);
        Db() == db && Answers(b, reply) && (b.Batch? ==> OldestFirst(b.rows))
    {
      if n < 1 || n > 1000 {
        return BatchError(ErrInvalidBatchSize);
      }
      var allowed := ApplyThroughputLimit(topic, n, now);
      if allowed == 0 {
        return Batch([]);
      }
      ghost var db1 := Db();
      var ids := ClaimForGroup(topic, group, allowed, vt, now);
      if ids == {} {
        b := Batch([]);
      } else {
        var rows := Fetch(group, ids);
        b := Batch(rows);
      }
      OldestIsFirstN(messages, ClaimableFor(db1, topic, group, now), ids, allowed);
      TakenDeliveries(db1.deliveries, deliveries, group, ids, Deadline(settings, now, vt));
      assert Claims.DequeueNForGroup(settings, old(Db()), topic, group, n, vt, now) == (Db(), Claimed(ShownFor(db1, group, ids)));
    }

    // ------------------------------------------------------------- lifecycle.go

    method EffectiveDLQThreshold(topic: string) returns (threshold: int)
      modifies this`topicConfigCache, this`sharedConfigCache
      ensures threshold == Threshold(settings, old(Seen(topic))) && SeesLimit(settings, old(Seen(topic)), threshold)
      ensures (topicConfigCache, sharedConfigCache, Seen(topic))
           == ConfigCache.GetTopicConfig(old(topicConfigCache), old(sharedConfigCache), config, topic)
    {
      var cfg := GetTopicConfig(topic);
      if cfg.Some? && cfg.value.maxRetries.Some? {
        return cfg.value.maxRetries.value;
      }
      return settings.dlqThreshold;
    }

    method ArchiveToLog(row: LogRow)
      modifies this`messageLog
      ensures Db() == Lifecycle.ArchiveToLog(old(Db()), row)
    {
      var replayable := TopicReplayable(row.topic);
      if !replayable {
        return;
      }
      messageLog := messageLog + {row};
    }

    /** COALESCE(replayable, false), and false without a row. */
    predicate TopicReplayable(topic: string)
      reads this
    {
      topic in config && config[topic].replayable
    }

    /** DELETE FROM messages, deliveries included. */
    method DeleteRows(gone: set<Id>)
      modifies this`messages, this`deliveries
      ensures Db() == DeleteMessages(old(Db()), gone)
    {
      messages := messages - gone;
      deliveries := map d | d in deliveries && d.id !in gone :: deliveries[d];
    }

    method Ack(id: Id, now: Time) returns (r: Reply)
      modifies this`messages, this`deliveries, this`messageLog
      ensures (Db(), r) == Lifecycle.Ack(old(Db()), id, now)
    {
      if id !in messages || messages[id].status != Processing {
        return Fail(ErrNotFound);
      }
      var m := messages[id];
      ArchiveToLog(LogRow(id, m.topic, m.key, m.payload, m.metadata, m.retryCount, m.maxRetries, m.lastError,
                          m.originalTopic, m.createdAt, now));
      DeleteRows({id});
      return Done;
    }

    method Nack(id: Id, reason: string, now: Time) returns (r: Reply)
      modifies this`messages, this`topicConfigCache, this`sharedConfigCache
      ensures (Db(), r) == Lifecycle.Nack(settings, old(Db()), id, reason,
                                          if id in old(messages) then old(Seen(messages[id].topic)) else None, now)
      ensures if id in old(messages) then ConfigRead(old(topicConfigCache), old(sharedConfigCache), old(messages[id].topic))
              else unchanged(this)
    {
      if id !in messages {
        return Fail(ErrNotFound);
      }
      var m := messages[id];
      if m.status != Processing {
        return Fail(ErrNotProcessing);
      }
      var nextRetryCount := m.retryCount + 1;
      var threshold := EffectiveDLQThreshold(m.topic);
      if threshold > 0 && nextRetryCount >= threshold {
        var dlqTopic := m.topic + ".dlq";
        if KeyTaken(Db(), dlqTopic, m.key, id) {
          return Fail(UniqueViolation);
        }
        messages := messages[id := m.(topic := dlqTopic, originalTopic := Some(m.topic), status := Pending, retryCount := 0,
                                      maxRetries := 0, lastError := Some(reason), dlqMovedAt := Some(now), visibility := None)];
        return Done;
      }
      var newStatus := Pending;
      if nextRetryCount >= m.maxRetries {
        newStatus := Failed;
      }
      if newStatus == Pending && KeyTaken(Db(), m.topic, m.key, id) {
        return Fail(UniqueViolation);
      }
      messages := messages[id := m.(retryCount := nextRetryCount, lastError := Some(reason), visibility := None, status := newStatus)];
      return Done;
    }

    method AckForGroup(id: Id, group: string, now: Time) returns (r: Reply)
      modifies this`messages, this`deliveries, this`messageLog
      ensures (Db(), r) == Lifecycle.AckForGroup(old(Db()), id, group, now)
    {
      var k := DeliveryKey(id, group);
      if k !in deliveries || id !in messages || deliveries[k].status != Processing {
        return Fail(ErrNotFound);
      }
      var m, d := messages[id], deliveries[k];
      deliveries := deliveries - {k};
      var remaining := |DeliveriesOf(Db(), id)|;
      if remaining == 0 {
        ArchiveToLog(LogRow(id, m.topic, m.key, m.payload, m.metadata, d.retryCount, d.maxRetries, d.lastError,
                            m.originalTopic, m.createdAt, now));
        DeleteRows({id});
      }
      return Done;
    }

    method NackForGroup(id: Id, group: string, reason: string) returns (r: Reply)
      modifies this`deliveries, this`topicConfigCache, this`sharedConfigCache
      ensures (Db(), r) == Lifecycle.NackForGroup(settings, old(Db()), id, group, reason,
                                                  if id in messages then old(Seen(messages[id].topic)) else None)
      ensures if id in messages then ConfigRead(old(topicConfigCache), old(sharedConfigCache), messages[id].topic)
              else unchanged(this)
    {
      var k := DeliveryKey(id, group);
      if k !in deliveries || id !in messages {
        return Fail(ErrNotFound);
      }
      var d := deliveries[k];
      if d.status != Processing {
        return Fail(ErrNotProcessing);
      }
      var nextRetryCount := d.retryCount + 1;
      var threshold := EffectiveDLQThreshold(messages[id].topic);
      if threshold > 0 && nextRetryCount >= threshold {
        deliveries := deliveries[k := d.(status := Failed, retryCount := nextRetryCount, lastError := Some(reason))];
        return Done;
      }
      var newStatus := Pending;
      if d.maxRetries > 0 && nextRetryCount >= d.maxRetries {
        newStatus := Failed;
      }
      deliveries := deliveries[k := d.(retryCount := nextRetryCount, lastError := Some(reason), visibility := None, status := newStatus)];
      return Done;
    }

    method Requeue(id: Id) returns (r: Reply)
      modifies this`messages, this`topicConfigCache, this`sharedConfigCache
      ensures (Db(), r) == Lifecycle.Requeue(settings, old(Db()), id,
        if id in old(messages) && old(messages)[id].originalTopic.Some? then old(Seen(messages[id].originalTopic.value)) else None)
      ensures if r.Done? || r == Fail(UniqueViolation)
              then ConfigRead(old(topicConfigCache), old(sharedConfigCache), old(messages[id].originalTopic.value))
              else unchanged(this)
    {
      if id !in messages {
        return Fail(ErrNotFound);
      }
      var m := messages[id];
      if m.originalTopic.None? || m.originalTopic.value == "" {
        return Fail(ErrNotDLQ);
      }
      var home := m.originalTopic.value;
      var threshold := EffectiveDLQThreshold(home);
      if KeyTaken(Db(), home, m.key, id) {
        return Fail(UniqueViolation);
      }
      messages := messages[id := m.(topic := home, originalTopic := None, dlqMovedAt := None, status := Pending,
                                    retryCount := 0, maxRetries := threshold, visibility := None)];
      return Done;
    }

    // -------------------------------------------------------- consumer_group.go

    method RegisterConsumerGroup(topic: string, group: string) returns (r: Reply)
      modifies this`groups, this`deliveries, this`topicConfigCache, this`sharedConfigCache
      ensures (Db(), r) == Register(settings, old(Db()), topic, group, old(Seen(topic)))
      ensures ConfigRead(old(topicConfigCache), old(sharedConfigCache), topic)
    {
      if settings.requireRegistration {
        var cfg := GetTopicConfig(topic);
        if cfg.None? {
          return Fail(ErrTopicNotRegistered);
        }
      }
      if GroupKey(topic, group) in groups {
        return Fail(ErrConsumerGroupExists);
      }
      groups := groups + {GroupKey(topic, group)};
      deliveries := deliveries + Backfilled(Db(), topic, group);
      return Done;
    }

    method UnregisterConsumerGroup(topic: string, group: string) returns (r: Reply)
      modifies this`groups, this`deliveries
      ensures (Db(), r) == Unregister(old(Db()), topic, group)
    {
      if GroupKey(topic, group) !in groups {
        return Fail(ErrConsumerGroupNotFound);
      }
      groups := groups - {GroupKey(topic, group)};
      deliveries := map d | d in deliveries && !(d.group == group && OnTopic(Db(), d.id, topic)) :: deliveries[d];
      assert deliveries == Unregister(old(Db()), topic, group).0.deliveries;
      return Done;
    }

    // ---------------------------------------------------- reaper.go and purge.go

    method RunExpiryReaperOnce(now: Time) returns (r: Reply)
      modifies this`messages
      ensures (Db(), r) == ExpiryReap(old(Db()), now)
    {
      var lapsed := set i | i in messages && Lapsed(messages[i], now);
      messages := map i | i in messages :: if i in lapsed then messages[i].(status := Expired) else messages[i];
      assert messages == ExpiryReap(old(Db()), now).0.messages;
      return Count(|lapsed|);
    }

    method RunArchiveReaperOnce(now: Time) returns (r: Reply)
      modifies this`messageLog
      ensures (Db(), r) == ArchiveReap(old(Db()), now)
    {
      var aged := set l | l in messageLog && Aged(config, l, now);
      messageLog := messageLog - aged;
      assert messageLog == ArchiveReap(old(Db()), now).0.log;
      return Count(|aged|);
    }

    method RunDeleteReaperOnce(now: Time) returns (r: Reply)
      modifies this`messages, this`deliveries, this`messageLog
      ensures (Db(), r) == DeleteReap(old(Db()), now)
    {
      var expired := ExpiredIds(Db());
      DeleteRows(expired);
      var _ := RunArchiveReaperOnce(now);
      return Count(|expired|);
    }

    method PurgeTopic(topic: string, statuses: set<Status>) returns (r: Reply)
      modifies this`messages, this`deliveries
      ensures (Db(), r) == Maintenance.PurgeTopic(old(Db()), topic, statuses)
    {
      var gone := set i | i in messages && messages[i].topic == topic && messages[i].status in statuses;
      DeleteRows(gone);
      return Count(|gone|);
    }

    method PurgeByKey(topic: string, key: string) returns (r: Reply)
      modifies this`messages, this`deliveries
      ensures (Db(), r) == Maintenance.PurgeByKey(old(Db()), topic, key)
    {
      var gone := set i | i in messages && messages[i].topic == topic && messages[i].key == Some(key);
      DeleteRows(gone);
      return Count(|gone|);
    }

    // ---------------------------------------------------------------- replay.go

    method TrimMessageLog(topic: string, before: Time) returns (r: Reply)
      modifies this`messageLog
      ensures (Db(), r) == Maintenance.TrimMessageLog(old(Db()), topic, before)
    {
      var gone := set l | l in messageLog && Trimmed(l, topic, before);
      messageLog := messageLog - gone;
      assert messageLog == Maintenance.TrimMessageLog(old(Db()), topic, before).0.log;
      return Count(|gone|);
    }

    /** `order` is the order in which the statement happened to visit the rows. */
    method ReplayTopic(topic: string, from: Option<Time>, ids: seq<Id>, now: Time) returns (r: Reply, order: seq<LogRow>)
      requires |ids| >= |messageLog|
      modifies this`messages, this`deliveries, this`topicConfigCache, this`sharedConfigCache
      ensures Enumerates(order, ReplayRows(old(Db()), topic, from, old(Seen(topic)), now)) && |order| <= |ids|
      ensures (Db(), r) == Replay.ReplayTopic(settings, old(Db()), topic, from, old(Seen(topic)), order, ids, now)
      ensures ConfigRead(old(topicConfigCache), old(sharedConfigCache), topic)
    {
      order := [];
      var cfg := GetTopicConfig(topic);
      if cfg.None? || !cfg.value.replayable {
        return Fail(ErrTopicNotReplayable), [];
      }
      var windowStart: Option<Time> := None;
      if cfg.value.replayWindow.Some? && cfg.value.replayWindow.value > 0 {
        windowStart := Some(now - cfg.value.replayWindow.value as real);
        if from.Some? && from.value < windowStart.value {
          return Fail(ErrReplayWindowTooOld), [];
        }
      }
      var effectiveFrom := from;
      if effectiveFrom.None? {
        effectiveFrom := windowStart;
      }
      var expiresAt := ResolveExpiresAt(cfg, now);
      var selected := Selected(messageLog, topic, effectiveFrom);
      FewerInSubset(selected, messageLog);
      order := Scan(selected);
      var n := InsertCopiesOf(order, ids, expiresAt, now);
      return Count(n), order;
    }

    /** INSERT ... SELECT ... ON CONFLICT DO NOTHING. */
    method InsertCopiesOf(order: seq<LogRow>, ids: seq<Id>, expiresAt: Option<Time>, now: Time) returns (n: nat)
      requires |order| <= |ids|
      modifies this`messages, this`deliveries
      ensures (Db(), n) == InsertCopies(settings, old(Db()), order, ids, expiresAt, now)
    {
      n := 0;
      ghost var start, all := old(Db()), InsertCopies(settings, old(Db()), order, ids, expiresAt, now);
      for i := 0 to |order|
        invariant groups == old(groups) && config == old(config) && throughput == old(throughput) && messageLog == old(messageLog)
        invariant all.0 == InsertCopies(settings, Db(), order[i..], ids[i..], expiresAt, now).0
        invariant all.1 == n + InsertCopies(settings, Db(), order[i..], ids[i..], expiresAt, now).1
      {
        var m := Copy(order[i], expiresAt, now);
        if !KeyTaken(Db(), m.topic, m.key, ids[i]) {
          messages := messages[ids[i] := m];
          deliveries := deliveries + NewDeliveries(groups, ids[i], m.topic, settings.deliveryRetries);
          n := n + 1;
        }
      }
    }
  }
}
