/** The rows of the queue's six tables, the service settings and the replies of the service methods. */
module Tables {
  datatype Option<+T> = None | Some(value: T)

  type Id = nat
  type Time = real

  datatype Status = Pending | Processing | Failed | Expired

  /** A row of `messages`. */
  datatype Message = Message(
    topic: string,
    key: Option<string>,
    payload: string,
    metadata: map<string, string>,
    status: Status,
    retryCount: int,
    maxRetries: int,
    lastError: Option<string>,
    originalTopic: Option<string>,
    dlqMovedAt: Option<Time>,
    visibility: Option<Time>,
    expiresAt: Option<Time>,
    createdAt: Time)

  /** The primary key of `message_deliveries`. */
  datatype DeliveryKey = DeliveryKey(id: Id, group: string)

  /** A row of `message_deliveries`. */
  datatype Delivery = Delivery(
    status: Status,
    retryCount: int,
    maxRetries: int,
    lastError: Option<string>,
    visibility: Option<Time>)

  /** A row of `consumer_groups`. */
  datatype GroupKey = GroupKey(topic: string, group: string)

  /** A row of `message_log`. */
  datatype LogRow = LogRow(
    id: Id,
    topic: string,
    key: Option<string>,
    payload: string,
    metadata: map<string, string>,
    retryCount: int,
    maxRetries: int,
    lastError: Option<string>,
    originalTopic: Option<string>,
    createdAt: Time,
    ackedAt: Time)

  /** A row of `topic_config`; an absent field means "use the global default". */
  datatype TopicConfig = TopicConfig(
    maxRetries: Option<int>,
    ttlSeconds: Option<int>,
    maxDepth: Option<int>,
    replayable: bool,
    replayWindow: Option<int>,
    throughputLimit: Option<int>)

  /** A row of `topic_throughput`. */
  datatype Bucket = Bucket(tokens: real, lastRefill: Time)

  datatype Db = Db(
    messages: map<Id, Message>,
    deliveries: map<DeliveryKey, Delivery>,
    groups: set<GroupKey>,
    config: map<string, TopicConfig>,
    buckets: map<string, Bucket>,
    log: set<LogRow>)

  const EmptyDb := Db(map[], map[], {}, map[], map[], {})

  /** The settings a service is created with; `deliveryRetries` is what the insert trigger writes. */
  datatype Settings = Settings(
    visibilityTimeout: Time,
    maxRetries: int,
    messageTtl: Time,
    dlqThreshold: int,
    requireRegistration: bool,
    deliveryRetries: int)

  datatype Error =
    | ErrNoMessage
    | ErrNotFound
    | ErrNotProcessing
    | ErrNotDLQ
    | ErrReservedTopic
    | ErrQueueFull
    | ErrTopicNotRegistered
    | ErrInvalidBatchSize
    | ErrTopicNotReplayable
    | ErrReplayWindowTooOld
    | ErrConsumerGroupNotFound
    | ErrConsumerGroupExists
    | ErrSchemaValidation
    | ErrInvalidSchema
    | UniqueViolation

  /** What a consumer is handed. */
  datatype View = View(
    topic: string,
    key: Option<string>,
    payload: string,
    metadata: map<string, string>,
    retryCount: int,
    maxRetries: int,
    lastError: string,
    expiresAt: Option<Time>,
    createdAt: Time,
    originalTopic: string,
    dlqMovedAt: Option<Time>)

  datatype Reply =
    | Done
    | Fail(error: Error)
    | Stored(id: Id)
    | Claimed(rows: map<Id, View>)
    | Count(n: nat)

  /** The messages a reply hands out. */
  function Rows(r: Reply): map<Id, View> {
    if r.Claimed? then r.rows else map[]
  }

  function OrElse<T>(o: Option<T>, default: T): T {
    match o
    case Some(v) => v
    case None => default
  }

  /** Topics with this suffix belong to the dead-letter mechanism. */
  predicate Reserved(topic: string) {
    |topic| >= 4 && topic[|topic| - 4..] == ".dlq"
  }

  function DlqTopic(topic: string): (r: string)
    ensures Reserved(r)
  {
    topic + ".dlq"
  }

  /** A pending row other than `except` holds (topic, key): the partial unique index would object. */
  predicate KeyTaken(db: Db, topic: string, key: Option<string>, except: Id) {
    key.Some? &&
    exists i :: i in db.messages && i != except && PendingUnder(db.messages[i], topic, key)
  }

  predicate PendingUnder(m: Message, topic: string, key: Option<string>) {
    m.status == Pending && m.topic == topic && m.key == key
  }

  /** DELETE FROM messages; the deliveries of a message go with it. */
  function DeleteMessages(db: Db, gone: set<Id>): Db {
    db.(messages := db.messages - gone,
        deliveries := map d | d in db.deliveries && d.id !in gone :: db.deliveries[d])
  }

  /** INSERT INTO messages; a trigger gives every registered group of the topic a delivery. */
  function InsertMessage(p: Settings, db: Db, id: Id, m: Message): Db {
    db.(messages := db.messages[id := m],
        deliveries := db.deliveries + NewDeliveries(db.groups, id, m.topic, p.deliveryRetries))
  }

  function NewDeliveries(groups: set<GroupKey>, id: Id, topic: string, retries: int): map<DeliveryKey, Delivery> {
    map g | g in groups && g.topic == topic :: DeliveryKey(id, g.group) := NewDelivery(retries)
  }

  function NewDelivery(retries: int): Delivery {
    Delivery(Pending, 0, retries, None, None)
  }

  /** UPDATE of one message that leaves it pending: refused when its key is already pending elsewhere. */
  function UpdateToPending(db: Db, id: Id, m: Message): (Db, Reply) {
    if KeyTaken(db, m.topic, m.key, id) then (db, Fail(UniqueViolation))
    else (db.(messages := db.messages[id := m]), Done)
  }

  /** Go's conversion of a float to an int drops the fraction, on either side of zero. */
  function Trunc(x: real): int {
    if x >= 0.0 then x.Floor else -((-x).Floor)
  }
}
