/** schema.go: compiled schemas cached per process under (topic, version), raw rows in a shared cache, and a table
    whose version counts re-registrations - from 1 again after a deletion. `parse` stands for avro.Parse. */
module SchemaCache {
  import opened Tables

  datatype TopicSchema = TopicSchema(json: string, version: nat)

  datatype Compiled<C> = Compiled(schema: C, version: nat)

  /** What the shared cache may hold for a topic. */
  datatype Entry = NotFound | Encoded(ts: TopicSchema) | Corrupt

  function Lookup(table: map<string, TopicSchema>, topic: string): Option<TopicSchema> {
    if topic in table then Some(table[topic]) else None
  }

  /** UpsertTopicSchema's statement: version 1, or the next one. */
  function Registered(table: map<string, TopicSchema>, topic: string, json: string): TopicSchema {
    TopicSchema(json, if topic in table then table[topic].version + 1 else 1)
  }

  /** getTopicSchemaCached: a readable shared entry, else the table, whose answer is shared. */
  function GetTopicSchemaCached(l2: map<string, Entry>, table: map<string, TopicSchema>, topic: string)
    : (map<string, Entry>, Option<TopicSchema>)
  {
    if topic in l2 && l2[topic].NotFound? then (l2, None)
    else if topic in l2 && l2[topic].Encoded? then (l2, Some(l2[topic].ts))
    else
      var row := Lookup(table, topic);
      (l2[topic := if row.Some? then Encoded(row.value) else NotFound], row)
  }

  /** The table is asked only when the shared cache has no readable entry, a remembered absence included. */
  lemma SharedEntryFirst(l2: map<string, Entry>, table: map<string, TopicSchema>, topic: string)
    ensures
      var (m2, ts) := GetTopicSchemaCached(l2, table, topic);
      && (topic in l2 && l2[topic] == NotFound ==> (m2, ts) == (l2, None))
      && (forall row :: topic in l2 && l2[topic] == Encoded(row) ==> (m2, ts) == (l2, Some(row)))
      && ((topic in l2 ==> l2[topic] == Corrupt) ==>
            if topic in table then (m2, ts) == (l2[topic := Encoded(table[topic])], Some(table[topic]))
            else (m2, ts) == (l2[topic := NotFound], None))
  {
  }

  /** resolveSchema: the compiled schema of that version if the process has one, else parse and keep. */
  function ResolveSchema<C>(parse: string -> Option<C>, l1: map<string, Compiled<C>>, topic: string, ts: TopicSchema)
    : (map<string, Compiled<C>>, Option<C>)
  {
    if topic in l1 && l1[topic].version == ts.version then (l1, Some(l1[topic].schema))
    else
      var compiled := parse(ts.json);
      (if compiled.Some? then l1[topic := Compiled(compiled.value, ts.version)] else l1, compiled)
  }

  /** One process: its compiled schemas and the notifications on their way to it. */
  datatype Node<C> = Node(l1: map<string, Compiled<C>>, inbox: seq<string>)

  /** A writer clears its own L1, writes the row, clears the shared entry and publishes; it may stop anywhere. */
  datatype Stage = ClearedL1 | WroteRow | ClearedL2

  /** A removal has no json. */
  datatype Writer = Writer(topic: string, json: Option<string>, stage: Stage)

  /** A validatePayload that has fetched its row and not yet resolved it. */
  datatype Call = Call(node: nat, topic: string, ts: TopicSchema)

  datatype Cluster<C> = Cluster(table: map<string, TopicSchema>, l2: map<string, Entry>, nodes: seq<Node<C>>,
                                writers: map<nat, Writer>, calls: map<nat, Call>)

  datatype Action =
    | Upsert(w: nat, node: nat, topic: string, json: string)
    | Remove(w: nat, node: nat, topic: string)
    | WriteRow(w: nat)
    | ClearL2(w: nat)
    | Publish(w: nat)
    | Deliver(node: nat)
    | Lose(node: nat)
    | Fetch(call: nat, node: nat, topic: string)
    | Resolve(call: nat)
    | ExpireL2(topic: string)
    | CorruptL2(topic: string)

  predicate Possible<C>(parse: string -> Option<C>, c: Cluster<C>, a: Action) {
    match a
    case Upsert(w, node, _, json) => w !in c.writers && node < |c.nodes| && parse(json).Some?
    case Remove(w, node, _) => w !in c.writers && node < |c.nodes|
    case WriteRow(w) => w in c.writers && c.writers[w].stage == ClearedL1
    case ClearL2(w) => w in c.writers && c.writers[w].stage == WroteRow
    case Publish(w) => w in c.writers && c.writers[w].stage == ClearedL2
    case Deliver(node) => node < |c.nodes| && c.nodes[node].inbox != []
    case Lose(node) => node < |c.nodes| && c.nodes[node].inbox != []
    case Fetch(call, node, _) => call !in c.calls && node < |c.nodes|
    case Resolve(call) => call in c.calls && c.calls[call].node < |c.nodes|
    case ExpireL2(topic) => topic in c.l2
    case CorruptL2(topic) => topic in c.l2
  }

  function Forget<C>(nodes: seq<Node<C>>, i: nat, topic: string): seq<Node<C>>
    requires i < |nodes|
  {
    nodes[i := nodes[i].(l1 := nodes[i].l1 - {topic})]
  }

  function Written(table: map<string, TopicSchema>, w: Writer): map<string, TopicSchema> {
    if w.json.Some? then table[w.topic := Registered(table, w.topic, w.json.value)] else table - {w.topic}
  }

  function Notify<C>(nodes: seq<Node<C>>, topic: string): seq<Node<C>> {
    seq(|nodes|, i requires 0 <= i < |nodes| => nodes[i].(inbox := nodes[i].inbox + [topic]))
  }

  function Next<C>(parse: string -> Option<C>, c: Cluster<C>, a: Action): Cluster<C>
    requires Possible(parse, c, a)
  {
    match a
    case Upsert(w, node, topic, json) =>
      c.(nodes := Forget(c.nodes, node, topic), writers := c.writers[w := Writer(topic, Some(json), ClearedL1)])
    case Remove(w, node, topic) =>
      c.(nodes := Forget(c.nodes, node, topic), writers := c.writers[w := Writer(topic, None, ClearedL1)])
    case WriteRow(w) =>
      c.(table := Written(c.table, c.writers[w]), writers := c.writers[w := c.writers[w].(stage := WroteRow)])
    case ClearL2(w) =>
      c.(l2 := c.l2 - {c.writers[w].topic}, writers := c.writers[w := c.writers[w].(stage := ClearedL2)])
    case Publish(w) =>
      c.(nodes := Notify(c.nodes, c.writers[w].topic), writers := c.writers - {w})
    case Deliver(node) =>
      var n := c.nodes[node];
      c.(nodes := c.nodes[node := Node(n.l1 - {n.inbox[0]}, n.inbox[1..])])
    case Lose(node) =>
      c.(nodes := c.nodes[node := c.nodes[node].(inbox := c.nodes[node].inbox[1..])])
    case Fetch(call, node, topic) =>
      var (l2, ts) := GetTopicSchemaCached(c.l2, c.table, topic);
      c.(l2 := l2, calls := if ts.Some? then c.calls[call := Call(node, topic, ts.value)] else c.calls)
    case Resolve(call) =>
      var (i, topic, ts) := (c.calls[call].node, c.calls[call].topic, c.calls[call].ts);
      c.(nodes := c.nodes[i := c.nodes[i].(l1 := ResolveSchema(parse, c.nodes[i].l1, topic, ts).0)], calls := c.calls - {call})
    case ExpireL2(topic) => c.(l2 := c.l2 - {topic})
    case CorruptL2(topic) => c.(l2 := c.l2[topic := Corrupt])
  }

  function Take<C>(parse: string -> Option<C>, c: Cluster<C>, a: Action): Cluster<C> {
    if Possible(parse, c, a) then Next(parse, c, a) else c
  }

  function Start<C>(n: nat): Cluster<C> {
    Cluster(map[], map[], seq(n, i => Node(map[], [])), map[], map[])
  }

  /** The cluster of n processes after a list of actions, each taken if it is possible when its turn comes. */
  function Exec<C>(parse: string -> Option<C>, n: nat, acts: seq<Action>): Cluster<C>
    decreases |acts|
  {
    if acts == [] then Start(n) else Take(parse, Exec(parse, n, acts[..|acts| - 1]), acts[|acts| - 1])
  }

  predicate Holds<C>(c: Cluster<C>, topic: string, ts: TopicSchema) {
    || (topic in c.table && c.table[topic] == ts)
    || (topic in c.l2 && c.l2[topic] == Encoded(ts))
  }

  /** The table or the shared cache held ts for topic at some time of the run. */
  ghost predicate EverHeld<C>(parse: string -> Option<C>, n: nat, acts: seq<Action>, topic: string, ts: TopicSchema)
    decreases |acts|
  {
    || Holds(Exec(parse, n, acts), topic, ts)
    || (acts != [] && EverHeld(parse, n, acts[..|acts| - 1], topic, ts))
  }

  // ----------------------------------------------------- uninterrupted operations

  function TakeAll<C>(parse: string -> Option<C>, c: Cluster<C>, acts: seq<Action>): Cluster<C>
    decreases |acts|
  {
    if acts == [] then c else TakeAll(parse, Take(parse, c, acts[0]), acts[1..])
  }

  lemma {:induction false} TakeAllInTwo<C>(parse: string -> Option<C>, c: Cluster<C>, acts: seq<Action>, more: seq<Action>)
    ensures TakeAll(parse, c, acts + more) == TakeAll(parse, TakeAll(parse, c, acts), more)
    decreases |acts|
  {
    if acts == [] {
      assert acts + more == more;
    } else {
      TakeAllInTwo(parse, Take(parse, c, acts[0]), acts[1..], more);
      assert (acts + more)[1..] == acts[1..] + more;
    }
  }

  function Registering(node: nat, topic: string, json: string): seq<Action> {
    [Upsert(0, node, topic, json), WriteRow(0), ClearL2(0), Publish(0)]
  }

  function Deleting(node: nat, topic: string): seq<Action> {
    [Remove(0, node, topic), WriteRow(0), ClearL2(0), Publish(0)]
  }

  function Validating(node: nat, topic: string): seq<Action> {
    [Fetch(0, node, topic), Resolve(0)]
  }

  lemma TwoActions<C>(parse: string -> Option<C>, c: Cluster<C>, a: Action, b: Action)
    ensures TakeAll(parse, c, [a, b]) == Take(parse, Take(parse, c, a), b)
  {
    TakeAllInTwo(parse, c, [a], [b]);
    assert [a] + [b] == [a, b];
  }

  lemma FourActions<C>(parse: string -> Option<C>, c: Cluster<C>, a: Action, b: Action, x: Action, y: Action)
    ensures TakeAll(parse, c, [a, b, x, y]) == Take(parse, Take(parse, Take(parse, Take(parse, c, a), b), x), y)
  {
    TakeAllInTwo(parse, c, [a, b], [x, y]);
    assert [a, b] + [x, y] == [a, b, x, y];
    TwoActions(parse, c, a, b);
    TwoActions(parse, TakeAll(parse, c, [a, b]), x, y);
  }

  lemma WriterFinishes<C>(parse: string -> Option<C>, c: Cluster<C>, w: Writer)
    requires c.writers == map[0 := w] && w.stage == ClearedL1
    ensures Take(parse, Take(parse, Take(parse, c, WriteRow(0)), ClearL2(0)), Publish(0))
         == c.(table := Written(c.table, w), l2 := c.l2 - {w.topic}, nodes := Notify(c.nodes, w.topic), writers := map[])
  {
    var c1 := c.(table := Written(c.table, w), writers := map[0 := w.(stage := WroteRow)]);
    assert Take(parse, c, WriteRow(0)) == c1;
    var c2 := c1.(l2 := c.l2 - {w.topic}, writers := map[0 := w.(stage := ClearedL2)]);
    assert Take(parse, c1, ClearL2(0)) == c2;
    assert c2.writers - {0} == map[];
  }

  /** An uninterrupted UpsertTopicSchemaAndNotify. */
  lemma Registers<C>(parse: string -> Option<C>, c: Cluster<C>, node: nat, topic: string, json: string)
    requires c.writers == map[] && node < |c.nodes| && parse(json).Some?
    ensures TakeAll(parse, c, Registering(node, topic, json))
         == c.(table := c.table[topic := Registered(c.table, topic, json)], l2 := c.l2 - {topic},
               nodes := Notify(Forget(c.nodes, node, topic), topic))
  {
    FourActions(parse, c, Upsert(0, node, topic, json), WriteRow(0), ClearL2(0), Publish(0));
    WriterFinishes(parse, Next(parse, c, Upsert(0, node, topic, json)), Writer(topic, Some(json), ClearedL1));
  }

  /** An uninterrupted DeleteTopicSchemaAndNotify. */
  lemma Deletes<C>(parse: string -> Option<C>, c: Cluster<C>, node: nat, topic: string)
    requires c.writers == map[] && node < |c.nodes|
    ensures TakeAll(parse, c, Deleting(node, topic))
         == c.(table := c.table - {topic}, l2 := c.l2 - {topic}, nodes := Notify(Forget(c.nodes, node, topic), topic))
  {
    FourActions(parse, c, Remove(0, node, topic), WriteRow(0), ClearL2(0), Publish(0));
    WriterFinishes(parse, Next(parse, c, Remove(0, node, topic)), Writer(topic, None, ClearedL1));
  }

  /** A whole service call, or one event of the environment, as actions of process 0. */
  datatype Operation =
    | RegisterSchema(topic: string, json: string)
    | DeleteSchema(topic: string)
    | ValidatePayload(topic: string)
    | Environment(act: Action)

  function Actions(o: Operation): seq<Action> {
    match o
    case RegisterSchema(topic, json) => Registering(0, topic, json)
    case DeleteSchema(topic) => Deleting(0, topic)
    case ValidatePayload(topic) => Validating(0, topic)
    case Environment(act) => if act.Deliver? || act.Lose? || act.ExpireL2? || act.CorruptL2? then [act] else []
  }

  function OneAtATime<C>(parse: string -> Option<C>, ops: seq<Operation>): Cluster<C>
    decreases |ops|
  {
    if ops == [] then Start(1) else TakeAll(parse, OneAtATime(parse, ops[..|ops| - 1]), Actions(ops[|ops| - 1]))
  }

  /** Between the calls of a lone process both caches hold the table's current row, or nothing. */
  ghost predicate CachesCurrent<C>(parse: string -> Option<C>, c: Cluster<C>) {
    && |c.nodes| == 1 && c.writers == map[] && c.calls == map[]
    && (forall t :: t in c.l2 && c.l2[t].NotFound? ==> t !in c.table)
    && (forall t :: t in c.l2 && c.l2[t].Encoded? ==> t in c.table && c.table[t] == c.l2[t].ts)
    && (forall t :: t in c.nodes[0].l1 ==>
          t in c.table && c.nodes[0].l1[t].version == c.table[t].version && parse(c.table[t].json) == Some(c.nodes[0].l1[t].schema))
  }

  lemma RegisteringKeepsCurrent<C>(parse: string -> Option<C>, c: Cluster<C>, topic: string, json: string)
    requires CachesCurrent(parse, c)
    ensures CachesCurrent(parse, TakeAll(parse, c, Registering(0, topic, json)))
  {
    if parse(json).Some? {
      Registers(parse, c, 0, topic, json);
    } else {
      FourActions(parse, c, Upsert(0, 0, topic, json), WriteRow(0), ClearL2(0), Publish(0));
    }
  }

  lemma ValidatingKeepsCurrent<C>(parse: string -> Option<C>, c: Cluster<C>, topic: string)
    requires CachesCurrent(parse, c)
    ensures CachesCurrent(parse, TakeAll(parse, c, Validating(0, topic)))
  {
    TwoActions(parse, c, Fetch(0, 0, topic), Resolve(0));
    var d := Take(parse, c, Fetch(0, 0, topic));
    var (l2, ts) := GetTopicSchemaCached(c.l2, c.table, topic);
    assert ts == Lookup(c.table, topic);
    assert d == c.(l2 := l2, calls := if ts.Some? then map[0 := Call(0, topic, ts.value)] else map[]);
  }

  lemma OperationKeepsCurrent<C>(parse: string -> Option<C>, c: Cluster<C>, o: Operation)
    requires CachesCurrent(parse, c)
    ensures CachesCurrent(parse, TakeAll(parse, c, Actions(o)))
  {
    match o
    case RegisterSchema(topic, json) => RegisteringKeepsCurrent(parse, c, topic, json);
    case DeleteSchema(topic) => DeletingKeepsCurrent(parse, c, topic);
    case ValidatePayload(topic) => ValidatingKeepsCurrent(parse, c, topic);
    case Environment(act) => EnvironmentKeepsCurrent(parse, c, o);
  }

  lemma DeletingKeepsCurrent<C>(parse: string -> Option<C>, c: Cluster<C>, topic: string)
    requires CachesCurrent(parse, c)
    ensures CachesCurrent(parse, TakeAll(parse, c, Actions(DeleteSchema(topic))))
  {
    Deletes(parse, c, 0, topic);
  }

  lemma EnvironmentKeepsCurrent<C>(parse: string -> Option<C>, c: Cluster<C>, o: Operation)
    requires CachesCurrent(parse, c) && o.Environment?
    ensures CachesCurrent(parse, TakeAll(parse, c, Actions(o)))
  {
  }

  lemma {:induction false} StaysCurrent<C>(parse: string -> Option<C>, ops: seq<Operation>)
    ensures CachesCurrent(parse, OneAtATime(parse, ops))
    decreases |ops|
  {
    if ops != [] {
      StaysCurrent(parse, ops[..|ops| - 1]);
      OperationKeepsCurrent(parse, OneAtATime(parse, ops[..|ops| - 1]), ops[|ops| - 1]);
    }
  }

  /** One process, one call at a time, deletions included: a payload is checked against exactly the registered schema. */
  lemma AloneValidatesCurrent<C>(parse: string -> Option<C>, ops: seq<Operation>, topic: string)
    ensures
      var c := OneAtATime(parse, ops);
      var ts := GetTopicSchemaCached(c.l2, c.table, topic).1;
      && ts == Lookup(c.table, topic)
      && |c.nodes| == 1
      && (ts.Some? ==> ResolveSchema(parse, c.nodes[0].l1, topic, ts.value).1 == parse(ts.value.json))
  {
    StaysCurrent(parse, ops);
  }

  /** Two processes: the second still holds version 1 of a deleted schema when its successor, version 1 again, is
      first used there. */
  function DeletedElsewhere(topic: string, j: string, k: string): seq<Action> {
    Registering(0, topic, j) + (Validating(1, topic) + (Deleting(0, topic) + Registering(0, topic, k)))
  }

  /** Deleted and registered anew, a schema starts at version 1, and the other processes keep what they compiled. */
  lemma StartsOver<C>(parse: string -> Option<C>, c: Cluster<C>, node: nat, topic: string, json: string)
    requires c.writers == map[] && node < |c.nodes| && parse(json).Some?
    ensures
      var d := TakeAll(parse, c, Deleting(node, topic) + Registering(node, topic, json));
      && Lookup(d.table, topic) == Some(TopicSchema(json, 1)) && |d.nodes| == |c.nodes|
      && forall i :: 0 <= i < |c.nodes| && i != node ==> d.nodes[i].l1 == c.nodes[i].l1
  {
    TakeAllInTwo(parse, c, Deleting(node, topic), Registering(node, topic, json));
    Deletes(parse, c, node, topic);
    Registers(parse, TakeAll(parse, c, Deleting(node, topic)), node, topic, json);
  }

  /** An uninterrupted validation of an uncached topic compiles the registered row. */
  lemma FirstUse<C>(parse: string -> Option<C>, c: Cluster<C>, node: nat, topic: string)
    requires c.calls == map[] && node < |c.nodes| && topic !in c.l2 && topic !in c.nodes[node].l1
    requires topic in c.table && parse(c.table[topic].json).Some?
    ensures
      var d := TakeAll(parse, c, Validating(node, topic));
      && d.writers == c.writers && |d.nodes| == |c.nodes|
      && d.nodes[node].l1 == c.nodes[node].l1[topic := Compiled(parse(c.table[topic].json).value, c.table[topic].version)]
  {
    TwoActions(parse, c, Fetch(0, node, topic), Resolve(0));
  }

  /** With deletions the guarantee fails on two processes: a row (k, version 1) is checked against j's compilation. */
  lemma DeletionBreaksTwo<C>(parse: string -> Option<C>, topic: string, j: string, k: string)
    requires parse(j).Some? && parse(k).Some? && parse(j) != parse(k)
    ensures
      var c := TakeAll(parse, Start(2), DeletedElsewhere(topic, j, k));
      Lookup(c.table, topic) == Some(TopicSchema(k, 1)) && |c.nodes| == 2
      && ResolveSchema(parse, c.nodes[1].l1, topic, TopicSchema(k, 1)).1 == parse(j)
  {
    var c0: Cluster<C> := Start(2);
    TakeAllInTwo(parse, c0, Registering(0, topic, j), Validating(1, topic) + (Deleting(0, topic) + Registering(0, topic, k)));
    Registers(parse, c0, 0, topic, j);
    var c1 := TakeAll(parse, c0, Registering(0, topic, j));
    TakeAllInTwo(parse, c1, Validating(1, topic), Deleting(0, topic) + Registering(0, topic, k));
    FirstUse(parse, c1, 1, topic);
    var c2 := TakeAll(parse, c1, Validating(1, topic));
    StartsOver(parse, c2, 0, topic, k);
  }
}
