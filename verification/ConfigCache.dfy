/** topic_config.go and service.go: an in-process cache per instance (L1), a shared one (L2), the database, and
    invalidation by broadcast. A write is several steps; a read is one. */
module ConfigCache {
  import opened Tables

  /** What the shared cache may hold for a topic. */
  datatype Entry = NotFound | Encoded(cfg: TopicConfig) | Corrupt

  type L1 = map<string, Option<TopicConfig>>
  type L2 = map<string, Entry>

  function Lookup(config: map<string, TopicConfig>, topic: string): Option<TopicConfig> {
    if topic in config then Some(config[topic]) else None
  }

  function Encode(v: Option<TopicConfig>): Entry {
    match v
    case None => NotFound
    case Some(cfg) => Encoded(cfg)
  }

  function Decode(e: Entry): Option<TopicConfig>
    requires !e.Corrupt?
  {
    match e
    case NotFound => None
    case Encoded(cfg) => Some(cfg)
  }

  /** GetTopicConfig: L1, else a readable L2 entry, else the database, filling the caches on the way back. */
  function GetTopicConfig(l1: L1, l2: L2, config: map<string, TopicConfig>, topic: string): (L1, L2, Option<TopicConfig>) {
    if topic in l1 then (l1, l2, l1[topic])
    else if topic in l2 && !l2[topic].Corrupt? then
      var v := Decode(l2[topic]);
      (l1[topic := v], l2, v)
    else
      var v := Lookup(config, topic);
      (l1[topic := v], l2[topic := Encode(v)], v)
  }

  /** Each tier is asked only when those before it have no readable entry, a remembered absence included; the answer is
      then kept in those it was missing from, and nothing else changes. */
  lemma TiersInOrder(l1: L1, l2: L2, config: map<string, TopicConfig>, topic: string)
    ensures
      var (m1, m2, v) := GetTopicConfig(l1, l2, config, topic);
      && (topic in l1 ==> (m1, m2, v) == (l1, l2, l1[topic]))
      && (topic !in l1 && topic in l2 && l2[topic] == NotFound ==> (m1, m2, v) == (l1[topic := None], l2, None))
      && (forall cfg :: topic !in l1 && topic in l2 && l2[topic] == Encoded(cfg) ==>
            (m1, m2, v) == (l1[topic := Some(cfg)], l2, Some(cfg)))
      && (topic !in l1 && (topic in l2 ==> l2[topic] == Corrupt) ==>
            if topic in config then
              (m1, m2, v) == (l1[topic := Some(config[topic])], l2[topic := Encoded(config[topic])], Some(config[topic]))
            else (m1, m2, v) == (l1[topic := None], l2[topic := NotFound], None))
  {
  }

  /** A second read finds the first one's answer and changes nothing. */
  lemma ReadTwice(l1: L1, l2: L2, config: map<string, TopicConfig>, topic: string)
    ensures
      var (m1, m2, v) := GetTopicConfig(l1, l2, config, topic);
      GetTopicConfig(m1, m2, config, topic) == (m1, m2, v)
  {
  }

  /** How far a writer has come: row written, own L1 cleared, L2 cleared. Publishing ends it. */
  datatype Stage = WroteRow | ClearedL1 | ClearedL2

  datatype Writer = Writer(node: nat, topic: string, stage: Stage)

  /** One service instance: its L1 and the notifications on their way to it. */
  datatype Node = Node(l1: L1, inbox: seq<string>)

  datatype Cluster = Cluster(config: map<string, TopicConfig>, l2: L2, nodes: seq<Node>, writers: map<nat, Writer>)

  datatype Action =
    | Upsert(w: nat, node: nat, topic: string, cfg: TopicConfig)
    | Remove(w: nat, node: nat, topic: string)
    | ClearL1(w: nat)
    | ClearL2(w: nat)
    | Publish(w: nat)
    | Get(node: nat, topic: string)
    | Deliver(node: nat)
    | ExpireL2(topic: string)
    | CorruptL2(topic: string)

  predicate Possible(c: Cluster, a: Action) {
    match a
    case Upsert(w, node, topic, _) => w !in c.writers && node < |c.nodes| && !Reserved(topic)
    case Remove(w, node, topic) => w !in c.writers && node < |c.nodes| && topic in c.config
    case ClearL1(w) => w in c.writers && c.writers[w].stage == WroteRow && c.writers[w].node < |c.nodes|
    case ClearL2(w) => w in c.writers && c.writers[w].stage == ClearedL1
    case Publish(w) => w in c.writers && c.writers[w].stage == ClearedL2
    case Get(node, _) => node < |c.nodes|
    case Deliver(node) => node < |c.nodes| && c.nodes[node].inbox != []
    case ExpireL2(topic) => topic in c.l2
    case CorruptL2(topic) => topic in c.l2
  }

  function Next(c: Cluster, a: Action): Cluster
    requires Possible(c, a)
  {
    match a
    case Upsert(w, node, topic, cfg) =>
      c.(config := c.config[topic := cfg], writers := c.writers[w := Writer(node, topic, WroteRow)])
    case Remove(w, node, topic) =>
      c.(config := c.config - {topic}, writers := c.writers[w := Writer(node, topic, WroteRow)])
    case ClearL1(w) =>
      var (i, t) := (c.writers[w].node, c.writers[w].topic);
      c.(nodes := c.nodes[i := c.nodes[i].(l1 := c.nodes[i].l1 - {t})],
         writers := c.writers[w := c.writers[w].(stage := ClearedL1)])
    case ClearL2(w) =>
      c.(l2 := c.l2 - {c.writers[w].topic}, writers := c.writers[w := c.writers[w].(stage := ClearedL2)])
    case Publish(w) =>
      c.(nodes := seq(|c.nodes|, i requires 0 <= i < |c.nodes| => c.nodes[i].(inbox := c.nodes[i].inbox + [c.writers[w].topic])),
         writers := c.writers - {w})
    case Get(node, topic) =>
      var (l1, l2, _) := GetTopicConfig(c.nodes[node].l1, c.l2, c.config, topic);
      c.(nodes := c.nodes[node := c.nodes[node].(l1 := l1)], l2 := l2)
    case Deliver(node) =>
      var n := c.nodes[node];
      c.(nodes := c.nodes[node := Node(n.l1 - {n.inbox[0]}, n.inbox[1..])])
    case ExpireL2(topic) => c.(l2 := c.l2 - {topic})
    case CorruptL2(topic) => c.(l2 := c.l2[topic := Corrupt])
  }

  /** The cluster after a list of actions, each taken if it is possible when its turn comes. */
  function Exec(c: Cluster, acts: seq<Action>): Cluster
    decreases |acts|
  {
    if acts == [] then c
    else Exec(if Possible(c, acts[0]) then Next(c, acts[0]) else c, acts[1..])
  }

  lemma {:induction false} ExecMore(c: Cluster, acts: seq<Action>, a: Action)
    ensures
      var d := Exec(c, acts);
      Exec(c, acts + [a]) == if Possible(d, a) then Next(d, a) else d
    decreases |acts|
  {
    if acts == [] {
      assert [a][1..] == [];
    } else {
      ExecMore(if Possible(c, acts[0]) then Next(c, acts[0]) else c, acts[1..], a);
      assert (acts + [a])[1..] == acts[1..] + [a];
    }
  }

  function Start(n: nat): Cluster {
    Cluster(map[], map[], seq(n, i => Node(map[], [])), map[])
  }

  /** What GetTopicConfig would return now. */
  function Answer(c: Cluster, node: nat, topic: string): Option<TopicConfig>
    requires node < |c.nodes|
  {
    GetTopicConfig(c.nodes[node].l1, c.l2, c.config, topic).2
  }

  // ------------------------------------------------------------------ coherence

  ghost predicate UnclearedL2(c: Cluster, topic: string) {
    exists w :: w in c.writers && c.writers[w].topic == topic && c.writers[w].stage != ClearedL2
  }

  ghost predicate Unpublished(c: Cluster, topic: string) {
    exists w :: w in c.writers && c.writers[w].topic == topic
  }

  ghost predicate FreshL2(c: Cluster, topic: string) {
    topic in c.l2 && !c.l2[topic].Corrupt? ==> Decode(c.l2[topic]) == Lookup(c.config, topic) || UnclearedL2(c, topic)
  }

  ghost predicate FreshL1(c: Cluster, i: nat, topic: string)
    requires i < |c.nodes|
  {
    topic in c.nodes[i].l1 ==>
      || c.nodes[i].l1[topic] == Lookup(c.config, topic)
      || Unpublished(c, topic)
      || topic in c.nodes[i].inbox
  }

  /** A stale L2 entry has a writer that has yet to delete it; a stale L1 entry has a writer that has yet to publish,
      or a notification on its way. */
  ghost predicate Coherent(c: Cluster) {
    && (forall topic :: FreshL2(c, topic))
    && (forall i, topic :: 0 <= i < |c.nodes| ==> FreshL1(c, i, topic))
  }

  /** Writers other than the one that moved are still there. */
  lemma KeepsL2Writers(c: Cluster, a: Action, topic: string)
    requires Possible(c, a) && UnclearedL2(c, topic)
    ensures UnclearedL2(Next(c, a), topic) || (a.ClearL2? && c.writers[a.w].topic == topic)
  {
    var w :| w in c.writers && c.writers[w].topic == topic && c.writers[w].stage != ClearedL2;
    assert w in Next(c, a).writers;
  }

  lemma KeepsWriters(c: Cluster, a: Action, topic: string)
    requires Possible(c, a) && Unpublished(c, topic)
    ensures Unpublished(Next(c, a), topic) || (a.Publish? && c.writers[a.w].topic == topic)
  {
    var w :| w in c.writers && c.writers[w].topic == topic;
    if !(a.Publish? && a.w == w) {
      assert w in Next(c, a).writers;
    }
  }

  lemma NewWriter(c: Cluster, a: Action)
    requires Possible(c, a) && (a.Upsert? || a.Remove?)
    ensures UnclearedL2(Next(c, a), a.topic) && Unpublished(Next(c, a), a.topic)
  {
    assert a.w in Next(c, a).writers;
  }

  lemma StepKeepsL2(c: Cluster, a: Action, topic: string)
    requires Possible(c, a) && FreshL2(c, topic)
    ensures FreshL2(Next(c, a), topic)
  {
    if UnclearedL2(c, topic) {
      KeepsL2Writers(c, a, topic);
    }
    if (a.Upsert? || a.Remove?) && a.topic == topic {
      NewWriter(c, a);
    }
  }

  lemma StepKeepsL1(c: Cluster, a: Action, i: nat, topic: string)
    requires Possible(c, a) && i < |c.nodes| && FreshL1(c, i, topic) && FreshL2(c, topic)
    ensures i < |Next(c, a).nodes| && FreshL1(Next(c, a), i, topic)
  {
    if Unpublished(c, topic) {
      KeepsWriters(c, a, topic);
    } else {
      assert !UnclearedL2(c, topic);
    }
    if (a.Upsert? || a.Remove?) && a.topic == topic {
      NewWriter(c, a);
    }
  }

  lemma StepKeepsCoherent(c: Cluster, a: Action)
    requires Possible(c, a) && Coherent(c)
    ensures Coherent(Next(c, a))
  {
    forall topic ensures FreshL2(Next(c, a), topic) {
      assert FreshL2(c, topic);
      StepKeepsL2(c, a, topic);
    }
    forall i, topic | 0 <= i < |Next(c, a).nodes| ensures FreshL1(Next(c, a), i, topic) {
      assert FreshL1(c, i, topic) && FreshL2(c, topic);
      StepKeepsL1(c, a, i, topic);
    }
  }

  lemma {:induction false} RunsStayCoherent(c: Cluster, acts: seq<Action>)
    requires Coherent(c)
    ensures Coherent(Exec(c, acts))
    decreases |acts|
  {
    if acts != [] {
      if Possible(c, acts[0]) {
        StepKeepsCoherent(c, acts[0]);
        RunsStayCoherent(Next(c, acts[0]), acts[1..]);
      } else {
        RunsStayCoherent(c, acts[1..]);
      }
    }
  }

  /** After any run of any number of instances: a read that differs from the database has a cause - a writer of that
      topic still under way, or a notification for it still queued at the reading instance. */
  lemma StaleReadsHaveACause(n: nat, acts: seq<Action>, node: nat, topic: string)
    requires node < |Exec(Start(n), acts).nodes|
    ensures
      var c := Exec(Start(n), acts);
      Answer(c, node, topic) == Lookup(c.config, topic) || Unpublished(c, topic) || topic in c.nodes[node].inbox
  {
    var c := Exec(Start(n), acts);
    RunsStayCoherent(Start(n), acts);
    assert FreshL1(c, node, topic) && FreshL2(c, topic);
  }

  /** Once writers are done and queues drained, every instance reads what the database holds. */
  lemma QuietMeansFresh(n: nat, acts: seq<Action>, node: nat, topic: string)
    requires
      var c := Exec(Start(n), acts);
      node < |c.nodes| && c.writers == map[] && c.nodes[node].inbox == []
    ensures
      var c := Exec(Start(n), acts);
      Answer(c, node, topic) == Lookup(c.config, topic)
  {
    StaleReadsHaveACause(n, acts, node, topic);
  }

  // ------------------------------------------- what a read can return at all

  /** Only absence is ever stored or read for a reserved topic. */
  ghost predicate NoReserved(c: Cluster) {
    && (forall t :: t in c.config ==> !Reserved(t))
    && (forall t :: t in c.l2 && c.l2[t].Encoded? ==> !Reserved(t))
    && (forall i, t :: 0 <= i < |c.nodes| && t in c.nodes[i].l1 && c.nodes[i].l1[t].Some? ==> !Reserved(t))
  }

  lemma StepKeepsNoReserved(c: Cluster, a: Action)
    requires Possible(c, a) && NoReserved(c)
    ensures NoReserved(Next(c, a))
  {
  }

  lemma {:induction false} RunsKeepNoReserved(c: Cluster, acts: seq<Action>)
    requires NoReserved(c)
    ensures NoReserved(Exec(c, acts))
    decreases |acts|
  {
    if acts != [] {
      if Possible(c, acts[0]) {
        StepKeepsNoReserved(c, acts[0]);
        RunsKeepNoReserved(Next(c, acts[0]), acts[1..]);
      } else {
        RunsKeepNoReserved(c, acts[1..]);
      }
    }
  }

  /** However stale the caches, the configuration read for a dead-letter topic is absent. */
  lemma ReservedReadsNone(n: nat, acts: seq<Action>, node: nat, topic: string)
    requires node < |Exec(Start(n), acts).nodes| && Reserved(topic)
    ensures Answer(Exec(Start(n), acts), node, topic) == None
  {
    RunsKeepNoReserved(Start(n), acts);
  }

  // ------------------------------------------------------ a lost notification

  /** Nothing on its way will clear node's entry for topic. */
  ghost predicate Stuck(c: Cluster, node: nat, topic: string, v: Option<TopicConfig>) {
    && node < |c.nodes| && topic in c.nodes[node].l1 && c.nodes[node].l1[topic] == v
    && topic !in c.nodes[node].inbox && !Unpublished(c, topic)
  }

  lemma StuckStep(c: Cluster, a: Action, node: nat, topic: string, v: Option<TopicConfig>)
    requires Possible(c, a) && Stuck(c, node, topic, v)
    requires !((a.Upsert? || a.Remove?) && a.topic == topic)
    ensures Stuck(Next(c, a), node, topic, v)
  {
    forall w | w in Next(c, a).writers
      ensures Next(c, a).writers[w].topic != topic
    {
      if w !in c.writers {
        assert Next(c, a).writers[w].topic == a.topic;
      }
    }
    if a.Deliver? && a.node == node {
      assert c.nodes[node].inbox[0] in c.nodes[node].inbox;
    }
  }

  /** Had a notification been lost, the entry would stay until the topic is next written: L1 has no expiry. */
  lemma {:induction false} LostMeansStuck(c: Cluster, acts: seq<Action>, node: nat, topic: string, v: Option<TopicConfig>)
    requires Stuck(c, node, topic, v)
    requires forall i :: 0 <= i < |acts| ==> !((acts[i].Upsert? || acts[i].Remove?) && acts[i].topic == topic)
    ensures Stuck(Exec(c, acts), node, topic, v) && Answer(Exec(c, acts), node, topic) == v
    decreases |acts|
  {
    if acts != [] {
      if Possible(c, acts[0]) {
        StuckStep(c, acts[0], node, topic, v);
        LostMeansStuck(Next(c, acts[0]), acts[1..], node, topic, v);
      } else {
        LostMeansStuck(c, acts[1..], node, topic, v);
      }
    }
  }
}
