/** Runs whose configuration arguments are what the instances' caches answered. */
module CachedRuns {
  import opened Tables
  import opened Machine
  import opened RowHistory
  import opened Histories
  import opened DeadLetters
  import opened DeliveryBound
  import opened DeadLetterReturn
  import opened ConfigReads
  import ConfigCache

  /** The call runs at an instance of the cluster, on the same configuration table, and sees what the instance reads. */
  ghost predicate ServedBy(db: Db, op: Op, c: ConfigCache.Cluster, node: nat) {
    && node < |c.nodes| && c.config == db.config
    && (ReadTopic(db, op).Some? ==> CfgOf(op) == ConfigCache.Answer(c, node, ReadTopic(db, op).value))
  }

  /** Call i runs at instance node[i] after at[i] of the cluster's actions. */
  datatype Deployment = Deployment(instances: nat, acts: seq<ConfigCache.Action>, at: seq<nat>, node: seq<nat>)

  ghost predicate ThroughCaches(h: Run, s: Deployment)
    requires Shaped(h)
  {
    && |s.at| == |s.node| == |h.events|
    && (forall i, j :: 0 <= i <= j < |s.at| ==> s.at[i] <= s.at[j] <= |s.acts|)
    && forall i :: 0 <= i < |h.events| ==>
         ServedBy(h.states[i], h.events[i].op, ConfigCache.Exec(ConfigCache.Start(s.instances), s.acts[..s.at[i]]), s.node[i])
  }

  /** However stale the caches, no nack on a dead-letter topic ever sees a configuration. */
  lemma CachesNeverConfigureReserved(h: Run, s: Deployment)
    requires Shaped(h) && ThroughCaches(h, s)
    ensures ReservedUnconfigured(h)
  {
    forall i | 0 <= i < |h.events| ensures NackSeesNone(h.states[i], h.events[i].op) {
      var (db, op) := (h.states[i], h.events[i].op);
      assert ServedBy(db, op, ConfigCache.Exec(ConfigCache.Start(s.instances), s.acts[..s.at[i]]), s.node[i]);
      if op.OpNack? && op.id in db.messages && Reserved(db.messages[op.id].topic) {
        ConfigCache.ReservedReadsNone(s.instances, s.acts[..s.at[i]], s.node[i], db.messages[op.id].topic);
      }
    }
  }

  /** The round trip, on any number of instances with whatever their caches hold. */
  lemma RoundTripThroughCaches(p: Settings, h: Run, s: Deployment, id: Id, i: nat, j: nat)
    requires p.dlqThreshold != 1 && PromotedAndRequeued(p, h, id, i, j) && ThroughCaches(h, s)
    ensures id in h.states[j + 1].messages && Restored(h.states[i].messages[id], h.states[j + 1].messages[id])
    ensures SeesLimit(p, h.events[j].op.cfg, h.states[j + 1].messages[id].maxRetries)
  {
    CachesNeverConfigureReserved(h, s);
    RoundTrip(p, h, id, i, j);
  }

  /** The delivery bound, likewise. */
  lemma DeliveriesBoundedThroughCaches(p: Settings, h: Run, s: Deployment, id: Id, maxRetries: int, i: nat, j: nat)
    requires p.dlqThreshold != 1 && LivesUntil(p, h, id, maxRetries, i, j) && ThroughCaches(h, s)
    ensures ClaimCount(h, id, i + 1, j) <= Bound(maxRetries) && Promotions(p, h, id, i + 1, j) <= 1
  {
    CachesNeverConfigureReserved(h, s);
    DeliveriesBounded(p, h, id, maxRetries, i, j);
  }

  // ------------------------------------------ runs that see the rows as they are

  /** The write behind a call, at process 0; other calls let the cluster be. */
  function WriteOf(op: Op, w: nat): ConfigCache.Action {
    match op
    case OpUpsertConfig(topic, cfg) => ConfigCache.Upsert(w, 0, topic, cfg)
    case OpDeleteConfig(topic) => ConfigCache.Remove(w, 0, topic)
    case _ => ConfigCache.Publish(w)
  }

  function WritesOf(h: Run, n: nat): (acts: seq<ConfigCache.Action>)
    requires n <= |h.events|
    ensures |acts| == n
    decreases n
  {
    if n == 0 then [] else WritesOf(h, n - 1) + [WriteOf(h.events[n - 1].op, n - 1)]
  }

  lemma {:induction false} WritesPrefix(h: Run, m: nat, n: nat)
    requires m <= n <= |h.events|
    ensures WritesOf(h, n)[..m] == WritesOf(h, m)
    decreases n
  {
    if m < n {
      WritesPrefix(h, m, n - 1);
      assert WritesOf(h, n)[..m] == WritesOf(h, n - 1)[..m];
    }
  }

  /** One process with nothing cached, on this table. */
  ghost predicate Uncached(c: ConfigCache.Cluster, db: Db, n: nat) {
    && c.config == db.config && c.l2 == map[] && |c.nodes| == 1 && c.nodes[0].l1 == map[]
    && forall w :: w in c.writers ==> w < n
  }

  lemma WriteKeepsUncached(db: Db, e: Event, reply: Reply, after: Db, c: ConfigCache.Cluster, n: nat)
    requires ConfigStep(db, e, reply, after) && Uncached(c, db, n)
    ensures
      var a := WriteOf(e.op, n);
      Uncached(if ConfigCache.Possible(c, a) then ConfigCache.Next(c, a) else c, after, n + 1)
  {
  }

  lemma {:induction false} WritesFollow(p: Settings, h: Run, n: nat)
    requires Chronicle(p, h) && n <= |h.events|
    ensures Uncached(ConfigCache.Exec(ConfigCache.Start(1), WritesOf(h, n)), h.states[n], n)
    decreases n
  {
    if n > 0 {
      WritesFollow(p, h, n - 1);
      var a := WriteOf(h.events[n - 1].op, n - 1);
      ConfigCache.ExecMore(ConfigCache.Start(1), WritesOf(h, n - 1), a);
      assert ConfigAt(h, n - 1);
      WriteKeepsUncached(h.states[n - 1], h.events[n - 1], h.replies[n - 1], h.states[n],
                         ConfigCache.Exec(ConfigCache.Start(1), WritesOf(h, n - 1)), n - 1);
    }
  }

  /** Every run in which each call sees the row there is runs through the caches of some instance. */
  lemma InformedIsDeployed(p: Settings, h: Run) returns (s: Deployment)
    requires History(p, h) && Informed(h)
    ensures ThroughCaches(h, s)
  {
    ChronicleOf(p, h);
    var n := |h.events|;
    s := Deployment(1, WritesOf(h, n), seq(n, i => i), seq(n, i => 0));
    forall i | 0 <= i < n
      ensures ServedBy(h.states[i], h.events[i].op, ConfigCache.Exec(ConfigCache.Start(1), s.acts[..s.at[i]]), s.node[i])
    {
      WritesPrefix(h, i, n);
      WritesFollow(p, h, i);
      assert SeesRow(h.states[i], h.events[i].op);
    }
  }

  ghost predicate AlwaysBoundedThroughCaches(p: Settings) {
    forall h, s, id, maxRetries, i: nat, j: nat :: LivesUntil(p, h, id, maxRetries, i, j) && ThroughCaches(h, s) ==>
      ClaimCount(h, id, i + 1, j) <= Bound(maxRetries)
  }

  /** The bound holds of every run through the caches exactly when the global threshold is not 1. */
  lemma BoundedThroughCachesIff(p: Settings)
    ensures AlwaysBoundedThroughCaches(p) <==> p.dlqThreshold != 1
  {
    if p.dlqThreshold == 1 {
      var h := UnboundedAtThresholdOne(p, Bound(1) + 1);
      var s := InformedIsDeployed(p, h);
      assert ThroughCaches(h, s) && !(ClaimCount(h, 0, 1 + 1, |h.events|) <= Bound(1));
    } else {
      forall h, s, id, maxRetries, i: nat, j: nat | LivesUntil(p, h, id, maxRetries, i, j) && ThroughCaches(h, s)
        ensures ClaimCount(h, id, i + 1, j) <= Bound(maxRetries)
      {
        DeliveriesBoundedThroughCaches(p, h, s, id, maxRetries, i, j);
      }
    }
  }

  ghost predicate AlwaysRestoresThroughCaches(p: Settings) {
    forall h, s, id, i: nat, j: nat :: PromotedAndRequeued(p, h, id, i, j) && ThroughCaches(h, s) ==>
      IsRestored(h, id, i, j)
  }

  /** A requeue brings the message back in every run through the caches exactly when the global threshold is not 1. */
  lemma RestoresThroughCachesIff(p: Settings)
    ensures AlwaysRestoresThroughCaches(p) <==> p.dlqThreshold != 1
  {
    if p.dlqThreshold == 1 {
      var h := ComesBackShort(p);
      var s := InformedIsDeployed(p, h);
      assert PromotedAndRequeued(p, h, 0, 3, 6) && ThroughCaches(h, s) && !IsRestored(h, 0, 3, 6);
    } else {
      forall h, s, id, i: nat, j: nat | PromotedAndRequeued(p, h, id, i, j) && ThroughCaches(h, s) ensures IsRestored(h, id, i, j) {
        RoundTripThroughCaches(p, h, s, id, i, j);
      }
    }
  }
}
