/** Whether a requeue always undoes a promotion. */
module DeadLetterReturn {
  import opened Tables
  import opened Machine
  import opened Histories
  import opened DeadLetters
  import opened DeliveryBound
  import opened ConfigReads

  /** Call i promotes the message, call j is its next requeue ... */
  ghost predicate PromotedAndRequeued(p: Settings, h: Run, id: Id, i: nat, j: nat) {
    && History(p, h) && i < j < |h.events|
    && PromotedAt(p, h, i, id) && RequeuedAt(h, j, id)
    && forall k :: i < k < j ==> !RequeuedAt(h, k, id)
  }

  /** ... and nacks of dead letters see no configuration. */
  ghost predicate ThereAndBack(p: Settings, h: Run, id: Id, i: nat, j: nat) {
    PromotedAndRequeued(p, h, id, i, j) && ReservedUnconfigured(h)
  }

  ghost predicate IsRestored(h: Run, id: Id, i: nat, j: nat)
    requires Shaped(h) && i < j < |h.events|
  {
    && id in h.states[i].messages && id in h.states[j + 1].messages
    && Restored(h.states[i].messages[id], h.states[j + 1].messages[id])
  }

  ghost predicate AlwaysRestores(p: Settings) {
    forall h, id, i: nat, j: nat :: ThereAndBack(p, h, id, i, j) ==> IsRestored(h, id, i, j)
  }

  /** With a threshold of 1: enqueue, two rounds of claim and nack, and a requeue that comes back one level short. */
  lemma ComesBackShort(p: Settings) returns (h: Run)
    requires p.dlqThreshold == 1
    ensures ThereAndBack(p, h, 0, 3, 6) && Informed(h) && !IsRestored(h, 0, 3, 6)
  {
    var h0 := FirstCycle(p);
    var h1 := CyclesGoOn(p, h0, 0);
    var h2 := CyclesGoOn(p, h1, 1);
    h := RequeuedShort(p, h1, h2);
  }

  lemma OneLevelUp(p: Settings, db: Db, e: Event, home: string)
    requires CyclingState(db) && e.op == OpRequeue(0, None)
    requires db.messages[0].originalTopic == Some(home) && Reserved(home)
    ensures SeesRow(db, e.op) && Step(p, db, e).1 == Done
    ensures 0 in Step(p, db, e).0.messages && Step(p, db, e).0.messages[0].topic == home
  {
  }

  lemma InformedOnceMore(h: Run, g: Run)
    requires Shaped(h) && Shaped(g) && Informed(h) && |g.events| == |h.events| + 1
    requires h.events <= g.events && h.states <= g.states && SeesRow(h.states[|h.events|], g.events[|h.events|].op)
    ensures Informed(g)
  {
    forall i | 0 <= i < |g.events| ensures SeesRow(g.states[i], g.events[i].op) {
      if i < |h.events| {
        assert SeesRow(h.states[i], h.events[i].op);
      }
    }
  }

  lemma RequeuedShort(p: Settings, h1: Run, h2: Run) returns (h: Run)
    requires p.dlqThreshold == 1 && Cycling(p, h1, 1) && Cycling(p, h2, 2)
    requires Cycled(p, h1, h2) && PromotedAt(p, h1, 3, 0)
    requires h1.states[4].messages[0].topic == DlqTopic(h1.states[3].messages[0].topic)
    requires forall k :: 3 < k < 6 ==> !RequeuedAt(h2, k, 0)
    ensures ThereAndBack(p, h, 0, 3, 6) && Informed(h) && !IsRestored(h, 0, 3, 6)
  {
    var e := Event(OpRequeue(0, None), 0.0);
    OneLevelUp(p, h2.states[6], e, DlqTopic(h1.states[3].messages[0].topic));
    h := OneMoreCall(p, h2, e);
    InformedOnceMore(h2, h);
    InformedMeansUnconfigured(p, h);
  }

  /** A requeue always brings the message back from its promotion exactly when the global threshold is not 1. */
  lemma RestoresIffThresholdNotOne(p: Settings)
    ensures AlwaysRestores(p) <==> p.dlqThreshold != 1
  {
    if p.dlqThreshold == 1 {
      var h := ComesBackShort(p);
      assert !AlwaysRestores(p);
    } else {
      forall h, id, i: nat, j: nat | ThereAndBack(p, h, id, i, j) ensures IsRestored(h, id, i, j) {
        RoundTrip(p, h, id, i, j);
      }
    }
  }
}
