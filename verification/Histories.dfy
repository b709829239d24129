/** A run seen row by row: what the step relations of RowHistory say at every point of a history. */
module Histories {
  import opened Tables
  import opened Machine
  import opened RowHistory

  /** One of the first i calls brought this identifier. */
  ghost predicate Introduced(h: Run, i: nat, id: Id)
    requires i <= |h.events|
  {
    exists k :: 0 <= k < i && id in NewIds(h.events[k].op)
  }

  ghost predicate Shaped(h: Run) {
    |h.replies| == |h.events| && |h.states| == |h.events| + 1
  }

  ghost predicate RowAt(p: Settings, h: Run, i: nat, id: Id)
    requires Shaped(h) && i < |h.events|
  {
    RowStep(p, h.states[i], h.events[i], h.replies[i], id, Row(h.states[i], id), Row(h.states[i + 1], id))
  }

  ghost predicate DeliveryRowAt(p: Settings, h: Run, i: nat, k: DeliveryKey)
    requires Shaped(h) && i < |h.events|
  {
    DeliveryStep(p, h.states[i], h.events[i], h.replies[i], k, DeliveryAt(h.states[i], k), DeliveryAt(h.states[i + 1], k))
  }

  ghost predicate LogAt(h: Run, i: nat)
    requires Shaped(h) && i < |h.events|
  {
    LogStep(h.states[i], h.events[i], h.replies[i], h.states[i + 1])
  }

  ghost predicate ConfigAt(h: Run, i: nat)
    requires Shaped(h) && i < |h.events|
  {
    ConfigStep(h.states[i], h.events[i], h.replies[i], h.states[i + 1])
  }

  ghost predicate SoundAt(h: Run, i: nat)
    requires Shaped(h) && i <= |h.events|
  {
    && Linked(h.states[i])
    && (forall id :: id in h.states[i].messages ==> Introduced(h, i, id))
    && (i < |h.events| ==> BringsNewIds(h.states[i], h.events[i].op))
  }

  /** Everything the row-wise arguments need to know of a history. */
  ghost predicate Chronicle(p: Settings, h: Run) {
    && Shaped(h)
    && (forall i, id :: 0 <= i < |h.events| ==> RowAt(p, h, i, id))
    && (forall i, k :: 0 <= i < |h.events| ==> DeliveryRowAt(p, h, i, k))
    && (forall i :: 0 <= i < |h.events| ==> LogAt(h, i))
    && (forall i :: 0 <= i < |h.events| ==> ConfigAt(h, i))
    && (forall i :: 0 <= i <= |h.events| ==> SoundAt(h, i))
    && IdsNeverRepeat(h.events)
    && ClockAdvances(h.events)
    && h.states[0] == EmptyDb
  }

  lemma StepRows(p: Settings, db: Db, e: Event)
    requires Enabled(db, e) && BringsNewIds(db, e.op) && Linked(db)
    ensures
      var (after, reply) := Step(p, db, e);
      && (forall id :: RowStep(p, db, e, reply, id, Row(db, id), Row(after, id)))
      && (forall k :: DeliveryStep(p, db, e, reply, k, DeliveryAt(db, k), DeliveryAt(after, k)))
      && LogStep(db, e, reply, after)
      && ConfigStep(db, e, reply, after)
      && Linked(after)
  {
    var (after, reply) := Step(p, db, e);
    forall id ensures RowStep(p, db, e, reply, id, Row(db, id), Row(after, id)) {
      RowSteps(p, db, e, id);
    }
    forall k ensures DeliveryStep(p, db, e, reply, k, DeliveryAt(db, k), DeliveryAt(after, k)) {
      DeliverySteps(p, db, e, k);
    }
    LogSteps(p, db, e);
    ConfigSteps(p, db, e);
    StaysLinked(p, db, e);
  }

  /** A row that is new has an identifier the call brought. */
  lemma BornRow(p: Settings, db: Db, e: Event, reply: Reply, id: Id, a: Option<Message>, b: Option<Message>)
    requires RowStep(p, db, e, reply, id, a, b) && a.None? && b.Some?
    ensures id in NewIds(e.op) && b.value.status == Pending
  {
  }

  lemma {:induction false} SoundPrefix(p: Settings, h: Run, i: nat)
    requires History(p, h) && i <= |h.events|
    ensures SoundAt(h, i)
    decreases i
  {
    if i > 0 {
      SoundPrefix(p, h, i - 1);
      var db, e := h.states[i - 1], h.events[i - 1];
      assert StepAt(p, h, i - 1);
      StepRows(p, db, e);
      forall id | id in h.states[i].messages ensures Introduced(h, i, id) {
        if id in db.messages {
          assert Introduced(h, i - 1, id);
        } else {
          BornRow(p, db, e, h.replies[i - 1], id, Row(db, id), Row(h.states[i], id));
        }
      }
    }
    if i < |h.events| {
      assert DistinctIds(h.events[i].op);
    }
  }

  lemma RowsAt(p: Settings, h: Run, i: nat)
    requires History(p, h) && i < |h.events| && SoundAt(h, i)
    ensures (forall id :: RowAt(p, h, i, id)) && (forall k :: DeliveryRowAt(p, h, i, k)) && LogAt(h, i) && ConfigAt(h, i)
  {
    assert StepAt(p, h, i);
    StepRows(p, h.states[i], h.events[i]);
  }

  lemma ChronicleOf(p: Settings, h: Run)
    requires History(p, h)
    ensures Chronicle(p, h)
  {
    forall i | 0 <= i <= |h.events| ensures SoundAt(h, i) {
      SoundPrefix(p, h, i);
    }
    forall i, id | 0 <= i < |h.events| ensures RowAt(p, h, i, id) {
      RowsAt(p, h, i);
    }
    forall i, k | 0 <= i < |h.events| ensures DeliveryRowAt(p, h, i, k) {
      RowsAt(p, h, i);
    }
    forall i | 0 <= i < |h.events| ensures LogAt(h, i) {
      RowsAt(p, h, i);
    }
    forall i | 0 <= i < |h.events| ensures ConfigAt(h, i) {
      RowsAt(p, h, i);
    }
  }

  /** An identifier that has been brought is not brought again. */
  lemma NotBroughtAgain(h: Run, i: nat, j: nat, id: Id)
    requires IdsNeverRepeat(h.events) && i <= j < |h.events| && Introduced(h, i, id)
    ensures id !in NewIds(h.events[j].op) && Introduced(h, j, id)
  {
    var k :| 0 <= k < i && id in NewIds(h.events[k].op);
    assert NewIds(h.events[k].op) !! NewIds(h.events[j].op);
  }

  /** A message that is gone stays gone. */
  lemma {:induction false} GoneForGood(p: Settings, h: Run, id: Id, i: nat, j: nat)
    requires Chronicle(p, h) && i <= j <= |h.events|
    requires Introduced(h, i, id) && id !in h.states[i].messages
    ensures id !in h.states[j].messages
    decreases j
  {
    if i < j {
      GoneForGood(p, h, id, i, j - 1);
      NotBroughtAgain(h, i, j - 1, id);
      assert RowAt(p, h, j - 1, id);
    }
  }
}
