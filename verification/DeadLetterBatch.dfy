/** A batch claim on a dead-letter topic does differ from single ones. */
module DeadLetterBatch {
  import opened Tables
  import opened Claims
  import opened Machine
  import opened ConfigReads
  import opened DeliveryBound
  import opened BatchClaim

  /** Under every setting a run leads to a dead letter that n single claims hand out and a batch of n does not. */
  lemma BatchMissesDeadLetter(p: Settings, n: int, vt: Time) returns (h: Run)
    requires 1 <= n <= 1000
    ensures History(p, h) && Informed(h)
    ensures
      var db := h.states[|h.events|];
      && DequeueN(p, db, DlqTopic("a"), n, vt, 0.0).1 == Claimed(map[])
      && 0 in Rows(Dequeue(p, db, DlqTopic("a"), vt, 0.0).1)
      && DequeueN(p, db, DlqTopic("a"), n, vt, 0.0) !=
           (Singles(p, db, DlqTopic("a"), n, vt, 0.0).0, Claimed(Singles(p, db, DlqTopic("a"), n, vt, 0.0).1))
  {
    var h0 := FirstCycle(p);
    h := CyclesGoOn(p, h0, 0);
    var db := h.states[|h.events|];
    assert 0 in Claimable(db.messages, DlqTopic("a"), 0.0);
    BatchRefinesSingles(p, db, DlqTopic("a"), n, vt, 0.0);
  }
}
