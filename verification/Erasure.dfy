/** Running a list of calls and collecting the replies one observer cares about. */
module Erasure {
  import opened Tables
  import opened Machine
  import opened RowHistory

  ghost predicate NoReplay(es: seq<Event>) {
    forall i :: 0 <= i < |es| ==> !es[i].op.OpReplay?
  }

  /** The replies to the calls the observer watches, in order. */
  ghost function Observed(p: Settings, db: Db, es: seq<Event>, watches: Op -> bool): seq<Reply>
    requires NoReplay(es)
    decreases |es|
  {
    if es == [] then []
    else
      var (after, reply) := Step(p, db, es[0]);
      (if watches(es[0].op) then [reply] else []) + Observed(p, after, es[1..], watches)
  }

  /** The list without the calls of one kind. */
  ghost function Without(es: seq<Event>, drops: Op -> bool): (r: seq<Event>)
    ensures NoReplay(es) ==> NoReplay(r)
    decreases |es|
  {
    if es == [] then []
    else (if drops(es[0].op) then [] else [es[0]]) + Without(es[1..], drops)
  }

  /** No call brings an identifier the database has, or another call brings. */
  ghost predicate FreshFor(db: Db, es: seq<Event>) {
    && (forall i :: 0 <= i < |es| ==> NewIds(es[i].op) !! db.messages.Keys)
    && IdsNeverRepeat(es)
  }

  lemma FreshForRest(p: Settings, db: Db, es: seq<Event>)
    requires NoReplay(es) && es != [] && FreshFor(db, es)
    ensures FreshFor(Step(p, db, es[0]).0, es[1..])
  {
    var after := Step(p, db, es[0]).0;
    forall i | 0 <= i < |es[1..]| ensures NewIds(es[1..][i].op) !! after.messages.Keys {
      forall id | id in NewIds(es[i + 1].op) ensures id !in after.messages {
        assert NewIds(es[0].op) !! NewIds(es[i + 1].op);
        RowSteps(p, db, es[0], id);
      }
    }
  }

  lemma FreshForTail(db: Db, es: seq<Event>)
    requires es != [] && FreshFor(db, es)
    ensures FreshFor(db, es[1..])
  {
  }

  lemma WithoutKeeps(es: seq<Event>, drops: Op -> bool)
    requires es != [] && !drops(es[0].op)
    ensures Without(es, drops) != [] && Without(es, drops)[0] == es[0]
    ensures Without(es, drops)[1..] == Without(es[1..], drops)
  {
  }

  lemma WithoutDrops(es: seq<Event>, drops: Op -> bool)
    requires es != [] && drops(es[0].op)
    ensures Without(es, drops) == Without(es[1..], drops)
  {
    assert [] + Without(es[1..], drops) == Without(es[1..], drops);
  }

  lemma Unwatched(p: Settings, db: Db, es: seq<Event>, watches: Op -> bool)
    requires NoReplay(es) && es != [] && !watches(es[0].op)
    ensures Observed(p, db, es, watches) == Observed(p, Step(p, db, es[0]).0, es[1..], watches)
  {
    var rest := Observed(p, Step(p, db, es[0]).0, es[1..], watches);
    assert [] + rest == rest;
  }
}
