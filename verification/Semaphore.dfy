/** consumer.ts, drainStream: handlers run under a counter of active slots and a queue of messages waiting for one.
    Messages are numbered in the order the stream delivers them; every callback is one step. */
module Semaphore {
  import opened Tables

  /** Waiting: in waitQueue. Holding: has a slot, its handler yet to be called. Reporting: its ack or nack is under way. */
  datatype Phase = Waiting | Holding | Handling | Reporting | Finished

  /** The calls made on the stub. */
  datatype Call = AckCall(message: nat) | NackCall(message: nat)

  datatype State = State(
    activeCount: int,
    waitQueue: seq<nat>,
    messages: seq<Phase>,
    grants: seq<nat>,          // messages in the order they were given a slot
    calls: seq<Call>,
    aborted: bool,
    settled: Option<bool>,     // settle's cleanExit, once called
    awaited: nat,              // the length of inFlight at that moment
    resolved: Option<bool>)

  datatype Event =
    | Data
    | Start(i: nat)
    | HandlerEnds(i: nat, threw: bool)
    | ReportEnds(i: nat)
    | Abort
    | Failed
    | End
    | Resolve

  const Initial := State(0, [], [], [], [], false, None, 0, None)

  /** acquireSlot for message i. */
  function AcquireSlot(c: int, s: State, i: nat): State {
    if s.activeCount < c then s.(activeCount := s.activeCount + 1, grants := s.grants + [i])
    else s.(waitQueue := s.waitQueue + [i])
  }

  function Received(c: int, s: State): State {
    var i := |s.messages|;
    AcquireSlot(c, s.(messages := s.messages + [if s.activeCount < c then Holding else Waiting]), i)
  }

  /** releaseSlot: the slot passes to the longest waiting message, if there is one. */
  function ReleaseSlot(s: State): State
    requires forall k :: 0 <= k < |s.waitQueue| ==> s.waitQueue[k] < |s.messages|
  {
    if s.waitQueue != [] then
      var next := s.waitQueue[0];
      s.(waitQueue := s.waitQueue[1..], messages := s.messages[next := Holding], grants := s.grants + [next])
    else s.(activeCount := s.activeCount - 1)
  }

  function Settle(s: State, cleanExit: bool): State {
    if s.settled.Some? then s else s.(settled := Some(cleanExit), awaited := |s.messages|)
  }

  predicate AllFinished(messages: seq<Phase>, n: nat) {
    forall i :: 0 <= i < n && i < |messages| ==> messages[i].Finished?
  }

  predicate Enabled(s: State, e: Event) {
    match e
    case Data => true
    case Start(i) => i < |s.messages| && s.messages[i].Holding?
    case HandlerEnds(i, _) => i < |s.messages| && s.messages[i].Handling?
    case ReportEnds(i) => i < |s.messages| && s.messages[i].Reporting?
    case Abort => !s.aborted
    case Failed => true
    case End => true
    case Resolve => s.settled.Some? && s.resolved.None? && AllFinished(s.messages, s.awaited)
  }

  function At(s: State, i: nat, p: Phase): State
    requires i < |s.messages|
  {
    s.(messages := s.messages[i := p])
  }

  /** Waiters are messages; the queue never names anything else. */
  predicate QueueInRange(s: State) {
    forall k :: 0 <= k < |s.waitQueue| ==> s.waitQueue[k] < |s.messages|
  }

  function Next(c: int, s: State, e: Event): State
    requires Enabled(s, e) && QueueInRange(s)
  {
    match e
    case Data => Received(c, s)
    case Start(i) => At(s, i, Handling)
    case HandlerEnds(i, threw) => At(s, i, Reporting).(calls := s.calls + [if threw then NackCall(i) else AckCall(i)])
    case ReportEnds(i) => ReleaseSlot(At(s, i, Finished))
    case Abort => Settle(s.(aborted := true), true)
    case Failed => Settle(s, s.aborted)
    case End => Settle(s, true)
    case Resolve => s.(resolved := s.settled)
  }

  /** s is reached from the start by these events, in this order. */
  ghost predicate Reached(c: int, es: seq<Event>, s: State)
    decreases |es|
  {
    if es == [] then s == Initial
    else exists p :: Reached(c, es[..|es| - 1], p) && Enabled(p, es[|es| - 1]) && QueueInRange(p) && s == Next(c, p, es[|es| - 1])
  }

  lemma ReachedNext(c: int, es: seq<Event>, p: State, e: Event)
    requires Reached(c, es, p) && Enabled(p, e) && QueueInRange(p)
    ensures Reached(c, es + [e], Next(c, p, e))
  {
    assert (es + [e])[..|es|] == es;
  }

  // --------------------------------------------------------------- the invariant

  predicate InSlot(p: Phase) { p.Holding? || p.Handling? || p.Reporting? }

  function Held(messages: seq<Phase>): nat {
    if messages == [] then 0
    else Held(messages[..|messages| - 1]) + if InSlot(messages[|messages| - 1]) then 1 else 0
  }

  function CallsOn(calls: seq<Call>, i: nat): nat {
    if calls == [] then 0
    else CallsOn(calls[..|calls| - 1], i) + if calls[|calls| - 1].message == i then 1 else 0
  }

  function Upto(n: nat): seq<nat> { seq(n, i => i) }

  /** Slots are counted and bounded, granted once each in arrival order, and the rest wait in that order. */
  ghost predicate SlotsCounted(c: int, s: State) {
    && s.activeCount == Held(s.messages)
    && s.activeCount <= (if c > 0 then c else 0)
    && (s.waitQueue != [] ==> s.activeCount >= c)
  }

  ghost predicate InOrder(s: State) {
    && |s.grants| <= |s.messages|
    && s.grants + s.waitQueue == Upto(|s.messages|)
    && forall i :: 0 <= i < |s.messages| ==> (s.messages[i].Waiting? <==> i >= |s.grants|)
  }

  ghost predicate CalledOnce(s: State) {
    && (forall k :: 0 <= k < |s.calls| ==> s.calls[k].message < |s.messages|)
    && forall i :: 0 <= i < |s.messages| ==>
         CallsOn(s.calls, i) == if s.messages[i].Reporting? || s.messages[i].Finished? then 1 else 0
  }

  ghost predicate ResolvedLate(s: State) {
    && s.awaited <= |s.messages|
    && (s.resolved.Some? ==> s.resolved == s.settled && AllFinished(s.messages, s.awaited))
  }

  ghost predicate Inv(c: int, s: State) {
    SlotsCounted(c, s) && InOrder(s) && CalledOnce(s) && ResolvedLate(s)
  }

  lemma {:induction false} HeldUpdate(m: seq<Phase>, i: nat, p: Phase)
    requires i < |m|
    ensures Held(m[i := p]) == Held(m) - (if InSlot(m[i]) then 1 else 0) + (if InSlot(p) then 1 else 0)
    decreases |m|
  {
    var n := |m| - 1;
    if i < n {
      HeldUpdate(m[..n], i, p);
      assert m[i := p][..n] == m[..n][i := p];
    } else {
      assert m[i := p][..n] == m[..n];
    }
  }

  lemma HeldAppend(m: seq<Phase>, p: Phase)
    ensures Held(m + [p]) == Held(m) + if InSlot(p) then 1 else 0
  {
    assert (m + [p])[..|m|] == m;
  }

  lemma {:induction false} NoneHeld(m: seq<Phase>)
    ensures Held(m) == 0 <==> forall i :: 0 <= i < |m| ==> !InSlot(m[i])
    decreases |m|
  {
    if m != [] {
      NoneHeld(m[..|m| - 1]);
      assert forall i :: 0 <= i < |m| ==> m[i] == if i < |m| - 1 then m[..|m| - 1][i] else m[|m| - 1];
    }
  }

  lemma {:induction false} NoCallsYet(calls: seq<Call>, i: nat)
    requires forall k :: 0 <= k < |calls| ==> calls[k].message != i
    ensures CallsOn(calls, i) == 0
    decreases |calls|
  {
    if calls != [] {
      NoCallsYet(calls[..|calls| - 1], i);
    }
  }

  lemma CallsAppend(calls: seq<Call>, x: Call, i: nat)
    ensures CallsOn(calls + [x], i) == CallsOn(calls, i) + if x.message == i then 1 else 0
  {
    assert (calls + [x])[..|calls|] == calls;
  }

  lemma InOrderMeansInRange(s: State)
    requires InOrder(s)
    ensures QueueInRange(s)
    ensures forall k :: 0 <= k < |s.waitQueue| ==> s.waitQueue[k] == |s.grants| + k
    ensures |s.grants| + |s.waitQueue| == |s.messages|
  {
    assert |s.grants + s.waitQueue| == |s.messages|;
    forall k | 0 <= k < |s.waitQueue| ensures s.waitQueue[k] == |s.grants| + k {
      assert (s.grants + s.waitQueue)[|s.grants| + k] == s.waitQueue[k];
    }
  }

  lemma DataKeepsOrder(c: int, s: State)
    requires SlotsCounted(c, s) && InOrder(s)
    ensures InOrder(Received(c, s))
  {
    var n := |s.messages|;
    InOrderMeansInRange(s);
    assert Upto(n + 1) == Upto(n) + [n];
    if s.activeCount < c {
      assert s.waitQueue == [] && s.grants + [n] + s.waitQueue == (s.grants + s.waitQueue) + [n];
    } else {
      assert s.grants + (s.waitQueue + [n]) == (s.grants + s.waitQueue) + [n];
    }
  }

  lemma DataKeepsCalls(c: int, s: State)
    requires CalledOnce(s)
    ensures CalledOnce(Received(c, s))
  {
    NoCallsYet(s.calls, |s.messages|);
  }

  lemma DataKeepsSlots(c: int, s: State)
    requires SlotsCounted(c, s)
    ensures SlotsCounted(c, Received(c, s))
  {
    HeldAppend(s.messages, if s.activeCount < c then Holding else Waiting);
  }

  lemma DataKeepsInv(c: int, s: State)
    requires Inv(c, s)
    ensures Inv(c, Received(c, s))
  {
    DataKeepsSlots(c, s);
    DataKeepsCalls(c, s);
    DataKeepsOrder(c, s);
  }

  /** The released slot is given away or given up. */
  lemma ReportKeepsSlots(c: int, s: State, i: nat)
    requires SlotsCounted(c, s) && InOrder(s) && Enabled(s, ReportEnds(i)) && QueueInRange(s)
    ensures SlotsCounted(c, Next(c, s, ReportEnds(i)))
  {
    HeldUpdate(s.messages, i, Finished);
    InOrderMeansInRange(s);
    if s.waitQueue != [] {
      HeldUpdate(s.messages[i := Finished], s.waitQueue[0], Holding);
    }
  }

  lemma ReportKeepsOrder(c: int, s: State, i: nat)
    requires InOrder(s) && Enabled(s, ReportEnds(i)) && QueueInRange(s)
    ensures InOrder(Next(c, s, ReportEnds(i)))
  {
    var t := Next(c, s, ReportEnds(i));
    InOrderMeansInRange(s);
    if s.waitQueue != [] {
      assert s.waitQueue[0] == |s.grants|;
      assert t.grants + t.waitQueue == s.grants + s.waitQueue;
    }
  }

  lemma ReportKeepsInv(c: int, s: State, i: nat)
    requires Inv(c, s) && Enabled(s, ReportEnds(i)) && QueueInRange(s)
    ensures Inv(c, Next(c, s, ReportEnds(i)))
  {
    ReportKeepsSlots(c, s, i);
    ReportKeepsOrder(c, s, i);
    InOrderMeansInRange(s);
  }

  lemma HandlerKeepsInv(c: int, s: State, i: nat, threw: bool)
    requires Inv(c, s) && Enabled(s, HandlerEnds(i, threw)) && QueueInRange(s)
    ensures Inv(c, Next(c, s, HandlerEnds(i, threw)))
  {
    HeldUpdate(s.messages, i, Reporting);
    forall j | 0 <= j < |s.messages|
      ensures CallsOn(Next(c, s, HandlerEnds(i, threw)).calls, j) == CallsOn(s.calls, j) + if i == j then 1 else 0
    {
      CallsAppend(s.calls, if threw then NackCall(i) else AckCall(i), j);
    }
  }

  lemma StepKeepsInv(c: int, s: State, e: Event)
    requires Inv(c, s) && Enabled(s, e) && QueueInRange(s)
    ensures Inv(c, Next(c, s, e))
  {
    match e
    case Data => DataKeepsInv(c, s);
    case Start(i) => HeldUpdate(s.messages, i, Handling);
    case HandlerEnds(i, threw) => HandlerKeepsInv(c, s, i, threw);
    case ReportEnds(i) => ReportKeepsInv(c, s, i);
    case _ =>
  }

  lemma {:induction false} InvAlways(c: int, es: seq<Event>, s: State)
    requires Reached(c, es, s)
    ensures Inv(c, s)
    decreases |es|
  {
    if es == [] {
      assert Upto(0) == [];
    } else {
      var p :| Reached(c, es[..|es| - 1], p) && Enabled(p, es[|es| - 1]) && QueueInRange(p) && s == Next(c, p, es[|es| - 1]);
      InvAlways(c, es[..|es| - 1], p);
      StepKeepsInv(c, p, es[|es| - 1]);
    }
  }

  /** Whatever arrives and ends in whatever order: activeCount is the number of slots held and within the limit,
      messages wait only when every slot is taken, and slots go to messages 0, 1, 2, ... once each. */
  lemma SlotsAreExact(c: nat, es: seq<Event>, s: State)
    requires Reached(c, es, s)
    ensures s.activeCount == Held(s.messages) <= c
    ensures s.waitQueue != [] ==> s.activeCount == c
    ensures s.grants + s.waitQueue == Upto(|s.messages|)
  {
    InvAlways(c, es, s);
  }

  /** The queue holds exactly the messages without a slot. */
  lemma WaitersAreQueued(c: int, es: seq<Event>, s: State, i: nat)
    requires Reached(c, es, s) && i < |s.messages|
    ensures i in s.waitQueue <==> s.messages[i].Waiting?
  {
    InvAlways(c, es, s);
    InOrderMeansInRange(s);
    if s.messages[i].Waiting? {
      assert s.waitQueue[i - |s.grants|] == i;
    }
  }

  // ---------------------------------------------------------- no wake-up is lost

  /** A step of a message already received. */
  predicate Internal(e: Event) {
    e.Start? || e.HandlerEnds? || e.ReportEnds?
  }

  ghost predicate Stuck(s: State) {
    forall e :: Internal(e) ==> !Enabled(s, e)
  }

  /** When no received message can move any more: with a positive limit all are handled; with none they all wait,
      whatever happened before. */
  lemma NoWakeUpIsLost(c: int, es: seq<Event>, s: State)
    requires Reached(c, es, s) && Stuck(s)
    ensures c >= 1 ==> forall i :: 0 <= i < |s.messages| ==> s.messages[i].Finished?
    ensures c <= 0 ==> forall i :: 0 <= i < |s.messages| ==> s.messages[i].Waiting?
  {
    InvAlways(c, es, s);
    InOrderMeansInRange(s);
    forall i | 0 <= i < |s.messages| ensures !InSlot(s.messages[i]) {
      assert !Enabled(s, Start(i)) && !Enabled(s, HandlerEnds(i, false)) && !Enabled(s, ReportEnds(i));
    }
    NoneHeld(s.messages);
    if c <= 0 {
      NothingGranted(c, es, s);
    }
  }

  lemma {:induction false} NothingGranted(c: int, es: seq<Event>, s: State)
    requires Reached(c, es, s) && c <= 0
    ensures s.grants == [] && Held(s.messages) == 0
    decreases |es|
  {
    InvAlways(c, es, s);
    if es != [] {
      var p :| Reached(c, es[..|es| - 1], p) && Enabled(p, es[|es| - 1]) && QueueInRange(p) && s == Next(c, p, es[|es| - 1]);
      NothingGranted(c, es[..|es| - 1], p);
      InvAlways(c, es[..|es| - 1], p);
      StillNothing(c, p, es[|es| - 1]);
    }
  }

  lemma StillNothing(c: int, s: State, e: Event)
    requires c <= 0 && Inv(c, s) && s.grants == [] && Enabled(s, e) && QueueInRange(s)
    ensures Next(c, s, e).grants == []
  {
    if e.ReportEnds? {
      assert InSlot(s.messages[e.i]);
      NoneHeld(s.messages);
    }
  }

  function ToGo(p: Phase): nat {
    match p case Waiting => 4 case Holding => 3 case Handling => 2 case Reporting => 1 case Finished => 0
  }

  function Remaining(messages: seq<Phase>): nat {
    if messages == [] then 0 else Remaining(messages[..|messages| - 1]) + ToGo(messages[|messages| - 1])
  }

  lemma {:induction false} RemainingUpdate(m: seq<Phase>, i: nat, p: Phase)
    requires i < |m|
    ensures Remaining(m[i := p]) == Remaining(m) - ToGo(m[i]) + ToGo(p)
    decreases |m|
  {
    var n := |m| - 1;
    if i < n {
      RemainingUpdate(m[..n], i, p);
      assert m[i := p][..n] == m[..n][i := p];
    } else {
      assert m[i := p][..n] == m[..n];
    }
  }

  /** ... and messages cannot move forever: every such step brings the end nearer. */
  lemma MovesRunOut(c: int, s: State, e: Event)
    requires InOrder(s) && Internal(e) && Enabled(s, e) && QueueInRange(s)
    ensures Remaining(Next(c, s, e).messages) < Remaining(s.messages)
  {
    InOrderMeansInRange(s);
    match e
    case Start(i) => RemainingUpdate(s.messages, i, Handling);
    case HandlerEnds(i, _) => RemainingUpdate(s.messages, i, Reporting);
    case ReportEnds(i) =>
      RemainingUpdate(s.messages, i, Finished);
      if s.waitQueue != [] {
        RemainingUpdate(s.messages[i := Finished], s.waitQueue[0], Holding);
      }
  }

  // ------------------------------------------------------------------- resolving

  predicate Settles(e: Event) { e.Abort? || e.Failed? || e.End? }

  predicate SomeSettles(es: seq<Event>) {
    es != [] && (Settles(es[0]) || SomeSettles(es[1..]))
  }

  /** The messages that arrive before the stream ends, fails or is aborted. */
  function ArrivedBeforeSettling(es: seq<Event>): nat {
    if es == [] || Settles(es[0]) then 0
    else (if es[0].Data? then 1 else 0) + ArrivedBeforeSettling(es[1..])
  }

  lemma {:induction false} ArrivedAppend(es: seq<Event>, e: Event)
    ensures ArrivedBeforeSettling(es + [e])
         == ArrivedBeforeSettling(es) + if e.Data? && !SomeSettles(es) then 1 else 0
    decreases |es|
  {
    if es == [] {
      assert es + [e] == [e];
    } else {
      assert (es + [e])[1..] == es[1..] + [e];
      ArrivedAppend(es[1..], e);
    }
  }

  lemma {:induction false} SomeAppend(es: seq<Event>, e: Event)
    ensures SomeSettles(es + [e]) <==> SomeSettles(es) || Settles(e)
    decreases |es|
  {
    if es == [] {
      assert es + [e] == [e];
    } else {
      assert (es + [e])[1..] == es[1..] + [e];
      SomeAppend(es[1..], e);
    }
  }

  lemma {:induction false} AwaitsWhatArrived(c: int, es: seq<Event>, s: State)
    requires Reached(c, es, s)
    ensures s.settled.Some? <==> SomeSettles(es)
    ensures ArrivedBeforeSettling(es) == if s.settled.Some? then s.awaited else |s.messages|
    decreases |es|
  {
    if es != [] {
      var n := |es| - 1;
      var p :| Reached(c, es[..n], p) && Enabled(p, es[n]) && QueueInRange(p) && s == Next(c, p, es[n]);
      AwaitsWhatArrived(c, es[..n], p);
      assert es[..n] + [es[n]] == es;
      ArrivedAppend(es[..n], es[n]);
      SomeAppend(es[..n], es[n]);
      StepAwaits(c, p, es[n]);
    }
  }

  lemma StepAwaits(c: int, p: State, e: Event)
    requires Enabled(p, e) && QueueInRange(p)
    ensures
      var s := Next(c, p, e);
      && (s.settled.Some? <==> p.settled.Some? || Settles(e))
      && (p.settled.Some? ==> s.awaited == p.awaited)
      && (p.settled.None? && s.settled.Some? ==> s.awaited == |p.messages|)
      && |s.messages| == |p.messages| + if e.Data? then 1 else 0
  {
  }

  /** Event k is the first by which the stream ends, fails or is aborted. */
  predicate SettledBy(es: seq<Event>, k: int) {
    0 <= k < |es| && Settles(es[k]) && forall j :: 0 <= j < k ==> !Settles(es[j])
  }

  lemma {:induction false} FirstSettles(es: seq<Event>) returns (k: nat)
    requires SomeSettles(es)
    ensures SettledBy(es, k)
    decreases |es|
  {
    if Settles(es[0]) {
      k := 0;
    } else {
      var j := FirstSettles(es[1..]);
      k := j + 1;
      forall i | 0 <= i < k ensures !Settles(es[i]) {
        assert i > 0 ==> es[i] == es[1..][i - 1];
      }
    }
  }

  lemma {:induction false} NoneSettles(es: seq<Event>)
    requires forall i :: 0 <= i < |es| ==> !Settles(es[i])
    ensures !SomeSettles(es)
    decreases |es|
  {
    if es != [] {
      NoneSettles(es[1..]);
    }
  }

  lemma StepSettles(c: int, p: State, e: Event)
    requires Enabled(p, e) && QueueInRange(p) && (p.aborted ==> p.settled.Some?)
    ensures
      var s := Next(c, p, e);
      && (s.aborted ==> s.settled.Some?)
      && s.settled == if p.settled.None? && Settles(e) then Some(!e.Failed?) else p.settled
  {
  }

  /** The first of those events decides: the exit is unclean exactly when it is a failure. */
  lemma {:induction false} FirstVerdict(c: int, es: seq<Event>, s: State)
    requires Reached(c, es, s)
    ensures s.aborted ==> s.settled.Some?
    ensures forall k :: SettledBy(es, k) ==> s.settled == Some(!es[k].Failed?)
    decreases |es|
  {
    if es != [] {
      var n := |es| - 1;
      var p :| Reached(c, es[..n], p) && Enabled(p, es[n]) && QueueInRange(p) && s == Next(c, p, es[n]);
      FirstVerdict(c, es[..n], p);
      StepSettles(c, p, es[n]);
      AwaitsWhatArrived(c, es[..n], p);
      forall k | SettledBy(es, k) ensures s.settled == Some(!es[k].Failed?) {
        if k < n {
          assert SettledBy(es[..n], k) && es[..n][k] == es[k];
        } else {
          NoneSettles(es[..n]);
        }
      }
    }
  }

  lemma StepReports(c: int, p: State, e: Event, i: nat)
    requires Enabled(p, e) && QueueInRange(p)
    ensures AckCall(i) in Next(c, p, e).calls <==> AckCall(i) in p.calls || e == HandlerEnds(i, false)
    ensures NackCall(i) in Next(c, p, e).calls <==> NackCall(i) in p.calls || e == HandlerEnds(i, true)
  {
  }

  /** A message is acked exactly when its handler has returned, and nacked exactly when it has thrown. */
  lemma {:induction false} ReportsAsHandled(c: int, es: seq<Event>, s: State, i: nat)
    requires Reached(c, es, s)
    ensures AckCall(i) in s.calls <==> HandlerEnds(i, false) in es
    ensures NackCall(i) in s.calls <==> HandlerEnds(i, true) in es
    decreases |es|
  {
    if es != [] {
      var n := |es| - 1;
      var p :| Reached(c, es[..n], p) && Enabled(p, es[n]) && QueueInRange(p) && s == Next(c, p, es[n]);
      ReportsAsHandled(c, es[..n], p, i);
      StepReports(c, p, es[n], i);
      assert es == es[..n] + [es[n]];
    }
  }

  lemma {:induction false} OneCallMeansACall(calls: seq<Call>, i: nat)
    requires CallsOn(calls, i) >= 1
    ensures AckCall(i) in calls || NackCall(i) in calls
    decreases |calls|
  {
    var n := |calls| - 1;
    if calls[n].message == i {
      assert calls[n] == AckCall(i) || calls[n] == NackCall(i);
    } else {
      OneCallMeansACall(calls[..n], i);
    }
  }

  /** The stream resolves, uncleanly exactly when it failed first, only after each message that arrived before settling
      has been handled with exactly one report: an ack if its handler returned, a nack if it threw. */
  lemma ResolvesAfterHandling(c: int, es: seq<Event>, s: State, i: nat)
    requires Reached(c, es, s) && s.resolved.Some? && i < ArrivedBeforeSettling(es)
    ensures s.resolved == s.settled
    ensures exists k :: SettledBy(es, k) && s.resolved == Some(!es[k].Failed?)
    ensures i < |s.messages| && s.messages[i].Finished? && CallsOn(s.calls, i) == 1
    ensures HandlerEnds(i, false) in es || HandlerEnds(i, true) in es
    ensures AckCall(i) in s.calls <==> HandlerEnds(i, false) in es
    ensures NackCall(i) in s.calls <==> HandlerEnds(i, true) in es
  {
    InvAlways(c, es, s);
    AwaitsWhatArrived(c, es, s);
    FirstVerdict(c, es, s);
    var k := FirstSettles(es);
    assert SettledBy(es, k);
    ReportsAsHandled(c, es, s, i);
    OneCallMeansACall(s.calls, i);
  }

  /** Never is a message acked or nacked twice, or before its handler has run. */
  lemma NoSecondReport(c: int, es: seq<Event>, s: State, i: nat)
    requires Reached(c, es, s) && i < |s.messages|
    ensures CallsOn(s.calls, i) <= 1
    ensures CallsOn(s.calls, i) == 1 <==> s.messages[i].Reporting? || s.messages[i].Finished?
  {
    InvAlways(c, es, s);
  }

  // -------------------------------------------------- what the stream waits for

  /** As long as a message that must be awaited is not finished, one of those has a slot: a later message never holds
      back an earlier one. */
  lemma AwaitedProgress(c: int, s: State) returns (k: nat)
    requires Inv(c, s) && c >= 1 && !AllFinished(s.messages, s.awaited)
    ensures k < s.awaited && k < |s.messages| && InSlot(s.messages[k])
  {
    InOrderMeansInRange(s);
    var j: nat :| j < s.awaited && j < |s.messages| && !s.messages[j].Finished?;
    if InSlot(s.messages[j]) {
      k := j;
    } else {
      NoneHeld(s.messages);
      k :| 0 <= k < |s.messages| && InSlot(s.messages[k]);
    }
  }

  function Move(s: State, k: nat): Event
    requires k < |s.messages| && InSlot(s.messages[k])
  {
    match s.messages[k]
    case Holding => Start(k)
    case Handling => HandlerEnds(k, false)
    case Reporting => ReportEnds(k)
  }

  /** A step of an awaited message leaves a later one unfinished. */
  lemma MoveAside(c: int, s: State, i: nat) returns (e: Event)
    requires Inv(c, s) && QueueInRange(s) && c >= 1 && !AllFinished(s.messages, s.awaited)
    requires s.awaited <= i < |s.messages| && !s.messages[i].Finished?
    ensures Enabled(s, e)
    ensures
      var t := Next(c, s, e);
      && t.settled == s.settled && t.resolved == s.resolved && t.awaited == s.awaited && |t.messages| == |s.messages|
      && !t.messages[i].Finished? && Remaining(t.messages) < Remaining(s.messages)
  {
    var k := AwaitedProgress(c, s);
    e := Move(s, k);
    MovesRunOut(c, s, e);
  }

  lemma Regroup(c: int, es: seq<Event>, e: Event, rest: seq<Event>, t: State)
    requires Reached(c, es + [e] + rest, t)
    ensures Reached(c, es + ([e] + rest), t)
  {
    assert es + [e] + rest == es + ([e] + rest);
  }

  /** A message the stream does not await need not be handled by the time it resolves. */
  lemma {:induction false} ResolvesWithout(c: int, es: seq<Event>, s: State, i: nat) returns (more: seq<Event>, t: State)
    requires Reached(c, es, s) && c >= 1 && s.settled.Some? && s.resolved.None?
    requires s.awaited <= i < |s.messages| && !s.messages[i].Finished?
    ensures Reached(c, es + more, t) && t.resolved.Some?
    ensures i < |t.messages| && !t.messages[i].Finished?
    decreases Remaining(s.messages)
  {
    InvAlways(c, es, s);
    InOrderMeansInRange(s);
    if AllFinished(s.messages, s.awaited) {
      more, t := [Resolve], s.(resolved := s.settled);
      ReachedNext(c, es, s, Resolve);
    } else {
      var e := MoveAside(c, s, i);
      ReachedNext(c, es, s, e);
      var rest;
      rest, t := ResolvesWithout(c, es + [e], Next(c, s, e), i);
      more := [e] + rest;
      Regroup(c, es, e, rest, t);
    }
  }

  /** Whatever happens next, the message is finished when the stream resolves. */
  ghost predicate SurelyFinished(c: int, es: seq<Event>, i: nat) {
    forall more, t :: Reached(c, es + more, t) && t.resolved.Some? ==> i < |t.messages| && t.messages[i].Finished?
  }

  lemma {:induction false} ArrivalsStay(es: seq<Event>, more: seq<Event>)
    ensures ArrivedBeforeSettling(es) <= ArrivedBeforeSettling(es + more)
    decreases |es|
  {
    if es != [] {
      assert (es + more)[1..] == es[1..] + more;
      ArrivalsStay(es[1..], more);
    }
  }

  /** The stream awaits a message exactly when it arrived before settling: settle takes inFlight as it stands. */
  lemma AwaitedIffArrivedBefore(c: int, es: seq<Event>, s: State, i: nat)
    requires Reached(c, es, s) && c >= 1 && s.resolved.None? && i < |s.messages| && !s.messages[i].Finished?
    ensures SurelyFinished(c, es, i) <==> i < ArrivedBeforeSettling(es)
  {
    AwaitsWhatArrived(c, es, s);
    if i < ArrivedBeforeSettling(es) {
      forall more, t | Reached(c, es + more, t) && t.resolved.Some? ensures i < |t.messages| && t.messages[i].Finished? {
        ArrivalsStay(es, more);
        ResolvesAfterHandling(c, es + more, t, i);
      }
    } else {
      var more, t := ResolvesWithout(c, es, s, i);
      assert Reached(c, es + more, t) && !t.messages[i].Finished?;
    }
  }

  /** settle takes inFlight as it stands: a message that arrives afterwards is not waited for. */
  lemma LateMessageIsNotAwaited(c: int) returns (es: seq<Event>, s: State)
    ensures Reached(c, es, s) && s.resolved.Some? && |s.messages| == 1 && !s.messages[0].Finished?
  {
    es, s := [], Initial;
    ReachedNext(c, es, s, Abort);
    es, s := es + [Abort], Settle(s.(aborted := true), true);
    ReachedNext(c, es, s, Data);
    es, s := es + [Data], Received(c, s);
    ReachedNext(c, es, s, Resolve);
    es, s := es + [Resolve], s.(resolved := s.settled);
  }
}
