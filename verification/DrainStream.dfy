/** The variables and callbacks of drainStream as an object; each callback is a step of the slot machine. */
module DrainStream {
  import opened Tables
  import opened Semaphore

  lemma Keeps(c: int, s: State, e: Event)
    requires Inv(c, s) && Enabled(s, e) && QueueInRange(s)
    ensures Inv(c, Next(c, s, e)) && QueueInRange(Next(c, s, e))
  {
    StepKeepsInv(c, s, e);
    InOrderMeansInRange(Next(c, s, e));
  }

  /** `messages`, `grants` and `calls` record what the callbacks have done. */
  class Drain {
    const concurrency: int
    var activeCount: int
    var waitQueue: seq<nat>
    var settled: Option<bool>
    var awaited: nat
    var aborted: bool
    var resolved: Option<bool>
    var messages: seq<Phase>
    var grants: seq<nat>
    var calls: seq<Call>

    ghost function Now(): State
      reads this
    {
      State(activeCount, waitQueue, messages, grants, calls, aborted, settled, awaited, resolved)
    }

    /** The slots are as SlotsAreExact describes them. */
    ghost predicate Valid()
      reads this
    {
      Inv(concurrency, Now()) && QueueInRange(Now())
    }

    constructor (concurrency: int)
      ensures this.concurrency == concurrency && Now() == Initial
      ensures Valid()
    {
      this.concurrency := concurrency;
      activeCount, waitQueue, settled, awaited, aborted, resolved := 0, [], None, 0, false, None;
      messages, grants, calls := [], [], [];
      new;
      assert Upto(0) == [];
    }

    method AcquireSlot(i: nat)
      requires i < |messages|
      modifies this
      ensures Now() == Semaphore.AcquireSlot(concurrency, old(Now()), i)
      ensures if old(activeCount) < concurrency then activeCount == old(activeCount) + 1 && waitQueue == old(waitQueue)
              else activeCount == old(activeCount) && waitQueue == old(waitQueue) + [i]
    {
      if activeCount < concurrency {
        activeCount := activeCount + 1;
        grants := grants + [i];
        return;
      }
      waitQueue := waitQueue + [i];
    }

    /** Resolving the waiter's promise lets its message go on. */
    method ReleaseSlot()
      requires QueueInRange(Now())
      modifies this
      ensures Now() == Semaphore.ReleaseSlot(old(Now()))
      ensures if old(waitQueue) == [] then activeCount == old(activeCount) - 1 && messages == old(messages)
              else activeCount == old(activeCount) && waitQueue == old(waitQueue)[1..]
                   && messages == old(messages)[old(waitQueue)[0] := Holding]
    {
      if waitQueue != [] {
        var next := waitQueue[0];
        waitQueue := waitQueue[1..];
        messages := messages[next := Holding];
        grants := grants + [next];
      } else {
        activeCount := activeCount - 1;
      }
    }

    method Settle(cleanExit: bool)
      modifies this
      ensures Now() == Semaphore.Settle(old(Now()), cleanExit)
      ensures old(settled).None? ==> settled == Some(cleanExit) && awaited == |messages|
      ensures old(settled).Some? ==> unchanged(this)
    {
      if settled.Some? {
        return;
      }
      settled := Some(cleanExit);
      awaited := |messages|;
    }

    method OnAbort()
      requires Enabled(Now(), Abort) && Valid()
      modifies this
      ensures Now() == Next(concurrency, old(Now()), Abort) && Valid()
      ensures aborted && settled == if old(settled).None? then Some(true) else old(settled)
    {
      aborted := true;
      Settle(true);
      Keeps(concurrency, old(Now()), Abort);
    }

    method OnError()
      requires Valid()
      modifies this
      ensures Now() == Next(concurrency, old(Now()), Event.Failed) && Valid()
      ensures settled == if old(settled).None? then Some(aborted) else old(settled)
    {
      Keeps(concurrency, Now(), Event.Failed);
      if aborted {
        Settle(true);
        return;
      }
      Settle(false);
    }

    method OnEnd()
      requires Valid()
      modifies this
      ensures Now() == Next(concurrency, old(Now()), End) && Valid()
      ensures settled == if old(settled).None? then Some(true) else old(settled)
    {
      Settle(true);
      Keeps(concurrency, old(Now()), End);
    }

    method OnData()
      requires Valid()
      modifies this
      ensures Now() == Next(concurrency, old(Now()), Data) && Valid()
    {
      Keeps(concurrency, Now(), Data);
      messages := messages + [if activeCount < concurrency then Holding else Waiting];
      AcquireSlot(|messages| - 1);
    }

    method OnSlot(i: nat)
      requires Enabled(Now(), Start(i)) && Valid()
      modifies this
      ensures Now() == Next(concurrency, old(Now()), Start(i)) && Valid()
    {
      messages := messages[i := Handling];
      Keeps(concurrency, old(Now()), Start(i));
    }

    /** dispatch after the handler: one ack, or one nack. */
    method OnHandled(i: nat, threw: bool)
      requires Enabled(Now(), HandlerEnds(i, threw)) && Valid()
      modifies this
      ensures Now() == Next(concurrency, old(Now()), HandlerEnds(i, threw)) && Valid()
      ensures messages == old(messages)[i := Reporting] && calls == old(calls) + [if threw then NackCall(i) else AckCall(i)]
    {
      messages := messages[i := Reporting];
      if !threw {
        calls := calls + [AckCall(i)];
      } else {
        calls := calls + [NackCall(i)];
      }
      Keeps(concurrency, old(Now()), HandlerEnds(i, threw));
    }

    /** The finally block, whether or not the report went through. */
    method OnReported(i: nat)
      requires Enabled(Now(), ReportEnds(i)) && Valid()
      modifies this
      ensures Now() == Next(concurrency, old(Now()), ReportEnds(i)) && Valid()
    {
      Keeps(concurrency, Now(), ReportEnds(i));
      messages := messages[i := Finished];
      ReleaseSlot();
    }

    method OnAllSettled()
      requires Enabled(Now(), Resolve) && Valid()
      modifies this
      ensures Now() == Next(concurrency, old(Now()), Resolve) && Valid()
      ensures resolved == settled == old(settled)
    {
      resolved := settled;
      Keeps(concurrency, old(Now()), Resolve);
    }
  }
}
