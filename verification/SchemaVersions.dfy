/** When a compiled schema is the right one: exactly as long as the table never reuses a version number for a schema that
    compiles differently. */
module SchemaVersions {
  import opened Tables
  import opened SchemaCache

  // ------------------------------------------------------- what a process holds

  /** What a process or a call holds was once in the table or the shared cache. */
  ghost predicate HeldFromRun<C>(parse: string -> Option<C>, n: nat, acts: seq<Action>, topic: string) {
    var c := Exec(parse, n, acts);
    && (forall k :: k in c.calls && c.calls[k].topic == topic ==> EverHeld(parse, n, acts, topic, c.calls[k].ts))
    && (forall i :: 0 <= i < |c.nodes| && topic in c.nodes[i].l1 ==> Grounded(parse, n, acts, topic, c.nodes[i].l1[topic]))
  }

  ghost predicate Grounded<C>(parse: string -> Option<C>, n: nat, acts: seq<Action>, topic: string, e: Compiled<C>) {
    exists ts :: EverHeld(parse, n, acts, topic, ts) && ts.version == e.version && parse(ts.json) == Some(e.schema)
  }

  /** A call's row was fetched from the table or the shared cache. */
  lemma CallsFetch<C>(parse: string -> Option<C>, c: Cluster<C>, a: Action, k: nat)
    requires k in Take(parse, c, a).calls
    ensures
      || (k in c.calls && c.calls[k] == Take(parse, c, a).calls[k])
      || Holds(Take(parse, c, a), Take(parse, c, a).calls[k].topic, Take(parse, c, a).calls[k].ts)
  {
  }

  /** A compiled schema comes from the row of a resolving call. */
  lemma ProcessesCompile<C>(parse: string -> Option<C>, c: Cluster<C>, a: Action, i: nat, topic: string)
    requires i < |Take(parse, c, a).nodes| && topic in Take(parse, c, a).nodes[i].l1
    ensures
      var e := Take(parse, c, a).nodes[i].l1[topic];
      && i < |c.nodes|
      && (|| (topic in c.nodes[i].l1 && c.nodes[i].l1[topic] == e)
          || (a.Resolve? && a.call in c.calls && c.calls[a.call].topic == topic
              && c.calls[a.call].ts.version == e.version && parse(c.calls[a.call].ts.json) == Some(e.schema)))
  {
  }

  lemma GroundedLater<C>(parse: string -> Option<C>, n: nat, acts: seq<Action>, topic: string, e: Compiled<C>)
    requires acts != [] && Grounded(parse, n, acts[..|acts| - 1], topic, e)
    ensures Grounded(parse, n, acts, topic, e)
  {
    var ts :| EverHeld(parse, n, acts[..|acts| - 1], topic, ts) && ts.version == e.version && parse(ts.json) == Some(e.schema);
    assert EverHeld(parse, n, acts, topic, ts);
  }

  lemma TakeKeepsHeld<C>(parse: string -> Option<C>, n: nat, acts: seq<Action>, topic: string, c: Cluster<C>, a: Action, d: Cluster<C>)
    requires acts != [] && c == Exec(parse, n, acts[..|acts| - 1]) && a == acts[|acts| - 1]
    requires d == Exec(parse, n, acts) == Take(parse, c, a)
    requires HeldFromRun(parse, n, acts[..|acts| - 1], topic)
    ensures HeldFromRun(parse, n, acts, topic)
  {
    forall k | k in d.calls && d.calls[k].topic == topic
      ensures EverHeld(parse, n, acts, topic, d.calls[k].ts)
    {
      CallsFetch(parse, c, a, k);
    }
    forall i | 0 <= i < |d.nodes| && topic in d.nodes[i].l1
      ensures Grounded(parse, n, acts, topic, d.nodes[i].l1[topic])
    {
      ProcessesCompile(parse, c, a, i, topic);
      if topic in c.nodes[i].l1 && c.nodes[i].l1[topic] == d.nodes[i].l1[topic] {
        GroundedLater(parse, n, acts, topic, d.nodes[i].l1[topic]);
      } else {
        assert EverHeld(parse, n, acts, topic, c.calls[a.call].ts);
      }
    }
  }

  lemma {:induction false} HeldInEveryRun<C>(parse: string -> Option<C>, n: nat, acts: seq<Action>, topic: string)
    ensures HeldFromRun(parse, n, acts, topic)
    decreases |acts|
  {
    if acts != [] {
      var before := acts[..|acts| - 1];
      HeldInEveryRun(parse, n, before, topic);
      TakeKeepsHeld(parse, n, acts, topic, Exec(parse, n, before), acts[|acts| - 1], Exec(parse, n, acts));
    }
  }

  // --------------------------------------------------------- the table's history

  /** The writes of a topic's row, in order: a schema's JSON, or a deletion. */
  type History = seq<Option<string>>

  function NextRow(row: Option<TopicSchema>, w: Option<string>): Option<TopicSchema> {
    match w
    case None => None
    case Some(json) => Some(TopicSchema(json, if row.Some? then row.value.version + 1 else 1))
  }

  function RowAfter(ws: History): Option<TopicSchema>
    decreases |ws|
  {
    if ws == [] then None else NextRow(RowAfter(ws[..|ws| - 1]), ws[|ws| - 1])
  }

  function WriteOf<C>(parse: string -> Option<C>, c: Cluster<C>, a: Action, topic: string): History {
    if a.WriteRow? && Possible(parse, c, a) && c.writers[a.w].topic == topic then [c.writers[a.w].json] else []
  }

  /** The writes that happen in a run, in order. */
  function Writes<C>(parse: string -> Option<C>, n: nat, acts: seq<Action>, topic: string): History
    decreases |acts|
  {
    if acts == [] then []
    else
      var before := acts[..|acts| - 1];
      Writes(parse, n, before, topic) + WriteOf(parse, Exec(parse, n, before), acts[|acts| - 1], topic)
  }

  predicate Parses<C>(parse: string -> Option<C>, ws: History) {
    forall k :: 0 <= k < |ws| && ws[k].Some? ==> parse(ws[k].value).Some?
  }

  ghost predicate SameCompilation<C>(parse: string -> Option<C>, a: Option<TopicSchema>, b: Option<TopicSchema>) {
    a.Some? && b.Some? && a.value.version == b.value.version ==> parse(a.value.json) == parse(b.value.json)
  }

  /** No version ever stands for two schemas that compile differently. */
  ghost predicate VersionsFixCompilation<C>(parse: string -> Option<C>, ws: History) {
    forall i, j :: 0 <= i <= |ws| && 0 <= j <= |ws| ==> SameCompilation(parse, RowAfter(ws[..i]), RowAfter(ws[..j]))
  }

  ghost predicate WritersParse<C>(parse: string -> Option<C>, c: Cluster<C>) {
    forall w :: w in c.writers && c.writers[w].json.Some? ==> parse(c.writers[w].json.value).Some?
  }

  lemma TakeKeepsParsing<C>(parse: string -> Option<C>, c: Cluster<C>, a: Action, topic: string)
    requires WritersParse(parse, c)
    ensures WritersParse(parse, Take(parse, c, a)) && Parses(parse, WriteOf(parse, c, a, topic))
  {
  }

  lemma TakeWrites<C>(parse: string -> Option<C>, c: Cluster<C>, a: Action, topic: string)
    ensures
      var w := WriteOf(parse, c, a, topic);
      Lookup(Take(parse, c, a).table, topic) == if w == [] then Lookup(c.table, topic) else NextRow(Lookup(c.table, topic), w[0])
  {
  }

  lemma RowAfterMore(ws: History, w: History)
    requires |w| <= 1
    ensures RowAfter(ws + w) == if w == [] then RowAfter(ws) else NextRow(RowAfter(ws), w[0])
  {
    if w == [] {
      assert ws + w == ws;
    } else {
      assert (ws + w)[..|ws|] == ws;
    }
  }

  /** The table holds what its history says, and only JSON that parses is ever registered. */
  lemma {:induction false} TableFollows<C>(parse: string -> Option<C>, n: nat, acts: seq<Action>, topic: string)
    ensures
      var ws := Writes(parse, n, acts, topic);
      && Lookup(Exec(parse, n, acts).table, topic) == RowAfter(ws)
      && Parses(parse, ws) && WritersParse(parse, Exec(parse, n, acts))
    decreases |acts|
  {
    if acts != [] {
      var before, a := acts[..|acts| - 1], acts[|acts| - 1];
      TableFollows(parse, n, before, topic);
      var c := Exec(parse, n, before);
      TakeWrites(parse, c, a, topic);
      TakeKeepsParsing(parse, c, a, topic);
      RowAfterMore(Writes(parse, n, before, topic), WriteOf(parse, c, a, topic));
    }
  }

  lemma NewlyHeld<C>(parse: string -> Option<C>, c: Cluster<C>, a: Action, topic: string, ts: TopicSchema)
    requires Holds(Take(parse, c, a), topic, ts) && !Holds(c, topic, ts)
    ensures Lookup(Take(parse, c, a).table, topic) == Some(ts)
  {
  }

  /** Every row ever held is a row of the history. */
  lemma {:induction false} HeldIsWritten<C>(parse: string -> Option<C>, n: nat, acts: seq<Action>, topic: string, ts: TopicSchema)
    returns (k: nat)
    requires EverHeld(parse, n, acts, topic, ts)
    ensures k <= |Writes(parse, n, acts, topic)| && RowAfter(Writes(parse, n, acts, topic)[..k]) == Some(ts)
    decreases |acts|
  {
    var ws := Writes(parse, n, acts, topic);
    if acts != [] && EverHeld(parse, n, acts[..|acts| - 1], topic, ts) {
      k := HeldIsWritten(parse, n, acts[..|acts| - 1], topic, ts);
      assert ws[..k] == Writes(parse, n, acts[..|acts| - 1], topic)[..k];
    } else {
      k := |ws|;
      assert ws[..k] == ws;
      TableFollows(parse, n, acts, topic);
      if acts != [] {
        NewlyHeld(parse, Exec(parse, n, acts[..|acts| - 1]), acts[|acts| - 1], topic, ts);
      }
    }
  }

  lemma {:induction false} WrittenParses<C>(parse: string -> Option<C>, ws: History, k: nat)
    requires Parses(parse, ws) && k <= |ws| && RowAfter(ws[..k]).Some?
    ensures parse(RowAfter(ws[..k]).value.json).Some?
  {
    if k > 0 {
      assert ws[..k][k - 1] == ws[k - 1];
    }
  }

  // ------------------------------------------------------------ right resolutions

  /** Any two rows of one version ever held for the topic compile alike. */
  ghost predicate HeldCompileAlike<C>(parse: string -> Option<C>, n: nat, acts: seq<Action>, topic: string) {
    forall a, b :: EverHeld(parse, n, acts, topic, a) && EverHeld(parse, n, acts, topic, b) && a.version == b.version ==>
      parse(a.json) == parse(b.json)
  }

  /** In any run - with deletions, on any number of processes, with whatever is lost, late, expired or unreadable -
      resolving any row ever held yields that row's own compilation, if rows of one version compile alike. */
  lemma ResolvesToItsOwnJson<C>(parse: string -> Option<C>, n: nat, acts: seq<Action>, node: nat, topic: string, ts: TopicSchema)
    requires node < |Exec(parse, n, acts).nodes| && EverHeld(parse, n, acts, topic, ts)
    requires HeldCompileAlike(parse, n, acts, topic)
    ensures
      var answer := ResolveSchema(parse, Exec(parse, n, acts).nodes[node].l1, topic, ts).1;
      answer.Some? && answer == parse(ts.json)
  {
    HeldInEveryRun(parse, n, acts, topic);
    TableFollows(parse, n, acts, topic);
    var k := HeldIsWritten(parse, n, acts, topic, ts);
    WrittenParses(parse, Writes(parse, n, acts, topic), k);
    var l1 := Exec(parse, n, acts).nodes[node].l1;
    if topic in l1 {
      assert Grounded(parse, n, acts, topic, l1[topic]);
    }
  }

  ghost predicate UnderWay<C>(c: Cluster<C>, call: nat, topic: string) {
    call in c.calls && c.calls[call].topic == topic && c.calls[call].node < |c.nodes|
  }

  /** The call would be given the compilation of the row it fetched. */
  ghost predicate ResolvesRight<C>(parse: string -> Option<C>, c: Cluster<C>, call: nat)
    requires call in c.calls && c.calls[call].node < |c.nodes|
  {
    var at := c.calls[call];
    ResolveSchema(parse, c.nodes[at.node].l1, at.topic, at.ts).1 == parse(at.ts.json)
  }

  /** The same for every call under way, whichever row it fetched and however long ago. */
  lemma CallsResolveRight<C>(parse: string -> Option<C>, n: nat, acts: seq<Action>, call: nat, topic: string)
    requires UnderWay(Exec(parse, n, acts), call, topic) && HeldCompileAlike(parse, n, acts, topic)
    ensures ResolvesRight(parse, Exec(parse, n, acts), call)
  {
    var at := Exec(parse, n, acts).calls[call];
    HeldInEveryRun(parse, n, acts, topic);
    ResolvesToItsOwnJson(parse, n, acts, at.node, topic, at.ts);
  }

  lemma FixedCompileAlike<C>(parse: string -> Option<C>, n: nat, acts: seq<Action>, topic: string, ws: History)
    requires Writes(parse, n, acts, topic) <= ws && VersionsFixCompilation(parse, ws)
    ensures HeldCompileAlike(parse, n, acts, topic)
  {
    var so := Writes(parse, n, acts, topic);
    forall a, b | EverHeld(parse, n, acts, topic, a) && EverHeld(parse, n, acts, topic, b) && a.version == b.version
      ensures parse(a.json) == parse(b.json)
    {
      var i := HeldIsWritten(parse, n, acts, topic, a);
      var j := HeldIsWritten(parse, n, acts, topic, b);
      assert so[..i] == ws[..i] && so[..j] == ws[..j];
      assert SameCompilation(parse, RowAfter(ws[..i]), RowAfter(ws[..j]));
    }
  }

  /** Without deletions the version is the number of registrations. */
  lemma {:induction false} VersionCounts(ws: History)
    requires forall k :: 0 <= k < |ws| ==> ws[k].Some?
    ensures RowAfter(ws).Some? <==> ws != []
    ensures ws != [] ==> RowAfter(ws).value.version == |ws|
    decreases |ws|
  {
    if ws != [] {
      VersionCounts(ws[..|ws| - 1]);
    }
  }

  lemma NoDeletionFixesVersions<C>(parse: string -> Option<C>, ws: History)
    requires forall k :: 0 <= k < |ws| ==> ws[k].Some?
    ensures VersionsFixCompilation(parse, ws)
  {
    forall i, j | 0 <= i <= |ws| && 0 <= j <= |ws| ensures SameCompilation(parse, RowAfter(ws[..i]), RowAfter(ws[..j])) {
      VersionCounts(ws[..i]);
      VersionCounts(ws[..j]);
    }
  }

  // -------------------------------------------------------------- the bad schedule

  /** Some schedule of n processes, in which the topic's row has undergone these writes, has led to c. */
  ghost predicate Scheduled<C>(parse: string -> Option<C>, n: nat, topic: string, c: Cluster<C>, ws: History) {
    exists acts :: Exec(parse, n, acts) == c && Writes(parse, n, acts, topic) == ws
  }

  lemma ScheduledStart<C>(parse: string -> Option<C>, n: nat, topic: string)
    ensures Scheduled(parse, n, topic, Start(n), [])
  {
    assert Exec(parse, n, []) == Start(n) && Writes(parse, n, [], topic) == [];
  }

  lemma ExecMore<C>(parse: string -> Option<C>, n: nat, topic: string, acts: seq<Action>, a: Action)
    ensures Exec(parse, n, acts + [a]) == Take(parse, Exec(parse, n, acts), a)
    ensures Writes(parse, n, acts + [a], topic) == Writes(parse, n, acts, topic) + WriteOf(parse, Exec(parse, n, acts), a, topic)
  {
    assert (acts + [a])[..|acts|] == acts;
  }

  lemma ScheduledStep<C>(parse: string -> Option<C>, n: nat, topic: string, c: Cluster<C>, ws: History, a: Action)
    requires Scheduled(parse, n, topic, c, ws)
    ensures Scheduled(parse, n, topic, Take(parse, c, a), ws + WriteOf(parse, c, a, topic))
  {
    var acts :| Exec(parse, n, acts) == c && Writes(parse, n, acts, topic) == ws;
    ExecMore(parse, n, topic, acts, a);
  }

  lemma ScheduledRow<C>(parse: string -> Option<C>, n: nat, topic: string, c: Cluster<C>, ws: History)
    requires Scheduled(parse, n, topic, c, ws)
    ensures Lookup(c.table, topic) == RowAfter(ws)
  {
    var acts :| Exec(parse, n, acts) == c && Writes(parse, n, acts, topic) == ws;
    TableFollows(parse, n, acts, topic);
  }

  /** A step that writes nothing. */
  lemma Quietly<C>(parse: string -> Option<C>, n: nat, topic: string, c: Cluster<C>, ws: History, a: Action)
    requires Scheduled(parse, n, topic, c, ws) && !a.WriteRow?
    ensures Scheduled(parse, n, topic, Take(parse, c, a), ws)
  {
    ScheduledStep(parse, n, topic, c, ws, a);
    assert ws + [] == ws;
  }

  /** No writer under way, nothing on its way to process 0. */
  predicate Idle<C>(c: Cluster<C>) {
    c.writers == map[] && |c.nodes| >= 1 && c.nodes[0].inbox == []
  }

  /** ... and nobody has cached the topic there. */
  predicate Uncached<C>(c: Cluster<C>, topic: string) {
    Idle(c) && topic !in c.l2 && topic !in c.nodes[0].l1
  }

  /** The state after a whole write by process 0, its own notification delivered. */
  lemma WriteEffect<C>(parse: string -> Option<C>, c: Cluster<C>, topic: string, w: Option<string>, d: Cluster<C>)
    requires Idle(c) && (w.Some? ==> parse(w.value).Some?)
    requires
      var begun := c.(nodes := Forget(c.nodes, 0, topic), writers := map[0 := Writer(topic, w, ClearedL1)]);
      d == Take(parse, Take(parse, Take(parse, Take(parse, begun, WriteRow(0)), ClearL2(0)), Publish(0)), Deliver(0))
    ensures Uncached(d, topic) && d.calls == c.calls
  {
    var begun := c.(nodes := Forget(c.nodes, 0, topic), writers := map[0 := Writer(topic, w, ClearedL1)]);
    WriterFinishes(parse, begun, Writer(topic, w, ClearedL1));
    var inbox := Notify(begun.nodes, topic)[0].inbox;
    assert inbox == [topic] && inbox[1..] == [];
  }

  lemma OneWrite<C>(parse: string -> Option<C>, n: nat, topic: string, c: Cluster<C>, ws: History, w: Option<string>)
    returns (d: Cluster<C>)
    requires Scheduled(parse, n, topic, c, ws) && Idle(c) && (w.Some? ==> parse(w.value).Some?)
    ensures Scheduled(parse, n, topic, d, ws + [w])
    ensures Uncached(d, topic) && d.calls == c.calls
  {
    var first := if w.Some? then Upsert(0, 0, topic, w.value) else Remove(0, 0, topic);
    Quietly(parse, n, topic, c, ws, first);
    var c1 := Take(parse, c, first);
    assert c1 == c.(nodes := Forget(c.nodes, 0, topic), writers := map[0 := Writer(topic, w, ClearedL1)]);
    ScheduledStep(parse, n, topic, c1, ws, WriteRow(0));
    var c2 := Take(parse, c1, WriteRow(0));
    Quietly(parse, n, topic, c2, ws + [w], ClearL2(0));
    var c3 := Take(parse, c2, ClearL2(0));
    Quietly(parse, n, topic, c3, ws + [w], Publish(0));
    var c4 := Take(parse, c3, Publish(0));
    Quietly(parse, n, topic, c4, ws + [w], Deliver(0));
    d := Take(parse, c4, Deliver(0));
    WriteEffect(parse, c, topic, w, d);
  }

  lemma {:induction false} ManyWrites<C>(parse: string -> Option<C>, n: nat, topic: string, c: Cluster<C>, ws: History, more: History)
    returns (d: Cluster<C>)
    requires Scheduled(parse, n, topic, c, ws) && Idle(c) && Parses(parse, more)
    ensures Scheduled(parse, n, topic, d, ws + more)
    ensures Idle(d) && (more != [] || Uncached(c, topic) ==> Uncached(d, topic)) && d.calls == c.calls
    decreases |more|
  {
    if more == [] {
      d := c;
      assert ws + more == ws;
    } else {
      var e := OneWrite(parse, n, topic, c, ws, more[0]);
      d := ManyWrites(parse, n, topic, e, ws + [more[0]], more[1..]);
      assert ws + [more[0]] + more[1..] == ws + more;
    }
  }

  lemma FetchReads<C>(parse: string -> Option<C>, n: nat, topic: string, c: Cluster<C>, ws: History, call: nat, ts: TopicSchema)
    returns (d: Cluster<C>)
    requires Scheduled(parse, n, topic, c, ws) && Uncached(c, topic) && call !in c.calls && Lookup(c.table, topic) == Some(ts)
    ensures Scheduled(parse, n, topic, d, ws)
    ensures d == c.(l2 := c.l2[topic := Encoded(ts)], calls := c.calls[call := Call(0, topic, ts)])
  {
    d := Take(parse, c, Fetch(call, 0, topic));
    Quietly(parse, n, topic, c, ws, Fetch(call, 0, topic));
  }

  /** The newer row is fetched before the older one is resolved. */
  lemma ResolveMisleads<C>(parse: string -> Option<C>, n: nat, topic: string, c: Cluster<C>, ws: History, x: TopicSchema, y: TopicSchema)
    returns (d: Cluster<C>)
    requires Scheduled(parse, n, topic, c, ws) && Uncached(c, topic) && Lookup(c.table, topic) == Some(y)
    requires c.calls == map[0 := Call(0, topic, x)]
    requires parse(x.json).Some? && x.version == y.version && parse(x.json) != parse(y.json)
    ensures Scheduled(parse, n, topic, d, ws)
    ensures UnderWay(d, 1, topic) && !ResolvesRight(parse, d, 1)
  {
    var e := FetchReads(parse, n, topic, c, ws, 1, y);
    assert e.calls == map[0 := Call(0, topic, x), 1 := Call(0, topic, y)];
    d := Take(parse, e, Resolve(0));
    Quietly(parse, n, topic, e, ws, Resolve(0));
    assert d.calls == map[1 := Call(0, topic, y)];
  }

  /** Fetch the row after the writes ws, make more, fetch the new row, resolve the first. */
  lemma FetchWriteFetchResolve<C>(parse: string -> Option<C>, n: nat, topic: string, ws: History, more: History,
                                  x: TopicSchema, y: TopicSchema) returns (d: Cluster<C>)
    requires n >= 1 && Parses(parse, ws) && Parses(parse, more) && ws != [] && more != []
    requires RowAfter(ws) == Some(x) && RowAfter(ws + more) == Some(y)
    requires parse(x.json).Some? && x.version == y.version && parse(x.json) != parse(y.json)
    ensures Scheduled(parse, n, topic, d, ws + more) && UnderWay(d, 1, topic) && !ResolvesRight(parse, d, 1)
  {
    ScheduledStart(parse, n, topic);
    var c1 := ManyWrites(parse, n, topic, Start(n), [], ws);
    assert [] + ws == ws;
    ScheduledRow(parse, n, topic, c1, ws);
    var c2 := FetchReads(parse, n, topic, c1, ws, 0, x);
    var c3 := ManyWrites(parse, n, topic, c2, ws, more);
    ScheduledRow(parse, n, topic, c3, ws + more);
    d := ResolveMisleads(parse, n, topic, c3, ws + more, x, y);
  }

  /** A version that comes to stand for another compilation misleads a call - on process 0, with all its notifications
      delivered. */
  lemma ReusedVersionMisleads<C>(parse: string -> Option<C>, n: nat, topic: string, ws: History, i: nat, j: nat)
    returns (d: Cluster<C>)
    requires n >= 1 && Parses(parse, ws) && i < j <= |ws| && !SameCompilation(parse, RowAfter(ws[..i]), RowAfter(ws[..j]))
    ensures Scheduled(parse, n, topic, d, ws[..j])
    ensures UnderWay(d, 1, topic) && !ResolvesRight(parse, d, 1)
  {
    WrittenParses(parse, ws, i);
    assert ws[..i] + ws[i..j] == ws[..j];
    d := FetchWriteFetchResolve(parse, n, topic, ws[..i], ws[i..j], RowAfter(ws[..i]).value, RowAfter(ws[..j]).value);
  }

  /** At every moment of every schedule in which the topic's row undergoes these writes, every call under way is given
      the compilation of the row it fetched. */
  ghost predicate AlwaysRight<C(!new)>(parse: string -> Option<C>, n: nat, topic: string, ws: History) {
    forall c, k: nat, call :: k <= |ws| && Scheduled(parse, n, topic, c, ws[..k]) && UnderWay(c, call, topic) ==>
      ResolvesRight(parse, c, call)
  }

  /** Exactly when schemas are resolved right under every schedule, on however many processes. */
  lemma RightIffVersionsFixCompilation<C(!new)>(parse: string -> Option<C>, n: nat, topic: string, ws: History)
    requires n >= 1 && Parses(parse, ws)
    ensures AlwaysRight(parse, n, topic, ws) <==> VersionsFixCompilation(parse, ws)
  {
    if VersionsFixCompilation(parse, ws) {
      forall c, k: nat, call | k <= |ws| && Scheduled(parse, n, topic, c, ws[..k]) && UnderWay(c, call, topic)
        ensures ResolvesRight(parse, c, call)
      {
        var acts :| Exec(parse, n, acts) == c && Writes(parse, n, acts, topic) == ws[..k];
        FixedCompileAlike(parse, n, acts, topic, ws);
        CallsResolveRight(parse, n, acts, call, topic);
      }
    } else {
      var i, j :| 0 <= i <= |ws| && 0 <= j <= |ws| && !SameCompilation(parse, RowAfter(ws[..i]), RowAfter(ws[..j]));
      var k := if i < j then j else i;
      var c := ReusedVersionMisleads(parse, n, topic, ws, if i < j then i else j, k);
      assert UnderWay(c, 1, topic) && Scheduled(parse, n, topic, c, ws[..k]);
    }
  }

  /** A schema, its deletion, another schema: two rows of version 1. */
  lemma DeletionRestartsVersions<C>(parse: string -> Option<C>, j: string, k: string)
    ensures VersionsFixCompilation(parse, [Some(j), None, Some(k)]) <==> parse(j) == parse(k)
  {
    var ws := [Some(j), None, Some(k)];
    assert ws[..0] == [] && ws[..1] == [Some(j)] && ws[..2] == [Some(j), None] && ws[..3] == ws;
    assert RowAfter(ws[..1]) == Some(TopicSchema(j, 1));
    assert RowAfter(ws[..2]) == None;
    assert RowAfter(ws[..3]) == Some(TopicSchema(k, 1));
    assert SameCompilation(parse, RowAfter(ws[..1]), RowAfter(ws[..3])) <==> parse(j) == parse(k);
    forall i, i' | parse(j) == parse(k) && 0 <= i <= |ws| && 0 <= i' <= |ws|
      ensures SameCompilation(parse, RowAfter(ws[..i]), RowAfter(ws[..i']))
    {
      assert i in {0, 1, 2, 3} && i' in {0, 1, 2, 3};
    }
  }
}
