/** ORDER BY created_at LIMIT n, with ties broken by id. */
module Ordering {
  import opened Tables

  /** a comes first: it is older, or as old with the smaller identifier. */
  predicate Before(ms: map<Id, Message>, a: Id, b: Id)
    requires a in ms && b in ms
  {
    ms[a].createdAt < ms[b].createdAt || (ms[a].createdAt == ms[b].createdAt && a < b)
  }

  function Earlier(ms: map<Id, Message>, c: set<Id>, x: Id): set<Id>
    requires c <= ms.Keys && x in ms
  {
    set y | y in c && Before(ms, y, x)
  }

  /** The n oldest of the candidates c: those with fewer than n candidates before them. */
  function FirstN(ms: map<Id, Message>, c: set<Id>, n: int): set<Id>
    requires c <= ms.Keys
  {
    set x | x in c && |Earlier(ms, c, x)| < n
  }

  predicate IsOldest(ms: map<Id, Message>, c: set<Id>, x: Id)
    requires c <= ms.Keys
  {
    x in c && forall y :: y in c && y != x ==> Before(ms, x, y)
  }

  lemma {:induction false} OldestExists(ms: map<Id, Message>, c: set<Id>)
    requires c <= ms.Keys && c != {}
    ensures exists x :: IsOldest(ms, c, x)
    decreases c
  {
    var a :| a in c;
    if c == {a} {
      assert IsOldest(ms, c, a);
    } else {
      OldestExists(ms, c - {a});
      var b :| IsOldest(ms, c - {a}, b);
      var o := if Before(ms, a, b) then a else b;
      forall y | y in c && y != o ensures Before(ms, o, y) {
        assert y == a || y == b || Before(ms, b, y);
      }
      assert IsOldest(ms, c, o);
    }
  }

  ghost function Oldest(ms: map<Id, Message>, c: set<Id>): (x: Id)
    requires c <= ms.Keys && c != {}
    ensures IsOldest(ms, c, x)
  {
    OldestExists(ms, c);
    var x :| IsOldest(ms, c, x);
    x
  }

  /** The n oldest are the oldest and the n-1 oldest of the rest. */
  lemma FirstNStep(ms: map<Id, Message>, c: set<Id>, o: Id, n: int)
    requires c <= ms.Keys && IsOldest(ms, c, o) && n >= 1
    ensures FirstN(ms, c, n) == {o} + FirstN(ms, c - {o}, n - 1)
  {
    assert Earlier(ms, c, o) == {};
    forall y | y in c - {o}
      ensures |Earlier(ms, c, y)| == |Earlier(ms, c - {o}, y)| + 1
    {
      assert Earlier(ms, c, y) == Earlier(ms, c - {o}, y) + {o};
    }
  }

  lemma FirstNone(ms: map<Id, Message>, c: set<Id>, n: int)
    requires c <= ms.Keys && (n <= 0 || c == {})
    ensures FirstN(ms, c, n) == {}
  {
  }

  /** Only the creation times matter to the order. */
  lemma SameTimesSameOrder(a: map<Id, Message>, b: map<Id, Message>, c: set<Id>, n: int)
    requires c <= a.Keys && c <= b.Keys
    requires forall x :: x in c ==> a[x].createdAt == b[x].createdAt
    ensures FirstN(a, c, n) == FirstN(b, c, n)
    ensures forall x :: IsOldest(a, c, x) <==> IsOldest(b, c, x)
  {
    forall x | x in c ensures Earlier(a, c, x) == Earlier(b, c, x) {
    }
  }

  lemma AddOne(o: Id, rest: set<Id>)
    requires o !in rest
    ensures |{o} + rest| == 1 + |rest|
  {
  }

  lemma FirstNSizeStep(ms: map<Id, Message>, c: set<Id>, o: Id, n: nat)
    requires c <= ms.Keys && IsOldest(ms, c, o) && n >= 1
    ensures |FirstN(ms, c, n)| == 1 + |FirstN(ms, c - {o}, n - 1)| && |c| == 1 + |c - {o}|
  {
    FirstNStep(ms, c, o, n);
    AddOne(o, FirstN(ms, c - {o}, n - 1));
    AddOne(o, c - {o});
    assert c == {o} + (c - {o});
  }

  /** LIMIT n keeps min(n, |c|) rows. */
  lemma {:induction false} FirstNSize(ms: map<Id, Message>, c: set<Id>, n: nat)
    requires c <= ms.Keys
    ensures |FirstN(ms, c, n)| == if n <= |c| then n else |c|
    decreases n
  {
    if n == 0 || c == {} {
      FirstNone(ms, c, n);
    } else {
      var o := Oldest(ms, c);
      FirstNSizeStep(ms, c, o, n);
      FirstNSize(ms, c - {o}, n - 1);
    }
  }

  /** ids are min(n, |c|) of the candidates, and none left out comes before one taken. */
  predicate OldestOf(ms: map<Id, Message>, c: set<Id>, ids: set<Id>, n: nat)
    requires c <= ms.Keys
  {
    && ids <= c
    && |ids| == (if n <= |c| then n else |c|)
    && forall x, y :: x in ids && y in c && y !in ids ==> Before(ms, x, y)
  }

  lemma FewerInSubset<T>(a: set<T>, b: set<T>)
    requires a <= b
    ensures |a| <= |b| && (a != b ==> |a| < |b|)
  {
    if a != {} {
      var x :| x in a;
      FewerInSubset(a - {x}, b - {x});
    } else if b != {} {
      var x :| x in b;
      assert |b| == |b - {x}| + 1;
    }
  }

  /** LIMIT n takes the n oldest ... */
  lemma FirstNIsOldest(ms: map<Id, Message>, c: set<Id>, n: nat)
    requires c <= ms.Keys
    ensures OldestOf(ms, c, FirstN(ms, c, n), n)
  {
    FirstNSize(ms, c, n);
    forall x, y | x in FirstN(ms, c, n) && y in c && y !in FirstN(ms, c, n) ensures Before(ms, x, y) {
      if !Before(ms, x, y) {
        FewerInSubset(Earlier(ms, c, y), Earlier(ms, c, x));
      }
    }
  }

  /** ... and nothing else is the n oldest. */
  lemma OldestIsFirstN(ms: map<Id, Message>, c: set<Id>, ids: set<Id>, n: nat)
    requires c <= ms.Keys && OldestOf(ms, c, ids, n)
    ensures ids == FirstN(ms, c, n)
  {
    forall x | x in ids ensures x in FirstN(ms, c, n) {
      assert Earlier(ms, c, x) <= ids - {x};
      FewerInSubset(Earlier(ms, c, x), ids - {x});
    }
    FirstNSize(ms, c, n);
    FewerInSubset(ids, FirstN(ms, c, n));
  }
}
