/**
 * Recency lists: block numbers, most recently used first.  `Access` and `Drop`
 * are what one cache access and one invalidation do to the list of a pool.
 */
module Lru {
  ghost function IndexOf<T>(q: seq<T>, x: T): (k: int)
    ensures -1 <= k < |q|
    ensures k >= 0 ==> q[k] == x
    ensures k < 0 ==> x !in q
  {
    if k :| 0 <= k < |q| && q[k] == x then k else -1
  }

  ghost predicate NoDup<T>(q: seq<T>) {
    forall i, j :: 0 <= i < j < |q| ==> q[i] != q[j]
  }

  ghost function Without<T>(q: seq<T>, x: T): seq<T> {
    var k := IndexOf(q, x);
    if k < 0 then q else q[..k] + q[k + 1..]
  }

  function Take<T>(q: seq<T>, n: nat): seq<T> {
    if |q| <= n then q else q[..n]
  }

  ghost function Access<T>(q: seq<T>, b: T, cap: nat): seq<T> {
    Take([b] + Without(q, b), cap)
  }

  datatype Event = Touched(b: nat) | Dropped(b: nat)

  ghost function Step(q: seq<nat>, cap: nat, e: Event): seq<nat> {
    match e
    case Touched(b) => Access(q, b, cap)
    case Dropped(b) => Without(q, b)
  }

  /** The list of a pool of `cap` slots, empty at first, after a whole trace. */
  ghost function Run(trace: seq<Event>, cap: nat): seq<nat> {
    if trace == [] then [] else Step(Run(trace[..|trace| - 1], cap), cap, trace[|trace| - 1])
  }

  /** Distinct blocks of a trace, the one accessed last first: the list of a pool that never evicts. */
  ghost function Latest(trace: seq<Event>): seq<nat> {
    if trace == [] then []
    else
      var b := trace[|trace| - 1].b;
      [b] + Without(Latest(trace[..|trace| - 1]), b)
  }

  lemma WithoutFacts<T>(q: seq<T>, x: T)
    requires NoDup(q)
    ensures NoDup(Without(q, x)) && x !in Without(q, x)
    ensures forall y :: y in Without(q, x) <==> y in q && y != x
    ensures |Without(q, x)| == if x in q then |q| - 1 else |q|
  {
    var k := IndexOf(q, x);
    if k >= 0 {
      var r := Without(q, x);
      forall y | y in q && y != x ensures y in r {
        var i :| 0 <= i < |q| && q[i] == y;
        assert y == if i < k then r[i] else r[i - 1];
      }
    }
  }

  lemma {:induction false} NoDupCard<T>(q: seq<T>)
    requires NoDup(q)
    ensures |set x | x in q| == |q|
  {
    if q != [] {
      var rest := q[1..];
      NoDupCard(rest);
      assert (set x | x in q) == (set x | x in rest) + {q[0]};
    }
  }

  /** A set of numbers below `n` has at most `n` members, and `n` only when it has them all. */
  lemma {:induction false} BelowCard(n: nat, s: set<nat>)
    requires forall x :: x in s ==> x < n
    ensures |s| <= n
    ensures |s| == n <==> forall i :: 0 <= i < n ==> i in s
  {
    if n == 0 {
      assert s == {};
    } else {
      var t := s - {n - 1};
      BelowCard(n - 1, t);
      if n - 1 in s {
        assert s == t + {n - 1};
      } else {
        assert s == t;
      }
    }
  }

  lemma AccessFacts<T>(q: seq<T>, b: T, cap: nat)
    requires NoDup(q) && |q| <= cap && cap > 0
    ensures NoDup(Access(q, b, cap)) && |Access(q, b, cap)| <= cap && Access(q, b, cap)[0] == b
  {
    WithoutFacts(q, b);
  }

  lemma {:induction false} RunNoDup(trace: seq<Event>, cap: nat)
    requires cap > 0
    ensures NoDup(Run(trace, cap)) && |Run(trace, cap)| <= cap
  {
    if trace != [] {
      var last := |trace| - 1;
      RunNoDup(trace[..last], cap);
      var q := Run(trace[..last], cap);
      match trace[last]
      case Touched(b) => AccessFacts(q, b, cap);
      case Dropped(b) => WithoutFacts(q, b);
    }
  }

  lemma {:induction false} LatestNoDup(trace: seq<Event>)
    ensures NoDup(Latest(trace))
    ensures forall b :: b in Latest(trace) <==> exists i :: 0 <= i < |trace| && trace[i].b == b
  {
    if trace != [] {
      var last := |trace| - 1;
      LatestNoDup(trace[..last]);
      WithoutFacts(Latest(trace[..last]), trace[last].b);
      var prev := Latest(trace[..last]);
      assert trace == trace[..last] + [trace[last]];
      forall b | b in Latest(trace) ensures exists i :: 0 <= i < |trace| && trace[i].b == b {
        if b == trace[last].b {
          assert trace[last].b == b;
        } else {
          assert b in prev;
          var i :| 0 <= i < last && trace[..last][i].b == b;
          assert trace[i].b == b;
        }
      }
      forall i | 0 <= i < |trace| ensures trace[i].b in Latest(trace) {
        if i < last {
          assert trace[..last][i].b == trace[i].b;
        }
      }
    }
  }

  lemma AccessMiss<T>(q: seq<T>, b: T, cap: nat)
    requires b !in q && |q| <= cap && cap > 0
    ensures [b] + Take(q, cap - 1) == Access(q, b, cap)
  {
    assert Without(q, b) == q;
  }

  /** Truncation commutes with moving `b` to the front. */
  lemma TakeAccess<T>(q: seq<T>, b: T, cap: nat)
    requires NoDup(q) && cap > 0
    ensures Access(Take(q, cap), b, cap) == Take([b] + Without(q, b), cap)
  {
    var t := Take(q, cap);
    var k := IndexOf(q, b);
    if 0 <= k < |t| {
      assert t[k] == b && IndexOf(t, b) == k;
      assert Without(t, b) == t[..k] + t[k + 1..];
    } else {
      assert b !in t;
      assert Without(t, b) == t;
    }
    assert Access(t, b, cap) == Take([b] + Without(q, b), cap);
  }

  /**
   * Without invalidations the pool holds exactly the `cap` most recently
   * accessed distinct blocks, in order of last access.
   */
  lemma {:induction false} HoldsMostRecent(trace: seq<Event>, cap: nat)
    requires cap > 0
    requires forall i :: 0 <= i < |trace| ==> trace[i].Touched?
    ensures Run(trace, cap) == Take(Latest(trace), cap)
  {
    if trace != [] {
      var last := |trace| - 1;
      var prev := trace[..last];
      forall i | 0 <= i < |prev| ensures prev[i].Touched? {
        assert prev[i] == trace[i];
      }
      HoldsMostRecent(prev, cap);
      LatestNoDup(prev);
      TakeAccess(Latest(prev), trace[last].b, cap);
    }
  }

  lemma WithoutPrefix(small: seq<nat>, large: seq<nat>, x: nat)
    requires NoDup(large) && small <= large
    ensures Without(small, x) <= Without(large, x)
  {
    var n, i, k := |small|, IndexOf(small, x), IndexOf(large, x);
    assert small == large[..n];
    if i >= 0 {
      assert large[i] == x && large[k] == x;
      assert i == k;
      assert small[..k] == large[..k];
      assert small[k + 1..] == large[k + 1..n];
    } else if k >= 0 {
      assert large[..n][..n] == small;
      assert forall j :: 0 <= j < n ==> small[j] == large[j];
    }
  }

  /** One step keeps the list of a smaller pool a prefix of the list of a larger one. */
  lemma StepKeepsPrefix(small: seq<nat>, large: seq<nat>, n: nat, m: nat, e: Event)
    requires 0 < n <= m && NoDup(large) && small <= large && |small| <= n && |large| <= m
    ensures Step(small, n, e) <= Step(large, m, e)
  {
    WithoutPrefix(small, large, e.b);
    var s, l := Without(small, e.b), Without(large, e.b);
    assert [e.b] + s <= [e.b] + l;
  }

  /**
   * On every trace, invalidations included, a pool of `n` slots holds a prefix
   * (in recency order) of what a pool of `m >= n` slots holds.
   */
  lemma {:induction false} LargerPoolContainsSmaller(trace: seq<Event>, n: nat, m: nat)
    requires 0 < n <= m
    ensures Run(trace, n) <= Run(trace, m)
    ensures forall b :: b in Run(trace, n) ==> b in Run(trace, m)
  {
    if trace != [] {
      var prev := trace[..|trace| - 1];
      LargerPoolContainsSmaller(prev, n, m);
      RunNoDup(prev, n);
      RunNoDup(prev, m);
      StepKeepsPrefix(Run(prev, n), Run(prev, m), n, m, trace[|trace| - 1]);
    }
  }
}
