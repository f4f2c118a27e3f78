/** Sequence helpers shared by the event journal, the simulator and the report list:
    newest-first insertion under a retention cap, counting, filtering and first-match search. */
module Lists {
  import opened Basics

  /** The first `n` elements of `s`, or all of `s` when it is shorter (`slice(0, n)`). */
  function Take<T>(s: seq<T>, n: nat): (r: seq<T>)
    ensures |r| == Min(|s|, n)
    ensures r == s[..|r|]
  {
    if |s| <= n then s else s[..n]
  }

  /** `unshift(x)` followed by truncation to `cap` entries: the new element becomes the
      front and only the oldest entries beyond the cap are dropped. */
  function PushFront<T>(xs: seq<T>, x: T, cap: nat): (r: seq<T>)
    requires cap >= 1
    ensures |r| == Min(|xs| + 1, cap)
    ensures r[0] == x
    ensures r[1..] == xs[..|r| - 1]
  {
    Take([x] + xs, cap)
  }

  /** Pushes `es[0]`, then `es[1]`, … onto `xs` with `PushFront`. */
  function PushAll<T>(xs: seq<T>, es: seq<T>, cap: nat): seq<T>
    requires cap >= 1
    decreases |es|
  {
    if |es| == 0 then xs else PushAll(PushFront(xs, es[0], cap), es[1..], cap)
  }

  function Reverse<T>(s: seq<T>): (r: seq<T>)
    ensures |r| == |s|
    ensures forall i :: 0 <= i < |s| ==> r[i] == s[|s| - 1 - i]
    decreases |s|
  {
    if |s| == 0 then [] else Reverse(s[1..]) + [s[0]]
  }

  lemma TakeOfTake<T>(a: seq<T>, b: seq<T>, n: nat)
    ensures Take(a + Take(b, n), n) == Take(a + b, n)
  {
    if |b| > n {
      assert (a + b[..n])[..Min(|a| + n, n)] == (a + b)[..n];
    }
  }

  /** Pushing a batch one by one onto a list within the cap leaves exactly the `cap`
      most recently pushed elements (newest first) in front of the old list. */
  lemma {:induction false} PushAllKeepsNewest<T>(xs: seq<T>, es: seq<T>, cap: nat)
    requires cap >= 1
    requires |xs| <= cap
    ensures PushAll(xs, es, cap) == Take(Reverse(es) + xs, cap)
    decreases |es|
  {
    if |es| == 0 {
      assert Reverse(es) + xs == xs;
    } else {
      var ys := PushFront(xs, es[0], cap);
      PushAllKeepsNewest(ys, es[1..], cap);
      TakeOfTake(Reverse(es[1..]), [es[0]] + xs, cap);
      assert Reverse(es[1..]) + ([es[0]] + xs) == Reverse(es) + xs;
    }
  }

  /** Number of elements satisfying `p`; recursion on the last element. */
  function Count<T>(xs: seq<T>, p: T -> bool): (n: nat)
    ensures n <= |xs|
    decreases |xs|
  {
    if |xs| == 0 then 0
    else Count(xs[..|xs| - 1], p) + (if p(xs[|xs| - 1]) then 1 else 0)
  }

  /** Reference definition of the count: the set of positions whose element satisfies `p`. */
  ghost function IndicesWhere<T>(xs: seq<T>, p: T -> bool): set<int>
  {
    set i | 0 <= i < |xs| && p(xs[i])
  }

  lemma {:induction false} CountIsIndexSet<T>(xs: seq<T>, p: T -> bool)
    ensures Count(xs, p) == |IndicesWhere(xs, p)|
    decreases |xs|
  {
    if |xs| > 0 {
      var n := |xs| - 1;
      var init := xs[..n];
      CountIsIndexSet(init, p);
      var before := IndicesWhere(init, p);
      if p(xs[n]) {
        assert IndicesWhere(xs, p) == before + {n};
        assert n !in before;
      } else {
        assert IndicesWhere(xs, p) == before;
      }
    }
  }

  /** Counts of three mutually exclusive predicates never add up to more than the length. */
  lemma {:induction false} CountExclusive<T>(xs: seq<T>, p: T -> bool, q: T -> bool, r: T -> bool)
    requires forall x :: !(p(x) && q(x)) && !(p(x) && r(x)) && !(q(x) && r(x))
    ensures Count(xs, p) + Count(xs, q) + Count(xs, r) <= |xs|
    decreases |xs|
  {
    if |xs| > 0 {
      CountExclusive(xs[..|xs| - 1], p, q, r);
    }
  }

  lemma {:induction false} CountPositiveIffExists<T>(xs: seq<T>, p: T -> bool)
    ensures Count(xs, p) > 0 <==> exists i :: 0 <= i < |xs| && p(xs[i])
    decreases |xs|
  {
    if |xs| > 0 {
      var n := |xs| - 1;
      CountPositiveIffExists(xs[..n], p);
      if exists i :: 0 <= i < |xs| && p(xs[i]) {
        var i :| 0 <= i < |xs| && p(xs[i]);
        if i < n {
          assert xs[..n][i] == xs[i];
        }
      }
      if exists i :: 0 <= i < n && p(xs[..n][i]) {
        var i :| 0 <= i < n && p(xs[..n][i]);
        assert xs[i] == xs[..n][i];
      }
    }
  }

  /** The elements satisfying `p`, in their original order (`Array.prototype.filter`). */
  function Filter<T>(xs: seq<T>, p: T -> bool): (r: seq<T>)
    ensures |r| == Count(xs, p)
    ensures forall x :: x in r ==> x in xs && p(x)
    decreases |xs|
  {
    if |xs| == 0 then []
    else Filter(xs[..|xs| - 1], p) + (if p(xs[|xs| - 1]) then [xs[|xs| - 1]] else [])
  }

  /** Filtering distributes over concatenation, so the kept elements keep their relative order. */
  lemma {:induction false} FilterConcat<T>(a: seq<T>, b: seq<T>, p: T -> bool)
    ensures Filter(a + b, p) == Filter(a, p) + Filter(b, p)
    decreases |b|
  {
    if |b| > 0 {
      var n := |b| - 1;
      var c := a + b;
      var tail := if p(b[n]) then [b[n]] else [];
      assert c[..|c| - 1] == a + b[..n];
      assert c[|c| - 1] == b[n];
      assert Filter(c, p) == Filter(a + b[..n], p) + tail;
      assert Filter(b, p) == Filter(b[..n], p) + tail;
      FilterConcat(a, b[..n], p);
    } else {
      assert a + b == a;
    }
  }

  /** Every element satisfying `p` survives the filter. */
  lemma {:induction false} FilterKeeps<T>(xs: seq<T>, p: T -> bool, x: T)
    requires x in xs && p(x)
    ensures x in Filter(xs, p)
    decreases |xs|
  {
    var n := |xs| - 1;
    if xs[n] != x {
      assert x in xs[..n] by {
        var i :| 0 <= i < |xs| && xs[i] == x;
        assert i < n && xs[..n][i] == x;
      }
      FilterKeeps(xs[..n], p, x);
    }
  }

  /** Position of the first element satisfying `p` (`find` / `findIndex`). */
  function FirstIndex<T>(xs: seq<T>, p: T -> bool): (r: Option<nat>)
    ensures r.Some? ==> r.value < |xs| && p(xs[r.value])
    ensures r.Some? ==> forall j :: 0 <= j < r.value ==> !p(xs[j])
    ensures r.None? ==> forall j :: 0 <= j < |xs| ==> !p(xs[j])
    decreases |xs|
  {
    if |xs| == 0 then None
    else if p(xs[0]) then Some(0)
    else match FirstIndex(xs[1..], p)
      case None => None
      case Some(k) => Some(k + 1)
  }

  /** Counting over a list with one element put in front (`unshift`). */
  lemma {:induction false} CountPrepend<T>(x: T, xs: seq<T>, p: T -> bool)
    ensures Count([x] + xs, p) == (if p(x) then 1 else 0) + Count(xs, p)
    decreases |xs|
  {
    if |xs| > 0 {
      var n := |xs| - 1;
      assert ([x] + xs)[..|xs|] == [x] + xs[..n];
      CountPrepend(x, xs[..n], p);
    }
  }

  /** Filtering twice by the same predicate is filtering once. */
  lemma {:induction false} FilterIdempotent<T>(xs: seq<T>, p: T -> bool)
    ensures Filter(Filter(xs, p), p) == Filter(xs, p)
    decreases |xs|
  {
    if |xs| > 0 {
      var n := |xs| - 1;
      var last := if p(xs[n]) then [xs[n]] else [];
      FilterIdempotent(xs[..n], p);
      FilterConcat(Filter(xs[..n], p), last, p);
      assert Filter(last, p) == last by {
        if p(xs[n]) {
          assert Filter(last, p) == Filter(last[..0], p) + [xs[n]];
        }
      }
    }
  }

  /** A prefix with no match shifts the first match by its length. */
  lemma {:induction false} FirstIndexAfterPrefix<T>(pre: seq<T>, xs: seq<T>, p: T -> bool)
    requires forall i :: 0 <= i < |pre| ==> !p(pre[i])
    ensures FirstIndex(pre + xs, p) == match FirstIndex(xs, p)
                                       case None => None
                                       case Some(k) => Some(|pre| + k)
    decreases |pre|
  {
    if |pre| > 0 {
      assert (pre + xs)[0] == pre[0];
      assert (pre + xs)[1..] == pre[1..] + xs;
      FirstIndexAfterPrefix(pre[1..], xs, p);
    } else {
      assert pre + xs == xs;
    }
  }

  /** No element occurs twice (the contents of a JavaScript `Set`, in insertion order). */
  predicate NoDup<T(==)>(xs: seq<T>)
  {
    forall i, j :: 0 <= i < j < |xs| ==> xs[i] != xs[j]
  }

  /** `Set.prototype.add`: appends only when absent. */
  function SetAdd<T(==,!new)>(xs: seq<T>, x: T): (r: seq<T>)
    ensures NoDup(xs) ==> NoDup(r)
    ensures forall y :: y in r <==> y in xs || y == x
  {
    if x in xs then xs else xs + [x]
  }

  /** `Set.prototype.delete`: removes `x`, keeping the order of the rest. */
  function SetDelete<T(==,!new)>(xs: seq<T>, x: T): (r: seq<T>)
    ensures NoDup(xs) ==> NoDup(r)
    ensures forall y :: y in r <==> y in xs && y != x
    decreases |xs|
  {
    if |xs| == 0 then []
    else if xs[0] == x then SetDelete(xs[1..], x)
    else
      var rest := SetDelete(xs[1..], x);
      assert NoDup(xs) ==> xs[0] !in xs[1..] && NoDup(xs[1..]);
      [xs[0]] + rest
  }
}
