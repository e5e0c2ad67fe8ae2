/** Keeping the elements of a list that pass a test, in their order. */
module Filters {

  /** Those of the first n elements that pass. */
  function Where<T>(p: T -> bool, xs: seq<T>, n: nat): seq<T>
    requires n <= |xs|
  {
    if n == 0 then [] else Where(p, xs, n - 1) + (if p(xs[n - 1]) then [xs[n - 1]] else [])
  }

  function All<T>(p: T -> bool, xs: seq<T>): seq<T> {
    Where(p, xs, |xs|)
  }

  lemma {:induction false} WhereShort<T>(p: T -> bool, xs: seq<T>, n: nat)
    requires n <= |xs|
    ensures |Where(p, xs, n)| <= n
  {
    if n > 0 {
      WhereShort(p, xs, n - 1);
    }
  }

  /** What remains passes the test and was there before. */
  lemma {:induction false} WherePasses<T>(p: T -> bool, xs: seq<T>, n: nat)
    requires n <= |xs|
    ensures forall k :: 0 <= k < |Where(p, xs, n)| ==> p(Where(p, xs, n)[k]) && Where(p, xs, n)[k] in xs
  {
    if n > 0 {
      WherePasses(p, xs, n - 1);
    }
  }

  /** Each copy of an element is kept if it passes, and none otherwise. */
  lemma {:induction false} WhereCopies<T>(p: T -> bool, xs: seq<T>, n: nat, x: T)
    requires n <= |xs|
    ensures multiset(Where(p, xs, n))[x] == if p(x) then multiset(xs[..n])[x] else 0
  {
    if n > 0 {
      WhereCopies(p, xs, n - 1, x);
      assert xs[..n] == xs[..n - 1] + [xs[n - 1]];
    }
  }

  lemma {:induction false} WhereSame<T>(p: T -> bool, q: T -> bool, xs: seq<T>, n: nat)
    requires n <= |xs| && forall k :: 0 <= k < n ==> p(xs[k]) == q(xs[k])
    ensures Where(p, xs, n) == Where(q, xs, n)
  {
    if n > 0 {
      WhereSame(p, q, xs, n - 1);
    }
  }

  lemma {:induction false} WhereEverything<T>(p: T -> bool, xs: seq<T>, n: nat)
    requires n <= |xs| && forall k :: 0 <= k < n ==> p(xs[k])
    ensures Where(p, xs, n) == xs[..n]
  {
    if n > 0 {
      WhereEverything(p, xs, n - 1);
    }
  }

  lemma {:induction false} WhereNothing<T>(p: T -> bool, xs: seq<T>, n: nat)
    requires n <= |xs| && forall k :: 0 <= k < n ==> !p(xs[k])
    ensures Where(p, xs, n) == []
  {
    if n > 0 {
      WhereNothing(p, xs, n - 1);
    }
  }

  lemma {:induction false} WherePrefix<T>(p: T -> bool, xs: seq<T>, ys: seq<T>, n: nat)
    requires n <= |xs| && xs <= ys
    ensures Where(p, ys, n) == Where(p, xs, n)
  {
    if n > 0 {
      WherePrefix(p, xs, ys, n - 1);
    }
  }

  lemma AllSnoc<T>(p: T -> bool, xs: seq<T>, x: T)
    ensures All(p, xs + [x]) == All(p, xs) + if p(x) then [x] else []
  {
    WherePrefix(p, xs, xs + [x], |xs|);
  }

  lemma {:induction false} AllConcat<T>(p: T -> bool, xs: seq<T>, ys: seq<T>)
    ensures All(p, xs + ys) == All(p, xs) + All(p, ys)
  {
    if ys == [] {
      assert xs + ys == xs;
    } else {
      var rest, y := ys[..|ys| - 1], ys[|ys| - 1];
      AllConcat(p, xs, rest);
      assert xs + ys == xs + rest + [y] && ys == rest + [y];
      AllSnoc(p, xs + rest, y);
      AllSnoc(p, rest, y);
    }
  }

  /** Filtering twice is filtering by both tests. */
  lemma {:induction false} WhereTwice<T>(p: T -> bool, q: T -> bool, r: T -> bool, xs: seq<T>, n: nat)
    requires n <= |xs| && forall k :: 0 <= k < n ==> (r(xs[k]) <==> p(xs[k]) && q(xs[k]))
    ensures All(q, Where(p, xs, n)) == Where(r, xs, n)
  {
    if n > 0 {
      WhereTwice(p, q, r, xs, n - 1);
      var before := Where(p, xs, n - 1);
      if p(xs[n - 1]) {
        AllSnoc(q, before, xs[n - 1]);
        assert Where(p, xs, n) == before + [xs[n - 1]];
      } else {
        assert Where(p, xs, n) == before;
      }
    }
  }

  /** Two exclusive tests: together they take what either takes. */
  lemma {:induction false} WhereSplit<T>(p: T -> bool, q: T -> bool, r: T -> bool, xs: seq<T>, n: nat)
    requires n <= |xs|
    requires forall k :: 0 <= k < n ==> (r(xs[k]) <==> p(xs[k]) || q(xs[k])) && !(p(xs[k]) && q(xs[k]))
    ensures multiset(Where(r, xs, n)) == multiset(Where(p, xs, n)) + multiset(Where(q, xs, n))
  {
    if n > 0 {
      WhereSplit(p, q, r, xs, n - 1);
    }
  }
}
