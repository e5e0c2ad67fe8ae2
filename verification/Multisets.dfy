/** Sums over sequences: of numbers and of multisets. */
module Multisets {

  /** The sum of the first n numbers. */
  function PlusTo(xs: seq<int>, n: nat): int
    requires n <= |xs|
  {
    if n == 0 then 0 else PlusTo(xs, n - 1) + xs[n - 1]
  }

  function Plus(xs: seq<int>): int {
    PlusTo(xs, |xs|)
  }

  lemma {:induction false} PlusPrefix(x: seq<int>, y: seq<int>, n: nat)
    requires n <= |x| && x <= y
    ensures PlusTo(y, n) == PlusTo(x, n)
  {
    if n > 0 {
      PlusPrefix(x, y, n - 1);
    }
  }

  lemma {:induction false} PlusSuffix(x: seq<int>, y: seq<int>, n: nat)
    requires n <= |y|
    ensures PlusTo(x + y, |x| + n) == Plus(x) + PlusTo(y, n)
  {
    if n == 0 {
      PlusPrefix(x, x + y, |x|);
    } else {
      PlusSuffix(x, y, n - 1);
    }
  }

  lemma PlusConcat(x: seq<int>, y: seq<int>)
    ensures Plus(x + y) == Plus(x) + Plus(y)
  {
    PlusSuffix(x, y, |y|);
  }

  lemma PlusOne(x: int)
    ensures Plus([x]) == x
  {
    assert PlusTo([x], 1) == PlusTo([x], 0) + x;
  }

  lemma PlusRemoved(xs: seq<int>, i: nat)
    requires i < |xs|
    ensures Plus(xs) == Plus(xs[..i] + xs[i + 1..]) + xs[i]
  {
    var x, y := xs[..i], xs[i + 1..];
    assert xs == x + ([xs[i]] + y);
    PlusConcat(x, [xs[i]] + y);
    PlusConcat([xs[i]], y);
    PlusConcat(x, y);
    PlusOne(xs[i]);
  }

  lemma {:induction false} PlusZeros(xs: seq<int>, n: nat)
    requires n <= |xs| && forall i :: 0 <= i < |xs| ==> xs[i] == 0
    ensures PlusTo(xs, n) == 0
  {
    if n > 0 {
      PlusZeros(xs, n - 1);
    }
  }

  lemma {:induction false} PlusPositive(xs: seq<int>, n: nat)
    requires n <= |xs| && forall i :: 0 <= i < |xs| ==> xs[i] >= 0
    ensures PlusTo(xs, n) >= 0
  {
    if n > 0 {
      PlusPositive(xs, n - 1);
    }
  }

  /** Two entries change, or one. */
  lemma {:induction false} PlusBumped(xs: seq<int>, ys: seq<int>, n: nat, a: int, da: int, b: int, db: int)
    requires n <= |xs| == |ys| && 0 <= a && 0 <= b
    requires forall k :: 0 <= k < |xs| ==> ys[k] == xs[k] + (if k == a then da else 0) + (if k == b then db else 0)
    ensures PlusTo(ys, n) == PlusTo(xs, n) + (if a < n then da else 0) + (if b < n then db else 0)
  {
    if n > 0 {
      PlusBumped(xs, ys, n - 1, a, da, b, db);
    }
  }

  /** The sum of the first n multisets. */
  function Total<T>(ms: seq<multiset<T>>, n: nat): multiset<T>
    requires n <= |ms|
  {
    if n == 0 then multiset{} else Total(ms, n - 1) + ms[n - 1]
  }

  lemma {:induction false} TotalUpdated<T>(ms: seq<multiset<T>>, s: nat, m: multiset<T>, n: nat)
    requires s < |ms| && n <= |ms|
    ensures s < n ==> Total(ms[s := m], n) + ms[s] == Total(ms, n) + m
    ensures s >= n ==> Total(ms[s := m], n) == Total(ms, n)
  {
    if n > 0 {
      TotalUpdated(ms, s, m, n - 1);
      var now := ms[s := m];
      if s < n - 1 {
        assert now[n - 1] == ms[n - 1];
        Swap(Total(now, n - 1), ms[s], Total(ms, n - 1), m, ms[n - 1]);
      }
    }
  }

  lemma Swap<T>(a: multiset<T>, b: multiset<T>, c: multiset<T>, d: multiset<T>, x: multiset<T>)
    requires a + b == c + d
    ensures a + x + b == c + x + d
  {
    assert a + x + b == a + b + x;
    assert c + x + d == c + d + x;
  }

  lemma {:induction false} TotalPrefix<T>(x: seq<multiset<T>>, y: seq<multiset<T>>, n: nat)
    requires n <= |x| && x <= y
    ensures Total(y, n) == Total(x, n)
  {
    if n > 0 {
      TotalPrefix(x, y, n - 1);
    }
  }

  lemma TotalSnoc<T>(x: seq<multiset<T>>, m: multiset<T>)
    ensures Total(x + [m], |x| + 1) == Total(x, |x|) + m
  {
    TotalPrefix(x, x + [m], |x|);
  }

  lemma Exchange<T>(a: multiset<T>, b: multiset<T>, c: multiset<T>)
    ensures a + b + c == a + c + b
  {
  }

  lemma {:induction false} TotalRemoved<T>(ms: seq<multiset<T>>, i: nat)
    requires i < |ms|
    ensures Total(ms, |ms|) == Total(ms[..i] + ms[i + 1..], |ms| - 1) + ms[i]
    decreases |ms|
  {
    var n := |ms| - 1;
    var init := ms[..n];
    assert ms == init + [ms[n]];
    TotalSnoc(init, ms[n]);
    if i == n {
      assert ms[..i] + ms[i + 1..] == init;
    } else {
      TotalRemoved(init, i);
      var rest := init[..i] + init[i + 1..];
      assert ms[..i] + ms[i + 1..] == rest + [ms[n]];
      TotalSnoc(rest, ms[n]);
      Exchange(Total(rest, |rest|), ms[i], ms[n]);
    }
  }

  /** The same, with the rest given part by part. */
  lemma TotalWithout<T>(ms: seq<multiset<T>>, rest: seq<multiset<T>>, i: nat)
    requires i < |ms| == |rest| + 1
    requires forall j :: 0 <= j < i ==> rest[j] == ms[j]
    requires forall j :: i <= j < |rest| ==> rest[j] == ms[j + 1]
    ensures Total(ms, |ms|) == Total(rest, |rest|) + ms[i]
  {
    TotalRemoved(ms, i);
    assert rest == ms[..i] + ms[i + 1..];
  }

  lemma {:induction false} PartOfTotal<T>(ms: seq<multiset<T>>, s: nat, n: nat)
    requires s < n <= |ms|
    ensures ms[s] <= Total(ms, n)
  {
    if s < n - 1 {
      PartOfTotal(ms, s, n - 1);
    }
  }

  lemma {:induction false} TotalEmpty<T>(ms: seq<multiset<T>>, n: nat)
    requires n <= |ms| && forall i :: 0 <= i < n ==> ms[i] == multiset{}
    ensures Total(ms, n) == multiset{}
  {
    if n > 0 {
      TotalEmpty(ms, n - 1);
    }
  }

  /** One part changes: what leaves it and what enters it settles the balance. */
  lemma Settle<T>(all: multiset<T>, done: multiset<T>, ms: seq<multiset<T>>, s: nat, m: multiset<T>,
                  gone: multiset<T>, come: multiset<T>)
    requires s < |ms| && all == done + Total(ms, |ms|) && m + gone == ms[s] + come
    ensures all + come == done + gone + Total(ms[s := m], |ms|)
  {
    TotalUpdated(ms, s, m, |ms|);
    Rebalance(all, done, Total(ms, |ms|), Total(ms[s := m], |ms|), ms[s], m, gone, come);
  }

  /** One part is replaced by an equal one. */
  lemma SettleSame<T>(all: multiset<T>, done: multiset<T>, ms: seq<multiset<T>>, s: nat, m: multiset<T>)
    requires s < |ms| && all == done + Total(ms, |ms|) && m == ms[s]
    ensures all == done + Total(ms[s := m], |ms|)
  {
    assert ms[s := m] == ms;
  }

  lemma Rebalance<T>(all: multiset<T>, done: multiset<T>, was: multiset<T>, now: multiset<T>,
                     part: multiset<T>, part': multiset<T>, gone: multiset<T>, come: multiset<T>)
    requires all == done + was && now + part == was + part' && part' + gone == part + come
    ensures all + come == done + gone + now
  {
    forall e
      ensures (all + come)[e] == (done + gone + now)[e]
    {
      assert (now + part)[e] == (was + part')[e];
      assert (part' + gone)[e] == (part + come)[e];
    }
  }

  // ----- Exchanges: of its copies of something, party t keeps kept[t] and sends flow[t][s] to party s -----

  ghost predicate Table(flow: seq<seq<nat>>, n: nat) {
    forall t :: 0 <= t < |flow| ==> |flow[t]| == n
  }

  /** What party s receives from the first m parties. */
  ghost function ReceivedBy(flow: seq<seq<nat>>, n: nat, s: nat, m: nat): nat
    requires Table(flow, n) && s < n && m <= |flow|
  {
    if m == 0 then 0 else ReceivedBy(flow, n, s, m - 1) + flow[m - 1][s]
  }

  /** What the first k of n parties receive from the first m. */
  ghost function Received(flow: seq<seq<nat>>, n: nat, k: nat, m: nat): nat
    requires Table(flow, n) && k <= n && m <= |flow|
  {
    if k == 0 then 0 else Received(flow, n, k - 1, m) + ReceivedBy(flow, n, k - 1, m)
  }

  /** One more sender adds what it sends to each receiver. */
  lemma {:induction false} OneMoreSender(flow: seq<seq<nat>>, n: nat, k: nat, m: nat)
    requires Table(flow, n) && k <= n && m < |flow|
    ensures Received(flow, n, k, m + 1) == Received(flow, n, k, m) + PlusTo(flow[m], k)
  {
    if k > 0 {
      OneMoreSender(flow, n, k - 1, m);
    }
  }

  lemma {:induction false} NoSenders(flow: seq<seq<nat>>, n: nat, k: nat)
    requires Table(flow, n) && k <= n
    ensures Received(flow, n, k, 0) == 0
  {
    if k > 0 {
      NoSenders(flow, n, k - 1);
    }
  }

  /** If each of the first m parties splits what it had between itself and the receivers, nothing is lost or
      duplicated. */
  lemma {:induction false} ExchangeConserves(had: seq<nat>, kept: seq<nat>, flow: seq<seq<nat>>, n: nat, m: nat)
    requires Table(flow, n) && m <= |flow| == |had| == |kept|
    requires forall t :: 0 <= t < |flow| ==> had[t] == kept[t] + Plus(flow[t])
    ensures PlusTo(kept, m) + Received(flow, n, n, m) == PlusTo(had, m)
  {
    if m == 0 {
      NoSenders(flow, n, n);
    } else {
      ExchangeConserves(had, kept, flow, n, m - 1);
      OneMoreSender(flow, n, n, m - 1);
    }
  }

  // ----- Sets -----

  lemma {:induction false} SameSize<T>(x: set<T>, y: set<T>)
    requires x <= y && |x| == |y|
    ensures x == y
  {
    if x != {} {
      var e :| e in x;
      SameSize(x - {e}, y - {e});
    }
  }
}
