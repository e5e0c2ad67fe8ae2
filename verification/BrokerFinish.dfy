/** What the supervisor's record of seen halves means in broker mode (committee_broker.go): two entries for a raw
    transaction are its two halves, both committed and reported. */
module BrokerFinishes {
  import opened Addresses
  import opened Filters
  import opened Multisets
  import opened Transactions
  import opened BrokerCommittees
  import opened BrokerLedgers
  import opened BrokerConservation
  import opened BrokerTheorems

  /** The supervisor knows every second half it has sent by its hash, and no first half so. */
  predicate Known(sup: Supervisor, t: Tx) {
    && (IsSecond(t) ==> t.txHash in sup.confirm2 && t.rawTxHash == Some(sup.confirm2[t.txHash].txHash))
    && (IsFirst(t) ==> t.txHash !in sup.confirm2)
  }

  ghost predicate AllKnown(sup: Supervisor, issued: seq<Tx>) {
    && (forall h :: h in sup.confirm2 ==> h < sup.nextHash)
    && forall i :: 0 <= i < |issued| ==> Known(sup, issued[i])
  }

  lemma DealKnown(c: Config, sup: Supervisor, issued: seq<Tx>, t: Tx)
    requires c.Valid() && AllKnown(sup, issued) && t.rawTxHash.None?
    ensures AllKnown(Deal(c, sup, t).0, issued + [Deal(c, sup, t).1])
  {
  }

  lemma ConfirmKnown(c: Config, sup: Supervisor, issued: seq<Tx>, t: Tx)
    requires c.Valid() && AllKnown(sup, issued) && IssuedOk(c, sup, issued)
    ensures AllKnown(Confirm(c, sup, t).0, issued + Confirm(c, sup, t).1)
  {
    forall i | 0 <= i < |issued|
      ensures Known(Confirm(c, sup, t).0, issued[i])
    {
      assert Remembered(c, sup, issued[i]) && Known(sup, issued[i]);
    }
  }

  lemma {:induction false} ConfirmsKnown(c: Config, sup: Supervisor, issued: seq<Tx>, txs: seq<Tx>, n: nat)
    requires c.Valid() && SupOk(c, sup) && AllKnown(sup, issued) && IssuedOk(c, sup, issued) && n <= |txs|
    ensures var (s, out) := Confirms(c, sup, txs, n);
            AllKnown(s, issued + out) && IssuedOk(c, s, issued + out)
  {
    if n == 0 {
      assert issued + [] == issued;
    } else {
      ConfirmsKnown(c, sup, issued, txs, n - 1);
      ConfirmsGood(c, sup, txs, n - 1);
      ConfirmsGood(c, sup, txs, n);
      var (s, out) := Confirms(c, sup, txs, n - 1);
      ConfirmKnown(c, s, issued + out, txs[n - 1]);
      assert issued + (out + Confirm(c, s, txs[n - 1]).1) == issued + out + Confirm(c, s, txs[n - 1]).1;
    }
  }

  // ----- What a report notes -----

  lemma FirstNoted(c: Config, sup: Supervisor, t: Tx, raw: nat)
    requires c.Valid() && SupOk(c, sup) && Remembered(c, sup, t) && IsHalf(t)
    ensures |NotedFor(Confirm(c, sup, t).0.rawTx2BrokerTx, raw)|
         == |NotedFor(sup.rawTx2BrokerTx, raw)| + Amount(t, FirstsOf(raw))
  {
  }

  lemma StillRemembered(c: Config, sup: Supervisor, txs: seq<Tx>, n: nat, t: Tx)
    requires c.Valid() && SupOk(c, sup) && n <= |txs| && Remembered(c, sup, t)
    ensures SupOk(c, Confirms(c, sup, txs, n).0) && Remembered(c, Confirms(c, sup, txs, n).0, t)
  {
    ConfirmsGood(c, sup, txs, n);
  }

  /** The awaited first halves of a report are noted, one entry each. */
  lemma {:induction false} FirstsNoted(c: Config, sup: Supervisor, txs: seq<Tx>, n: nat, raw: nat)
    requires c.Valid() && SupOk(c, sup) && n <= |txs|
    requires forall i :: 0 <= i < |txs| ==> Remembered(c, sup, txs[i]) && IsHalf(txs[i])
    ensures |NotedFor(Confirms(c, sup, txs, n).0.rawTx2BrokerTx, raw)|
         == |NotedFor(sup.rawTx2BrokerTx, raw)| + SumTo(txs, n, FirstsOf(raw))
  {
    if n > 0 {
      FirstsNoted(c, sup, txs, n - 1, raw);
      var s := Confirms(c, sup, txs, n - 1).0;
      StillRemembered(c, sup, txs, n - 1, txs[n - 1]);
      FirstNoted(c, s, txs[n - 1], raw);
      assert Confirms(c, sup, txs, n).0 == Confirm(c, s, txs[n - 1]).0;
    }
  }

  /** And so are the second halves. */
  lemma {:induction false} SecondsNoted(sup: Supervisor, noted: map<nat, seq<nat>>, txs: seq<Tx>, n: nat, raw: nat)
    requires n <= |txs| && forall i :: 0 <= i < |txs| ==> Known(sup, txs[i]) && IsHalf(txs[i])
    ensures |NotedFor(NoteSeconds(sup.confirm2, noted, txs, n), raw)|
        == |NotedFor(noted, raw)| + SumTo(txs, n, SecondsOf(raw))
  {
    if n > 0 {
      SecondsNoted(sup, noted, txs, n - 1, raw);
      assert Known(sup, txs[n - 1]);
    }
  }

  /** Filtering by kind of half keeps the halves that are counted. */
  lemma {:induction false} CountedSeconds(txs: seq<Tx>, n: nat, raw: nat)
    requires n <= |txs|
    ensures Sum(Where(SecondTest(), txs, n), SecondsOf(raw)) == SumTo(txs, n, SecondsOf(raw))
  {
    if n > 0 {
      CountedSeconds(txs, n - 1, raw);
      var before := Where(SecondTest(), txs, n - 1);
      SumSnoc(before, txs[n - 1], SecondsOf(raw));
      assert Where(SecondTest(), txs, n) == if IsSecond(txs[n - 1]) then before + [txs[n - 1]] else before;
    }
  }

  lemma {:induction false} NoOtherHalves(txs: seq<Tx>, n: nat, raw: nat)
    requires n <= |txs|
    ensures Sum(Where(SecondTest(), txs, n), FirstsOf(raw)) == 0 && Sum(Where(FirstTest(), txs, n), SecondsOf(raw)) == 0
  {
    if n > 0 {
      NoOtherHalves(txs, n - 1, raw);
      var seconds, firsts := Where(SecondTest(), txs, n - 1), Where(FirstTest(), txs, n - 1);
      SumSnoc(seconds, txs[n - 1], FirstsOf(raw));
      SumSnoc(firsts, txs[n - 1], SecondsOf(raw));
      assert Where(SecondTest(), txs, n) == if IsSecond(txs[n - 1]) then seconds + [txs[n - 1]] else seconds;
      assert Where(FirstTest(), txs, n) == if IsFirst(txs[n - 1]) then firsts + [txs[n - 1]] else firsts;
    }
  }

  /** A block's report counts what the block does. */
  lemma HalvesCounted(body: seq<Tx>, raw: nat)
    ensures Sum(Halves(body), FirstsOf(raw)) == Sum(body, FirstsOf(raw))
    ensures Sum(Halves(body), SecondsOf(raw)) == Sum(body, SecondsOf(raw))
  {
    var firsts, seconds := All(FirstTest(), body), All(SecondTest(), body);
    SumConcat(firsts, seconds, FirstsOf(raw));
    SumConcat(firsts, seconds, SecondsOf(raw));
    SumFirsts(body, |body|, FirstsOf(raw));
    CountedSeconds(body, |body|, raw);
    NoOtherHalves(body, |body|, raw);
  }

  // ----- Reports on their way -----

  function InfoSums(infos: seq<seq<Tx>>, k: Measure): seq<int> {
    seq(|infos|, i requires 0 <= i < |infos| => Sum(infos[i], k))
  }

  /** What the reports on their way count. */
  function BeingCounted(infos: seq<seq<Tx>>, k: Measure): int {
    Plus(InfoSums(infos, k))
  }

  lemma InfoAdded(infos: seq<seq<Tx>>, info: seq<Tx>, k: Measure)
    ensures BeingCounted(infos + [info], k) == BeingCounted(infos, k) + Sum(info, k)
  {
    assert InfoSums(infos + [info], k) == InfoSums(infos, k) + [Sum(info, k)];
    PlusConcat(InfoSums(infos, k), [Sum(info, k)]);
    PlusOne(Sum(info, k));
  }

  lemma InfoRemoved(infos: seq<seq<Tx>>, i: nat, k: Measure)
    requires i < |infos|
    ensures BeingCounted(infos, k) == BeingCounted(infos[..i] + infos[i + 1..], k) + Sum(infos[i], k)
  {
    var xs := InfoSums(infos, k);
    PlusRemoved(xs, i);
    assert InfoSums(infos[..i] + infos[i + 1..], k) == xs[..i] + xs[i + 1..];
  }

  // ----- The record over a run -----

  function Injections(injected: seq<Tx>, raw: nat): nat {
    if injected == [] then 0
    else Injections(injected[..|injected| - 1], raw) + if injected[|injected| - 1].txHash == raw then 1 else 0
  }

  /** A raw transaction's entries are its confirmed first halves and its finished second halves; committed halves are
      either of these, or being reported; and its second halves follow its confirmed first halves. */
  ghost predicate Recorded(sys: Ledger, raw: nat) {
    && |NotedFor(sys.sup.rawTx2BrokerTx, raw)| == Sum(sys.confirmed, FirstsOf(raw)) + Sum(sys.finished, SecondsOf(raw))
    && Sum(sys.done, FirstsOf(raw)) == BeingCounted(sys.infos, FirstsOf(raw)) + Sum(sys.confirmed, FirstsOf(raw))
    && Sum(sys.done, SecondsOf(raw)) == BeingCounted(sys.infos, SecondsOf(raw)) + Sum(sys.finished, SecondsOf(raw))
    && Sum(sys.issued, SecondsOf(raw)) == Sum(sys.confirmed, FirstsOf(raw))
    && Sum(sys.issued, FirstsOf(raw)) <= Injections(sys.injected, raw)
  }

  lemma InjectRecorded(c: Config, sys: Ledger, t: Tx, raw: nat)
    requires c.Valid() && Enabled(sys, Inject(t)) && Recorded(sys, raw)
    ensures Recorded(Next(c, sys, Inject(t)), raw)
  {
    var out := Deal(c, sys.sup, t).1;
    SumSnoc(sys.issued, out, FirstsOf(raw));
    SumSnoc(sys.issued, out, SecondsOf(raw));
    assert (sys.injected + [t])[..|sys.injected|] == sys.injected;
  }

  lemma CommitRecorded(c: Config, sys: Ledger, s: nat, raw: nat)
    requires c.Valid() && Enabled(sys, Commit(s)) && Recorded(sys, raw)
    ensures Recorded(Next(c, sys, Commit(s)), raw)
  {
    var body := sys.shards[s].pending.value.txs;
    SumConcat(sys.done, body, FirstsOf(raw));
    SumConcat(sys.done, body, SecondsOf(raw));
    InfoAdded(sys.infos, Halves(body), FirstsOf(raw));
    InfoAdded(sys.infos, Halves(body), SecondsOf(raw));
    HalvesCounted(body, raw);
  }

  /** A report's entries, and what it moves from being reported to being known. */
  lemma TakenRecorded(c: Config, sys: Ledger, i: nat, raw: nat)
    requires c.Valid() && i < |sys.infos| && Placed(c, sys) && InfosKnown(sys.infos, sys.issued)
    requires AllKnown(sys.sup, sys.issued) && Recorded(sys, raw)
    ensures Recorded(Taken(c, sys, i), raw)
  {
    var info := sys.infos[i];
    var (s, seconds) := Confirms(c, sys.sup, info, |info|);
    AwaitsFirsts(c, sys.sup, sys.issued, info);
    InfoKnown(sys.sup, sys.issued, info);
    FirstsNoted(c, sys.sup, info, |info|, raw);
    SecondsNoted(sys.sup, s.rawTx2BrokerTx, info, |info|, raw);
    SumConcat(sys.confirmed, All(FirstTest(), info), FirstsOf(raw));
    SumConcat(sys.finished, All(SecondTest(), info), SecondsOf(raw));
    SumFirsts(info, |info|, FirstsOf(raw));
    CountedSeconds(info, |info|, raw);
    InfoRemoved(sys.infos, i, FirstsOf(raw));
    InfoRemoved(sys.infos, i, SecondsOf(raw));
    ConfirmsFollow(c, sys.sup, info, |info|, SecondsOf(raw));
    ConfirmsFollow(c, sys.sup, info, |info|, FirstsOf(raw));
    SumConcat(sys.issued, seconds, SecondsOf(raw));
    SumConcat(sys.issued, seconds, FirstsOf(raw));
  }

  /** What is reported was sent, and so is known. */
  lemma InfoKnown(sup: Supervisor, issued: seq<Tx>, info: seq<Tx>)
    requires AllKnown(sup, issued) && HalvesOf(info, multiset(issued))
    ensures forall k :: 0 <= k < |info| ==> Known(sup, info[k]) && IsHalf(info[k])
  {
    forall k | 0 <= k < |info|
      ensures Known(sup, info[k])
    {
      assert info[k] in multiset(issued);
      var j :| 0 <= j < |issued| && issued[j] == info[k];
      assert Known(sup, issued[j]);
    }
  }

  ghost predicate Records(sys: Ledger) {
    AllKnown(sys.sup, sys.issued) && forall raw :: Recorded(sys, raw)
  }

  lemma TakenKnown(c: Config, sys: Ledger, i: nat)
    requires c.Valid() && i < |sys.infos| && Placed(c, sys) && AllKnown(sys.sup, sys.issued)
    ensures AllKnown(Taken(c, sys, i).sup, Taken(c, sys, i).issued)
  {
    var info := sys.infos[i];
    var s := Confirms(c, sys.sup, info, |info|).0;
    ConfirmsKnown(c, sys.sup, sys.issued, info, |info|);
    var next := Taken(c, sys, i);
    assert next.sup == s.(rawTx2BrokerTx := next.sup.rawTx2BrokerTx);
    forall k | 0 <= k < |next.issued|
      ensures Known(next.sup, next.issued[k])
    {
      assert Known(s, next.issued[k]);
    }
  }

  lemma AfterRecords(c: Config, sys: Ledger, step: Step)
    requires c.Valid() && Placed(c, sys) && InfosKnown(sys.infos, sys.issued) && Records(sys)
    ensures Records(After(c, sys, step))
  {
    if Enabled(sys, step) {
      if step.Inject? {
        DealKnown(c, sys.sup, sys.issued, step.t);
      } else if step.Reported? {
        TakenKnown(c, sys, step.i);
      }
      forall raw
        ensures Recorded(Next(c, sys, step), raw)
      {
        assert Recorded(sys, raw);
        match step
        case Inject(t) => InjectRecorded(c, sys, t, raw);
        case Commit(s) => CommitRecorded(c, sys, s, raw);
        case Reported(i) => TakenRecorded(c, sys, i, raw);
        case _ =>
      }
    }
  }

  lemma {:induction false} RunRecords(c: Config, steps: seq<Step>, n: nat)
    requires c.Valid() && n <= |steps|
    ensures Records(Run(c, steps, n))
  {
    if n == 0 {
      assert forall raw :: Recorded(Init(c), raw);
    } else {
      RunRecords(c, steps, n - 1);
      RunPlaced(c, steps, n - 1);
      RunReports(c, steps, n - 1);
      AfterRecords(c, Run(c, steps, n - 1), steps[n - 1]);
    }
  }

  /** In every run the record of a raw transaction that was injected once has at most two entries, and it has two, by
      which the supervisor counts it finished, exactly when both its halves are committed and reported. */
  lemma TwoEntries(c: Config, steps: seq<Step>, n: nat, raw: nat)
    requires c.Valid() && n <= |steps| && Injections(Run(c, steps, n).injected, raw) <= 1
    ensures var sys := Run(c, steps, n);
            var entries := |NotedFor(sys.sup.rawTx2BrokerTx, raw)|;
            && entries <= 2
            && (entries == 2 <==>
                  && Sum(sys.done, FirstsOf(raw)) == 1 && BeingCounted(sys.infos, FirstsOf(raw)) == 0
                  && Sum(sys.done, SecondsOf(raw)) == 1 && BeingCounted(sys.infos, SecondsOf(raw)) == 0)
  {
    RunRecords(c, steps, n);
    RunBooks(c, steps, n);
    var sys := Run(c, steps, n);
    assert Recorded(sys, raw);
    SubsetOfSum(multiset(sys.done), OnTheWay(sys.net) + HeldAll(sys.shards), multiset(sys.issued));
    SumSubset(sys.done, sys.issued, FirstsOf(raw));
    SumSubset(sys.done, sys.issued, SecondsOf(raw));
    PlusPositive(InfoSums(sys.infos, FirstsOf(raw)), |sys.infos|);
    PlusPositive(InfoSums(sys.infos, SecondsOf(raw)), |sys.infos|);
  }
}
