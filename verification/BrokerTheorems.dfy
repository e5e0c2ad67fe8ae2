/** Every run of the broker-mode ledger: balances, second halves at most once, and the agreement with the
    sequential ledger. */
module BrokerTheorems {
  import opened Addresses
  import opened Filters
  import opened Transactions
  import opened BrokerCommittees
  import opened BrokerLedgers
  import opened BrokerConservation
  import R = RelayLedgers
  import Multisets
  import S = RelayConservation

  // ----- What was sent weighs what was injected -----

  /** Debits of an account that is no broker are those injected; its credits are those injected once the first
      halves for it have been followed by their second halves. */
  predicate WeighsFor(c: Config, injected: seq<Tx>, issued: seq<Tx>, confirmed: seq<Tx>, a: Address) {
    if c.IsBroker(a) then Sum(issued, Debit(a)) <= Sum(issued, WholeValue) + Sum(confirmed, FirstValue)
    else && Sum(issued, Debit(a)) == Sum(injected, Debit(a))
         && Sum(issued, Credit(a)) + Sum(issued, FirstFinal(a))
             == Sum(injected, Credit(a)) + Sum(confirmed, FirstFinal(a))
  }

  predicate WeighsInAll(injected: seq<Tx>, issued: seq<Tx>) {
    Sum(issued, WholeValue) + Sum(issued, FirstValue) == Sum(injected, WholeValue)
  }

  lemma InjectWeighs(c: Config, sys: Ledger, t: Tx, a: Address)
    requires c.Valid() && Enabled(sys, Inject(t)) && WeighsFor(c, sys.injected, sys.issued, sys.confirmed, a)
    ensures WeighsFor(c, sys.injected + [t], sys.issued + [Deal(c, sys.sup, t).1], sys.confirmed, a)
  {
    var out := Deal(c, sys.sup, t).1;
    SumSnoc(sys.issued, out, Debit(a));
    SumSnoc(sys.issued, out, Credit(a));
    SumSnoc(sys.issued, out, FirstFinal(a));
    SumSnoc(sys.issued, out, WholeValue);
    SumSnoc(sys.injected, t, Debit(a));
    SumSnoc(sys.injected, t, Credit(a));
  }

  lemma InjectWeighsInAll(c: Config, sys: Ledger, t: Tx)
    requires c.Valid() && Enabled(sys, Inject(t)) && WeighsInAll(sys.injected, sys.issued)
    ensures WeighsInAll(sys.injected + [t], sys.issued + [Deal(c, sys.sup, t).1])
  {
    var out := Deal(c, sys.sup, t).1;
    SumSnoc(sys.issued, out, WholeValue);
    SumSnoc(sys.issued, out, FirstValue);
    SumSnoc(sys.injected, t, WholeValue);
  }

  lemma ReportWeighs(c: Config, injected: seq<Tx>, issued: seq<Tx>, confirmed: seq<Tx>, seconds: seq<Tx>,
                     firsts: seq<Tx>, a: Address)
    requires WeighsFor(c, injected, issued, confirmed, a) && forall k :: Follow(c, seconds, firsts, k)
    ensures WeighsFor(c, injected, issued + seconds, confirmed + firsts, a)
  {
    assert Follow(c, seconds, firsts, Debit(a)) && Follow(c, seconds, firsts, Credit(a));
    assert Follow(c, seconds, firsts, FirstFinal(a)) && Follow(c, seconds, firsts, WholeValue);
    SumConcat(issued, seconds, Debit(a));
    SumConcat(issued, seconds, Credit(a));
    SumConcat(issued, seconds, FirstFinal(a));
    SumConcat(issued, seconds, WholeValue);
    SumConcat(confirmed, firsts, FirstFinal(a));
    SumConcat(confirmed, firsts, FirstValue);
  }

  lemma ReportWeighsInAll(c: Config, injected: seq<Tx>, issued: seq<Tx>, seconds: seq<Tx>, firsts: seq<Tx>)
    requires WeighsInAll(injected, issued) && forall k :: Follow(c, seconds, firsts, k)
    ensures WeighsInAll(injected, issued + seconds)
  {
    assert Follow(c, seconds, firsts, WholeValue) && Follow(c, seconds, firsts, FirstValue);
    SumConcat(issued, seconds, WholeValue);
    SumConcat(issued, seconds, FirstValue);
  }

  ghost predicate Weighs(c: Config, injected: seq<Tx>, issued: seq<Tx>, confirmed: seq<Tx>) {
    (forall a :: WeighsFor(c, injected, issued, confirmed, a)) && WeighsInAll(injected, issued)
  }

  lemma InjectKeepsWeights(c: Config, sys: Ledger, t: Tx)
    requires c.Valid() && Enabled(sys, Inject(t)) && Weighs(c, sys.injected, sys.issued, sys.confirmed)
    ensures Weighs(c, sys.injected + [t], sys.issued + [Deal(c, sys.sup, t).1], sys.confirmed)
  {
    InjectWeighsInAll(c, sys, t);
    forall a
      ensures WeighsFor(c, sys.injected + [t], sys.issued + [Deal(c, sys.sup, t).1], sys.confirmed, a)
    {
      InjectWeighs(c, sys, t, a);
    }
  }

  lemma ReportKeepsWeights(c: Config, injected: seq<Tx>, issued: seq<Tx>, confirmed: seq<Tx>, seconds: seq<Tx>,
                           firsts: seq<Tx>)
    requires Weighs(c, injected, issued, confirmed) && forall k :: Follow(c, seconds, firsts, k)
    ensures Weighs(c, injected, issued + seconds, confirmed + firsts)
  {
    ReportWeighsInAll(c, injected, issued, seconds, firsts);
    forall a
      ensures WeighsFor(c, injected, issued + seconds, confirmed + firsts, a)
    {
      ReportWeighs(c, injected, issued, confirmed, seconds, firsts, a);
    }
  }

  // ----- The books -----

  /** What is being reported is accounted for and known. */
  ghost predicate Reports(sys: Ledger) {
    Reporting(sys.done, sys.infos, sys.confirmed) && InfosKnown(sys.infos, sys.issued)
  }

  ghost predicate AccountedFor(sys: Ledger) {
    Accounted(sys.issued, sys.done, sys.net, sys.shards)
  }

  ghost predicate Weighed(c: Config, sys: Ledger) {
    Weighs(c, sys.injected, sys.issued, sys.confirmed)
  }

  lemma InfosStayKnown(infos: seq<seq<Tx>>, issued: seq<Tx>, more: seq<Tx>, i: nat)
    requires InfosKnown(infos, issued) && i < |infos|
    ensures InfosKnown(infos[..i] + infos[i + 1..], issued + more)
  {
  }

  lemma BlockKnown(sys: Ledger, s: nat)
    requires s < |sys.shards| && AccountedFor(sys) && Reports(sys)
    ensures var body := sys.shards[s].Proposed();
            && Reporting(sys.done + body, sys.infos + [Halves(body)], sys.confirmed)
            && InfosKnown(sys.infos + [Halves(body)], sys.issued)
  {
    var body := sys.shards[s].Proposed();
    BlockReported(sys.done, sys.infos, sys.confirmed, body);
    ProposedIssued(sys.issued, sys.done, sys.net, sys.shards, s);
    assert multiset(body) <= multiset(sys.done + body);
    HalvesKnown(sys.issued, body);
  }

  lemma CommitReports(c: Config, sys: Ledger, s: nat)
    requires c.brokers != [] && Enabled(sys, Commit(s)) && AccountedFor(sys) && Reports(sys)
    ensures Reports(Next(c, sys, Commit(s)))
  {
    BlockKnown(sys, s);
    assert sys.shards[s].Proposed() == sys.shards[s].pending.value.txs;
  }

  lemma ReportFollows(c: Config, sys: Ledger, i: nat)
    requires c.Valid() && i < |sys.infos| && Placed(c, sys) && InfosKnown(sys.infos, sys.issued)
    ensures All(AwaitedTest(sys.sup), sys.infos[i]) == All(FirstTest(), sys.infos[i])
    ensures forall k :: Follow(c, Report(c, sys.sup, sys.infos[i]).1, All(FirstTest(), sys.infos[i]), k)
  {
    AwaitsFirsts(c, sys.sup, sys.issued, sys.infos[i]);
    forall k
      ensures Follow(c, Report(c, sys.sup, sys.infos[i]).1, All(FirstTest(), sys.infos[i]), k)
    {
      ConfirmsFollow(c, sys.sup, sys.infos[i], |sys.infos[i]|, k);
    }
  }

  lemma TakenWeighed(c: Config, sys: Ledger, i: nat)
    requires c.Valid() && i < |sys.infos| && Placed(c, sys) && InfosKnown(sys.infos, sys.issued) && Weighed(c, sys)
    ensures Weighed(c, Taken(c, sys, i))
  {
    ReportFollows(c, sys, i);
    ReportKeepsWeights(c, sys.injected, sys.issued, sys.confirmed, Report(c, sys.sup, sys.infos[i]).1,
                       All(FirstTest(), sys.infos[i]));
  }

  lemma TakenReports(c: Config, sys: Ledger, i: nat)
    requires c.Valid() && i < |sys.infos| && Placed(c, sys) && Reports(sys)
    ensures Reports(Taken(c, sys, i))
  {
    ReportFollows(c, sys, i);
    ReportTaken(sys.done, sys.infos, sys.confirmed, i, All(FirstTest(), sys.infos[i]));
    InfosStayKnown(sys.infos, sys.issued, Report(c, sys.sup, sys.infos[i]).1, i);
  }

  lemma AfterReports(c: Config, sys: Ledger, step: Step)
    requires c.Valid() && Placed(c, sys) && AccountedFor(sys) && Reports(sys)
    ensures Reports(After(c, sys, step))
  {
    if Enabled(sys, step) {
      match step
      case Commit(s) => CommitReports(c, sys, s);
      case Reported(i) => TakenReports(c, sys, i);
      case _ =>
    }
  }

  lemma AfterWeighed(c: Config, sys: Ledger, step: Step)
    requires c.Valid() && Placed(c, sys) && Reports(sys) && Weighed(c, sys)
    ensures Weighed(c, After(c, sys, step))
  {
    if Enabled(sys, step) {
      match step
      case Inject(t) => InjectKeepsWeights(c, sys, t);
      case Reported(i) => TakenWeighed(c, sys, i);
      case _ =>
    }
  }

  // ----- Balances -----

  /** All injected values together are within the initial balance of one account. */
  predicate Funded(injected: seq<Tx>) {
    Sum(injected, WholeValue) <= INIT_BALANCE
  }

  ghost predicate AllWhole(injected: seq<Tx>) {
    forall i :: 0 <= i < |injected| ==> injected[i].rawTxHash.None? && !injected[i].relayed
  }

  lemma {:induction false} DebitsBelow(txs: seq<Tx>, n: nat, a: Address)
    requires AllWhole(txs) && n <= |txs|
    ensures SumTo(txs, n, Debit(a)) <= SumTo(txs, n, WholeValue)
  {
    if n > 0 {
      DebitsBelow(txs, n - 1, a);
    }
  }

  lemma SubsetOfSum<T>(x: multiset<T>, y: multiset<T>, z: multiset<T>)
    requires z == x + y
    ensures x <= z && y <= z
  {
  }

  /** Nobody, broker or not, is debited more than all injected values together. */
  lemma DebitBound(c: Config, sys: Ledger, x: Address)
    requires c.Valid() && AccountedFor(sys) && Reports(sys) && Weighed(c, sys) && AllWhole(sys.injected)
    ensures Sum(sys.issued, Debit(x)) <= Sum(sys.injected, WholeValue)
  {
    assert WeighsFor(c, sys.injected, sys.issued, sys.confirmed, x);
    if c.IsBroker(x) {
      SubsetOfSum(BeingReported(sys.infos), multiset(sys.confirmed), multiset(All(FirstTest(), sys.done)));
      SumSubset(sys.confirmed, All(FirstTest(), sys.done), FirstValue);
      SumFirsts(sys.done, |sys.done|, FirstValue);
      SubsetOfSum(multiset(sys.done), OnTheWay(sys.net) + HeldAll(sys.shards), multiset(sys.issued));
      SumSubset(sys.done, sys.issued, FirstValue);
    } else {
      DebitsBelow(sys.injected, |sys.injected|, x);
    }
  }

  predicate BalanceAt(c: Config, sys: Ledger, s: nat, x: Address)
    requires s < |sys.shards|
  {
    var b := Balance(sys.shards[s].state, x);
    && b >= INIT_BALANCE - Sum(sys.done, Debit(x))
    && (!c.IsBroker(x) && c.home(x) == s ==> b == INIT_BALANCE - Sum(sys.done, Debit(x)) + Sum(sys.done, Credit(x)))
  }

  ghost predicate Balances(c: Config, sys: Ledger) {
    forall s, x :: 0 <= s < |sys.shards| ==> BalanceAt(c, sys, s, x)
  }

  /** In a funded run everybody can pay for what it sends in a proposed block, brokers included. */
  lemma ProposalPayable(c: Config, sys: Ledger, s: nat)
    requires c.Valid() && AccountedFor(sys) && Reports(sys) && Weighed(c, sys) && s < |sys.shards|
    requires AllWhole(sys.injected) && Funded(sys.injected) && Balances(c, sys)
    ensures Payable(sys.shards[s].state, sys.shards[s].Proposed())
  {
    var txs := sys.shards[s].Proposed();
    ProposedIssued(sys.issued, sys.done, sys.net, sys.shards, s);
    forall x
      ensures Sum(txs, Debit(x)) <= Balance(sys.shards[s].state, x)
    {
      assert BalanceAt(c, sys, s, x);
      DebitBound(c, sys, x);
      SumConcat(sys.done, txs, Debit(x));
      SumSubset(sys.done + txs, sys.issued, Debit(x));
    }
  }

  lemma CommitBalances(c: Config, sys: Ledger, s: nat)
    requires c.Valid() && Placed(c, sys) && AccountedFor(sys) && Reports(sys) && Weighed(c, sys)
    requires Enabled(sys, Commit(s))
    requires AllWhole(sys.injected) && Funded(sys.injected) && Balances(c, sys)
    ensures Balances(c, Next(c, sys, Commit(s)))
  {
    var next := Next(c, sys, Commit(s));
    var txs := sys.shards[s].Proposed();
    assert ShardGood(c, s, sys.shards[s]);
    ProposalPayable(c, sys, s);
    forall u, x | 0 <= u < |next.shards|
      ensures BalanceAt(c, next, u, x)
    {
      assert BalanceAt(c, sys, u, x);
      SumConcat(sys.done, txs, Debit(x));
      SumConcat(sys.done, txs, Credit(x));
      if u == s {
        ExecBroker(c, s, sys.shards[s].state, txs, |txs|, x);
      } else if !c.IsBroker(x) && c.home(x) == u {
        ElsewhereNothing(c, s, txs, x);
      }
    }
  }

  lemma OtherBalances(c: Config, sys: Ledger, step: Step)
    requires c.Valid() && Balances(c, sys) && Enabled(sys, step) && !step.Commit?
    ensures Balances(c, Next(c, sys, step))
  {
    var next := Next(c, sys, step);
    assert next.done == sys.done && |next.shards| == |sys.shards|;
    forall u, x | 0 <= u < |next.shards|
      ensures BalanceAt(c, next, u, x)
    {
      assert BalanceAt(c, sys, u, x);
      assert next.shards[u].state == sys.shards[u].state;
    }
  }

  // ----- Whole runs -----

  /** Everything is accounted for and weighs what it should. */
  ghost predicate Books(c: Config, sys: Ledger) {
    AccountedFor(sys) && Reports(sys) && Weighed(c, sys) && AllWhole(sys.injected)
  }

  lemma BooksAtStart(c: Config)
    requires c.Valid()
    ensures Books(c, Init(c))
  {
    Multisets.TotalEmpty(HeldParts(Init(c).shards), c.shardNum);
  }

  lemma AfterAccounted(c: Config, sys: Ledger, step: Step)
    requires c.Valid() && AccountedFor(sys)
    ensures AccountedFor(After(c, sys, step))
  {
    if Enabled(sys, step) {
      NextAccounted(c, sys, step);
    }
  }

  lemma AfterWhole(c: Config, sys: Ledger, step: Step)
    requires c.Valid() && AllWhole(sys.injected)
    ensures AllWhole(After(c, sys, step).injected)
  {
  }

  lemma AfterBooks(c: Config, sys: Ledger, step: Step)
    requires c.Valid() && Placed(c, sys) && Books(c, sys)
    ensures Books(c, After(c, sys, step))
  {
    AfterAccounted(c, sys, step);
    AfterReports(c, sys, step);
    AfterWeighed(c, sys, step);
    AfterWhole(c, sys, step);
  }

  lemma NextBooks(c: Config, steps: seq<Step>, n: nat)
    requires c.Valid() && n < |steps| && Books(c, Run(c, steps, n))
    ensures Books(c, Run(c, steps, n + 1))
  {
    RunPlaced(c, steps, n);
    AfterBooks(c, Run(c, steps, n), steps[n]);
  }

  lemma {:induction false} RunBooks(c: Config, steps: seq<Step>, n: nat)
    requires c.Valid() && n <= |steps|
    ensures Books(c, Run(c, steps, n))
  {
    if n == 0 {
      BooksAtStart(c);
    } else {
      RunBooks(c, steps, n - 1);
      NextBooks(c, steps, n - 1);
    }
  }

  /** In every run each committed first half is being reported or has its second half, once. */
  lemma RunReports(c: Config, steps: seq<Step>, n: nat)
    requires c.Valid() && n <= |steps|
    ensures Reports(Run(c, steps, n))
  {
    RunBooks(c, steps, n);
  }

  lemma AfterBalances(c: Config, sys: Ledger, step: Step)
    requires c.Valid() && Placed(c, sys) && Books(c, sys)
    requires Funded(sys.injected) ==> Balances(c, sys)
    ensures Funded(After(c, sys, step).injected) ==> Balances(c, After(c, sys, step))
  {
    if Enabled(sys, step) {
      if step.Inject? {
        SumSnoc(sys.injected, step.t, WholeValue);
      }
      if Funded(sys.injected) {
        if step.Commit? {
          CommitBalances(c, sys, step.s);
        } else {
          OtherBalances(c, sys, step);
        }
      }
    }
  }

  lemma StepBalances(c: Config, steps: seq<Step>, n: nat)
    requires c.Valid() && n < |steps| && (Funded(Run(c, steps, n).injected) ==> Balances(c, Run(c, steps, n)))
    ensures Funded(Run(c, steps, n + 1).injected) ==> Balances(c, Run(c, steps, n + 1))
  {
    RunPlaced(c, steps, n);
    RunBooks(c, steps, n);
    AfterBalances(c, Run(c, steps, n), steps[n]);
  }

  /** In every run, whatever the interleaving and however messages overtake one another, all balances are right
      while the injected values together are within the initial balance. */
  lemma {:induction false} RunBalances(c: Config, steps: seq<Step>, n: nat)
    requires c.Valid() && n <= |steps|
    ensures Funded(Run(c, steps, n).injected) ==> Balances(c, Run(c, steps, n))
  {
    if n > 0 {
      RunBalances(c, steps, n - 1);
      StepBalances(c, steps, n - 1);
    }
  }

  /** In a funded run the short-balance branch is never taken, for brokers either. */
  lemma NobodyShort(c: Config, steps: seq<Step>, n: nat, s: nat)
    requires c.Valid() && n <= |steps| && Funded(Run(c, steps, n).injected) && s < |Run(c, steps, n).shards|
    ensures Payable(Run(c, steps, n).shards[s].state, Run(c, steps, n).shards[s].Proposed())
  {
    RunBooks(c, steps, n);
    RunBalances(c, steps, n);
    ProposalPayable(c, Run(c, steps, n), s);
  }

  /** Nothing is on its way, waiting, proposed, or being reported. */
  ghost predicate Finished(sys: Ledger) {
    && (forall i :: 0 <= i < |sys.net| ==> sys.net[i].txs == [])
    && (forall s :: 0 <= s < |sys.shards| ==> sys.shards[s].queue == [] && sys.shards[s].Proposed() == [])
    && (forall i :: 0 <= i < |sys.infos| ==> sys.infos[i] == [])
  }

  lemma NothingLeft(sys: Ledger)
    requires Finished(sys) && Accounted(sys.issued, sys.done, sys.net, sys.shards)
    requires Reporting(sys.done, sys.infos, sys.confirmed)
    ensures multiset(sys.issued) == multiset(sys.done)
    ensures multiset(All(FirstTest(), sys.done)) == multiset(sys.confirmed)
  {
    Multisets.TotalEmpty(NetParts(sys.net), |sys.net|);
    Multisets.TotalEmpty(HeldParts(sys.shards), |sys.shards|);
    Multisets.TotalEmpty(InfoParts(sys.infos), |sys.infos|);
  }

  lemma {:induction false} DebitIsOut(txs: seq<Tx>, n: nat, a: Address)
    requires AllWhole(txs) && n <= |txs|
    ensures SumTo(txs, n, Debit(a)) == SumTo(txs, n, Out(a)) && SumTo(txs, n, Credit(a)) == SumTo(txs, n, In(a))
  {
    if n > 0 {
      DebitIsOut(txs, n - 1, a);
    }
  }

  /** When everything is finished, every account that is no broker has been debited and credited what was
      injected. */
  lemma FinishedBalance(c: Config, steps: seq<Step>, n: nat, a: Address)
    requires c.Valid() && n <= |steps| && Funded(Run(c, steps, n).injected) && Finished(Run(c, steps, n))
    requires !c.IsBroker(a)
    ensures var sys := Run(c, steps, n);
            && c.home(a) < |sys.shards|
            && Balance(sys.shards[c.home(a)].state, a)
               == INIT_BALANCE - Sum(sys.injected, Debit(a)) + Sum(sys.injected, Credit(a))
  {
    RunPlaced(c, steps, n);
    RunBooks(c, steps, n);
    RunBalances(c, steps, n);
    var sys := Run(c, steps, n);
    assert BalanceAt(c, sys, c.home(a), a) && WeighsFor(c, sys.injected, sys.issued, sys.confirmed, a);
    NothingLeft(sys);
    SumPermuted(sys.issued, sys.done, Debit(a));
    SumPermuted(sys.issued, sys.done, Credit(a));
    SumPermuted(sys.issued, sys.done, FirstFinal(a));
    SumFirsts(sys.done, |sys.done|, FirstFinal(a));
    SumPermuted(All(FirstTest(), sys.done), sys.confirmed, FirstFinal(a));
  }

  /** And so reading it at its shard gives what the sequential ledger gives, in the injected order or any other. */
  lemma FinishedEqualsSequential(c: Config, steps: seq<Step>, n: nat, order: seq<Tx>, a: Address)
    requires c.Valid() && n <= |steps| && Funded(Run(c, steps, n).injected) && Finished(Run(c, steps, n))
    requires !c.IsBroker(a)
    requires multiset(order) == multiset(Run(c, steps, n).injected)
    ensures var sys := Run(c, steps, n);
            && c.home(a) < |sys.shards|
            && Balance(sys.shards[c.home(a)].state, a) == S.LedgerBalance(S.Sequential(order, |order|), a)
  {
    var sys := Run(c, steps, n);
    RunBooks(c, steps, n);
    FinishedBalance(c, steps, n, a);
    OrderWhole(order, sys.injected);
    SumPermuted(order, sys.injected, WholeValue);
    SumPermuted(order, sys.injected, Debit(a));
    SumPermuted(order, sys.injected, Credit(a));
    DebitIsOut(order, |order|, a);
    WholeFunded(order);
    S.SequentialBalance(order, |order|, a);
  }

  lemma OrderWhole(order: seq<Tx>, txs: seq<Tx>)
    requires multiset(order) == multiset(txs) && AllWhole(txs)
    ensures AllWhole(order)
  {
    forall i | 0 <= i < |order|
      ensures order[i].rawTxHash.None? && !order[i].relayed
    {
      assert order[i] in multiset(txs);
    }
  }

  lemma WholeFunded(txs: seq<Tx>)
    requires AllWhole(txs) && Funded(txs)
    ensures S.Funded(txs) && S.AllUnrelayed(txs)
  {
    forall a
      ensures Sum(txs, Out(a)) <= INIT_BALANCE
    {
      DebitIsOut(txs, |txs|, a);
      DebitsBelow(txs, |txs|, a);
    }
  }

  // ----- Second halves: at most one for each committed first half -----

  predicate IsHalf(t: Tx) {
    IsFirst(t) || IsSecond(t)
  }

  /** No two halves share a hash. */
  predicate HashesDiffer(txs: seq<Tx>) {
    forall i, j :: 0 <= i < j < |txs| && IsHalf(txs[i]) && IsHalf(txs[j]) ==> txs[i].txHash != txs[j].txHash
  }

  /** The k-th second half moves the value of the k-th confirmed first half on to the final recipient of the same
      raw transaction. */
  predicate Completes(second: Tx, first: Tx) {
    && second.rawTxHash == first.rawTxHash && second.value == first.value
    && second.recipient == first.finalRecipient && second.sender == first.recipient
  }

  predicate Matched(firsts: seq<Tx>, seconds: seq<Tx>) {
    |firsts| == |seconds| && forall k :: 0 <= k < |firsts| ==> Completes(seconds[k], firsts[k])
  }

  ghost predicate Pairs(c: Config, sys: Ledger) {
    HashesDiffer(sys.issued) && Matched(sys.confirmed, All(SecondTest(), sys.issued))
  }

  lemma {:induction false} ConfirmsPairs(c: Config, sup: Supervisor, txs: seq<Tx>, n: nat)
    requires c.Valid() && SupOk(c, sup) && n <= |txs| && forall i :: 0 <= i < |txs| ==> Remembered(c, sup, txs[i])
    requires forall i :: 0 <= i < |txs| ==> IsHalf(txs[i])
    ensures var (s, seconds) := Confirms(c, sup, txs, n);
            && Matched(Where(FirstTest(), txs, n), seconds)
            && (forall k :: 0 <= k < |seconds| ==>
                  IsSecond(seconds[k]) && sup.nextHash <= seconds[k].txHash < s.nextHash)
            && (forall j, k :: 0 <= j < k < |seconds| ==> seconds[j].txHash < seconds[k].txHash)
  {
    if n > 0 {
      ConfirmsPairs(c, sup, txs, n - 1);
      ConfirmsGood(c, sup, txs, n - 1);
      assert Remembered(c, sup, txs[n - 1]);
    }
  }

  lemma InjectPairs(c: Config, sys: Ledger, t: Tx)
    requires c.Valid() && Enabled(sys, Inject(t)) && Placed(c, sys) && Pairs(c, sys)
    ensures Pairs(c, Next(c, sys, Inject(t)))
  {
    var out := Deal(c, sys.sup, t).1;
    AllSnoc(SecondTest(), sys.issued, out);
    forall i | 0 <= i < |sys.issued| && IsHalf(sys.issued[i])
      ensures sys.issued[i].txHash < sys.sup.nextHash
    {
      assert Remembered(c, sys.sup, sys.issued[i]);
    }
  }

  lemma TakenPairs(c: Config, sys: Ledger, i: nat)
    requires c.Valid() && i < |sys.infos| && Placed(c, sys) && InfosKnown(sys.infos, sys.issued) && Pairs(c, sys)
    ensures Pairs(c, Taken(c, sys, i))
  {
    var seconds := Report(c, sys.sup, sys.infos[i]).1;
    AwaitsFirsts(c, sys.sup, sys.issued, sys.infos[i]);
    ConfirmsPairs(c, sys.sup, sys.infos[i], |sys.infos[i]|);
    AllConcat(SecondTest(), sys.issued, seconds);
    WhereEverything(SecondTest(), seconds, |seconds|);
    assert seconds[..|seconds|] == seconds;
    forall j | 0 <= j < |sys.issued| && IsHalf(sys.issued[j])
      ensures sys.issued[j].txHash < sys.sup.nextHash
    {
      assert Remembered(c, sys.sup, sys.issued[j]);
    }
  }

  lemma StepPairs(c: Config, steps: seq<Step>, n: nat)
    requires c.Valid() && n < |steps| && Pairs(c, Run(c, steps, n))
    ensures Pairs(c, Run(c, steps, n + 1))
  {
    RunPlaced(c, steps, n);
    RunReports(c, steps, n);
    AfterPairs(c, Run(c, steps, n), steps[n]);
  }

  lemma {:induction false} RunPairs(c: Config, steps: seq<Step>, n: nat)
    requires c.Valid() && n <= |steps|
    ensures Pairs(c, Run(c, steps, n))
  {
    if n > 0 {
      RunPairs(c, steps, n - 1);
      StepPairs(c, steps, n - 1);
    }
  }

  lemma AfterPairs(c: Config, sys: Ledger, step: Step)
    requires c.Valid() && Placed(c, sys) && InfosKnown(sys.infos, sys.issued) && Pairs(c, sys)
    ensures Pairs(c, After(c, sys, step))
  {
    if Enabled(sys, step) {
      match step
      case Inject(t) => InjectPairs(c, sys, t);
      case Reported(i) => TakenPairs(c, sys, i);
      case _ =>
    }
  }

  /** Some of a list whose halves differ in their hashes: so do they. */
  lemma {:induction false} DifferInPart(x: seq<Tx>, y: seq<Tx>)
    requires multiset(x) <= multiset(y) && HashesDiffer(y)
    ensures HashesDiffer(x)
    decreases |x|
  {
    if x != [] {
      var n := |x| - 1;
      var i := MatchLast(x, y);
      var rest := y[..i] + y[i + 1..];
      DifferInPart(x[..n], rest);
      forall j | 0 <= j < n && IsHalf(x[j]) && IsHalf(x[n])
        ensures x[j].txHash != x[n].txHash
      {
        assert x[..n][j] in multiset(x[..n]);
        assert x[j] in multiset(rest);
        var k :| 0 <= k < |rest| && rest[k] == x[j];
        assert rest[k] == if k < i then y[k] else y[k + 1];
      }
    }
  }

  /** In every run the second halves sent are, one for one, those of the confirmed first halves; the confirmed first
      halves are all committed, and no first half is confirmed twice. */
  lemma SecondsOnce(c: Config, steps: seq<Step>, n: nat)
    requires c.Valid() && n <= |steps|
    ensures var sys := Run(c, steps, n);
            && Matched(sys.confirmed, All(SecondTest(), sys.issued))
            && multiset(sys.confirmed) <= multiset(All(FirstTest(), sys.done))
            && (forall j, k :: 0 <= j < k < |sys.confirmed| ==> sys.confirmed[j].txHash != sys.confirmed[k].txHash)
  {
    RunPairs(c, steps, n);
    RunBooks(c, steps, n);
    var sys := Run(c, steps, n);
    var firsts := All(FirstTest(), sys.done);
    SubsetOfSum(BeingReported(sys.infos), multiset(sys.confirmed), multiset(firsts));
    SubsetOfSum(multiset(sys.done), OnTheWay(sys.net) + HeldAll(sys.shards), multiset(sys.issued));
    DifferInPart(sys.done, sys.issued);
    PartDiffers(sys.done, |sys.done|);
    DifferInPart(sys.confirmed, firsts);
    WherePasses(FirstTest(), sys.done, |sys.done|);
    forall k | 0 <= k < |sys.confirmed|
      ensures IsFirst(sys.confirmed[k])
    {
      assert sys.confirmed[k] in multiset(sys.confirmed);
      assert sys.confirmed[k] in multiset(firsts);
    }
  }

  lemma {:induction false} PartDiffers(txs: seq<Tx>, n: nat)
    requires n <= |txs| && HashesDiffer(txs)
    ensures HashesDiffer(Where(FirstTest(), txs, n))
    ensures forall k :: 0 <= k < |Where(FirstTest(), txs, n)| ==> Where(FirstTest(), txs, n)[k] in txs[..n]
  {
    if n > 0 {
      PartDiffers(txs, n - 1);
      assert txs[..n] == txs[..n - 1] + [txs[n - 1]];
    }
  }

  // ----- Without funding -----

  /** The two halves of a raw transaction, executed where they are sent. A short first half is skipped and reported
      all the same, so that the value appears at the recipient without having left the sender; and a second half
      is skipped when the recipient's shard is the broker's own and the broker is short there, so that the value
      is gone. Otherwise the two balances together keep their sum. */
  lemma HalvesConserve(c: Config, sender: Trie, recipient: Trie, raw: Tx, h1: nat, h2: nat, i: nat, j: nat)
    requires c.Valid() && IsCross(c, raw) && raw.rawTxHash.None?
    ensures var first, second := FirstOf(c, raw, h1), SecondOf(c, raw, h2);
            var left := ExecTx(ViewAt(c, ShardFor(c, first)), sender, first, i);
            var right := ExecTx(ViewAt(c, ShardFor(c, second)), recipient, second, j);
            var gained := Balance(left, raw.sender) + Balance(right, raw.recipient)
                          - Balance(sender, raw.sender) - Balance(recipient, raw.recipient);
            && Halves([first]) == [first]
            && gained == (if Balance(sender, raw.sender) < raw.value then raw.value else 0)
                         - (if c.home(c.brokers[0]) == c.home(raw.recipient)
                               && Balance(recipient, c.brokers[0]) < raw.value
                            then raw.value else 0)
  {
    var first := FirstOf(c, raw, h1);
    assert Where(FirstTest(), [first], 1) == Where(FirstTest(), [first], 0) + [first];
    assert Where(SecondTest(), [first], 1) == Where(SecondTest(), [first], 0);
  }
}
