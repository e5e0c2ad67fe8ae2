/** Conservation in the broker-mode ledger: nothing the supervisor sends is lost or duplicated, a second half is
    issued once and only for a committed first half, and when everything is finished the accounts that are no
    brokers agree with the sequential ledger. */
module BrokerConservation {
  import opened Addresses
  import opened Filters
  import opened Multisets
  import opened Transactions
  import opened BrokerCommittees
  import opened BrokerLedgers
  import R = RelayLedgers
  import S = RelayConservation

  // ----- Sums -----

  lemma SumOne(t: Tx, k: Measure)
    ensures Sum([t], k) == Amount(t, k)
  {
    assert SumTo([t], 1, k) == SumTo([t], 0, k) + Amount(t, k);
  }

  lemma SumSnoc(x: seq<Tx>, t: Tx, k: Measure)
    ensures Sum(x + [t], k) == Sum(x, k) + Amount(t, k)
  {
    SumConcat(x, [t], k);
    SumOne(t, k);
  }

  lemma {:induction false} SumZero(txs: seq<Tx>, n: nat, k: Measure)
    requires n <= |txs| && forall i :: 0 <= i < n ==> Amount(txs[i], k) == 0
    ensures SumTo(txs, n, k) == 0
  {
    if n > 0 {
      SumZero(txs, n - 1, k);
    }
  }

  /** First halves weigh the same with or without the rest. */
  lemma {:induction false} SumFirsts(txs: seq<Tx>, n: nat, k: Measure)
    requires n <= |txs| && (k.FirstFinal? || k.FirstValue? || k.FirstsOf?)
    ensures Sum(Where(FirstTest(), txs, n), k) == SumTo(txs, n, k)
  {
    if n > 0 {
      SumFirsts(txs, n - 1, k);
      var before := Where(FirstTest(), txs, n - 1);
      SumSnoc(before, txs[n - 1], k);
      assert Where(FirstTest(), txs, n) == if IsFirst(txs[n - 1]) then before + [txs[n - 1]] else before;
    }
  }

  // ----- What executing a block does -----

  /** Everybody can pay for all it sends in the block. */
  ghost predicate Payable(st: Trie, txs: seq<Tx>) {
    forall x :: Sum(txs, Debit(x)) <= Balance(st, x)
  }

  /** A block in which everybody can pay takes no more from a balance than the block's debits of it, and changes an
      account of the shard that is no broker by exactly its debits and credits. */
  lemma {:induction false} ExecBroker(c: Config, s: nat, st: Trie, txs: seq<Tx>, n: nat, x: Address)
    requires n <= |txs| && GoodAt(c, s, txs) && Payable(st, txs)
    ensures Balance(ExecTxs(ViewAt(c, s), st, txs, n), x) >= Balance(st, x) - SumTo(txs, n, Debit(x))
    ensures !c.IsBroker(x) && c.home(x) == s ==>
              Balance(ExecTxs(ViewAt(c, s), st, txs, n), x)
              == Balance(st, x) - SumTo(txs, n, Debit(x)) + SumTo(txs, n, Credit(x))
  {
    if n > 0 {
      var t, before := txs[n - 1], ExecTxs(ViewAt(c, s), st, txs, n - 1);
      ExecBroker(c, s, st, txs, n - 1, x);
      ExecBroker(c, s, st, txs, n - 1, t.sender);
      SumGrows(txs, n, |txs|, Debit(t.sender));
      assert Sum(txs, Debit(t.sender)) <= Balance(st, t.sender);
      assert Good(c, t) && ShardFor(c, t) == s;
      ExecOne(c, s, before, t, n - 1, x);
    }
  }

  lemma ExecOne(c: Config, s: nat, st: Trie, t: Tx, i: nat, x: Address)
    requires Good(c, t) && ShardFor(c, t) == s && t.value <= Balance(st, t.sender)
    ensures var post := ExecTx(ViewAt(c, s), st, t, i);
            && Balance(post, x) >= Balance(st, x) - Amount(t, Debit(x))
            && (!c.IsBroker(x) && c.home(x) == s ==>
                  Balance(post, x) == Balance(st, x) - Amount(t, Debit(x)) + Amount(t, Credit(x)))
  {
  }

  /** A transaction weighs nothing for an account of another shard that is no broker. */
  lemma ElsewhereNothing(c: Config, s: nat, txs: seq<Tx>, a: Address)
    requires GoodAt(c, s, txs) && !c.IsBroker(a) && c.home(a) != s
    ensures Sum(txs, Debit(a)) == 0 && Sum(txs, Credit(a)) == 0
  {
    forall i | 0 <= i < |txs|
      ensures txs[i].sender != a && txs[i].recipient != a
    {
      assert Good(c, txs[i]) && ShardFor(c, txs[i]) == s;
    }
    SumZero(txs, |txs|, Debit(a));
    SumZero(txs, |txs|, Credit(a));
  }

  // ----- What the supervisor sent is on its way, or waits at a shard, or is done -----

  function NetParts(net: seq<InjectMsg>): seq<multiset<Tx>> {
    seq(|net|, i requires 0 <= i < |net| => multiset(net[i].txs))
  }

  function HeldAt(sh: Shard): multiset<Tx> {
    multiset(sh.queue) + multiset(sh.Proposed())
  }

  function HeldParts(shards: seq<Shard>): seq<multiset<Tx>> {
    seq(|shards|, i requires 0 <= i < |shards| => HeldAt(shards[i]))
  }

  function OnTheWay(net: seq<InjectMsg>): multiset<Tx> {
    Total(NetParts(net), |net|)
  }

  function HeldAll(shards: seq<Shard>): multiset<Tx> {
    Total(HeldParts(shards), |shards|)
  }

  ghost predicate Accounted(issued: seq<Tx>, done: seq<Tx>, net: seq<InjectMsg>, shards: seq<Shard>) {
    multiset(issued) == multiset(done) + OnTheWay(net) + HeldAll(shards)
  }

  lemma OnTheWaySnoc(net: seq<InjectMsg>, m: InjectMsg)
    ensures OnTheWay(net + [m]) == OnTheWay(net) + multiset(m.txs)
  {
    assert NetParts(net + [m]) == NetParts(net) + [multiset(m.txs)];
    TotalPrefix(NetParts(net), NetParts(net + [m]), |net|);
  }

  lemma {:induction false} OnTheWayPosted(c: Config, net: seq<InjectMsg>, txs: seq<Tx>)
    ensures OnTheWay(net + PostAll(c, txs)) == OnTheWay(net) + multiset(txs)
  {
    if txs == [] {
      assert net + PostAll(c, txs) == net;
    } else {
      var rest, t := txs[..|txs| - 1], txs[|txs| - 1];
      OnTheWayPosted(c, net, rest);
      assert net + PostAll(c, txs) == net + PostAll(c, rest) + [Posted(c, t)];
      OnTheWaySnoc(net + PostAll(c, rest), Posted(c, t));
      assert txs == rest + [t];
    }
  }

  lemma OnTheWayRemoved(net: seq<InjectMsg>, i: nat)
    requires i < |net|
    ensures OnTheWay(net) == OnTheWay(net[..i] + net[i + 1..]) + multiset(net[i].txs)
  {
    TotalWithout(NetParts(net), NetParts(net[..i] + net[i + 1..]), i);
  }

  lemma HeldChanged(shards: seq<Shard>, s: nat, sh: Shard)
    requires s < |shards|
    ensures HeldAll(shards[s := sh]) + HeldAt(shards[s]) == HeldAll(shards) + HeldAt(sh)
  {
    TotalUpdated(HeldParts(shards), s, HeldAt(sh), |shards|);
    assert HeldParts(shards[s := sh]) == HeldParts(shards)[s := HeldAt(sh)];
  }

  lemma SendAccounted(c: Config, issued: seq<Tx>, done: seq<Tx>, net: seq<InjectMsg>, shards: seq<Shard>, out: seq<Tx>)
    requires Accounted(issued, done, net, shards)
    ensures Accounted(issued + out, done, net + PostAll(c, out), shards)
  {
    OnTheWayPosted(c, net, out);
  }

  lemma DeliverAccounted(issued: seq<Tx>, done: seq<Tx>, net: seq<InjectMsg>, shards: seq<Shard>, i: nat)
    requires Accounted(issued, done, net, shards) && i < |net| && net[i].dest < |shards|
    ensures var sh := shards[net[i].dest];
            Accounted(issued, done, net[..i] + net[i + 1..], shards[net[i].dest := sh.(queue := sh.queue + net[i].txs)])
  {
    var sh := shards[net[i].dest];
    var now := sh.(queue := sh.queue + net[i].txs);
    OnTheWayRemoved(net, i);
    HeldChanged(shards, net[i].dest, now);
    assert now.Proposed() == sh.Proposed();
    Moved(HeldAll(shards), HeldAll(shards[net[i].dest := now]), HeldAt(sh), HeldAt(now), multiset(net[i].txs));
  }

  lemma Moved<T>(was: multiset<T>, now: multiset<T>, part: multiset<T>, part': multiset<T>, come: multiset<T>)
    requires now + part == was + part' && part' == part + come
    ensures now == was + come
  {
    forall x
      ensures now[x] == (was + come)[x]
    {
      assert (now + part)[x] == (was + part')[x];
    }
  }

  lemma ProposeAccounted(issued: seq<Tx>, done: seq<Tx>, net: seq<InjectMsg>, shards: seq<Shard>, s: nat, sh: Shard)
    requires Accounted(issued, done, net, shards) && s < |shards| && HeldAt(sh) == HeldAt(shards[s])
    ensures Accounted(issued, done, net, shards[s := sh])
  {
    HeldChanged(shards, s, sh);
    Moved(HeldAll(shards), HeldAll(shards[s := sh]), HeldAt(shards[s]), HeldAt(sh), multiset{});
  }

  lemma CommitAccounted(issued: seq<Tx>, done: seq<Tx>, net: seq<InjectMsg>, shards: seq<Shard>, s: nat, root: Trie)
    requires Accounted(issued, done, net, shards) && s < |shards|
    ensures Accounted(issued, done + shards[s].Proposed(), net, shards[s := R.Shard(root, shards[s].queue, None)])
  {
    var sh := R.Shard(root, shards[s].queue, None);
    HeldChanged(shards, s, sh);
    Moved(HeldAll(shards[s := sh]), HeldAll(shards), HeldAt(sh), HeldAt(shards[s]), multiset(shards[s].Proposed()));
  }

  lemma InjectAccounted(c: Config, sys: Ledger, out: Tx)
    requires Accounted(sys.issued, sys.done, sys.net, sys.shards)
    ensures Accounted(sys.issued + [out], sys.done, sys.net + [Posted(c, out)], sys.shards)
  {
    SendAccounted(c, sys.issued, sys.done, sys.net, sys.shards, [out]);
    assert PostAll(c, [out]) == [Posted(c, out)];
  }

  lemma TakenAccounted(c: Config, sys: Ledger, i: nat)
    requires c.brokers != [] && i < |sys.infos| && Accounted(sys.issued, sys.done, sys.net, sys.shards)
    ensures var next := Taken(c, sys, i);
            Accounted(next.issued, next.done, next.net, next.shards)
  {
    SendAccounted(c, sys.issued, sys.done, sys.net, sys.shards, Report(c, sys.sup, sys.infos[i]).1);
  }

  lemma PackAccounted(c: Config, sys: Ledger, s: nat)
    requires c.brokers != [] && Enabled(sys, Propose(s)) && Accounted(sys.issued, sys.done, sys.net, sys.shards)
    ensures Accounted(sys.issued, sys.done, sys.net, Next(c, sys, Propose(s)).shards)
  {
    var sh, now := sys.shards[s], Next(c, sys, Propose(s)).shards[s];
    assert sh.queue == now.Proposed() + now.queue;
    ProposeAccounted(sys.issued, sys.done, sys.net, sys.shards, s, now);
  }

  lemma NextAccounted(c: Config, sys: Ledger, step: Step)
    requires c.Valid() && Enabled(sys, step) && Accounted(sys.issued, sys.done, sys.net, sys.shards)
    ensures var next := Next(c, sys, step);
            Accounted(next.issued, next.done, next.net, next.shards)
  {
    match step
    case Inject(t) =>
      InjectAccounted(c, sys, Deal(c, sys.sup, t).1);
    case Deliver(i) =>
      DeliverAccounted(sys.issued, sys.done, sys.net, sys.shards, i);
    case Propose(s) =>
      PackAccounted(c, sys, s);
    case Commit(s) =>
      CommitAccounted(sys.issued, sys.done, sys.net, sys.shards, s, sys.shards[s].pending.value.root);
    case Reported(i) =>
      TakenAccounted(c, sys, i);
  }

  // ----- A committed first half is being reported, or its second half has been issued -----

  function InfoParts(infos: seq<seq<Tx>>): seq<multiset<Tx>> {
    seq(|infos|, i requires 0 <= i < |infos| => multiset(All(FirstTest(), infos[i])))
  }

  function BeingReported(infos: seq<seq<Tx>>): multiset<Tx> {
    Total(InfoParts(infos), |infos|)
  }

  ghost predicate Reporting(done: seq<Tx>, infos: seq<seq<Tx>>, confirmed: seq<Tx>) {
    multiset(All(FirstTest(), done)) == BeingReported(infos) + multiset(confirmed)
  }

  lemma FirstsOfHalves(body: seq<Tx>)
    ensures All(FirstTest(), Halves(body)) == All(FirstTest(), body)
  {
    var firsts, seconds := All(FirstTest(), body), All(SecondTest(), body);
    AllConcat(FirstTest(), firsts, seconds);
    WherePasses(FirstTest(), body, |body|);
    WherePasses(SecondTest(), body, |body|);
    WhereEverything(FirstTest(), firsts, |firsts|);
    WhereNothing(FirstTest(), seconds, |seconds|);
    assert firsts[..|firsts|] == firsts && firsts + [] == firsts;
  }

  lemma ReportAdded(infos: seq<seq<Tx>>, info: seq<Tx>)
    ensures BeingReported(infos + [info]) == BeingReported(infos) + multiset(All(FirstTest(), info))
  {
    TotalSnoc(InfoParts(infos), multiset(All(FirstTest(), info)));
    assert InfoParts(infos + [info]) == InfoParts(infos) + [multiset(All(FirstTest(), info))];
  }

  lemma ReportRemoved(infos: seq<seq<Tx>>, i: nat)
    requires i < |infos|
    ensures BeingReported(infos) == BeingReported(infos[..i] + infos[i + 1..]) + multiset(All(FirstTest(), infos[i]))
  {
    TotalWithout(InfoParts(infos), InfoParts(infos[..i] + infos[i + 1..]), i);
  }

  lemma BlockReported(done: seq<Tx>, infos: seq<seq<Tx>>, confirmed: seq<Tx>, body: seq<Tx>)
    requires Reporting(done, infos, confirmed)
    ensures Reporting(done + body, infos + [Halves(body)], confirmed)
  {
    var firsts := All(FirstTest(), body);
    FirstsOfHalves(body);
    ReportAdded(infos, Halves(body));
    AllConcat(FirstTest(), done, body);
    assert multiset(All(FirstTest(), done) + firsts) == multiset(All(FirstTest(), done)) + multiset(firsts);
    Exchange(BeingReported(infos), multiset(confirmed), multiset(firsts));
  }

  lemma ReportTaken(done: seq<Tx>, infos: seq<seq<Tx>>, confirmed: seq<Tx>, i: nat, firsts: seq<Tx>)
    requires Reporting(done, infos, confirmed) && i < |infos| && firsts == All(FirstTest(), infos[i])
    ensures Reporting(done, infos[..i] + infos[i + 1..], confirmed + firsts)
  {
    var rest := BeingReported(infos[..i] + infos[i + 1..]);
    ReportRemoved(infos, i);
    assert multiset(confirmed + firsts) == multiset(confirmed) + multiset(firsts);
    Exchange(rest, multiset(firsts), multiset(confirmed));
  }

  /** What is reported was sent by the supervisor, so that it awaits exactly the first halves. */
  ghost predicate InfosKnown(infos: seq<seq<Tx>>, issued: seq<Tx>) {
    forall i :: 0 <= i < |infos| ==> HalvesOf(infos[i], multiset(issued))
  }

  ghost predicate HalvesOf(info: seq<Tx>, issued: multiset<Tx>) {
    forall k :: 0 <= k < |info| ==> info[k] in issued && (IsFirst(info[k]) || IsSecond(info[k]))
  }

  lemma AwaitsFirsts(c: Config, sup: Supervisor, issued: seq<Tx>, info: seq<Tx>)
    requires c.brokers != [] && IssuedOk(c, sup, issued)
    requires HalvesOf(info, multiset(issued))
    ensures All(AwaitedTest(sup), info) == All(FirstTest(), info)
    ensures forall k :: 0 <= k < |info| ==> Remembered(c, sup, info[k])
  {
    forall k | 0 <= k < |info|
      ensures Remembered(c, sup, info[k]) && (Awaited(sup, info[k]) <==> IsFirst(info[k]))
    {
      assert info[k] in multiset(issued);
      var j :| 0 <= j < |issued| && issued[j] == info[k];
      assert Remembered(c, sup, issued[j]);
    }
    WhereSame(AwaitedTest(sup), FirstTest(), info, |info|);
  }

  /** What a shard has proposed was sent by the supervisor. */
  lemma ProposedIssued(issued: seq<Tx>, done: seq<Tx>, net: seq<InjectMsg>, shards: seq<Shard>, s: nat)
    requires Accounted(issued, done, net, shards) && s < |shards|
    ensures multiset(done + shards[s].Proposed()) <= multiset(issued)
  {
    PartOfTotal(HeldParts(shards), s, |shards|);
    var proposed := multiset(shards[s].Proposed());
    assert proposed <= HeldParts(shards)[s];
    S.MoreOf(multiset(done), proposed, OnTheWay(net) + HeldAll(shards));
  }

  lemma HalvesKnown(issued: seq<Tx>, body: seq<Tx>)
    requires multiset(body) <= multiset(issued)
    ensures HalvesOf(Halves(body), multiset(issued))
  {
    WherePasses(FirstTest(), body, |body|);
    WherePasses(SecondTest(), body, |body|);
    forall k | 0 <= k < |Halves(body)|
      ensures Halves(body)[k] in multiset(issued)
    {
      assert Halves(body)[k] in multiset(body);
    }
  }

  // ----- What the halves weigh -----

  function FirstOnly(t: Tx): seq<Tx> {
    if IsFirst(t) then [t] else []
  }

  /** What second halves weigh against the first halves they follow: they credit what those are for, debit no account
      that is no broker, and are halves of the same raw transactions. */
  predicate Follow(c: Config, seconds: seq<Tx>, firsts: seq<Tx>, k: Measure) {
    match k
    case Debit(a) => Sum(seconds, k) <= Sum(firsts, FirstValue) && (!c.IsBroker(a) ==> Sum(seconds, k) == 0)
    case Credit(a) => !c.IsBroker(a) ==> Sum(seconds, k) == Sum(firsts, FirstFinal(a))
    case SecondsOf(raw) => Sum(seconds, k) == Sum(firsts, FirstsOf(raw))
    case Out(_) => true
    case In(_) => true
    case _ => Sum(seconds, k) == 0
  }

  lemma FollowConcat(c: Config, seconds: seq<Tx>, firsts: seq<Tx>, seconds': seq<Tx>, firsts': seq<Tx>, k: Measure)
    requires Follow(c, seconds, firsts, k) && Follow(c, seconds', firsts', k)
    ensures Follow(c, seconds + seconds', firsts + firsts', k)
  {
    SumConcat(seconds, seconds', k);
    SumConcat(firsts, firsts', FirstValue);
    if k.Credit? {
      SumConcat(firsts, firsts', FirstFinal(k.a));
    } else if k.SecondsOf? {
      SumConcat(firsts, firsts', FirstsOf(k.raw));
    }
  }

  lemma ConfirmFollows(c: Config, sup: Supervisor, t: Tx, k: Measure)
    requires c.Valid() && SupOk(c, sup) && Remembered(c, sup, t) && (IsFirst(t) || IsSecond(t))
    ensures Follow(c, Confirm(c, sup, t).1, FirstOnly(t), k)
  {
    if IsFirst(t) {
      SumOne(SecondOf(c, sup.confirm1[t.txHash], sup.nextHash), k);
      SumOne(t, FirstValue);
      if k.Credit? {
        SumOne(t, FirstFinal(k.a));
      } else if k.SecondsOf? {
        SumOne(t, FirstsOf(k.raw));
      }
    }
  }

  lemma {:induction false} ConfirmsFollow(c: Config, sup: Supervisor, txs: seq<Tx>, n: nat, k: Measure)
    requires c.Valid() && SupOk(c, sup) && n <= |txs| && forall i :: 0 <= i < |txs| ==> Remembered(c, sup, txs[i])
    requires forall i :: 0 <= i < |txs| ==> IsFirst(txs[i]) || IsSecond(txs[i])
    ensures Follow(c, Confirms(c, sup, txs, n).1, Where(FirstTest(), txs, n), k)
  {
    if n > 0 {
      ConfirmsFollow(c, sup, txs, n - 1, k);
      ConfirmsGood(c, sup, txs, n - 1);
      var (s, seconds) := Confirms(c, sup, txs, n - 1);
      assert Remembered(c, s, txs[n - 1]);
      ConfirmFollows(c, s, txs[n - 1], k);
      FollowConcat(c, seconds, Where(FirstTest(), txs, n - 1), Confirm(c, s, txs[n - 1]).1, FirstOnly(txs[n - 1]), k);
    }
  }
}
