/** The transaction queue at a re-partition in broker mode (accountTransfermod_Broker.go): what is sent along,
    what becomes a cross-shard transaction and goes back to the supervisor, and what stays; and the
    classification of a committed block (pbftInside_modCLPABroker.go). */
module BrokerQueues {
  import opened Addresses
  import opened Filters
  import opened Multisets
  import opened Transactions
  import opened QueueMigration
  import opened TxPools

  /** Neither half of a broker transaction nor a transaction of a broker. */
  predicate Plain(t: Tx) {
    t.rawTxHash.None? && !t.hasBroker
  }

  predicate HasAnchor(t: Tx) {
    if t.rawTxHash.None? then t.hasBroker else t.finalRecipient == t.recipient || t.originalSender == t.sender
  }

  /** The one account that decides where a transaction with a broker, or half a transaction, has to be. */
  function Anchor(t: Tx): Address {
    if t.rawTxHash.None? then (if t.senderIsBroker then t.recipient else t.sender)
    else if t.finalRecipient == t.recipient then t.recipient
    else t.sender
  }

  predicate IsSent(addrSet: set<Address>, t: Tx) {
    HasAnchor(t) && Anchor(t) in addrSet
  }

  predicate IsCrossed(addrSet: set<Address>, t: Tx) {
    Plain(t) && (t.sender in addrSet || t.recipient in addrSet)
  }

  function SendTest(addrSet: set<Address>): Tx -> bool {
    t => IsSent(addrSet, t)
  }

  function CrossTest(addrSet: set<Address>): Tx -> bool {
    t => IsCrossed(addrSet, t)
  }

  function KeepTest(addrSet: set<Address>): Tx -> bool {
    t => !IsSent(addrSet, t) && !IsCrossed(addrSet, t)
  }

  /** Over a round: sent to shard i; made cross-shard by a move to a shard below n; neither, below n. */
  function GoesAlong(r: Round, i: nat): Tx -> bool {
    t => HasAnchor(t) && r.MovesTo(Anchor(t), i)
  }

  predicate CrossesBelow(r: Round, n: nat, t: Tx) {
    Plain(t) && (r.MovesBelow(t.sender, n) || r.MovesBelow(t.recipient, n))
  }

  function Crosses(r: Round, n: nat): Tx -> bool {
    t => CrossesBelow(r, n, t)
  }

  function CrossesAt(r: Round, i: nat): Tx -> bool {
    t => CrossesBelow(r, i + 1, t) && !CrossesBelow(r, i, t)
  }

  function Remains(r: Round, n: nat): Tx -> bool {
    t => !(HasAnchor(t) && r.MovesBelow(Anchor(t), n)) && !CrossesBelow(r, n, t)
  }

  /** The compaction for one target: three-way split, everything in order, in the queue itself. */
  method ExtractBroker(q: TxPool, addrSet: set<Address>) returns (txSend: seq<Tx>, txsBeCross: seq<Tx>)
    modifies q`txQueue
    ensures txSend == All(SendTest(addrSet), old(q.txQueue))
    ensures txsBeCross == All(CrossTest(addrSet), old(q.txQueue))
    ensures q.txQueue == All(KeepTest(addrSet), old(q.txQueue))
  {
    ghost var was := q.txQueue;
    txSend, txsBeCross := [], [];
    var firstPtr := 0;
    for secondPtr := 0 to |q.txQueue|
      invariant firstPtr <= secondPtr && |q.txQueue| == |was|
      invariant q.txQueue[..firstPtr] == Where(KeepTest(addrSet), was, secondPtr)
      invariant txSend == Where(SendTest(addrSet), was, secondPtr)
      invariant txsBeCross == Where(CrossTest(addrSet), was, secondPtr)
      invariant forall k :: secondPtr <= k < |was| ==> q.txQueue[k] == was[k]
    {
      var ptx := q.txQueue[secondPtr];
      var beSend, beRemoved := false, false;
      var ok1, ok2 := ptx.sender in addrSet, ptx.recipient in addrSet;
      if ptx.rawTxHash.None? {
        if ptx.hasBroker {
          if ptx.senderIsBroker {
            beSend, beRemoved := ok2, ok2;
          } else {
            beRemoved, beSend := ok1, ok1;
          }
        } else if ok1 || ok2 {
          txsBeCross := txsBeCross + [ptx];
          beRemoved := true;
        }
      } else if ptx.finalRecipient == ptx.recipient {
        beSend, beRemoved := ok2, ok2;
      } else if ptx.originalSender == ptx.sender {
        beRemoved, beSend := ok1, ok1;
      }
      if beSend {
        txSend := txSend + [ptx];
      }
      if !beRemoved {
        q.txQueue := q.txQueue[firstPtr := q.txQueue[secondPtr]];
        firstPtr := firstPtr + 1;
      }
    }
    q.txQueue := q.txQueue[..firstPtr];
  }

  /** What has become cross-shard after the first n targets, in the order the source reports it. */
  function Crossed(r: Round, txs: seq<Tx>, n: nat): seq<Tx> {
    if n == 0 then [] else Crossed(r, txs, n - 1) + All(CrossesAt(r, n - 1), txs)
  }

  lemma BrokerExtractedNext(r: Round, i: nat, txs: seq<Tx>)
    ensures All(SendTest(AddrsTo(r, i)), All(Remains(r, i), txs)) == All(GoesAlong(r, i), txs)
    ensures All(CrossTest(AddrsTo(r, i)), All(Remains(r, i), txs)) == All(CrossesAt(r, i), txs)
    ensures All(KeepTest(AddrsTo(r, i)), All(Remains(r, i), txs)) == All(Remains(r, i + 1), txs)
  {
    WhereTwice(Remains(r, i), SendTest(AddrsTo(r, i)), GoesAlong(r, i), txs, |txs|);
    WhereTwice(Remains(r, i), CrossTest(AddrsTo(r, i)), CrossesAt(r, i), txs, |txs|);
    WhereTwice(Remains(r, i), KeepTest(AddrsTo(r, i)), Remains(r, i + 1), txs, |txs|);
  }

  lemma NothingToOneself(r: Round, txs: seq<Tx>)
    ensures All(GoesAlong(r, r.v.self), txs) == [] && All(CrossesAt(r, r.v.self), txs) == []
    ensures All(Remains(r, r.v.self + 1), txs) == All(Remains(r, r.v.self), txs)
  {
    WhereNothing(GoesAlong(r, r.v.self), txs, |txs|);
    WhereNothing(CrossesAt(r, r.v.self), txs, |txs|);
    WhereSame(Remains(r, r.v.self), Remains(r, r.v.self + 1), txs, |txs|);
  }

  method SendBrokerQueue(q: TxPool, r: Round, shardNums: nat) returns (sent: seq<seq<Tx>>, txsBeCross: seq<Tx>)
    modifies q`txQueue
    ensures q.txQueue == All(Remains(r, shardNums), old(q.txQueue))
    ensures txsBeCross == Crossed(r, old(q.txQueue), shardNums)
    ensures |sent| == shardNums
    ensures forall i :: 0 <= i < shardNums ==> sent[i] == All(GoesAlong(r, i), old(q.txQueue))
  {
    ghost var was := q.txQueue;
    WhereEverything(Remains(r, 0), was, |was|);
    sent, txsBeCross := [], [];
    for i := 0 to shardNums
      invariant q.txQueue == All(Remains(r, i), was)
      invariant txsBeCross == Crossed(r, was, i)
      invariant |sent| == i
      invariant forall j :: 0 <= j < i ==> sent[j] == All(GoesAlong(r, j), was)
    {
      if i == r.v.self {
        NothingToOneself(r, was);
        sent := sent + [[]];
      } else {
        BrokerExtractedNext(r, i, was);
        var txSend, cross := ExtractBroker(q, AddrsTo(r, i));
        sent := sent + [txSend];
        txsBeCross := txsBeCross + cross;
      }
    }
  }

  // ----- The split is exact -----

  function Departs(r: Round, i: nat): Tx -> bool {
    t => (HasAnchor(t) && r.MovesTo(Anchor(t), i)) || (CrossesBelow(r, i + 1, t) && !CrossesBelow(r, i, t))
  }

  lemma DepartsSplit(r: Round, txs: seq<Tx>, n: nat)
    ensures multiset(All(Departs(r, n), txs))
        == multiset(All(GoesAlong(r, n), txs)) + multiset(All(CrossesAt(r, n), txs))
  {
    WhereSplit(GoesAlong(r, n), CrossesAt(r, n), Departs(r, n), txs, |txs|);
  }

  lemma RemainsSplit(r: Round, txs: seq<Tx>, n: nat)
    ensures multiset(All(Remains(r, n), txs))
        == multiset(All(Remains(r, n + 1), txs)) + multiset(All(Departs(r, n), txs))
  {
    WhereSplit(Remains(r, n + 1), Departs(r, n), Remains(r, n), txs, |txs|);
  }

  lemma RemainsNext(r: Round, txs: seq<Tx>, n: nat, x: Tx)
    ensures Copies(All(Remains(r, n), txs), x)
         == Copies(All(Remains(r, n + 1), txs), x) + Copies(All(GoesAlong(r, n), txs), x)
             + Copies(All(CrossesAt(r, n), txs), x)
  {
    DepartsSplit(r, txs, n);
    RemainsSplit(r, txs, n);
  }

  lemma AllRemain(r: Round, txs: seq<Tx>)
    ensures All(Remains(r, 0), txs) == txs
  {
    WhereEverything(Remains(r, 0), txs, |txs|);
    assert txs[..|txs|] == txs;
  }

  /** The copies of x that go along to each of the first n shards. */
  function SentAlong(r: Round, txs: seq<Tx>, n: nat, x: Tx): (f: seq<nat>)
    ensures |f| == n && forall i :: 0 <= i < n ==> f[i] == Copies(All(GoesAlong(r, i), txs), x)
  {
    if n == 0 then [] else SentAlong(r, txs, n - 1, x) + [Copies(All(GoesAlong(r, n - 1), txs), x)]
  }

  /** Every copy of a queued transaction is kept, sent to one shard, or reported as cross-shard, once. */
  lemma {:induction false} BrokerQueueSplit(r: Round, txs: seq<Tx>, n: nat, x: Tx)
    ensures Copies(txs, x)
         == Copies(All(Remains(r, n), txs), x) + Plus(SentAlong(r, txs, n, x)) + Copies(Crossed(r, txs, n), x)
  {
    if n == 0 {
      AllRemain(r, txs);
    } else {
      BrokerQueueSplit(r, txs, n - 1, x);
      RemainsNext(r, txs, n - 1, x);
      var last := Copies(All(GoesAlong(r, n - 1), txs), x);
      PlusConcat(SentAlong(r, txs, n - 1, x), [last]);
      PlusOne(last);
    }
  }

  lemma CrossesSplit(r: Round, txs: seq<Tx>, n: nat)
    ensures multiset(All(Crosses(r, n + 1), txs))
        == multiset(All(Crosses(r, n), txs)) + multiset(All(CrossesAt(r, n), txs))
  {
    WhereSplit(Crosses(r, n), CrossesAt(r, n), Crosses(r, n + 1), txs, |txs|);
  }

  /** The reported transactions are the plain ones of which an account moves away, each reported once however
      many of its accounts move. */
  lemma {:induction false} CrossedExactly(r: Round, txs: seq<Tx>, n: nat)
    ensures multiset(Crossed(r, txs, n)) == multiset(All(Crosses(r, n), txs))
  {
    if n == 0 {
      WhereNothing(Crosses(r, 0), txs, |txs|);
    } else {
      CrossedExactly(r, txs, n - 1);
      CrossesSplit(r, txs, n - 1);
    }
  }

  // ----- Classification of a committed block -----

  /** The checks the commit phase panics on. */
  predicate Belongs(v: View, t: Tx) {
    && (t.sender == t.originalSender ==> v.Owns(t.sender))
    && (t.recipient == t.finalRecipient ==> v.Owns(t.recipient))
    && (t.rawTxHash.None? && t.hasBroker && t.senderIsBroker ==> v.Owns(t.recipient))
    && (t.rawTxHash.None? && t.hasBroker && !t.senderIsBroker ==> v.Owns(t.sender))
    && (Plain(t) ==> v.Owns(t.sender) && v.Owns(t.recipient))
  }

  ghost predicate AllBelong(v: View, txs: seq<Tx>) {
    forall i :: 0 <= i < |txs| ==> Belongs(v, txs[i])
  }

  function SecondHalf(): Tx -> bool {
    (t: Tx) => t.recipient == t.finalRecipient
  }

  function FirstHalf(): Tx -> bool {
    (t: Tx) => t.recipient != t.finalRecipient && t.sender == t.originalSender
  }

  function Whole(): Tx -> bool {
    (t: Tx) => t.recipient != t.finalRecipient && t.sender != t.originalSender
  }

  /** A committed body in three lists; ok unless the source panics. */
  method Classify(v: View, body: seq<Tx>) returns (ok: bool, inner: seq<Tx>, broker1: seq<Tx>, broker2: seq<Tx>)
    ensures ok <==> AllBelong(v, body)
    ensures ok ==> inner == All(Whole(), body)
    ensures ok ==> broker1 == All(FirstHalf(), body) && broker2 == All(SecondHalf(), body)
  {
    inner, broker1, broker2 := [], [], [];
    for i := 0 to |body|
      invariant AllBelong(v, body[..i])
      invariant inner == Where(Whole(), body, i)
      invariant broker1 == Where(FirstHalf(), body, i)
      invariant broker2 == Where(SecondHalf(), body, i)
    {
      var tx := body[i];
      var isBroker1Tx, isBroker2Tx := tx.sender == tx.originalSender, tx.recipient == tx.finalRecipient;
      var senderIsInshard, recipientIsInshard := v.Owns(tx.sender), v.Owns(tx.recipient);
      assert body[..i + 1][i] == tx;
      if isBroker1Tx && !senderIsInshard {
        return false, inner, broker1, broker2;
      }
      if isBroker2Tx && !recipientIsInshard {
        return false, inner, broker1, broker2;
      }
      if tx.rawTxHash.None? {
        if tx.hasBroker {
          if tx.senderIsBroker && !recipientIsInshard {
            return false, inner, broker1, broker2;
          }
          if !tx.senderIsBroker && !senderIsInshard {
            return false, inner, broker1, broker2;
          }
        } else if !senderIsInshard || !recipientIsInshard {
          return false, inner, broker1, broker2;
        }
      }
      if isBroker2Tx {
        broker2 := broker2 + [tx];
      } else if isBroker1Tx {
        broker1 := broker1 + [tx];
      } else {
        inner := inner + [tx];
      }
    }
    assert body[..|body|] == body;
    ok := true;
  }

  // ----- After a round everything belongs where it is -----

  /** As the supervisor makes them: a transaction with no raw hash names no original sender or final recipient
      among its accounts, and a half is not both halves. */
  predicate WellTyped(t: Tx) {
    if t.rawTxHash.None? then t.sender != t.originalSender && t.recipient != t.finalRecipient
    else !(t.sender == t.originalSender && t.recipient == t.finalRecipient)
  }

  ghost predicate AllWellTyped(txs: seq<Tx>) {
    forall i :: 0 <= i < |txs| ==> WellTyped(txs[i])
  }

  /** Of a well-typed body the three lists hold the first halves, the second halves, and the transactions that are no
      halves or neither half, every copy once. */
  lemma ListsExactly(body: seq<Tx>, x: Tx)
    requires AllWellTyped(body)
    ensures Copies(All(FirstHalf(), body), x) == if IsFirst(x) then Copies(body, x) else 0
    ensures Copies(All(SecondHalf(), body), x) == if IsSecond(x) then Copies(body, x) else 0
    ensures Copies(All(Whole(), body), x) == if IsFirst(x) || IsSecond(x) then 0 else Copies(body, x)
  {
    WhereCopies(FirstHalf(), body, |body|, x);
    WhereCopies(SecondHalf(), body, |body|, x);
    WhereCopies(Whole(), body, |body|, x);
    assert body[..|body|] == body;
    if x in body {
      assert WellTyped(x);
    }
  }

  lemma KeptBelong(r: Round, shardNum: nat, txs: seq<Tx>)
    requires AllBelong(r.v, txs) && AllWellTyped(txs) && Placed(r.modified, shardNum)
    ensures AllBelong(View(r.v.self, r.Pm(), r.v.home), All(Remains(r, shardNum), txs))
  {
    WherePasses(Remains(r, shardNum), txs, |txs|);
    var kept := All(Remains(r, shardNum), txs);
    var now := View(r.v.self, r.Pm(), r.v.home);
    forall k | 0 <= k < |kept|
      ensures Belongs(now, kept[k])
    {
      var j :| 0 <= j < |txs| && txs[j] == kept[k];
      assert Belongs(r.v, txs[j]) && WellTyped(txs[j]);
    }
  }

  /** What is sent belongs at its new shard. */
  lemma SentBelong(r: Round, i: nat, txs: seq<Tx>)
    requires AllWellTyped(txs)
    ensures AllBelong(View(i, r.Pm(), r.v.home), All(GoesAlong(r, i), txs))
  {
    WherePasses(GoesAlong(r, i), txs, |txs|);
    var sent := All(GoesAlong(r, i), txs);
    var there := View(i, r.Pm(), r.v.home);
    forall k | 0 <= k < |sent|
      ensures Belongs(there, sent[k])
    {
      var j :| 0 <= j < |txs| && txs[j] == sent[k];
      assert WellTyped(txs[j]);
    }
  }
}
