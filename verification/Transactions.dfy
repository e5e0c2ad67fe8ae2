/** Transactions, account states, and what executing transactions does to a shard's state trie
    (core/transaction.go, core/account.go, chain/blockchain.go). */
module Transactions {
  import opened Addresses

  datatype Option<+T> = None | Some(value: T)

  /** The fields the ledger depends on. Two transactions of different content have different hashes. */
  datatype Tx = Tx(sender: Address, recipient: Address, value: nat, txHash: nat, relayed: bool,
                   hasBroker: bool, senderIsBroker: bool,
                   originalSender: Address, finalRecipient: Address, rawTxHash: Option<nat>)

  datatype AccountState = AccountState(nonce: nat, balance: int)
  {
    function Deduct(value: nat): AccountState {
      if balance < value then this else this.(balance := balance - value)
    }

    function Deposit(value: nat): AccountState {
      this.(balance := balance + value)
    }
  }

  const INIT_BALANCE: nat := 100000000000000000000000000000000000000000000

  /** A state trie, known by its contents: two tries with one root hold the same accounts. */
  type Trie = map<Address, AccountState>

  /** The account, or the initial one when the trie has none. */
  function StateOf(st: Trie, a: Address, nonce: nat): AccountState {
    if a in st then st[a] else AccountState(nonce, INIT_BALANCE)
  }

  function Balance(st: Trie, a: Address): int {
    StateOf(st, a, 0).balance
  }

  type PartitionMap = map<Address, nat>

  /** The shard of an address: the partition map's, or the default one. */
  function OwnerOf(pm: PartitionMap, home: Placement, a: Address): nat {
    if a in pm then pm[a] else home(a)
  }

  /** Which addresses a shard holds. */
  datatype View = View(self: nat, pm: PartitionMap, home: Placement)
  {
    predicate Owns(a: Address) {
      OwnerOf(pm, home, a) == self
    }
  }

  predicate Debits(v: View, tx: Tx) {
    !tx.relayed && (v.Owns(tx.sender) || tx.hasBroker)
  }

  predicate Credits(v: View, tx: Tx) {
    v.Owns(tx.recipient) || tx.hasBroker
  }

  predicate Short(v: View, st: Trie, tx: Tx) {
    Debits(v, tx) && Balance(st, tx.sender) < tx.value
  }

  /** The i-th transaction of a block on a shard: skipped when the sender is short. */
  function ExecTx(v: View, st: Trie, tx: Tx, i: nat): Trie {
    if Short(v, st, tx) then st
    else
      var debited := if Debits(v, tx) then st[tx.sender := StateOf(st, tx.sender, i).Deduct(tx.value)] else st;
      if Credits(v, tx) then debited[tx.recipient := StateOf(debited, tx.recipient, i).Deposit(tx.value)] else debited
  }

  /** The first n transactions of a block. */
  function ExecTxs(v: View, st: Trie, txs: seq<Tx>, n: nat): Trie
    requires n <= |txs|
  {
    if n == 0 then st else ExecTx(v, ExecTxs(v, st, txs, n - 1), txs[n - 1], n - 1)
  }

  // ----- Sums of values -----

  /** A half of a broker transaction: the second when it names the final recipient, otherwise the first when it names
      the original sender. */
  predicate IsSecond(t: Tx) {
    t.rawTxHash.Some? && t.recipient == t.finalRecipient
  }

  predicate IsFirst(t: Tx) {
    t.rawTxHash.Some? && t.recipient != t.finalRecipient && t.sender == t.originalSender
  }

  /** What a transaction adds to a sum. In relay mode: debits and credits of an account by transactions not yet relayed,
      and credits by relayed ones. In broker mode: debits and credits of an account; for first halves, what their raw
      transactions credit an account, and their values; the values of whole transactions; and the halves of each kind
      of a raw transaction. */
  datatype Measure =
    | Out(a: Address) | In(a: Address) | RelayedIn(a: Address)
    | Debit(a: Address) | Credit(a: Address) | FirstFinal(a: Address) | FirstValue | WholeValue
    | FirstsOf(raw: nat) | SecondsOf(raw: nat)

  function Amount(t: Tx, k: Measure): nat {
    match k
    case Out(a) => if !t.relayed && t.sender == a then t.value else 0
    case In(a) => if !t.relayed && t.recipient == a then t.value else 0
    case RelayedIn(a) => if t.relayed && t.recipient == a then t.value else 0
    case Debit(a) => if t.sender == a then t.value else 0
    case Credit(a) => if t.recipient == a then t.value else 0
    case FirstFinal(a) => if IsFirst(t) && t.finalRecipient == a then t.value else 0
    case FirstValue => if IsFirst(t) then t.value else 0
    case WholeValue => if t.rawTxHash.None? then t.value else 0
    case FirstsOf(raw) => if IsFirst(t) && t.rawTxHash == Some(raw) then 1 else 0
    case SecondsOf(raw) => if IsSecond(t) && t.rawTxHash == Some(raw) then 1 else 0
  }

  function SumTo(txs: seq<Tx>, n: nat, k: Measure): nat
    requires n <= |txs|
  {
    if n == 0 then 0 else SumTo(txs, n - 1, k) + Amount(txs[n - 1], k)
  }

  function Sum(txs: seq<Tx>, k: Measure): nat {
    SumTo(txs, |txs|, k)
  }

  lemma {:induction false} SumPrefix(x: seq<Tx>, y: seq<Tx>, n: nat, k: Measure)
    requires n <= |x| && x <= y
    ensures SumTo(y, n, k) == SumTo(x, n, k)
  {
    if n > 0 {
      SumPrefix(x, y, n - 1, k);
    }
  }

  lemma {:induction false} SumSuffix(x: seq<Tx>, y: seq<Tx>, n: nat, k: Measure)
    requires n <= |y|
    ensures SumTo(x + y, |x| + n, k) == Sum(x, k) + SumTo(y, n, k)
  {
    if n == 0 {
      SumPrefix(x, x + y, |x|, k);
    } else {
      SumSuffix(x, y, n - 1, k);
    }
  }

  lemma SumConcat(x: seq<Tx>, y: seq<Tx>, k: Measure)
    ensures Sum(x + y, k) == Sum(x, k) + Sum(y, k)
  {
    SumSuffix(x, y, |y|, k);
  }

  lemma SumSplit(x: seq<Tx>, i: nat, k: Measure)
    requires i <= |x|
    ensures Sum(x, k) == Sum(x[..i], k) + Sum(x[i..], k)
  {
    SumConcat(x[..i], x[i..], k);
    assert x[..i] + x[i..] == x;
  }

  /** Removing the element at index i. */
  lemma SumRemoved(x: seq<Tx>, i: nat, k: Measure)
    requires i < |x|
    ensures Sum(x, k) == Sum(x[..i] + x[i + 1..], k) + Amount(x[i], k)
  {
    SumSplit(x, i, k);
    SumConcat(x[..i], x[i + 1..], k);
    SumConcat([x[i]], x[i + 1..], k);
    assert x[i..] == [x[i]] + x[i + 1..];
    assert Sum([x[i]], k) == SumTo([x[i]], 0, k) + Amount(x[i], k);
  }

  /** Fewer transactions move less value. */
  lemma {:induction false} SumSubset(x: seq<Tx>, y: seq<Tx>, k: Measure)
    requires multiset(x) <= multiset(y)
    ensures Sum(x, k) <= Sum(y, k)
    decreases |x|
  {
    if x != [] {
      var n := |x| - 1;
      var i := MatchLast(x, y);
      SumSubset(x[..n], y[..i] + y[i + 1..], k);
      SumRemoved(y, i, k);
      SumPrefix(x[..n], x, n, k);
    }
  }

  lemma MatchLast<T>(x: seq<T>, y: seq<T>) returns (i: nat)
    requires x != [] && multiset(x) <= multiset(y)
    ensures i < |y| && y[i] == x[|x| - 1]
    ensures multiset(x[..|x| - 1]) <= multiset(y[..i] + y[i + 1..])
  {
    var t := x[|x| - 1];
    assert t in x && t in multiset(x);
    assert t in multiset(y);
    i :| 0 <= i < |y| && y[i] == t;
    MultisetSnoc(x[..|x| - 1], t);
    assert x == x[..|x| - 1] + [t];
    MultisetWithout(y, i);
    DropOne(multiset(x[..|x| - 1]), multiset(y[..i] + y[i + 1..]), t);
  }

  lemma MultisetSnoc<T>(x: seq<T>, t: T)
    ensures multiset(x + [t]) == multiset(x) + multiset{t}
  {
  }

  lemma MultisetWithout<T>(y: seq<T>, i: nat)
    requires i < |y|
    ensures multiset(y) == multiset(y[..i] + y[i + 1..]) + multiset{y[i]}
  {
    assert y == y[..i] + [y[i]] + y[i + 1..];
  }

  lemma DropOne<T>(p: multiset<T>, q: multiset<T>, t: T)
    requires p + multiset{t} <= q + multiset{t}
    ensures p <= q
  {
    forall e
      ensures p[e] <= q[e]
    {
      assert (p + multiset{t})[e] <= (q + multiset{t})[e];
    }
  }

  /** The sum does not depend on the order. */
  lemma SumPermuted(x: seq<Tx>, y: seq<Tx>, k: Measure)
    requires multiset(x) == multiset(y)
    ensures Sum(x, k) == Sum(y, k)
  {
    SumSubset(x, y, k);
    SumSubset(y, x, k);
  }

  // ----- What a funded block does to a balance -----

  /** Every sender of the shard can pay for all it sends in the block. */
  ghost predicate Covered(v: View, st: Trie, txs: seq<Tx>) {
    forall a :: v.Owns(a) ==> Sum(txs, Out(a)) <= Balance(st, a)
  }

  ghost predicate NoBroker(txs: seq<Tx>) {
    forall i :: 0 <= i < |txs| ==> !txs[i].hasBroker
  }

  lemma {:induction false} SumGrows(txs: seq<Tx>, m: nat, n: nat, k: Measure)
    requires m <= n <= |txs|
    ensures SumTo(txs, m, k) <= SumTo(txs, n, k)
  {
    if m < n {
      SumGrows(txs, m, n - 1, k);
    }
  }

  /** One transaction of a sender who can pay, at a shard. */
  lemma ExecTxBalance(v: View, st: Trie, tx: Tx, i: nat, a: Address)
    requires !tx.hasBroker && !Short(v, st, tx) && v.Owns(a)
    ensures Balance(ExecTx(v, st, tx, i), a)
         == Balance(st, a) - Amount(tx, Out(a)) + Amount(tx, In(a)) + Amount(tx, RelayedIn(a))
  {
  }

  /** A transaction that is not skipped leaves the account of a debited sender and of a credited recipient in the
      trie; a new account has the transaction's place in its block as nonce, and an old one keeps its nonce. */
  lemma ExecTxAccounts(v: View, st: Trie, tx: Tx, i: nat)
    ensures ExecTx(v, st, tx, i).Keys
         == st.Keys + if Short(v, st, tx) then {}
                      else (if Debits(v, tx) then {tx.sender} else {}) + if Credits(v, tx) then {tx.recipient} else {}
    ensures forall a :: a in ExecTx(v, st, tx, i) ==>
              ExecTx(v, st, tx, i)[a].nonce == if a in st then st[a].nonce else i
    ensures Short(v, st, tx) ==> ExecTx(v, st, tx, i) == st
  {
  }

  /** A funded block changes an account of its own shard by exactly the block's debits and credits. */
  lemma {:induction false} ExecBalance(v: View, st: Trie, txs: seq<Tx>, n: nat, a: Address)
    requires n <= |txs| && NoBroker(txs) && v.Owns(a)
    requires Covered(v, st, txs)
    ensures Balance(ExecTxs(v, st, txs, n), a)
         == Balance(st, a) - SumTo(txs, n, Out(a)) + SumTo(txs, n, In(a)) + SumTo(txs, n, RelayedIn(a))
  {
    if n > 0 {
      ExecBalance(v, st, txs, n - 1, a);
      var tx, before := txs[n - 1], ExecTxs(v, st, txs, n - 1);
      if Debits(v, tx) {
        ExecBalance(v, st, txs, n - 1, tx.sender);
        SumGrows(txs, n, |txs|, Out(tx.sender));
      }
      ExecTxBalance(v, before, tx, n - 1, a);
    }
  }

  /** In a funded block nobody is ever short. */
  lemma NeverShort(v: View, st: Trie, txs: seq<Tx>, n: nat)
    requires n < |txs| && NoBroker(txs) && Covered(v, st, txs)
    ensures !Short(v, ExecTxs(v, st, txs, n), txs[n])
  {
    var tx := txs[n];
    if Debits(v, tx) {
      ExecBalance(v, st, txs, n, tx.sender);
      SumGrows(txs, n + 1, |txs|, Out(tx.sender));
    }
  }

  /** Accounts of other shards are left alone. */
  lemma {:induction false} ExecLeavesOthers(v: View, st: Trie, txs: seq<Tx>, n: nat, a: Address)
    requires n <= |txs| && NoBroker(txs) && !v.Owns(a)
    ensures Balance(ExecTxs(v, st, txs, n), a) == Balance(st, a)
  {
    if n > 0 {
      ExecLeavesOthers(v, st, txs, n - 1, a);
    }
  }
}
