/** The supervisor in broker mode (supervisor/committee/committee_broker.go): cross-shard transactions become two
    halves through a broker, the second issued when the first is reported committed. */
module BrokerCommittees {
  import opened Addresses
  import opened Filters
  import opened Transactions

  datatype Config = Config(shardNum: nat, home: Placement, brokers: seq<Address>, blockSize: nat)
  {
    predicate IsBroker(a: Address) {
      a in brokers
    }

    ghost predicate Valid() {
      Into(home, shardNum) && brokers != []
    }
  }

  /** The confirm pools, by the hash of a half, with the raw transaction; the raw messages; the halves seen
      committed, by raw hash; and the next fresh hash. */
  datatype Supervisor = Supervisor(confirm1: map<nat, Tx>, confirm2: map<nat, Tx>, rawMegs: set<Tx>,
                                   rawTx2BrokerTx: map<nat, seq<nat>>, nextHash: nat)

  predicate IsCross(c: Config, t: Tx) {
    c.home(t.recipient) != c.home(t.sender) && !c.IsBroker(t.recipient) && !c.IsBroker(t.sender)
  }

  function CrossTest(c: Config): Tx -> bool {
    t => IsCross(c, t)
  }

  function Flagged(c: Config, t: Tx): Tx {
    if c.IsBroker(t.recipient) || c.IsBroker(t.sender)
        then t.(hasBroker := true, senderIsBroker := c.IsBroker(t.sender))
    else t
  }

  function FirstOf(c: Config, raw: Tx, txHash: nat): Tx
    requires c.brokers != []
  {
    Tx(raw.sender, c.brokers[0], raw.value, txHash, false, false, false, raw.sender, raw.recipient, Some(raw.txHash))
  }

  function SecondOf(c: Config, raw: Tx, txHash: nat): Tx
    requires c.brokers != []
  {
    Tx(c.brokers[0], raw.recipient, raw.value, txHash, false, false, false, raw.sender, raw.recipient, Some(raw.txHash))
  }

  /** The shard a transaction is sent to. */
  function ShardFor(c: Config, t: Tx): nat {
    if c.IsBroker(t.sender) then c.home(t.recipient) else c.home(t.sender)
  }

  /** A first half is issued for a raw transaction. */
  function IssueFirst(sup: Supervisor, raw: Tx): Supervisor {
    sup.(rawMegs := sup.rawMegs + {raw}, confirm1 := sup.confirm1[sup.nextHash := raw], nextHash := sup.nextHash + 1)
  }

  function NotedFor(noted: map<nat, seq<nat>>, raw: nat): seq<nat> {
    if raw in noted then noted[raw] else []
  }

  function Noted(noted: map<nat, seq<nat>>, raw: nat, half: nat): map<nat, seq<nat>> {
    noted[raw := NotedFor(noted, raw) + [half]]
  }

  /** The raw transactions whose entries have become two or more. */
  function NowTwo(before: map<nat, seq<nat>>, after: map<nat, seq<nat>>): set<nat> {
    set raw | raw in after && |NotedFor(before, raw)| < 2 <= |NotedFor(after, raw)|
  }

  lemma OneMoreNoted(before: map<nat, seq<nat>>, now: map<nat, seq<nat>>, raw: nat, half: nat)
    requires forall x :: |NotedFor(before, x)| <= |NotedFor(now, x)|
    ensures forall x :: |NotedFor(before, x)| <= |NotedFor(Noted(now, raw, half), x)|
    ensures |NowTwo(before, Noted(now, raw, half))|
         == |NowTwo(before, now)| + if |NotedFor(Noted(now, raw, half), raw)| == 2 then 1 else 0
  {
    var next := Noted(now, raw, half);
    if |NotedFor(next, raw)| == 2 {
      assert NowTwo(before, next) == NowTwo(before, now) + {raw};
    } else {
      assert NowTwo(before, next) == NowTwo(before, now);
    }
  }

  /** A second half is issued for a raw transaction whose first half, of the given hash, is committed. */
  function IssueSecond(sup: Supervisor, raw: Tx, first: nat): Supervisor {
    sup.(rawTx2BrokerTx := Noted(sup.rawTx2BrokerTx, raw.txHash, first),
         confirm2 := sup.confirm2[sup.nextHash := raw], nextHash := sup.nextHash + 1)
  }

  /** One injected transaction: the supervisor afterwards, and what is sent. */
  function Deal(c: Config, sup: Supervisor, t: Tx): (Supervisor, Tx)
    requires c.brokers != []
  {
    if IsCross(c, t) then (IssueFirst(sup, t), FirstOf(c, t, sup.nextHash)) else (sup, Flagged(c, t))
  }

  /** The first n raw transactions, one after the other. */
  function IssueFirsts(c: Config, sup: Supervisor, raws: seq<Tx>, n: nat): (Supervisor, seq<Tx>)
    requires n <= |raws| && c.brokers != []
  {
    if n == 0 then (sup, [])
    else
      var (s, firsts) := IssueFirsts(c, sup, raws, n - 1);
      (IssueFirst(s, raws[n - 1]), firsts + [FirstOf(c, raws[n - 1], s.nextHash)])
  }

  /** One reported transaction: whether it is an awaited first half, the supervisor afterwards, and the second half
      that is sent. */
  predicate Awaited(sup: Supervisor, t: Tx) {
    t.txHash in sup.confirm1 && sup.confirm1[t.txHash] in sup.rawMegs
  }

  function Confirm(c: Config, sup: Supervisor, t: Tx): (Supervisor, seq<Tx>)
    requires c.brokers != []
  {
    if Awaited(sup, t) then
      var raw := sup.confirm1[t.txHash];
      (IssueSecond(sup, raw, t.txHash), [SecondOf(c, raw, sup.nextHash)])
    else (sup, [])
  }

  function Confirms(c: Config, sup: Supervisor, txs: seq<Tx>, n: nat): (Supervisor, seq<Tx>)
    requires n <= |txs| && c.brokers != []
  {
    if n == 0 then (sup, [])
    else
      var (s, out) := Confirms(c, sup, txs, n - 1);
      var (s', more) := Confirm(c, s, txs[n - 1]);
      (s', out + more)
  }

  /** The second halves among the first n reported transactions are noted as committed; they are looked up in the
      pool as it was when the report arrived. */
  function NoteSeconds(pool: map<nat, Tx>, noted: map<nat, seq<nat>>, txs: seq<Tx>, n: nat): map<nat, seq<nat>>
    requires n <= |txs|
  {
    if n == 0 then noted
    else
      var before := NoteSeconds(pool, noted, txs, n - 1);
      var h := txs[n - 1].txHash;
      if h in pool then Noted(before, pool[h].txHash, h) else before
  }

  /** A whole report. */
  function Report(c: Config, sup: Supervisor, txs: seq<Tx>): (Supervisor, seq<Tx>)
    requires c.brokers != []
  {
    var (s, out) := Confirms(c, sup, txs, |txs|);
    (s.(rawTx2BrokerTx := NoteSeconds(sup.confirm2, s.rawTx2BrokerTx, txs, |txs|)), out)
  }

  function NotCross(c: Config): Tx -> bool {
    t => !IsCross(c, t)
  }

  function FlagAll(c: Config, txs: seq<Tx>): seq<Tx> {
    seq(|txs|, i requires 0 <= i < |txs| => Flagged(c, txs[i]))
  }

  /** Dealing with a list is dealing with its transactions one by one. */
  lemma DealNext(c: Config, sup: Supervisor, txs: seq<Tx>, t: Tx)
    requires c.brokers != []
    ensures var raws, raws' := All(CrossTest(c), txs), All(CrossTest(c), txs + [t]);
            var (s, firsts) := IssueFirsts(c, sup, raws, |raws|);
            var (s', first) := Deal(c, s, t);
            && IssueFirsts(c, sup, raws', |raws'|) == (s', firsts + if IsCross(c, t) then [first] else [])
            && All(NotCross(c), txs + [t]) == All(NotCross(c), txs) + (if IsCross(c, t) then [] else [t])
  {
    AllSnoc(CrossTest(c), txs, t);
    AllSnoc(NotCross(c), txs, t);
    var raws, raws' := All(CrossTest(c), txs), All(CrossTest(c), txs + [t]);
    var firsts := IssueFirsts(c, sup, raws, |raws|).1;
    assert firsts + [] == firsts;
    assert raws' == if IsCross(c, t) then raws + [t] else raws;
    IssuePrefix(c, sup, raws, raws', |raws|);
  }

  lemma {:induction false} IssuePrefix(c: Config, sup: Supervisor, x: seq<Tx>, y: seq<Tx>, n: nat)
    requires n <= |x| && x <= y && c.brokers != []
    ensures IssueFirsts(c, sup, y, n) == IssueFirsts(c, sup, x, n)
  {
    if n > 0 {
      IssuePrefix(c, sup, x, y, n - 1);
    }
  }

  /** A batch of transactions to a shard. */
  datatype InjectMsg = InjectMsg(dest: nat, txs: seq<Tx>)

  function SentTo(msgs: seq<InjectMsg>, s: nat, n: nat): seq<Tx>
    requires n <= |msgs|
  {
    if n == 0 then [] else SentTo(msgs, s, n - 1) + (if msgs[n - 1].dest == s then msgs[n - 1].txs else [])
  }

  function BoundFor(c: Config, s: nat): Tx -> bool {
    t => ShardFor(c, t) == s
  }

  lemma {:induction false} SentToPrefix(x: seq<InjectMsg>, y: seq<InjectMsg>, s: nat, n: nat)
    requires n <= |x| && x <= y
    ensures SentTo(y, s, n) == SentTo(x, s, n)
  {
    if n > 0 {
      SentToPrefix(x, y, s, n - 1);
    }
  }

  function Batch(pending: map<nat, seq<Tx>>, s: nat): seq<Tx> {
    if s in pending then pending[s] else []
  }

  class BrokerCommittee {
    const config: Config
    var confirm1Pool: map<nat, Tx>
    var confirm2Pool: map<nat, Tx>
    var brokerRawMegs: set<Tx>
    var rawTx2BrokerTx: map<nat, seq<nat>>
    var nextHash: nat

    function Abs(): Supervisor
      reads this
    {
      Supervisor(confirm1Pool, confirm2Pool, brokerRawMegs, rawTx2BrokerTx, nextHash)
    }

    constructor (config: Config)
      ensures this.config == config && Abs() == Supervisor(map[], map[], {}, map[], 0)
    {
      this.config := config;
      confirm1Pool, confirm2Pool, brokerRawMegs, rawTx2BrokerTx, nextHash := map[], map[], {}, map[], 0;
    }

    method IsBroker(address: Address) returns (r: bool)
      ensures r == config.IsBroker(address)
    {
      for i := 0 to |config.brokers|
        invariant address !in config.brokers[..i]
      {
        if config.brokers[i] == address {
          return true;
        }
      }
      return false;
    }

    /** The injected transactions, sorted: for each cross-shard one a first half is issued, the others are flagged
        when a broker takes part and pass through. */
    method DealTxByBroker(txs: seq<Tx>) returns (tx1s: seq<Tx>, itxs: seq<Tx>)
      requires config.brokers != []
      modifies this
      ensures (Abs(), tx1s) == IssueFirsts(config, old(Abs()), All(CrossTest(config), txs),
                                           |All(CrossTest(config), txs)|)
      ensures itxs == FlagAll(config, All(NotCross(config), txs))
    {
      itxs := [];
      var brokerRawMegs: seq<Tx> := [];
      for i := 0 to |txs|
        invariant brokerRawMegs == Where(CrossTest(config), txs, i)
        invariant itxs == FlagAll(config, Where(NotCross(config), txs, i))
        invariant Abs() == old(Abs())
      {
        var tx := txs[i];
        var rSid, sSid := config.home(tx.recipient), config.home(tx.sender);
        var rb := IsBroker(tx.recipient);
        var sb := IsBroker(tx.sender);
        if rSid != sSid && !rb && !sb {
          brokerRawMegs := brokerRawMegs + [tx];
        } else {
          if rb || sb {
            tx := tx.(hasBroker := true, senderIsBroker := sb);
          }
          itxs := itxs + [tx];
        }
      }
      tx1s := HandleBrokerRawMag(brokerRawMegs);
    }

    method HandleBrokerRawMag(raws: seq<Tx>) returns (tx1s: seq<Tx>)
      requires config.brokers != []
      modifies this
      ensures (Abs(), tx1s) == IssueFirsts(config, old(Abs()), raws, |raws|)
    {
      tx1s := [];
      for i := 0 to |raws|
        invariant (Abs(), tx1s) == IssueFirsts(config, old(Abs()), raws, i)
      {
        brokerRawMegs := brokerRawMegs + {raws[i]};
        var tx1 := FirstOf(config, raws[i], nextHash);
        nextHash := nextHash + 1;
        tx1s := tx1s + [tx1];
        confirm1Pool := confirm1Pool[tx1.txHash := raws[i]];
      }
    }

    /** A committed block's halves are reported. */
    method CreateConfirm(txs: seq<Tx>) returns (tx2s: seq<Tx>)
      requires config.brokers != []
      modifies this
      ensures (Abs(), tx2s) == Report(config, old(Abs()), txs)
    {
      var pool := confirm2Pool;
      tx2s := HandleTx1ConfirmMag(txs);
      var num := HandleTx2ConfirmMag(txs, pool);
    }

    /** Each awaited first half leads to a second half. */
    method HandleTx1ConfirmMag(txs: seq<Tx>) returns (tx2s: seq<Tx>)
      requires config.brokers != []
      modifies this
      ensures (Abs(), tx2s) == Confirms(config, old(Abs()), txs, |txs|)
    {
      tx2s := [];
      for i := 0 to |txs|
        invariant (Abs(), tx2s) == Confirms(config, old(Abs()), txs, i)
      {
        var h := txs[i].txHash;
        assert tx2s + [] == tx2s;
        if h in confirm1Pool {
          var raw := confirm1Pool[h];
          if raw in brokerRawMegs {
            NoteHalf(raw.txHash, h);
            var tx2 := SecondOf(config, raw, nextHash);
            nextHash := nextHash + 1;
            confirm2Pool := confirm2Pool[tx2.txHash := raw];
            tx2s := tx2s + [tx2];
          }
        }
      }
    }

    method NoteHalf(raw: nat, half: nat)
      modifies this`rawTx2BrokerTx
      ensures rawTx2BrokerTx == Noted(old(rawTx2BrokerTx), raw, half)
    {
      if raw !in rawTx2BrokerTx {
        rawTx2BrokerTx := rawTx2BrokerTx[raw := []];
      }
      rawTx2BrokerTx := rawTx2BrokerTx[raw := rawTx2BrokerTx[raw] + [half]];
    }

    /** Each second half is noted, and the raw transactions that are finished by that are counted. */
    method HandleTx2ConfirmMag(txs: seq<Tx>, pool: map<nat, Tx>) returns (num: nat)
      modifies this`rawTx2BrokerTx
      ensures rawTx2BrokerTx == NoteSeconds(pool, old(rawTx2BrokerTx), txs, |txs|)
      ensures num == |NowTwo(old(rawTx2BrokerTx), rawTx2BrokerTx)|
    {
      num := 0;
      assert NowTwo(rawTx2BrokerTx, rawTx2BrokerTx) == {};
      for i := 0 to |txs|
        invariant rawTx2BrokerTx == NoteSeconds(pool, old(rawTx2BrokerTx), txs, i)
        invariant forall raw :: |NotedFor(old(rawTx2BrokerTx), raw)| <= |NotedFor(rawTx2BrokerTx, raw)|
        invariant num == |NowTwo(old(rawTx2BrokerTx), rawTx2BrokerTx)|
      {
        var h := txs[i].txHash;
        if h in pool {
          OneMoreNoted(old(rawTx2BrokerTx), rawTx2BrokerTx, pool[h].txHash, h);
          NoteHalf(pool[h].txHash, h);
          if |rawTx2BrokerTx[pool[h].txHash]| == 2 {
            num := num + 1;
          }
        }
      }
    }

    /** A batch goes out: one message to every shard, empty or not. */
    method Flush(msgs: seq<InjectMsg>, sendToShard: map<nat, seq<Tx>>) returns (more: seq<InjectMsg>)
      ensures forall s :: 0 <= s < config.shardNum ==>
          SentTo(more, s, |more|) == SentTo(msgs, s, |msgs|) + Batch(sendToShard, s)
    {
      more := msgs;
      for sid := 0 to config.shardNum
        invariant forall s :: 0 <= s < sid ==>
            SentTo(more, s, |more|) == SentTo(msgs, s, |msgs|) + Batch(sendToShard, s)
        invariant forall s :: sid <= s < config.shardNum ==> SentTo(more, s, |more|) == SentTo(msgs, s, |msgs|)
      {
        var next := more + [InjectMsg(sid, Batch(sendToShard, sid))];
        forall s
          ensures SentTo(next, s, |next|) == SentTo(more, s, |more|) + if s == sid then Batch(sendToShard, sid) else []
        {
          SentToPrefix(more, next, s, |more|);
        }
        more := next;
      }
    }

    /** Sending in batches loses nothing and keeps the order: every shard gets what is bound for it. */
    method TxSending(txlist: seq<Tx>, injectSpeed: nat) returns (msgs: seq<InjectMsg>)
      requires injectSpeed > 0
      ensures forall s :: 0 <= s < config.shardNum ==> SentTo(msgs, s, |msgs|) == All(BoundFor(config, s), txlist)
    {
      msgs := [];
      var sendToShard: map<nat, seq<Tx>> := map[];
      var idx := 0;
      while true
        invariant 0 <= idx <= |txlist|
        invariant forall s :: 0 <= s < config.shardNum ==>
                    SentTo(msgs, s, |msgs|) + Batch(sendToShard, s) == Where(BoundFor(config, s), txlist, idx)
        decreases |txlist| - idx
      {
        if idx > 0 && (idx % injectSpeed == 0 || idx == |txlist|) {
          msgs := Flush(msgs, sendToShard);
          sendToShard := map[];
        }
        if idx == |txlist| {
          break;
        }
        var tx := txlist[idx];
        var sendersid := config.home(tx.sender);
        var sb := IsBroker(tx.sender);
        if sb {
          sendersid := config.home(tx.recipient);
        }
        sendToShard := sendToShard[sendersid := Batch(sendToShard, sendersid) + [tx]];
        idx := idx + 1;
      }
    }
  }
}
