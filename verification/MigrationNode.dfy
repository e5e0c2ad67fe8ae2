/** The migration handlers of a broker-mode leader (accountTransfermod_Broker.go, pbftOutside_modCLPABroker.go,
    dataSupport/clpaData_Extra.go), each proved against the step it takes in the re-sharding step system. */
module MigrationNodes {
  import opened Addresses
  import opened Filters
  import opened Transactions
  import opened Chains
  import opened QueueMigration
  import opened BrokerQueues
  import opened Reshardings
  import opened QueuedShards
  import QueueConservation
  import Multisets

  /** The message with the accounts and transactions that go to one shard. */
  datatype TransferMsg = TransferMsg(dest: nat, fromShard: nat, addrs: seq<Address>, states: seq<AccountState>,
                                     txs: seq<Tx>)

  /** The content of a partition request. */
  datatype PartitionRequest = PartitionRequest(modified: PartitionMap, addrs: seq<Address>, states: seq<AccountState>,
                                               atid: nat)

  /** Two parallel lists as a table, later entries overwriting earlier ones. */
  function Table(addrs: seq<Address>, states: seq<AccountState>, n: nat): Accounts
    requires n <= |addrs| && n <= |states|
  {
    if n == 0 then map[] else Table(addrs, states, n - 1)[addrs[n - 1] := states[n - 1]]
  }

  function Content(m: TransferMsg): Accounts
    requires |m.addrs| == |m.states|
  {
    Table(m.addrs, m.states, |m.addrs|)
  }

  /** A list of all keys of a map, each once, in any order. */
  ghost predicate Enumerates<K, V>(keys: seq<K>, m: map<K, V>) {
    && (forall i :: 0 <= i < |keys| ==> keys[i] in m)
    && (forall k :: k in m ==> k in keys)
    && (forall i, j :: 0 <= i < j < |keys| ==> keys[i] != keys[j])
  }

  ghost predicate GoodTransfers(received: map<nat, TransferMsg>) {
    forall t :: t in received ==> |received[t].addrs| == |received[t].states|
  }

  ghost function Contents(received: map<nat, TransferMsg>): map<nat, Accounts>
    requires GoodTransfers(received)
  {
    map t | t in received :: Content(received[t])
  }

  lemma ContentsUpdated(received: map<nat, TransferMsg>, from: nat, m: TransferMsg)
    requires GoodTransfers(received) && |m.addrs| == |m.states|
    ensures Contents(received[from := m]) == Contents(received)[from := Content(m)]
    ensures |Contents(received[from := m])| == |received[from := m]|
  {
    assert Contents(received[from := m]).Keys == received[from := m].Keys;
  }

  lemma {:induction false} TableKeys(addrs: seq<Address>, states: seq<AccountState>, n: nat)
    requires n <= |addrs| && n <= |states|
    ensures forall a :: a in Table(addrs, states, n) <==> exists i :: 0 <= i < n && addrs[i] == a
  {
    if n > 0 {
      TableKeys(addrs, states, n - 1);
      forall a
        ensures a in Table(addrs, states, n) <==> exists i :: 0 <= i < n && addrs[i] == a
      {
        if a in Table(addrs, states, n - 1) {
          var i :| 0 <= i < n - 1 && addrs[i] == a;
        }
        assert addrs[n - 1] in Table(addrs, states, n);
      }
    }
  }

  /** If each listed state is what f gives for its address, so is the table. */
  lemma {:induction false} TableValues(addrs: seq<Address>, states: seq<AccountState>, n: nat, m: Accounts)
    requires n <= |addrs| && n <= |states|
    requires forall i :: 0 <= i < n ==> addrs[i] in m && states[i] == m[addrs[i]]
    ensures forall a :: a in Table(addrs, states, n) ==> a in m && Table(addrs, states, n)[a] == m[a]
  {
    if n > 0 {
      TableValues(addrs, states, n - 1, m);
    }
  }

  /** Listing a table by its keys loses nothing. */
  lemma TableOfAll(addrs: seq<Address>, states: seq<AccountState>, m: Accounts)
    requires |addrs| == |states| && forall i :: 0 <= i < |addrs| ==> addrs[i] in m && states[i] == m[addrs[i]]
    requires forall a :: a in m ==> a in addrs
    ensures Table(addrs, states, |addrs|) == m
  {
    TableKeys(addrs, states, |addrs|);
    TableValues(addrs, states, |addrs|, m);
  }

  /** Filing list by list in a chain is filing the table. */
  lemma {:induction false} FiledIsTable(v: View, st: Trie, addrs: seq<Address>, states: seq<AccountState>, n: nat)
    requires n <= |addrs| == |states|
    ensures BlockChain.Filed(v, st, addrs, states, n) == FileAccounts(v, st, Table(addrs, states, n))
  {
    if n > 0 {
      FiledIsTable(v, st, addrs, states, n - 1);
    }
  }

  /** The transactions received with the accounts, by sender. */
  function TxsOf(received: map<nat, TransferMsg>): map<nat, seq<Tx>> {
    map t | t in received :: received[t].txs
  }

  /** The queue has gained the transactions of every received message, each message's in one piece and in their order,
      and nothing else. */
  ghost predicate GainedAll(was: seq<Tx>, now: seq<Tx>, received: map<nat, TransferMsg>, order: seq<nat>) {
    && was <= now
    && (forall i :: 0 <= i < |order| ==> order[i] in received)
    && multiset(now) == multiset(was) + Multisets.Total(ListOf(received, order), |order|)
    && forall t :: t in received ==> QueueConservation.WholeIn(received[t].txs, now, |was|)
  }

  function ListOf(received: map<nat, TransferMsg>, order: seq<nat>): seq<multiset<Tx>>
    requires forall i :: 0 <= i < |order| ==> order[i] in received
  {
    seq(|order|, i requires 0 <= i < |order| => multiset(received[order[i]].txs))
  }

  lemma TxsUpdated(received: map<nat, TransferMsg>, from: nat, m: TransferMsg)
    ensures TxsOf(received[from := m]) == TxsOf(received)[from := m.txs]
  {
  }

  lemma AlongsNext(queue: seq<Tx>, received: map<nat, TransferMsg>, order: seq<nat>, n: nat)
    requires n < |order| && order[n] in received
    ensures var box := Box(queue, TxsOf(received));
            Alongs(box, order, n + 1) == Alongs(box, order, n) + received[order[n]].txs
  {
    var box := Box(queue, TxsOf(received));
    assert Along(box, order[n]) == received[order[n]].txs;
  }

  /** What joins the queue is the sum of what has come along. */
  lemma {:induction false} AlongsTotal(box: Box, order: seq<nat>, parts: seq<multiset<Tx>>, n: nat)
    requires n <= |order| == |parts| && forall i :: 0 <= i < |order| ==> parts[i] == multiset(Along(box, order[i]))
    ensures multiset(Alongs(box, order, n)) == Multisets.Total(parts, n)
  {
    if n > 0 {
      AlongsTotal(box, order, parts, n - 1);
    }
  }

  lemma JoinedGainsAll(queue: seq<Tx>, received: map<nat, TransferMsg>, order: seq<nat>)
    requires Enumerates(order, received)
    ensures GainedAll(queue, Joined(Box(queue, TxsOf(received)), order).queue, received, order)
  {
    var box := Box(queue, TxsOf(received));
    AlongsTotal(box, order, ListOf(received, order), |order|);
    forall t | t in received
      ensures QueueConservation.WholeIn(received[t].txs, Joined(box, order).queue, |queue|)
    {
      var i :| 0 <= i < |order| && order[i] == t;
      QueueConservation.AlongsWhole(box, order, |order|, i);
    }
  }

  /** The request in the step system. */
  function RequestIn(atm: PartitionRequest): Request
    requires |atm.addrs| == |atm.states|
  {
    Request(atm.modified, Table(atm.addrs, atm.states, |atm.addrs|), atm.atid)
  }

  /** A follower that has the leader's state and all announcements but the one of this round, which only leaders
      receive, ends with the leader's state, map and record. */
  lemma FollowerAgrees(c: Config, leader: Node, follower: Node, s: nat, r: Request)
    requires r.atid == |leader.modified| > 0 && r.modified == leader.modified[|leader.modified| - 1]
    requires follower.state == leader.state && follower.pm == leader.pm
    requires follower.modified == leader.modified[..|leader.modified| - 1]
    ensures var x, y := Committed(c, follower, s, r), Committed(c, leader, s, r);
            x.state == y.state && x.pm == y.pm && x.modified == y.modified && x.round == y.round
  {
  }

  class MigrationNode {
    const chain: BlockChain
    const shardNums: nat
    var sequenceID: nat
    var seqIDMap: map<nat, nat>
    var readySeq: map<nat, nat>
    var modifiedMap: seq<PartitionMap>
    var accountTransferRound: nat
    var receivedNewAccountState: Accounts
    var receivedNewTx: seq<Tx>
    var accountStateTx: map<nat, TransferMsg>
    var partitionOn: bool
    var partitionReady: set<nat>
    var collectOver: bool
    ghost var heard: nat
    var turn: nat        // a history of the model, put into messages as their tag

    ghost predicate Valid()
      reads this
    {
      GoodTransfers(accountStateTx)
    }

    /** Nothing is left of an earlier round. */
    ghost predicate Clean()
      reads this
    {
      receivedNewAccountState == map[] && receivedNewTx == []
    }

    /** The shard in the step system; the phase is where its leader's code stands. */
    ghost function Abs(phase: Phase): Node
      requires Valid()
      reads this, chain
    {
      Node(chain.StateRoot(), chain.partitionMap, modifiedMap, accountTransferRound, partitionOn, phase,
           partitionReady, Contents(accountStateTx), collectOver, sequenceID, seqIDMap, readySeq, heard,
           turn)
    }

    /** Its queue in the step system of the queues. */
    ghost function AbsBox(): Box
      reads this`accountStateTx, chain.txpool`txQueue
    {
      Box(chain.txpool.txQueue, TxsOf(accountStateTx))
    }

    ghost function Settings(): Config
    {
      Config(shardNums, chain.view0.home, {})
    }

    constructor (chain: BlockChain, shardNums: nat)
      ensures Valid() && Clean() && this.chain == chain && this.shardNums == shardNums
      ensures Abs(Normal) == Start().(state := chain.StateRoot(), pm := chain.partitionMap,
                                      sequenceID := chain.currentBlock.header.number + 1)
    {
      this.chain, this.shardNums := chain, shardNums;
      sequenceID, seqIDMap, readySeq := chain.currentBlock.header.number + 1, map[], map[];
      heard, turn := 0, 0;
      modifiedMap, accountTransferRound := [], 0;
      receivedNewAccountState, receivedNewTx, accountStateTx := map[], [], map[];
      partitionOn, partitionReady, collectOver := false, {}, false;
    }

    method HandlePartitionMsg(modified: PartitionMap, ghost phase: Phase)
      requires Valid()
      modifies this`modifiedMap, this`partitionOn, this`heard
      ensures Valid() && Abs(phase) == Arrived(old(Abs(phase)), modified)
    {
      heard := heard + 1;
      modifiedMap := modifiedMap + [modified];
      partitionOn := true;
    }

    /** The own flag is set and every other leader is told, with the sequence number. */
    method SendPartitionReady() returns (msgs: seq<Msg>)
      requires Valid()
      modifies this`partitionReady
      ensures Valid() && Abs(Waiting) == MadeReady(old(Abs(Normal)), chain.view0.self)
      ensures forall m :: m in msgs <==> m in ReadyMsgs(Settings(), old(Abs(Normal)), chain.view0.self)
    {
      partitionReady := partitionReady + {chain.view0.self};
      msgs := [];
      for sid := 0 to shardNums
        invariant forall m :: m in msgs <==> m.ReadyMsg? && m.to < sid && m.to != chain.view0.self
                                             && m == ReadyMsg(chain.view0.self, m.to, turn, sequenceID)
      {
        if sid != chain.view0.self {
          msgs := msgs + [ReadyMsg(chain.view0.self, sid, turn, sequenceID)];
        }
      }
      assert forall t: nat :: t in Others(Settings(), chain.view0.self) <==> t < shardNums && t != chain.view0.self;
    }

    method HandlePartitionReady(m: Msg, ghost phase: Phase)
      requires Valid() && m.ReadyMsg?
      modifies this`partitionReady, this`readySeq
      ensures Valid() && Abs(phase) == HeardReady(old(Abs(phase)), m)
    {
      partitionReady := partitionReady + {m.from};
      readySeq := readySeq[m.from := m.seqID];
    }

    method HandleSeqIDinfos(m: Msg, ghost phase: Phase)
      requires Valid() && m.SeqIDMsg?
      modifies this`seqIDMap
      ensures Valid() && Abs(phase) == old(Abs(phase)).(seqIDMap := old(seqIDMap)[m.from := m.seqID])
    {
      seqIDMap := seqIDMap[m.from := m.seqID];
    }

    /** The wait before sending: a flag from every shard, and for every shard that has reported a block, the sequence
        number after it. */
    method GetPartitionReady(ghost phase: Phase) returns (ready: bool)
      requires Valid()
      ensures ready <==> |Abs(phase).ready| == shardNums && Abs(phase).SeqAgrees()
    {
      var flag := true;
      var rest := seqIDMap.Keys;
      while rest != {}
        invariant rest <= seqIDMap.Keys
        invariant flag <==> forall sid :: sid in seqIDMap && sid !in rest ==>
            sid in readySeq && readySeq[sid] == seqIDMap[sid] + 1
        decreases |rest|
      {
        var sid :| sid in rest;
        rest := rest - {sid};
        if sid !in readySeq || readySeq[sid] != seqIDMap[sid] + 1 {
          flag := false;
        }
      }
      ready := |partitionReady| == shardNums && flag;
    }

    /** The message is kept for its sender. */
    method StoreMsg(m: TransferMsg, ghost phase: Phase)
      requires Valid() && |m.addrs| == |m.states|
      modifies this`accountStateTx
      ensures Valid() && AbsBox() == Fuller(old(AbsBox()), m.fromShard, m.txs)
      ensures Abs(phase) == old(Abs(phase)).(received := old(Contents(accountStateTx))[m.fromShard := Content(m)])
      ensures |Contents(accountStateTx)| == |accountStateTx|
    {
      ContentsUpdated(accountStateTx, m.fromShard, m);
      TxsUpdated(accountStateTx, m.fromShard, m);
      accountStateTx := accountStateTx[m.fromShard := m];
    }

    method HandleAccountStateAndTxMsg(m: TransferMsg, ghost phase: Phase)
      requires Valid() && |m.addrs| == |m.states|
      modifies this`accountStateTx, this`collectOver
      ensures Valid()
      ensures Abs(phase) == Collected(Settings(), old(Abs(phase)),
                                      AccountsMsg(m.fromShard, chain.view0.self, 0, Content(m)))
      ensures AbsBox() == Fuller(old(AbsBox()), m.fromShard, m.txs)
    {
      StoreMsg(m, phase);
      ghost var stored := Abs(phase);
      if |accountStateTx| == shardNums - 1 {
        collectOver := true;
      }
      assert Abs(phase) == stored.(collectOver := stored.collectOver || |stored.received| == shardNums - 1);
    }

    /** The round that the last announced map starts here. */
    function LastRound(): Round
      requires modifiedMap != []
      reads this, chain
    {
      Round(chain.GetView(), modifiedMap[|modifiedMap| - 1])
    }

    /** The accounts that leave this shard, in the order in which the keys of the map come up. */
    method AccountsToFetch(keys: seq<Address>) returns (accountToFetch: seq<Address>)
      requires modifiedMap != [] && Enumerates(keys, modifiedMap[|modifiedMap| - 1])
      ensures forall a :: a in accountToFetch <==> LastRound().Leaves(a)
    {
      var last := modifiedMap[|modifiedMap| - 1];
      accountToFetch := [];
      for i := 0 to |keys|
        invariant forall a :: a in accountToFetch <==> a in keys[..i] && LastRound().Leaves(a)
      {
        var key := keys[i];
        if last[key] != chain.view0.self && chain.GetPartitionMap(key) == chain.view0.self {
          accountToFetch := accountToFetch + [key];
        }
      }
    }

    /** The accounts for shard i, with their states. */
    method AccountsFor(i: nat, accountToFetch: seq<Address>, asFetched: seq<AccountState>)
      returns (addrSend: seq<Address>, addrSet: set<Address>, asSend: seq<AccountState>)
      requires modifiedMap != [] && |asFetched| == |accountToFetch|
      requires forall a :: a in accountToFetch <==> LastRound().Leaves(a)
      requires forall k :: 0 <= k < |asFetched| ==> asFetched[k] == StateOf(chain.StateRoot(), accountToFetch[k], 0)
      ensures |addrSend| == |asSend| && addrSet == AddrsTo(LastRound(), i)
      ensures Table(addrSend, asSend, |addrSend|)
           == Leaving(chain.GetView(), modifiedMap[|modifiedMap| - 1], chain.StateRoot(), i)
    {
      var last := modifiedMap[|modifiedMap| - 1];
      ghost var leaving := Leaving(chain.GetView(), last, chain.StateRoot(), i);
      addrSend, addrSet, asSend := [], {}, [];
      for idx := 0 to |accountToFetch|
        invariant |addrSend| == |asSend|
        invariant forall k :: 0 <= k < |addrSend| ==> addrSend[k] in leaving && asSend[k] == leaving[addrSend[k]]
        invariant forall a :: a in addrSet <==> a in addrSend
        invariant forall k :: 0 <= k < idx && accountToFetch[k] in leaving ==> accountToFetch[k] in addrSend
      {
        var addr := accountToFetch[idx];
        assert LastRound().Leaves(addr);
        if last[addr] == i {
          addrSend := addrSend + [addr];
          addrSet := addrSet + {addr};
          asSend := asSend + [asFetched[idx]];
        }
      }
      assert forall a :: a in leaving ==> a in accountToFetch;
      TableOfAll(addrSend, asSend, leaving);
      assert forall a :: a in addrSet <==> a in leaving;
    }

    ghost predicate GoodMsg(m: TransferMsg, i: nat, txs: seq<Tx>)
      requires Valid() && modifiedMap != []
      reads this, chain
    {
      && m.dest == i && m.fromShard == chain.view0.self && |m.addrs| == |m.states|
      && Content(m) == SentTo(Settings(), Abs(Waiting), chain.view0.self, i)
      && m.txs == All(GoesAlong(SendRound(Settings(), Abs(Waiting), chain.view0.self), i), txs)
    }

    /** The message to one other shard. */
    method TransferTo(i: nat, accountToFetch: seq<Address>, asFetched: seq<AccountState>, ghost was: seq<Tx>)
      returns (msg: TransferMsg, cross: seq<Tx>)
      requires Valid() && modifiedMap != [] && |asFetched| == |accountToFetch|
      requires forall a :: a in accountToFetch <==> LastRound().Leaves(a)
      requires forall k :: 0 <= k < |asFetched| ==> asFetched[k] == StateOf(chain.StateRoot(), accountToFetch[k], 0)
      requires i != chain.view0.self && chain.txpool.txQueue == All(Remains(LastRound(), i), was)
      modifies chain.txpool`txQueue
      ensures chain.txpool.txQueue == All(Remains(LastRound(), i + 1), was)
      ensures GoodMsg(msg, i, was) && cross == All(CrossesAt(LastRound(), i), was)
    {
      var addrSend, addrSet, asSend := AccountsFor(i, accountToFetch, asFetched);
      BrokerExtractedNext(LastRound(), i, was);
      var txSend;
      txSend, cross := ExtractBroker(chain.txpool, addrSet);
      msg := TransferMsg(i, chain.view0.self, addrSend, asSend, txSend);
    }

    /** One message to each other shard: the accounts that go there, as the step system sends them, and the
        queued transactions that go along; the queue keeps the rest, and the supervisor gets the transactions that
        have become cross-shard. */
    method SendAccountsAndTxs(keys: seq<Address>) returns (msgs: seq<TransferMsg>, txsBeCross: seq<Tx>)
      requires Valid() && chain.RootKnown()
      requires modifiedMap != [] && Enumerates(keys, modifiedMap[|modifiedMap| - 1])
      modifies chain.txpool`txQueue
      ensures chain.txpool.txQueue == All(Remains(LastRound(), shardNums), old(chain.txpool.txQueue))
      ensures AbsBox() == Split(old(AbsBox()), SendRound(Settings(), Abs(Waiting), chain.view0.self), shardNums)
      ensures txsBeCross == Crossed(LastRound(), old(chain.txpool.txQueue), shardNums)
      ensures |msgs| == shardNums
      ensures forall i :: 0 <= i < shardNums && i != chain.view0.self ==> GoodMsg(msgs[i], i, old(chain.txpool.txQueue))
    {
      ghost var was := chain.txpool.txQueue;
      var r := LastRound();
      var accountToFetch := AccountsToFetch(keys);
      var asFetched := chain.FetchAccounts(accountToFetch);
      AllRemain(r, was);
      msgs, txsBeCross := [], [];
      for i := 0 to shardNums
        invariant chain.txpool.txQueue == All(Remains(r, i), was)
        invariant txsBeCross == Crossed(r, was, i)
        invariant |msgs| == i
        invariant forall j :: 0 <= j < i && j != chain.view0.self ==> GoodMsg(msgs[j], j, was)
      {
        if i == chain.view0.self {
          NothingToOneself(r, was);
          msgs := msgs + [TransferMsg(i, i, [], [], [])];
        } else {
          var msg, cross := TransferTo(i, accountToFetch, asFetched, was);
          msgs := msgs + [msg];
          txsBeCross := txsBeCross + cross;
        }
      }
    }

    /** The request that collects everything received; the received transactions join the queue: all of every message,
        in one piece and in their order. */
    method ProposePartition(order: seq<nat>) returns (atm: PartitionRequest)
      requires Valid() && Clean() && accountTransferRound < |modifiedMap|
      requires Enumerates(order, accountStateTx)
      modifies this`receivedNewAccountState, this`receivedNewTx, chain.txpool`txQueue
      ensures Valid()
      ensures AbsBox() == Joined(old(AbsBox()), order)
      ensures GainedAll(old(chain.txpool.txQueue), chain.txpool.txQueue, accountStateTx, order)
      ensures |atm.addrs| == |atm.states| && RequestIn(atm) == RequestOf(old(Abs(Sent)), order)
      ensures Abs(Proposed(RequestIn(atm))) == old(Abs(Sent)).(phase := Proposed(RequestOf(old(Abs(Sent)), order)))
    {
      ghost var was := Abs(Sent);
      JoinReceived(order);
      assert Abs(Sent) == was;
      var addrs, states := ListAccounts();
      atm := PartitionRequest(modifiedMap[accountTransferRound], addrs, states, |modifiedMap|);
      assert RequestIn(atm) == RequestOf(was, order);
    }

    /** All received messages into the record, and their transactions into the queue. */
    method JoinReceived(order: seq<nat>)
      requires Valid() && Clean() && Enumerates(order, accountStateTx)
      modifies this`receivedNewAccountState, this`receivedNewTx, chain.txpool`txQueue
      ensures receivedNewAccountState == Merged(Contents(accountStateTx), order, |order|)
      ensures AbsBox() == Joined(old(AbsBox()), order)
      ensures GainedAll(old(chain.txpool.txQueue), chain.txpool.txQueue, accountStateTx, order)
    {
      JoinedGainsAll(chain.txpool.txQueue, accountStateTx, order);
      CollectAll(order);
      chain.txpool.AddTxs2Pool(receivedNewTx);
    }

    /** All received messages, in any order, into the record. */
    method CollectAll(order: seq<nat>)
      requires Valid() && Clean() && Enumerates(order, accountStateTx)
      modifies this`receivedNewAccountState, this`receivedNewTx
      ensures receivedNewAccountState == Merged(Contents(accountStateTx), order, |order|)
      ensures receivedNewTx == Alongs(AbsBox(), order, |order|)
    {
      ghost var box := AbsBox();
      for k := 0 to |order|
        invariant Valid()
        invariant receivedNewAccountState == Merged(Contents(accountStateTx), order, k)
        invariant receivedNewTx == Alongs(box, order, k)
      {
        var at := accountStateTx[order[k]];
        AlongsNext(box.queue, accountStateTx, order, k);
        CollectAccounts(at);
        receivedNewTx := receivedNewTx + at.txs;
      }
    }

    method CollectAccounts(at: TransferMsg)
      requires |at.addrs| == |at.states|
      modifies this`receivedNewAccountState
      ensures receivedNewAccountState == old(receivedNewAccountState) + Content(at)
    {
      for i := 0 to |at.addrs|
        invariant receivedNewAccountState == old(receivedNewAccountState) + Table(at.addrs, at.states, i)
      {
        receivedNewAccountState := receivedNewAccountState[at.addrs[i] := at.states[i]];
      }
    }

    /** The collected accounts as two lists, in any order. */
    method ListAccounts() returns (addrs: seq<Address>, states: seq<AccountState>)
      ensures |addrs| == |states| && Table(addrs, states, |addrs|) == receivedNewAccountState
    {
      addrs, states := [], [];
      var rest := receivedNewAccountState.Keys;
      while rest != {}
        invariant |addrs| == |states| && rest <= receivedNewAccountState.Keys
        invariant forall i :: 0 <= i < |addrs| ==>
            addrs[i] in receivedNewAccountState && states[i] == receivedNewAccountState[addrs[i]]
        invariant forall a :: a in receivedNewAccountState && a !in rest ==> a in addrs
        decreases |rest|
      {
        var key :| key in rest;
        rest := rest - {key};
        addrs, states := addrs + [key], states + [receivedNewAccountState[key]];
      }
      TableOfAll(addrs, states, receivedNewAccountState);
    }

    /** The commit of a partition request, by every node of the shard: the new placements apply, the accounts
        that belong here are filed in an empty block, and the record is reset. The commit handler then counts up the
        sequence number. */
    method AccountTransferDo(atm: PartitionRequest, ghost phase: Phase)
      requires Valid() && chain.RootKnown() && |atm.addrs| == |atm.states|
      modifies this, chain
      ensures Valid() && Clean() && chain.RootKnown()
      ensures Abs(Normal)
           == Committed(Settings(), old(Abs(phase)), chain.view0.self, RequestIn(atm)).(sequenceID := old(sequenceID))
      ensures AbsBox() == Emptied(old(AbsBox()))
      ensures old(chain.Valid()) ==> chain.Valid()
    {
      FileRequest(atm);
      ResetRecord(atm);
    }

    /** The placements and the accounts of a request, on the chain. */
    method FileRequest(atm: PartitionRequest)
      requires chain.RootKnown() && |atm.addrs| == |atm.states|
      modifies chain
      ensures chain.RootKnown() && (old(chain.Valid()) ==> chain.Valid())
      ensures chain.partitionMap == old(chain.partitionMap) + atm.modified
      ensures chain.StateRoot() == FileAccounts(chain.GetView(), old(chain.StateRoot()),
                                                Table(atm.addrs, atm.states, |atm.addrs|))
    {
      ApplyMap(atm.modified);
      FiledIsTable(chain.GetView(), chain.StateRoot(), atm.addrs, atm.states, |atm.addrs|);
      chain.AddAccounts(atm.addrs, atm.states);
    }

    method ResetRecord(atm: PartitionRequest)
      modifies this
      ensures Valid() && Clean() && accountStateTx == map[] && partitionReady == {} && !partitionOn && !collectOver
      ensures accountTransferRound == atm.atid && sequenceID == old(sequenceID) && seqIDMap == old(seqIDMap)
      ensures readySeq == old(readySeq) && heard == old(heard) && turn == old(turn) + 1
      ensures modifiedMap == if |old(modifiedMap)| != atm.atid
          then old(modifiedMap) + [atm.modified] else old(modifiedMap)
    {
      if |modifiedMap| != atm.atid {
        modifiedMap := modifiedMap + [atm.modified];
      }
      accountTransferRound := atm.atid;
      turn := turn + 1;
      accountStateTx := map[];
      receivedNewAccountState := map[];
      receivedNewTx := [];
      partitionOn := false;
      collectOver := false;
      partitionReady := {};
    }

    /** Every new placement goes into the partition map, in any order. */
    method ApplyMap(modified: PartitionMap)
      modifies chain`partitionMap
      ensures chain.partitionMap == old(chain.partitionMap) + modified
      ensures old(chain.Valid()) ==> chain.Valid()
    {
      var rest := modified.Keys;
      while rest != {}
        invariant rest <= modified.Keys
        invariant chain.partitionMap == old(chain.partitionMap) + map k | k in modified && k !in rest :: modified[k]
        invariant old(chain.Valid()) ==> chain.Valid()
        decreases |rest|
      {
        var key :| key in rest;
        rest := rest - {key};
        chain.UpdatePartitionMap(key, modified[key]);
      }
    }
  }
}
