/** One shard's chain (chain/blockchain.go, chain/merkleproof.go): blocks in a key-value store, linked by
    parent hashes, and the search for a transaction back through them. */
module Chains {
  import opened Addresses
  import opened Transactions
  import opened TxPools

  const BLOOM_BITS := 2048

  /** An injective hash: the hash of a header is known by the header. */
  datatype Hash = NoParent | HashOf(header: Header)

  /** Roots are known by what they commit to: the state root by the accounts, the transaction root by the
      set of keys, each stored with the same value. */
  datatype Header = Header(parent: Hash, stateRoot: Trie, txRoot: set<nat>, bloom: set<nat>, number: nat, time: nat,
                           miner: int)

  datatype Block = Block(header: Header, body: seq<Tx>, hash: Hash)

  type Store = map<Hash, Block>

  function TxTreeRoot(txs: seq<Tx>): set<nat> {
    set i | 0 <= i < |txs| :: txs[i].txHash
  }

  function BloomBit(txHash: nat): nat {
    txHash % BLOOM_BITS
  }

  function BloomFilter(txs: seq<Tx>): set<nat> {
    set i | 0 <= i < |txs| :: BloomBit(txs[i].txHash)
  }

  predicate Contains(txs: seq<Tx>, txHash: nat) {
    exists i :: 0 <= i < |txs| && txs[i].txHash == txHash
  }

  /** What GenerateBlock, AddAccounts and the genesis block establish. */
  predicate WellFormed(b: Block) {
    && b.hash == HashOf(b.header)
    && b.header.txRoot == TxTreeRoot(b.body)
    && b.header.bloom == BloomFilter(b.body)
  }

  /** Stored parents lead from the hash, at the given height, down to the genesis block at height 0. */
  ghost predicate Linked(store: Store, h: Hash, height: nat) {
    && h in store
    && store[h].hash == h
    && WellFormed(store[h])
    && store[h].header.number == height
    && (height > 0 ==> Linked(store, store[h].header.parent, height - 1))
  }

  /** The block at height k below the given one. */
  ghost function AtHeight(store: Store, h: Hash, height: nat, k: nat): Block
    requires Linked(store, h, height) && k <= height
    decreases height
  {
    if k == height then store[h] else AtHeight(store, store[h].header.parent, height - 1, k)
  }

  /** A new key does not disturb the links. */
  lemma {:induction false} LinkedExtended(store: Store, h: Hash, height: nat, key: Hash, b: Block)
    requires Linked(store, h, height) && key !in store
    ensures Linked(store[key := b], h, height)
    decreases height
  {
    if height > 0 {
      LinkedExtended(store, store[h].header.parent, height - 1, key, b);
    }
  }

  /** Along the chain the heights fall by one, down to 0, and each block names the next as its parent. */
  lemma {:induction false} ChainDescends(store: Store, h: Hash, height: nat, k: nat)
    requires Linked(store, h, height) && k <= height
    ensures var b := AtHeight(store, h, height, k);
            && WellFormed(b) && b.header.number == k && b.hash in store && store[b.hash] == b
            && (k > 0 ==> b.header.parent == AtHeight(store, h, height, k - 1).hash)
    decreases height
  {
    if k < height {
      ChainDescends(store, store[h].header.parent, height - 1, k);
    } else if k > 0 {
      assert AtHeight(store, h, height, k - 1) == AtHeight(store, store[h].header.parent, height - 1, k - 1);
    }
  }

  datatype ProofError = NoSuchBlock | CannotFind | NotInBlock(height: nat) | RootMismatch(height: nat)

  datatype TxProofResult =
    | Found(blockHash: Hash, txHash: nat, txRoot: set<nat>, blockHeight: nat)
    | NotFound(txHash: nat, error: ProofError)

  /** The search on one block: found exactly when the body has the hash and neither the filter nor the root
      disagrees, and the filter never hides a member of a well-formed block. */
  method TxProofGenerateOnTheBlock(txHash: nat, block: Block) returns (r: TxProofResult)
    ensures r.txHash == txHash
    ensures r.Found? <==> BloomBit(txHash) in block.header.bloom && Contains(block.body, txHash)
                          && TxTreeRoot(block.body) == block.header.txRoot
    ensures r.Found? ==> r == Found(block.hash, txHash, block.header.txRoot, block.header.number)
    ensures WellFormed(block) ==> (r.Found? <==> Contains(block.body, txHash))
  {
    if BloomBit(txHash) !in block.header.bloom {
      return NotFound(txHash, CannotFind);
    }
    var txExist := false;
    var keys: set<nat> := {};
    for i := 0 to |block.body|
      invariant txExist <==> Contains(block.body[..i], txHash)
      invariant keys == TxTreeRoot(block.body[..i])
    {
      if txHash == block.body[i].txHash {
        txExist := true;
      }
      OneMoreTx(block.body, i);
      keys := keys + {block.body[i].txHash};
    }
    assert block.body[..|block.body|] == block.body;
    if !txExist {
      return NotFound(txHash, NotInBlock(block.header.number));
    }
    if keys != block.header.txRoot {
      return NotFound(txHash, RootMismatch(block.header.number));
    }
    return Found(block.hash, txHash, block.header.txRoot, block.header.number);
  }

  lemma OneMoreTx(txs: seq<Tx>, i: nat)
    requires i < |txs|
    ensures TxTreeRoot(txs[..i + 1]) == TxTreeRoot(txs[..i]) + {txs[i].txHash}
    ensures forall h :: Contains(txs[..i + 1], h) <==> Contains(txs[..i], h) || txs[i].txHash == h
  {
    var more := txs[..i + 1];
    assert more == txs[..i] + [txs[i]];
    forall h
      ensures Contains(more, h) <==> Contains(txs[..i], h) || txs[i].txHash == h
    {
      if txs[i].txHash == h {
        assert more[i].txHash == h;
      }
      if Contains(txs[..i], h) {
        var k :| 0 <= k < i && txs[..i][k].txHash == h;
        assert more[k].txHash == h;
      }
    }
  }

  class BlockChain {
    const view0: View
    const blockSize: nat
    const txpool: TxPool
    var partitionMap: PartitionMap
    /** The state tries the node can open. */
    var triedb: set<Trie>
    var currentBlock: Block
    var storage: Store

    function GetView(): View
      reads this
    {
      View(view0.self, partitionMap, view0.home)
    }

    function GetPartitionMap(a: Address): nat
      reads this
    {
      OwnerOf(partitionMap, view0.home, a)
    }

    function StateRoot(): Trie
      reads this
    {
      currentBlock.header.stateRoot
    }

    /** The stored blocks link the current block to genesis, and no stored block is above it. */
    ghost predicate Valid()
      reads this
    {
      && Linked(storage, currentBlock.hash, currentBlock.header.number)
      && storage[currentBlock.hash] == currentBlock
      && (forall h :: h in storage ==> storage[h].hash == h && WellFormed(storage[h])
                                       && storage[h].header.number <= currentBlock.header.number)
    }

    /** The current state can be opened. */
    ghost predicate RootKnown()
      reads this
    {
      StateRoot() in triedb
    }

    constructor (self: nat, home: Placement, blockSize: nat)
      ensures Valid() && RootKnown() && fresh(txpool)
      ensures GetView() == View(self, map[], home) && this.blockSize == blockSize
      ensures StateRoot() == map[] && currentBlock.header.number == 0
      ensures txpool.txQueue == []
    {
      view0 := View(self, map[], home);
      this.blockSize := blockSize;
      txpool := new TxPool();
      partitionMap := map[];
      var header := Header(NoParent, map[], TxTreeRoot([]), BloomFilter([]), 0, 0, 0);
      var genesis := Block(header, [], HashOf(header));
      triedb := {map[]};
      currentBlock := genesis;
      storage := map[genesis.hash := genesis];
    }

    method UpdatePartitionMap(key: Address, val: nat)
      modifies this`partitionMap
      ensures partitionMap == old(partitionMap)[key := val]
    {
      partitionMap := partitionMap[key := val];
    }

    /** The state after the transactions, from the current block's state; it can be opened afterwards. */
    method GetUpdateStatusTrie(txs: seq<Tx>) returns (root: Trie)
      requires RootKnown()
      modifies this`triedb
      ensures root == ExecTxs(GetView(), StateRoot(), txs, |txs|)
      ensures triedb == old(triedb) + {root}
    {
      if |txs| == 0 {
        return StateRoot();
      }
      var st := StateRoot();
      var cnt := 0;
      for i := 0 to |txs|
        invariant st == ExecTxs(GetView(), StateRoot(), txs, i)
        invariant cnt >= 0 && (cnt == 0 ==> st == StateRoot())
        invariant triedb == old(triedb)
      {
        var tx := txs[i];
        var debited := false;
        if !tx.relayed && (GetPartitionMap(tx.sender) == view0.self || tx.hasBroker) {
          var s := if tx.sender in st then st[tx.sender] else AccountState(i, INIT_BALANCE);
          if s.balance < tx.value {
            continue;
          }
          st := st[tx.sender := s.Deduct(tx.value)];
          cnt := cnt + 1;
        }
        if GetPartitionMap(tx.recipient) == view0.self || tx.hasBroker {
          var r := if tx.recipient in st then st[tx.recipient] else AccountState(i, INIT_BALANCE);
          st := st[tx.recipient := r.Deposit(tx.value)];
          cnt := cnt + 1;
        }
      }
      if cnt == 0 {
        return StateRoot();
      }
      triedb := triedb + {st};
      return st;
    }

    /** A block on top of the current one, with the oldest queued transactions and the state they lead to. */
    method GenerateBlock(miner: int, now: nat) returns (b: Block)
      requires RootKnown()
      modifies this`triedb, txpool`txQueue
      ensures WellFormed(b)
      ensures b.header.parent == currentBlock.hash && b.header.number == currentBlock.header.number + 1
      ensures b.body + txpool.txQueue == old(txpool.txQueue) && |b.body| == Least(blockSize, |old(txpool.txQueue)|)
      ensures b.header.stateRoot == ExecTxs(GetView(), StateRoot(), b.body, |b.body|)
      ensures triedb == old(triedb) + {b.header.stateRoot}
    {
      var txs := txpool.PackTxs(blockSize);
      var rt := GetUpdateStatusTrie(txs);
      var bh := Header(currentBlock.hash, rt, TxTreeRoot(txs), BloomFilter(txs), currentBlock.header.number + 1, now,
                       miner);
      b := Block(bh, txs, HashOf(bh));
    }

    predicate Fits(b: Block)
      reads this
    {
      b.header.number == currentBlock.header.number + 1 && b.header.parent == currentBlock.hash
    }

    /** A block is taken exactly when it fits on top; a well-formed one keeps the chain linked. The state it
        claims can be opened afterwards exactly when it could before or executing the body leads to it. */
    method AddBlock(b: Block)
      requires RootKnown()
      modifies this`triedb, this`currentBlock, this`storage
      ensures if old(Fits(b)) then currentBlock == b && storage == old(storage)[b.hash := b]
              else currentBlock == old(currentBlock) && storage == old(storage) && triedb == old(triedb)
      ensures old(Valid()) && WellFormed(b) ==> Valid()
      ensures old(Fits(b)) ==>
                (RootKnown() <==> b.header.stateRoot in old(triedb)
                                  || b.header.stateRoot == old(ExecTxs(GetView(), StateRoot(), b.body, |b.body|)))
      ensures old(triedb) <= triedb
    {
      if b.header.number != currentBlock.header.number + 1 {
        return;
      }
      if b.header.parent != currentBlock.hash {
        return;
      }
      if b.header.stateRoot !in triedb {
        var rt := GetUpdateStatusTrie(b.body);
      }
      if Valid() && WellFormed(b) {
        Extends(b);
      }
      currentBlock := b;
      storage := storage[b.hash := b];
    }

    lemma Extends(b: Block)
      requires Valid() && WellFormed(b) && Fits(b)
      ensures b.hash !in storage
      ensures Linked(storage[b.hash := b], b.hash, b.header.number)
    {
      assert b.hash in storage ==> storage[b.hash].header == b.header;
      LinkedExtended(storage, currentBlock.hash, currentBlock.header.number, b.hash, b);
    }

    /** The validity check of the pre-prepare phase: parent and transaction root, nothing else. */
    predicate IsValidBlock(b: Block)
      reads this
    {
      b.header.parent == currentBlock.hash && TxTreeRoot(b.body) == b.header.txRoot
    }

    /** The state after filing the received accounts that belong here. */
    static function Filed(v: View, st: Trie, addrs: seq<Address>, states: seq<AccountState>, n: nat): Trie
      requires n <= |addrs| == |states|
    {
      if n == 0 then st
      else
        var prev := Filed(v, st, addrs, states, n - 1);
        if v.Owns(addrs[n - 1]) then prev[addrs[n - 1] := states[n - 1]] else prev
    }

    /** An empty block on top whose state has the received accounts of this shard overwritten. */
    method AddAccounts(addrs: seq<Address>, states: seq<AccountState>)
      requires RootKnown() && |addrs| == |states|
      modifies this`triedb, this`currentBlock, this`storage
      ensures StateRoot() == Filed(GetView(), old(StateRoot()), addrs, states, |addrs|) && RootKnown()
      ensures WellFormed(currentBlock) && currentBlock.body == []
      ensures currentBlock.header.parent == old(currentBlock.hash)
      ensures currentBlock.header.number == old(currentBlock.header.number) + 1
      ensures storage == old(storage)[currentBlock.hash := currentBlock]
      ensures old(Valid()) ==> Valid()
    {
      var rt := StateRoot();
      if |addrs| != 0 {
        var st := StateRoot();
        for i := 0 to |addrs|
          invariant st == Filed(GetView(), StateRoot(), addrs, states, i)
        {
          if GetPartitionMap(addrs[i]) == view0.self {
            st := st[addrs[i] := AccountState(states[i].nonce, states[i].balance)];
          }
        }
        triedb := triedb + {st};
        rt := st;
      }
      var bh := Header(currentBlock.hash, rt, TxTreeRoot([]), BloomFilter([]), currentBlock.header.number + 1, 0, 0);
      var b := Block(bh, [], HashOf(bh));
      if Valid() {
        Extends(b);
      }
      currentBlock := b;
      storage := storage[b.hash := b];
    }

    /** The states of the accounts, the initial one for an account the trie does not have. */
    method FetchAccounts(addrs: seq<Address>) returns (res: seq<AccountState>)
      requires RootKnown()
      ensures |res| == |addrs| && forall i :: 0 <= i < |addrs| ==> res[i] == StateOf(StateRoot(), addrs[i], 0)
    {
      res := [];
      for i := 0 to |addrs|
        invariant |res| == i && forall j :: 0 <= j < i ==> res[j] == StateOf(StateRoot(), addrs[j], 0)
      {
        var a := if addrs[i] in StateRoot() then StateRoot()[addrs[i]] else AccountState(0, INIT_BALANCE);
        res := res + [a];
      }
    }

    /** The block of this chain at a height. */
    ghost function BlockAt(k: nat): Block
      requires Valid() && k <= currentBlock.header.number
      reads this
    {
      AtHeight(storage, currentBlock.hash, currentBlock.header.number, k)
    }

    /** The search back through the chain finds a hash exactly when some block above genesis contains it, and
        then reports the highest such block. */
    method TxProofGenerate(txHash: nat) returns (r: TxProofResult)
      requires Valid()
      ensures r.Found? ==> && 0 < r.blockHeight <= currentBlock.header.number
                           && var b := BlockAt(r.blockHeight);
                              r == Found(b.hash, txHash, b.header.txRoot, b.header.number) && Contains(b.body, txHash)
      ensures r.Found? ==> forall k: nat :: r.blockHeight < k <= currentBlock.header.number ==>
          !Contains(BlockAt(k).body, txHash)
      ensures r.NotFound? ==> r.error == CannotFind
      ensures r.NotFound? ==> forall k: nat :: 0 < k <= currentBlock.header.number ==>
          !Contains(BlockAt(k).body, txHash)
    {
      var nowBlockHash, nowHeight := currentBlock.hash, currentBlock.header.number;
      while nowHeight > 0
        invariant 0 <= nowHeight <= currentBlock.header.number
        invariant nowBlockHash == BlockAt(nowHeight).hash
        invariant forall k: nat :: nowHeight < k <= currentBlock.header.number ==> !Contains(BlockAt(k).body, txHash)
      {
        ChainDescends(storage, currentBlock.hash, currentBlock.header.number, nowHeight);
        if nowBlockHash !in storage {
          return NotFound(txHash, NoSuchBlock);
        }
        var block := storage[nowBlockHash];
        var ret := TxProofGenerateOnTheBlock(txHash, block);
        if ret.Found? {
          return ret;
        }
        nowBlockHash := block.header.parent;
        nowHeight := nowHeight - 1;
      }
      return NotFound(txHash, CannotFind);
    }
  }
}
