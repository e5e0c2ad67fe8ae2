/** The PBFT message handlers of one node within one view (consensus_shard/pbft_all/messageHandle.go,
    toolFuncs.go, pbft.go), for block requests in relay mode (pbftInside_module.go). */
module Pbfts {
  import opened Transactions
  import opened Chains

  /** An injective digest: it is known by the request, which is a block. */
  datatype Digest = DigestOf(request: Block)

  datatype PbftMsg =
    | PrePrepare(seqId: nat, digest: Digest, request: Block)
    | Prepare(seqId: nat, digest: Digest, sender: nat)
    | Commit(seqId: nat, digest: Digest, sender: nat)

  /** A node's consensus state. Votes are counted per received message, so the source's set of decoded senders is
      a list here. The blocks from genesis to the current one are the chain; the digests that passed validation,
      and those that were executed, in order, are kept as histories. */
  datatype NodeState = NodeState(
    id: nat, sequenceID: nat, stage: int, requestPool: map<Digest, Block>, height2Digest: map<nat, Digest>,
    prepares: map<Digest, seq<nat>>, commits: map<Digest, seq<nat>>,
    isCommitBroadcast: set<Digest>, isReply: set<Digest>,
    chain: seq<Block>, validated: set<Digest>, executed: seq<Digest>)

  /** The largest f with 3f + 1 <= N. */
  function MaliciousNums(nodeNums: nat): nat
    requires nodeNums > 0
  {
    (nodeNums - 1) / 3
  }

  function Quorum(nodeNums: nat): nat
    requires nodeNums > 0
  {
    2 * MaliciousNums(nodeNums) + 1
  }

  /** f is the largest number of faulty nodes that so many nodes tolerate. */
  predicate Tolerates(nodeNums: nat, f: nat) {
    3 * f + 1 <= nodeNums < 3 * f + 4
  }

  function Votes(votes: map<Digest, seq<nat>>, d: Digest): seq<nat> {
    if d in votes then votes[d] else []
  }

  function Tip(chain: seq<Block>): Block
    requires chain != []
  {
    chain[|chain| - 1]
  }

  predicate Validates(chain: seq<Block>, b: Block) {
    chain != [] && b.header.parent == Tip(chain).hash && TxTreeRoot(b.body) == b.header.txRoot
  }

  /** Adding a block that does not fit on top changes nothing. */
  function Extended(chain: seq<Block>, b: Block): seq<Block> {
    if chain != [] && b.header.number == Tip(chain).header.number + 1 && b.header.parent == Tip(chain).hash
    then chain + [b]
    else chain
  }

  /** When a handler stops waiting for its stage. */
  predicate Ready(n: NodeState, m: PbftMsg) {
    || m.seqId < n.sequenceID
    || n.stage >= (match m case PrePrepare(_, _, _) => 1 case Prepare(_, _, _) => 2 case Commit(_, _, _) => 3)
  }

  /** The node after a pre-prepare message, and what it broadcasts. */
  function OnPrePrepare(n: NodeState, m: PbftMsg): (NodeState, Option<PbftMsg>)
    requires m.PrePrepare?
  {
    if m.seqId < n.sequenceID || m.digest != DigestOf(m.request) then (n, None)
    else
      var stored := n.(requestPool := n.requestPool[m.digest := m.request],
                       height2Digest := n.height2Digest[m.seqId := m.digest]);
      if n.sequenceID == m.seqId && Validates(n.chain, m.request)
      then (stored.(stage := n.stage + 1, validated := n.validated + {m.digest}),
            Some(Prepare(m.seqId, m.digest, n.id)))
      else (stored, None)
  }

  function OnPrepare(n: NodeState, m: PbftMsg, quorum: nat): (NodeState, Option<PbftMsg>)
    requires m.Prepare?
  {
    if m.seqId < n.sequenceID || m.digest !in n.requestPool || n.sequenceID < m.seqId then (n, None)
    else
      var voted := n.(prepares := n.prepares[m.digest := Votes(n.prepares, m.digest) + [m.sender]]);
      if |voted.prepares[m.digest]| >= quorum && m.digest !in n.isCommitBroadcast
      then (voted.(isCommitBroadcast := n.isCommitBroadcast + {m.digest}, stage := n.stage + 1),
            Some(Commit(m.seqId, m.digest, n.id)))
      else (voted, None)
  }

  /** What a commit message leads to: nothing yet, the execution of the request, or a question to the leader for
      the requests this node has missed. */
  datatype Outcome = Counted | Executed | Asked(first: nat, last: nat)

  function OnCommit(n: NodeState, m: PbftMsg, quorum: nat): (NodeState, Outcome)
    requires m.Commit?
  {
    if m.seqId < n.sequenceID then (n, Counted)
    else
      var voted := n.(commits := n.commits[m.digest := Votes(n.commits, m.digest) + [m.sender]]);
      if |voted.commits[m.digest]| < quorum || m.digest in n.isReply then (voted, Counted)
      else if m.digest !in n.requestPool then
        (voted.(isReply := n.isReply + {m.digest}, stage := 1), Asked(n.sequenceID + 1, m.seqId))
      else
        (voted.(chain := Extended(n.chain, n.requestPool[m.digest]), isReply := n.isReply + {m.digest},
                sequenceID := n.sequenceID + 1, stage := 1, executed := n.executed + [m.digest]), Executed)
  }

  /** A prepare for a stored request with the node's own sequence number that makes at least 2f+1 votes, with no commit
      broadcast yet. */
  predicate PrepareSuffices(n: NodeState, m: PbftMsg, f: nat) {
    && m.Prepare? && m.seqId == n.sequenceID && m.digest in n.requestPool
    && |Votes(n.prepares, m.digest)| + 1 >= 2 * f + 1 && m.digest !in n.isCommitBroadcast
  }

  /** A commit not below the node's sequence number that makes at least 2f+1 votes, with no reply yet. */
  predicate CommitSuffices(n: NodeState, m: PbftMsg, f: nat) {
    && m.Commit? && m.seqId >= n.sequenceID
    && |Votes(n.commits, m.digest)| + 1 >= 2 * f + 1 && m.digest !in n.isReply
  }

  class PbftNode {
    const nodeId: nat
    const nodeNums: nat
    const maliciousNums: nat
    const curChain: BlockChain
    var view: nat
    var sequenceID: nat
    var pbftStage: int
    var requestPool: map<Digest, Block>
    var height2Digest: map<nat, Digest>
    var cntPrepareConfirm: map<Digest, seq<nat>>
    var cntCommitConfirm: map<Digest, seq<nat>>
    var isCommitBroadcast: set<Digest>
    var isReply: set<Digest>
    var sequenceLocked: bool
    ghost var chain: seq<Block>
    ghost var validated: set<Digest>
    ghost var executed: seq<Digest>

    ghost predicate Valid()
      reads this, curChain
    {
      && chain != [] && Tip(chain) == curChain.currentBlock
      && nodeNums > 0 && maliciousNums == MaliciousNums(nodeNums)
    }

    ghost function Abs(): NodeState
      reads this
    {
      NodeState(nodeId, sequenceID, pbftStage, requestPool, height2Digest, cntPrepareConfirm, cntCommitConfirm,
                isCommitBroadcast, isReply, chain, validated, executed)
    }

    constructor (nodeId: nat, nodeNums: nat, curChain: BlockChain)
      requires nodeNums > 0
      ensures Valid() && this.curChain == curChain && !sequenceLocked && view == 0
      ensures Abs() == NodeState(nodeId, curChain.currentBlock.header.number + 1, 1, map[], map[], map[], map[], {}, {},
                                 [curChain.currentBlock], {}, [])
    {
      this.nodeId, this.nodeNums, this.curChain := nodeId, nodeNums, curChain;
      maliciousNums := (nodeNums - 1) / 3;
      view, sequenceID, pbftStage := 0, curChain.currentBlock.header.number + 1, 1;
      requestPool, height2Digest := map[], map[];
      cntPrepareConfirm, cntCommitConfirm := map[], map[];
      isCommitBroadcast, isReply, sequenceLocked := {}, {}, false;
      chain, validated, executed := [curChain.currentBlock], {}, [];
    }

    /** One more vote for a digest. */
    method Set2DMap(isPrepareConfirm: bool, key: Digest, val: nat)
      modifies this`cntPrepareConfirm, this`cntCommitConfirm
      ensures if isPrepareConfirm
              then && cntPrepareConfirm == old(cntPrepareConfirm)[key := Votes(old(cntPrepareConfirm), key) + [val]]
                   && cntCommitConfirm == old(cntCommitConfirm)
              else && cntCommitConfirm == old(cntCommitConfirm)[key := Votes(old(cntCommitConfirm), key) + [val]]
                   && cntPrepareConfirm == old(cntPrepareConfirm)
    {
      if isPrepareConfirm {
        if key !in cntPrepareConfirm {
          cntPrepareConfirm := cntPrepareConfirm[key := []];
        }
        cntPrepareConfirm := cntPrepareConfirm[key := cntPrepareConfirm[key] + [val]];
      } else {
        if key !in cntCommitConfirm {
          cntCommitConfirm := cntCommitConfirm[key := []];
        }
        cntCommitConfirm := cntCommitConfirm[key := cntCommitConfirm[key] + [val]];
      }
    }

    /** A leader's proposal, made with the sequence lock free: the lock is taken and the request is stored before
        it is sent. */
    method Propose(request: Block) returns (ppmsg: PbftMsg)
      requires Valid() && !sequenceLocked && view == nodeId
      modifies this`sequenceLocked, this`requestPool, this`height2Digest
      ensures Valid() && sequenceLocked
      ensures ppmsg == PrePrepare(sequenceID, DigestOf(request), request)
      ensures Abs() == old(Abs()).(requestPool := old(requestPool)[ppmsg.digest := request],
                                   height2Digest := old(height2Digest)[sequenceID := ppmsg.digest])
    {
      sequenceLocked := true;
      var digest := DigestOf(request);
      requestPool := requestPool[digest := request];
      ppmsg := PrePrepare(sequenceID, digest, request);
      height2Digest := height2Digest[sequenceID := digest];
    }

    method HandlePrePrepare(ppmsg: PbftMsg) returns (prepare: Option<PbftMsg>)
      requires Valid() && ppmsg.PrePrepare? && Ready(Abs(), ppmsg)
      modifies this`requestPool, this`height2Digest, this`pbftStage, this`validated
      ensures Valid() && (Abs(), prepare) == OnPrePrepare(old(Abs()), ppmsg)
    {
      if ppmsg.seqId < sequenceID {
        return None;
      }
      var flag := false;
      if DigestOf(ppmsg.request) != ppmsg.digest {
        flag := false;
      } else if sequenceID < ppmsg.seqId {
        requestPool := requestPool[DigestOf(ppmsg.request) := ppmsg.request];
        height2Digest := height2Digest[ppmsg.seqId := DigestOf(ppmsg.request)];
      } else {
        flag := curChain.IsValidBlock(ppmsg.request);
        requestPool := requestPool[DigestOf(ppmsg.request) := ppmsg.request];
        height2Digest := height2Digest[ppmsg.seqId := DigestOf(ppmsg.request)];
      }
      if !flag {
        return None;
      }
      validated := validated + {ppmsg.digest};
      pbftStage := pbftStage + 1;
      return Some(Prepare(ppmsg.seqId, ppmsg.digest, nodeId));
    }

    method HandlePrepare(pmsg: PbftMsg) returns (commit: Option<PbftMsg>)
      requires Valid() && pmsg.Prepare? && Ready(Abs(), pmsg)
      modifies this`cntPrepareConfirm, this`cntCommitConfirm, this`isCommitBroadcast, this`pbftStage
      ensures Valid() && (Abs(), commit) == OnPrepare(old(Abs()), pmsg, Quorum(nodeNums))
      ensures forall f: nat :: Tolerates(nodeNums, f) ==>
                commit == if PrepareSuffices(old(Abs()), pmsg, f)
                          then Some(Commit(pmsg.seqId, pmsg.digest, nodeId)) else None
    {
      if pmsg.seqId < sequenceID {
        return None;
      }
      if pmsg.digest !in requestPool {
        return None;
      }
      if sequenceID < pmsg.seqId {
        return None;
      }
      Set2DMap(true, pmsg.digest, pmsg.sender);
      var cnt := |cntPrepareConfirm[pmsg.digest]|;
      if cnt >= 2 * maliciousNums + 1 && pmsg.digest !in isCommitBroadcast {
        isCommitBroadcast := isCommitBroadcast + {pmsg.digest};
        pbftStage := pbftStage + 1;
        return Some(Commit(pmsg.seqId, pmsg.digest, nodeId));
      }
      return None;
    }

    /** The execution of a request: its block goes on the chain if it fits. */
    method HandleInCommit(digest: Digest)
      requires Valid() && digest in requestPool && curChain.RootKnown()
      modifies this`chain, this`executed, curChain`triedb, curChain`currentBlock, curChain`storage
      ensures Valid()
      ensures chain == Extended(old(chain), requestPool[digest]) && executed == old(executed) + [digest]
    {
      var block := requestPool[digest];
      curChain.AddBlock(block);
      chain := Extended(chain, block);
      executed := executed + [digest];
    }

    /** Enough commits for a request not yet replied to. */
    method CommitReached(cmsg: PbftMsg) returns (outcome: Outcome)
      requires Valid() && cmsg.Commit? && curChain.RootKnown()
      modifies this`isReply, this`sequenceID, this`pbftStage, this`sequenceLocked, this`chain, this`executed
      modifies curChain`triedb, curChain`currentBlock, curChain`storage
      ensures Valid() && isReply == old(isReply) + {cmsg.digest} && pbftStage == 1
      ensures sequenceLocked == (old(sequenceLocked) && nodeId != view)
      ensures if cmsg.digest in requestPool
              then && outcome == Executed && sequenceID == old(sequenceID) + 1
                   && chain == Extended(old(chain), requestPool[cmsg.digest])
                   && executed == old(executed) + [cmsg.digest]
              else && outcome == Asked(sequenceID + 1, cmsg.seqId) && sequenceID == old(sequenceID)
                   && chain == old(chain) && executed == old(executed)
    {
      if cmsg.digest !in requestPool {
        isReply := isReply + {cmsg.digest};
        outcome := Asked(sequenceID + 1, cmsg.seqId);
      } else {
        HandleInCommit(cmsg.digest);
        isReply := isReply + {cmsg.digest};
        sequenceID := sequenceID + 1;
        outcome := Executed;
      }
      pbftStage := 1;
      if nodeId == view {
        sequenceLocked := false;
      }
    }

    /** The commit handler; a leader releases the sequence lock whenever it executes or asks. */
    method HandleCommit(cmsg: PbftMsg) returns (outcome: Outcome)
      requires Valid() && cmsg.Commit? && Ready(Abs(), cmsg) && curChain.RootKnown()
      modifies this`cntPrepareConfirm, this`cntCommitConfirm, this`isReply, this`sequenceID, this`pbftStage
      modifies this`sequenceLocked, this`chain, this`executed
      modifies curChain`triedb, curChain`currentBlock, curChain`storage
      ensures Valid() && (Abs(), outcome) == OnCommit(old(Abs()), cmsg, Quorum(nodeNums))
      ensures forall f: nat :: Tolerates(nodeNums, f) ==>
                (outcome != Counted <==> CommitSuffices(old(Abs()), cmsg, f))
      ensures sequenceLocked == (old(sequenceLocked) && (outcome == Counted || nodeId != view))
    {
      if cmsg.seqId < sequenceID {
        return Counted;
      }
      Set2DMap(false, cmsg.digest, cmsg.sender);
      var cnt := |cntCommitConfirm[cmsg.digest]|;
      if cnt < 2 * maliciousNums + 1 || cmsg.digest in isReply {
        return Counted;
      }
      outcome := CommitReached(cmsg);
    }
  }
}
