/** One shard's consensus within one view, as a step system: nodes running the handlers, one leader, and a network
    that delivers each message at most once to each receiver, in any order, or never. */
module PbftSafety {
  import opened Transactions
  import opened Chains
  import opened Pbfts

  datatype Config = Config(nodeNums: nat, genesis: Block)
  {
    predicate Valid() {
      nodeNums > 0 && genesis.header.number == 0 && WellFormed(genesis)
    }

    function Enough(): nat
      requires Valid()
    {
      Quorum(nodeNums)
    }
  }

  datatype Packet = Packet(to: nat, msg: PbftMsg)

  /** The nodes, of which node 0 leads; everything sent, and what of it was handled; the leader's sequence lock;
      and the leader's proposals in order, a history. */
  datatype System = System(nodes: seq<NodeState>, sent: set<Packet>, handled: set<Packet>, locked: bool,
                           proposals: seq<Block>)

  datatype Step =
    | Propose(b: Block)             // the leader takes the lock and proposes
    | StoreStage(i: nat, v: int)    // the proposer's own, late, Store(2), or a watchdog's Store(1)
    | Handle(p: Packet)             // a node handles a message it no longer waits on

  function Init(c: Config): System {
    System(seq(c.nodeNums, i requires 0 <= i < c.nodeNums =>
                 NodeState(i, 1, 1, map[], map[], map[], map[], {}, {}, [c.genesis], {}, [])),
           {}, {}, false, [])
  }

  /** What GenerateBlock makes on top of the leader's chain. */
  predicate Generated(chain: seq<Block>, b: Block) {
    && chain != [] && WellFormed(b)
    && b.header.number == Tip(chain).header.number + 1 && b.header.parent == Tip(chain).hash
  }

  predicate Enabled(sys: System, step: Step) {
    match step
    case Propose(b) => sys.nodes != [] && !sys.locked && Generated(sys.nodes[0].chain, b)
    case StoreStage(i, v) => i < |sys.nodes| && (v == 1 || (v == 2 && i == 0))
    case Handle(p) => p in sys.sent && p !in sys.handled && p.to < |sys.nodes| && Ready(sys.nodes[p.to], p.msg)
  }

  function ToAll(n: nat, m: PbftMsg): set<Packet> {
    if n == 0 then {} else ToAll(n - 1, m) + {Packet(n - 1, m)}
  }

  function Broadcast(c: Config, m: Option<PbftMsg>): set<Packet> {
    if m.Some? then ToAll(c.nodeNums, m.value) else {}
  }

  function Proposed(n: NodeState, b: Block): NodeState {
    n.(requestPool := n.requestPool[DigestOf(b) := b], height2Digest := n.height2Digest[n.sequenceID := DigestOf(b)])
  }

  /** A node has handled a packet, with a new state and perhaps a broadcast. */
  function Handled(c: Config, sys: System, p: Packet, r: (NodeState, Option<PbftMsg>), locked: bool): System
    requires p.to < |sys.nodes|
  {
    System(sys.nodes[p.to := r.0], sys.sent + Broadcast(c, r.1), sys.handled + {p}, locked, sys.proposals)
  }

  function Next(c: Config, sys: System, step: Step): System
    requires c.Valid() && Enabled(sys, step)
  {
    match step
    case Propose(b) =>
      var n := sys.nodes[0];
      System(sys.nodes[0 := Proposed(n, b)], sys.sent + ToAll(c.nodeNums, PrePrepare(n.sequenceID, DigestOf(b), b)),
             sys.handled, true, sys.proposals + [b])
    case StoreStage(i, v) => sys.(nodes := sys.nodes[i := sys.nodes[i].(stage := v)])
    case Handle(p) =>
      match p.msg
      case PrePrepare(_, _, _) => Handled(c, sys, p, OnPrePrepare(sys.nodes[p.to], p.msg), sys.locked)
      case Prepare(_, _, _) => Handled(c, sys, p, OnPrepare(sys.nodes[p.to], p.msg, c.Enough()), sys.locked)
      case Commit(_, _, _) =>
        var (n, outcome) := OnCommit(sys.nodes[p.to], p.msg, c.Enough());
        Handled(c, sys, p, (n, None), sys.locked && (outcome == Counted || p.to != 0))
  }

  function After(c: Config, sys: System, step: Step): System
    requires c.Valid()
  {
    if Enabled(sys, step) then Next(c, sys, step) else sys
  }

  function Run(c: Config, steps: seq<Step>, n: nat): System
    requires c.Valid() && n <= |steps|
  {
    if n == 0 then Init(c) else After(c, Run(c, steps, n - 1), steps[n - 1])
  }

  // ----- Proposals -----

  function Full(c: Config, proposals: seq<Block>): seq<Block> {
    [c.genesis] + proposals
  }

  /** The proposals have the sequence numbers 1, 2, ... as block numbers and form a chain on genesis. */
  ghost predicate Chained(c: Config, proposals: seq<Block>) {
    forall k :: 0 <= k < |proposals| ==>
      && WellFormed(proposals[k])
      && proposals[k].header.number == k + 1
      && proposals[k].header.parent == Full(c, proposals)[k].hash
  }

  /** The request of the digest is the proposal with that block number. */
  predicate Known(proposals: seq<Block>, d: Digest) {
    1 <= d.request.header.number <= |proposals| && proposals[d.request.header.number - 1] == d.request
  }

  function Number(d: Digest): nat {
    d.request.header.number
  }

  predicate Distinct(votes: seq<nat>) {
    forall i, j :: 0 <= i < j < |votes| ==> votes[i] != votes[j]
  }

  // ----- Invariant -----

  /** A vote list for a digest: distinct senders, each of whose message was handled. */
  predicate PrepareVotes(handled: set<Packet>, to: nat, d: Digest, votes: seq<nat>) {
    Distinct(votes) && forall k :: 0 <= k < |votes| ==> Packet(to, Prepare(Number(d), d, votes[k])) in handled
  }

  predicate CommitVotes(handled: set<Packet>, to: nat, d: Digest, votes: seq<nat>) {
    Distinct(votes) && forall k :: 0 <= k < |votes| ==> Packet(to, Commit(Number(d), d, votes[k])) in handled
  }

  /** A node's chain is a part of the proposals' and not ahead of its sequence number. */
  ghost predicate ChainOk(c: Config, proposals: seq<Block>, n: NodeState) {
    1 <= |n.chain| <= n.sequenceID && |n.chain| <= |proposals| + 1 && n.chain == Full(c, proposals)[..|n.chain|]
  }

  /** A node knows only proposals, and has validated one only with all its predecessors on the chain. */
  ghost predicate KnowsOnly(proposals: seq<Block>, n: NodeState) {
    && (forall d :: d in n.requestPool ==> Known(proposals, d) && n.requestPool[d] == d.request)
    && (forall d :: d in n.validated ==> Known(proposals, d) && Number(d) <= |n.chain|)
    && (forall d :: d in n.isReply ==> Known(proposals, d))
  }

  /** A node executes nothing twice. */
  ghost predicate ExecutesOnce(n: NodeState) {
    && (forall k :: 0 <= k < |n.executed| ==> n.executed[k] in n.isReply)
    && (forall j, k :: 0 <= j < k < |n.executed| ==> n.executed[j] != n.executed[k])
  }

  ghost predicate NodeOk(c: Config, proposals: seq<Block>, n: NodeState, i: nat) {
    n.id == i && ChainOk(c, proposals, n) && KnowsOnly(proposals, n) && ExecutesOnce(n)
  }

  /** And against the votes: it has broadcast a commit only on a quorum of prepares, and executed only on a quorum
      of commits. */
  ghost predicate VotesOk(quorum: nat, handled: set<Packet>, n: NodeState, i: nat) {
    && (forall d :: d in n.prepares ==> PrepareVotes(handled, i, d, n.prepares[d]))
    && (forall d :: d in n.commits ==> CommitVotes(handled, i, d, n.commits[d]))
    && (forall d :: d in n.isCommitBroadcast ==> |Votes(n.prepares, d)| >= quorum)
    && (forall k :: 0 <= k < |n.executed| ==> |Votes(n.commits, n.executed[k])| >= quorum)
  }

  predicate PacketOk(nodes: seq<NodeState>, proposals: seq<Block>, p: Packet) {
    && p.to < |nodes| && Known(proposals, p.msg.digest) && p.msg.seqId == Number(p.msg.digest)
    && (p.msg.PrePrepare? ==> p.msg.digest == DigestOf(p.msg.request))
    && (p.msg.Prepare? ==> p.msg.sender < |nodes| && p.msg.digest in nodes[p.msg.sender].validated)
    && (p.msg.Commit? ==> p.msg.sender < |nodes| && p.msg.digest in nodes[p.msg.sender].isCommitBroadcast)
  }

  /** The leader has executed every proposal but the outstanding one, and there is an outstanding one exactly when
      the lock is held. */
  ghost predicate LeaderOk(n: NodeState, locked: bool, proposals: seq<Block>) {
    && |n.chain| == n.sequenceID
    && |proposals| == (if locked then n.sequenceID else n.sequenceID - 1)
    && (forall k :: 0 <= k < |proposals| ==> DigestOf(proposals[k]) in n.requestPool)
    && (forall d :: d in n.isReply ==> Number(d) < n.sequenceID)
  }

  ghost predicate NodesOk(c: Config, proposals: seq<Block>, nodes: seq<NodeState>) {
    forall i :: 0 <= i < |nodes| ==> NodeOk(c, proposals, nodes[i], i)
  }

  ghost predicate AllVotesOk(quorum: nat, handled: set<Packet>, nodes: seq<NodeState>) {
    forall i :: 0 <= i < |nodes| ==> VotesOk(quorum, handled, nodes[i], i)
  }

  predicate PacketsOk(nodes: seq<NodeState>, proposals: seq<Block>, packets: set<Packet>) {
    forall p :: p in packets ==> PacketOk(nodes, proposals, p)
  }

  ghost predicate Inv(c: Config, sys: System)
    requires c.Valid()
  {
    && |sys.nodes| == c.nodeNums
    && Chained(c, sys.proposals)
    && NodesOk(c, sys.proposals, sys.nodes)
    && AllVotesOk(c.Enough(), sys.handled, sys.nodes)
    && PacketsOk(sys.nodes, sys.proposals, sys.sent)
    && sys.handled <= sys.sent
    && LeaderOk(sys.nodes[0], sys.locked, sys.proposals)
  }

  // ----- One node changes -----

  lemma VotesUpdated(quorum: nat, handled: set<Packet>, nodes: seq<NodeState>, i: nat, n: NodeState, p: Packet)
    requires AllVotesOk(quorum, handled, nodes) && i < |nodes| && VotesOk(quorum, handled + {p}, n, i)
    ensures AllVotesOk(quorum, handled + {p}, nodes[i := n])
  {
  }

  lemma VotesStay(quorum: nat, handled: set<Packet>, more: set<Packet>, n: NodeState, i: nat)
    requires VotesOk(quorum, handled, n, i) && handled <= more
    ensures VotesOk(quorum, more, n, i)
  {
  }

  lemma PacketsUpdated(nodes: seq<NodeState>, proposals: seq<Block>, sent: set<Packet>, i: nat, n: NodeState,
                       out: set<Packet>)
    requires PacketsOk(nodes, proposals, sent) && i < |nodes|
    requires nodes[i].validated <= n.validated && nodes[i].isCommitBroadcast <= n.isCommitBroadcast
    requires PacketsOk(nodes[i := n], proposals, out)
    ensures PacketsOk(nodes[i := n], proposals, sent + out)
  {
  }

  /** A node changes, sends, and has handled a message. */
  lemma UpdatedInv(c: Config, sys: System, i: nat, n: NodeState, out: set<Packet>, p: Packet, locked: bool)
    requires c.Valid() && Inv(c, sys) && i < |sys.nodes| && p in sys.sent
    requires NodeOk(c, sys.proposals, n, i) && VotesOk(c.Enough(), sys.handled + {p}, n, i)
    requires sys.nodes[i].validated <= n.validated && sys.nodes[i].isCommitBroadcast <= n.isCommitBroadcast
    requires PacketsOk(sys.nodes[i := n], sys.proposals, out)
    requires if i == 0 then LeaderOk(n, locked, sys.proposals) else locked == sys.locked
    ensures Inv(c, System(sys.nodes[i := n], sys.sent + out, sys.handled + {p}, locked, sys.proposals))
  {
    VotesUpdated(c.Enough(), sys.handled, sys.nodes, i, n, p);
    PacketsUpdated(sys.nodes, sys.proposals, sys.sent, i, n, out);
  }

  lemma {:induction false} ToAllMembers(n: nat, m: PbftMsg)
    ensures forall p :: p in ToAll(n, m) <==> p.msg == m && p.to < n
  {
    if n > 0 {
      ToAllMembers(n - 1, m);
    }
  }

  /** The blocks of the full chain have the heights 0, 1, ..., so a parent hash tells the place. */
  lemma PlaceOfParent(c: Config, proposals: seq<Block>, d: Digest, k: nat)
    requires c.Valid() && Chained(c, proposals) && Known(proposals, d) && k <= |proposals|
    requires d.request.header.parent == Full(c, proposals)[k].hash
    ensures Number(d) == k + 1
  {
  }

  // ----- Pre-prepare -----

  lemma PrePrepareNode(c: Config, proposals: seq<Block>, n: NodeState, i: nat, m: PbftMsg)
    requires c.Valid() && Chained(c, proposals) && NodeOk(c, proposals, n, i)
    requires m.PrePrepare? && Known(proposals, m.digest) && m.digest == DigestOf(m.request)
    ensures NodeOk(c, proposals, OnPrePrepare(n, m).0, i)
  {
    if OnPrePrepare(n, m).1.Some? {
      PlaceOfParent(c, proposals, m.digest, |n.chain| - 1);
    }
  }

  /** A broadcast is in order if one packet of it is. */
  lemma BroadcastOk(c: Config, nodes: seq<NodeState>, proposals: seq<Block>, m: PbftMsg)
    requires |nodes| == c.nodeNums && Known(proposals, m.digest) && m.seqId == Number(m.digest) && !m.PrePrepare?
    requires m.sender < |nodes|
    requires m.digest in if m.Prepare? then nodes[m.sender].validated else nodes[m.sender].isCommitBroadcast
    ensures PacketsOk(nodes, proposals, Broadcast(c, Some(m)))
  {
    ToAllMembers(c.nodeNums, m);
  }

  /** What a handler leaves gives the invariant of the system. */
  lemma HandledInv(c: Config, sys: System, p: Packet, r: (NodeState, Option<PbftMsg>), locked: bool)
    requires c.Valid() && Inv(c, sys) && p in sys.sent && p.to < |sys.nodes|
    requires NodeOk(c, sys.proposals, r.0, p.to) && VotesOk(c.Enough(), sys.handled + {p}, r.0, p.to)
    requires sys.nodes[p.to].validated <= r.0.validated && sys.nodes[p.to].isCommitBroadcast <= r.0.isCommitBroadcast
    requires r.1.Some? ==> PacketsOk(sys.nodes[p.to := r.0], sys.proposals, Broadcast(c, r.1))
    requires if p.to == 0 then LeaderOk(r.0, locked, sys.proposals) else locked == sys.locked
    ensures Inv(c, Handled(c, sys, p, r, locked))
  {
    UpdatedInv(c, sys, p.to, r.0, Broadcast(c, r.1), p, locked);
  }

  /** What the invariant says about a packet and its receiver. */
  lemma Receiver(c: Config, sys: System, p: Packet)
    requires c.Valid() && Inv(c, sys) && p in sys.sent
    ensures PacketOk(sys.nodes, sys.proposals, p) && NodeOk(c, sys.proposals, sys.nodes[p.to], p.to)
    ensures VotesOk(c.Enough(), sys.handled, sys.nodes[p.to], p.to) && Chained(c, sys.proposals)
    ensures p.to == 0 ==> LeaderOk(sys.nodes[0], sys.locked, sys.proposals)
  {
  }

  /** A pre-prepare message changes no votes and no chain. */
  lemma PrePrepareFrame(c: Config, n: NodeState, i: nat, m: PbftMsg, quorum: nat, handled: set<Packet>, p: Packet)
    requires m.PrePrepare? && n.id == i && VotesOk(quorum, handled, n, i)
    ensures var (n', out) := OnPrePrepare(n, m);
            && VotesOk(quorum, handled + {p}, n', i) && n.validated <= n'.validated
            && n.isCommitBroadcast == n'.isCommitBroadcast
            && n'.chain == n.chain && n'.sequenceID == n.sequenceID && n'.isReply == n.isReply
            && (forall d :: d in n.requestPool ==> d in n'.requestPool)
            && (out.Some? ==> out.value == Prepare(m.seqId, m.digest, i) && m.digest in n'.validated)
  {
  }

  lemma PrePrepareInv(c: Config, sys: System, p: Packet)
    requires c.Valid() && Inv(c, sys) && p in sys.sent && p.to < |sys.nodes| && p.msg.PrePrepare?
    ensures Inv(c, Handled(c, sys, p, OnPrePrepare(sys.nodes[p.to], p.msg), sys.locked))
  {
    Receiver(c, sys, p);
    var n := sys.nodes[p.to];
    var r := OnPrePrepare(n, p.msg);
    PrePrepareNode(c, sys.proposals, n, p.to, p.msg);
    PrePrepareFrame(c, n, p.to, p.msg, c.Enough(), sys.handled, p);
    if r.1.Some? {
      BroadcastOk(c, sys.nodes[p.to := r.0], sys.proposals, r.1.value);
    }
    HandledInv(c, sys, p, r, sys.locked);
  }

  // ----- Prepare -----

  /** A message that was not handled before is a vote of somebody new. */
  lemma NewPrepare(handled: set<Packet>, p: Packet, votes: seq<nat>)
    requires p.msg.Prepare? && p.msg.seqId == Number(p.msg.digest) && p !in handled
    requires PrepareVotes(handled, p.to, p.msg.digest, votes)
    ensures PrepareVotes(handled + {p}, p.to, p.msg.digest, votes + [p.msg.sender])
  {
  }

  lemma PrepareVoted(quorum: nat, handled: set<Packet>, n: NodeState, i: nat, p: Packet)
    requires VotesOk(quorum, handled, n, i) && p !in handled && p.to == i
    requires p.msg.Prepare? && p.msg.seqId == Number(p.msg.digest)
    ensures VotesOk(quorum, handled + {p}, OnPrepare(n, p.msg, quorum).0, i)
  {
    VotesStay(quorum, handled, handled + {p}, n, i);
    NewPrepare(handled, p, Votes(n.prepares, p.msg.digest));
  }

  /** A prepare message changes votes only. */
  lemma PrepareFrame(c: Config, proposals: seq<Block>, n: NodeState, i: nat, m: PbftMsg, quorum: nat, locked: bool)
    requires m.Prepare? && NodeOk(c, proposals, n, i)
    ensures var (n', out) := OnPrepare(n, m, quorum);
            && NodeOk(c, proposals, n', i) && n'.validated == n.validated && n.isCommitBroadcast <= n'.isCommitBroadcast
            && (LeaderOk(n, locked, proposals) ==> LeaderOk(n', locked, proposals))
            && (out.Some? ==> out.value == Commit(m.seqId, m.digest, i) && m.digest in n'.isCommitBroadcast)
  {
  }

  lemma PrepareInv(c: Config, sys: System, p: Packet)
    requires c.Valid() && Inv(c, sys) && p in sys.sent && p !in sys.handled && p.to < |sys.nodes| && p.msg.Prepare?
    ensures Inv(c, Handled(c, sys, p, OnPrepare(sys.nodes[p.to], p.msg, c.Enough()), sys.locked))
  {
    Receiver(c, sys, p);
    var n := sys.nodes[p.to];
    var r := OnPrepare(n, p.msg, c.Enough());
    PrepareVoted(c.Enough(), sys.handled, n, p.to, p);
    PrepareFrame(c, sys.proposals, n, p.to, p.msg, c.Enough(), sys.locked);
    if r.1.Some? {
      BroadcastOk(c, sys.nodes[p.to := r.0], sys.proposals, r.1.value);
    }
    HandledInv(c, sys, p, r, sys.locked);
  }

  // ----- Commit -----

  lemma NewCommit(handled: set<Packet>, p: Packet, votes: seq<nat>)
    requires p.msg.Commit? && p.msg.seqId == Number(p.msg.digest) && p !in handled
    requires CommitVotes(handled, p.to, p.msg.digest, votes)
    ensures CommitVotes(handled + {p}, p.to, p.msg.digest, votes + [p.msg.sender])
  {
  }

  lemma CommitVoted(quorum: nat, handled: set<Packet>, n: NodeState, i: nat, p: Packet)
    requires VotesOk(quorum, handled, n, i) && p !in handled && p.to == i
    requires p.msg.Commit? && p.msg.seqId == Number(p.msg.digest)
    ensures VotesOk(quorum, handled + {p}, OnCommit(n, p.msg, quorum).0, i)
  {
    VotesStay(quorum, handled, handled + {p}, n, i);
    if p.msg.seqId >= n.sequenceID {
      OneMoreCommit(quorum, handled, n, i, p);
    }
  }

  /** The commit table with one more vote. */
  lemma OneMoreCommit(quorum: nat, handled: set<Packet>, n: NodeState, i: nat, p: Packet)
    requires VotesOk(quorum, handled, n, i) && p !in handled && p.to == i
    requires p.msg.Commit? && p.msg.seqId == Number(p.msg.digest)
    ensures var d := p.msg.digest;
            VotesOk(quorum, handled + {p}, n.(commits := n.commits[d := Votes(n.commits, d) + [p.msg.sender]]), i)
  {
    VotesStay(quorum, handled, handled + {p}, n, i);
    NewCommit(handled, p, Votes(n.commits, p.msg.digest));
  }

  /** A block goes on the chain exactly when it is the next one; whatever a lagging node executes early is
      refused. */
  lemma ExtendedByNext(c: Config, proposals: seq<Block>, chain: seq<Block>, d: Digest)
    requires c.Valid() && Chained(c, proposals) && Known(proposals, d)
    requires 1 <= |chain| <= |proposals| + 1 && chain == Full(c, proposals)[..|chain|]
    ensures Extended(chain, d.request)
         == if Number(d) == |chain| then Full(c, proposals)[..|chain| + 1] else chain
  {
    var k := |chain| - 1;
    assert Tip(chain) == Full(c, proposals)[k] && Tip(chain).header.number == k;
    if Number(d) == |chain| {
      assert d.request == proposals[k] == Full(c, proposals)[k + 1];
    }
  }

  lemma CommitNode(c: Config, proposals: seq<Block>, n: NodeState, i: nat, m: PbftMsg, quorum: nat)
    requires c.Valid() && Chained(c, proposals) && NodeOk(c, proposals, n, i) && m.Commit? && Known(proposals, m.digest)
    requires m.seqId == Number(m.digest)
    ensures NodeOk(c, proposals, OnCommit(n, m, quorum).0, i)
  {
    CommitChain(c, proposals, n, m, quorum);
    CommitKnows(proposals, n, m, quorum);
    CommitOnce(n, m, quorum);
  }

  /** Either nothing is executed, or the request is, and the sequence number moves on. */
  lemma CommitShape(n: NodeState, m: PbftMsg, quorum: nat)
    requires m.Commit?
    ensures var next := OnCommit(n, m, quorum).0;
            || (next.chain == n.chain && next.sequenceID == n.sequenceID)
            || (m.digest in n.requestPool && next.chain == Extended(n.chain, n.requestPool[m.digest])
                && next.sequenceID == n.sequenceID + 1)
  {
  }

  lemma CommitChain(c: Config, proposals: seq<Block>, n: NodeState, m: PbftMsg, quorum: nat)
    requires c.Valid() && Chained(c, proposals) && ChainOk(c, proposals, n) && KnowsOnly(proposals, n)
    requires m.Commit? && Known(proposals, m.digest)
    ensures ChainOk(c, proposals, OnCommit(n, m, quorum).0) && |n.chain| <= |OnCommit(n, m, quorum).0.chain|
  {
    CommitShape(n, m, quorum);
    ExtendedByNext(c, proposals, n.chain, m.digest);
  }

  lemma CommitKnows(proposals: seq<Block>, n: NodeState, m: PbftMsg, quorum: nat)
    requires KnowsOnly(proposals, n) && m.Commit? && Known(proposals, m.digest)
    requires |n.chain| <= |OnCommit(n, m, quorum).0.chain|
    ensures KnowsOnly(proposals, OnCommit(n, m, quorum).0)
  {
  }

  lemma CommitOnce(n: NodeState, m: PbftMsg, quorum: nat)
    requires ExecutesOnce(n) && m.Commit?
    ensures ExecutesOnce(OnCommit(n, m, quorum).0)
  {
  }

  /** The leader executes only its outstanding proposal, with the lock held, and its own chain takes it. */
  lemma CommitLeader(c: Config, proposals: seq<Block>, n: NodeState, m: PbftMsg, quorum: nat, locked: bool)
    requires c.Valid() && Chained(c, proposals) && NodeOk(c, proposals, n, 0) && LeaderOk(n, locked, proposals)
    requires m.Commit? && Known(proposals, m.digest) && m.seqId == Number(m.digest)
    ensures var (n', outcome) := OnCommit(n, m, quorum);
            && LeaderOk(n', locked && outcome == Counted, proposals)
            && (outcome != Counted ==> outcome == Executed && locked)
  {
    ExtendedByNext(c, proposals, n.chain, m.digest);
    assert m.digest == DigestOf(proposals[Number(m.digest) - 1]);
  }

  lemma CommitFrame(n: NodeState, m: PbftMsg, quorum: nat)
    requires m.Commit?
    ensures var next := OnCommit(n, m, quorum).0;
            next.id == n.id && next.validated == n.validated && next.isCommitBroadcast == n.isCommitBroadcast
  {
  }

  lemma CommitInv(c: Config, sys: System, p: Packet)
    requires c.Valid() && Inv(c, sys) && p in sys.sent && p !in sys.handled && p.to < |sys.nodes| && p.msg.Commit?
    ensures var (n, outcome) := OnCommit(sys.nodes[p.to], p.msg, c.Enough());
            Inv(c, Handled(c, sys, p, (n, None), sys.locked && (outcome == Counted || p.to != 0)))
  {
    Receiver(c, sys, p);
    var n := sys.nodes[p.to];
    CommitVoted(c.Enough(), sys.handled, n, p.to, p);
    CommitNode(c, sys.proposals, n, p.to, p.msg, c.Enough());
    CommitFrame(n, p.msg, c.Enough());
    if p.to == 0 {
      CommitLeader(c, sys.proposals, n, p.msg, c.Enough(), sys.locked);
    }
    var (n', outcome) := OnCommit(n, p.msg, c.Enough());
    HandledInv(c, sys, p, (n', None), sys.locked && (outcome == Counted || p.to != 0));
  }

  // ----- The other steps -----

  lemma StoreStageInv(c: Config, sys: System, i: nat, v: int)
    requires c.Valid() && Inv(c, sys) && Enabled(sys, StoreStage(i, v))
    ensures Inv(c, Next(c, sys, StoreStage(i, v)))
  {
    var n := sys.nodes[i].(stage := v);
    StageKeeps(c, sys, i, v);
    PacketsUpdated(sys.nodes, sys.proposals, sys.sent, i, n, {});
    assert sys.sent + {} == sys.sent;
  }

  /** No node's invariant speaks of its stage. */
  lemma StageKeeps(c: Config, sys: System, i: nat, v: int)
    requires c.Valid() && Inv(c, sys) && i < |sys.nodes|
    ensures var nodes := sys.nodes[i := sys.nodes[i].(stage := v)];
            NodesOk(c, sys.proposals, nodes) && AllVotesOk(c.Enough(), sys.handled, nodes)
  {
    assert NodeOk(c, sys.proposals, sys.nodes[i], i) && VotesOk(c.Enough(), sys.handled, sys.nodes[i], i);
  }

  lemma KnownStays(x: seq<Block>, y: seq<Block>, d: Digest)
    requires x <= y && Known(x, d)
    ensures Known(y, d)
  {
  }

  lemma NodeStays(c: Config, x: seq<Block>, y: seq<Block>, n: NodeState, i: nat)
    requires NodeOk(c, x, n, i) && x <= y
    ensures NodeOk(c, y, n, i)
  {
  }

  lemma ProposeChained(c: Config, proposals: seq<Block>, chain: seq<Block>, b: Block)
    requires c.Valid() && Chained(c, proposals) && chain == Full(c, proposals) && Generated(chain, b)
    ensures Chained(c, proposals + [b]) && b.header.number == |proposals| + 1
  {
  }

  lemma ProposeLeader(c: Config, proposals: seq<Block>, n: NodeState, b: Block)
    requires NodeOk(c, proposals, n, 0) && LeaderOk(n, false, proposals) && b.header.number == n.sequenceID
    ensures Known(proposals + [b], DigestOf(b))
    ensures NodeOk(c, proposals + [b], Proposed(n, b), 0) && LeaderOk(Proposed(n, b), true, proposals + [b])
  {
  }

  lemma ProposePackets(c: Config, sys: System, b: Block)
    requires c.Valid() && Inv(c, sys) && Enabled(sys, Propose(b)) && Known(sys.proposals + [b], DigestOf(b))
    requires b.header.number == sys.nodes[0].sequenceID
    ensures PacketsOk(Next(c, sys, Propose(b)).nodes, sys.proposals + [b], Next(c, sys, Propose(b)).sent)
  {
    var next := Next(c, sys, Propose(b));
    ToAllMembers(c.nodeNums, PrePrepare(sys.nodes[0].sequenceID, DigestOf(b), b));
    forall p | p in next.sent
      ensures PacketOk(next.nodes, sys.proposals + [b], p)
    {
      if p in sys.sent {
        assert PacketOk(sys.nodes, sys.proposals, p);
        KnownStays(sys.proposals, sys.proposals + [b], p.msg.digest);
      }
    }
  }

  lemma ProposeInv(c: Config, sys: System, b: Block)
    requires c.Valid() && Inv(c, sys) && Enabled(sys, Propose(b))
    ensures Inv(c, Next(c, sys, Propose(b)))
  {
    var next := Next(c, sys, Propose(b));
    var n := sys.nodes[0];
    assert NodeOk(c, sys.proposals, n, 0) && n.chain == Full(c, sys.proposals);
    ProposeChained(c, sys.proposals, n.chain, b);
    ProposeLeader(c, sys.proposals, n, b);
    ProposePackets(c, sys, b);
    forall i | 0 <= i < |next.nodes|
      ensures NodeOk(c, next.proposals, next.nodes[i], i) && VotesOk(c.Enough(), next.handled, next.nodes[i], i)
    {
      if i > 0 {
        NodeStays(c, sys.proposals, next.proposals, sys.nodes[i], i);
      }
      assert VotesOk(c.Enough(), sys.handled, sys.nodes[i], i);
    }
  }

  lemma AfterInv(c: Config, sys: System, step: Step)
    requires c.Valid() && Inv(c, sys)
    ensures Inv(c, After(c, sys, step))
  {
    if Enabled(sys, step) {
      match step
      case Propose(b) => ProposeInv(c, sys, b);
      case StoreStage(i, v) => StoreStageInv(c, sys, i, v);
      case Handle(p) =>
        match p.msg
        case PrePrepare(_, _, _) => PrePrepareInv(c, sys, p);
        case Prepare(_, _, _) => PrepareInv(c, sys, p);
        case Commit(_, _, _) => CommitInv(c, sys, p);
    }
  }

  lemma {:induction false} RunInv(c: Config, steps: seq<Step>, n: nat)
    requires c.Valid() && n <= |steps|
    ensures Inv(c, Run(c, steps, n))
  {
    if n > 0 {
      RunInv(c, steps, n - 1);
      AfterInv(c, Run(c, steps, n - 1), steps[n - 1]);
    } else {
      assert [c.genesis] == Full(c, [])[..1];
    }
  }
}
