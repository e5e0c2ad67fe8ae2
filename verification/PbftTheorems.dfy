/** What every run of one view guarantees: agreement of the chains, execution at most once, the leader's one
    outstanding proposal, and exactly when a node falls behind for good. */
module PbftTheorems {
  import opened Chains
  import opened Pbfts
  import opened PbftSafety

  /** Any two nodes' chains agree as far as both go, whatever the network does and however far a node lags. */
  lemma PrefixComparable(c: Config, steps: seq<Step>, n: nat, i: nat, j: nat)
    requires c.Valid() && n <= |steps| && i < c.nodeNums && j < c.nodeNums
    ensures var nodes := Run(c, steps, n).nodes;
            && |nodes| == c.nodeNums
            && (nodes[i].chain <= nodes[j].chain || nodes[j].chain <= nodes[i].chain)
  {
    RunInv(c, steps, n);
    var sys := Run(c, steps, n);
    assert NodeOk(c, sys.proposals, sys.nodes[i], i) && NodeOk(c, sys.proposals, sys.nodes[j], j);
  }

  /** No node executes a digest twice. */
  lemma ExecutesEachOnce(c: Config, steps: seq<Step>, n: nat, i: nat)
    requires c.Valid() && n <= |steps| && i < c.nodeNums
    ensures var nodes := Run(c, steps, n).nodes;
            && |nodes| == c.nodeNums
            && forall j, k :: 0 <= j < k < |nodes[i].executed| ==> nodes[i].executed[j] != nodes[i].executed[k]
  {
    RunInv(c, steps, n);
    var sys := Run(c, steps, n);
    assert NodeOk(c, sys.proposals, sys.nodes[i], i);
  }

  // ----- Why each message must be handled at most once -----

  /** A node that is given the same commit message k times. */
  function Repeated(n: NodeState, m: PbftMsg, quorum: nat, k: nat): NodeState
    requires m.Commit?
  {
    if k == 0 then n else OnCommit(Repeated(n, m, quorum, k - 1), m, quorum).0
  }

  /** Votes are counted per received message: one sender repeating itself makes a quorum. */
  lemma {:induction false} RepeatsMakeQuorum(n: NodeState, m: PbftMsg, quorum: nat, k: nat)
    requires m.Commit? && m.seqId >= n.sequenceID && m.digest in n.requestPool && m.digest !in n.isReply
    requires Votes(n.commits, m.digest) == [] && k <= quorum && quorum > 0
    ensures var last := Repeated(n, m, quorum, k);
            && |Votes(last.commits, m.digest)| == k
            && (if k < quorum then last == n.(commits := last.commits) else last.executed == n.executed + [m.digest])
  {
    if k > 0 {
      RepeatsMakeQuorum(n, m, quorum, k - 1);
    }
  }

  // ----- The sequence lock -----

  /** The lock is held exactly while one proposal is outstanding: the leader's chain holds every proposal, but the
      last one when the lock is held. */
  lemma LockedWhileOutstanding(c: Config, steps: seq<Step>, n: nat)
    requires c.Valid() && n <= |steps|
    ensures var sys := Run(c, steps, n);
            && sys.nodes != [] && (sys.locked ==> sys.proposals != [])
            && sys.nodes[0].chain
               == Full(c, sys.proposals)[..if sys.locked then |sys.proposals| else |sys.proposals| + 1]
  {
    RunInv(c, steps, n);
    var sys := Run(c, steps, n);
    assert NodeOk(c, sys.proposals, sys.nodes[0], 0);
  }

  /** A commit message on which the leader releases the lock finds the lock held. */
  lemma NeverUnlockedFree(c: Config, steps: seq<Step>, n: nat, p: Packet)
    requires c.Valid() && n <= |steps| && p.to == 0 && p.msg.Commit? && Enabled(Run(c, steps, n), Handle(p))
    ensures var sys := Run(c, steps, n);
            OnCommit(sys.nodes[0], p.msg, c.Enough()).1 != Counted ==> sys.locked && !Next(c, sys, Handle(p)).locked
  {
    RunInv(c, steps, n);
    var sys := Run(c, steps, n);
    Receiver(c, sys, p);
    CommitLeader(c, sys.proposals, sys.nodes[0], p.msg, c.Enough(), sys.locked);
  }

  lemma SameNumber(proposals: seq<Block>, d: Digest, e: Digest)
    requires Known(proposals, d) && Known(proposals, e) && Number(d) == Number(e)
    ensures d == e
  {
  }

  /** No two proposals share a sequence number. */
  lemma OneProposalPerNumber(c: Config, steps: seq<Step>, n: nat, p: Packet, q: Packet)
    requires c.Valid() && n <= |steps| && p in Run(c, steps, n).sent && q in Run(c, steps, n).sent
    requires p.msg.PrePrepare? && q.msg.PrePrepare? && p.msg.seqId == q.msg.seqId
    ensures p.msg == q.msg
  {
    RunInv(c, steps, n);
    var sys := Run(c, steps, n);
    assert PacketOk(sys.nodes, sys.proposals, p) && PacketOk(sys.nodes, sys.proposals, q);
    SameNumber(sys.proposals, p.msg.digest, q.msg.digest);
  }

  // ----- Falling behind -----

  /** The node's next block is the one it waits for. */
  predicate InStep(n: NodeState) {
    |n.chain| == n.sequenceID
  }

  /** A node in step that executes a request stays in step exactly when the commit carries its own sequence number:
      the guard lets a later commit through, whose block the chain refuses while the sequence number moves on. */
  lemma StaysInStep(c: Config, proposals: seq<Block>, n: NodeState, m: PbftMsg)
    requires c.Valid() && Chained(c, proposals) && ChainOk(c, proposals, n) && KnowsOnly(proposals, n) && InStep(n)
    requires m.Commit? && Known(proposals, m.digest) && m.seqId == Number(m.digest)
    requires OnCommit(n, m, c.Enough()).1 == Executed
    ensures InStep(OnCommit(n, m, c.Enough()).0) <==> m.seqId == n.sequenceID
    ensures m.seqId != n.sequenceID ==> OnCommit(n, m, c.Enough()).0.chain == n.chain
  {
    ExtendedByNext(c, proposals, n.chain, m.digest);
    assert OnCommit(n, m, c.Enough()).0.chain == Extended(n.chain, m.digest.request);
    assert OnCommit(n, m, c.Enough()).0.sequenceID == n.sequenceID + 1;
  }

  /** A node out of step never adds a block again. */
  lemma CommitOutOfStep(c: Config, proposals: seq<Block>, n: NodeState, m: PbftMsg, quorum: nat)
    requires c.Valid() && Chained(c, proposals) && ChainOk(c, proposals, n) && KnowsOnly(proposals, n) && !InStep(n)
    requires m.Commit? && Known(proposals, m.digest) && m.seqId == Number(m.digest)
    ensures OnCommit(n, m, quorum).0.chain == n.chain && !InStep(OnCommit(n, m, quorum).0)
  {
  }

  /** The other messages change neither chain nor sequence number. */
  lemma ElsewhereUnchanged(c: Config, sys: System, step: Step, i: nat)
    requires c.Valid() && Enabled(sys, step) && i < |sys.nodes|
    requires !(step.Handle? && step.p.to == i && step.p.msg.Commit?)
    ensures i < |Next(c, sys, step).nodes|
    ensures Next(c, sys, step).nodes[i].chain == sys.nodes[i].chain
    ensures Next(c, sys, step).nodes[i].sequenceID == sys.nodes[i].sequenceID
  {
  }

  lemma OutOfStep(c: Config, sys: System, step: Step, i: nat)
    requires c.Valid() && Inv(c, sys) && i < |sys.nodes| && !InStep(sys.nodes[i])
    ensures i < |After(c, sys, step).nodes|
    ensures After(c, sys, step).nodes[i].chain == sys.nodes[i].chain && !InStep(After(c, sys, step).nodes[i])
  {
    if Enabled(sys, step) {
      if step.Handle? && step.p.to == i && step.p.msg.Commit? {
        Receiver(c, sys, step.p);
        CommitOutOfStep(c, sys.proposals, sys.nodes[i], step.p.msg, c.Enough());
      } else {
        ElsewhereUnchanged(c, sys, step, i);
      }
    }
  }

  lemma {:induction false} StalledForGood(c: Config, steps: seq<Step>, m: nat, n: nat, i: nat)
    requires c.Valid() && m <= n <= |steps| && i < |Run(c, steps, m).nodes| && !InStep(Run(c, steps, m).nodes[i])
    ensures i < |Run(c, steps, n).nodes| && !InStep(Run(c, steps, n).nodes[i])
    ensures Run(c, steps, n).nodes[i].chain == Run(c, steps, m).nodes[i].chain
  {
    if m < n {
      StalledForGood(c, steps, m, n - 1, i);
      RunInv(c, steps, n - 1);
      OutOfStep(c, Run(c, steps, n - 1), steps[n - 1], i);
    }
  }

  // ----- A run that leaves a node behind -----

  /** An empty block on top of another. */
  function EmptyOn(parent: Block): (b: Block)
    ensures WellFormed(b)
  {
    var header := Header(parent.hash, parent.header.stateRoot, {}, {}, parent.header.number + 1, 0, 0);
    Block(header, [], HashOf(header))
  }

  /** The packets the leader sends about a block, in its three phases. */
  function PreparePacket(to: nat, b: Block): Packet {
    Packet(to, Prepare(b.header.number, DigestOf(b), 0))
  }

  function PrePreparePacket(to: nat, b: Block): Packet {
    Packet(to, PrePrepare(b.header.number, DigestOf(b), b))
  }

  function CommitPacket(to: nat, b: Block): Packet {
    Packet(to, Commit(b.header.number, DigestOf(b), 0))
  }

  /** The leader of two nodes, for which one vote is a quorum, executes b1 and gets as far as committing to b2,
      all with its own votes. Then the other node hears of b1, stores b2, and is given the commit of b2. */
  function Overhasty(b1: Block, b2: Block): seq<Step> {
    [Propose(b1), Handle(PrePreparePacket(0, b1)), Handle(PreparePacket(0, b1)), Handle(CommitPacket(0, b1)),
     Propose(b2), Handle(PrePreparePacket(0, b2)), Handle(PreparePacket(0, b2)),
     Handle(PrePreparePacket(1, b1)), Handle(PreparePacket(1, b1)), Handle(PrePreparePacket(1, b2)),
     Handle(CommitPacket(1, b2))]
  }

  /** A leader without an outstanding proposal proposes b and commits to it on its own votes. */
  lemma LeaderCommits(c: Config, sys: System, b: Block, steps: seq<Step>, n: nat)
    requires c.Valid() && c.nodeNums == 2 && n + 3 <= |steps| && Run(c, steps, n) == sys
    requires |sys.nodes| == 2 && !sys.locked && sys.nodes[0].id == 0 && Generated(sys.nodes[0].chain, b)
    requires sys.nodes[0].sequenceID == b.header.number && sys.nodes[0].stage == 1
    requires DigestOf(b) !in sys.nodes[0].prepares && DigestOf(b) !in sys.nodes[0].isCommitBroadcast
    requires forall p :: p in sys.handled ==> p.msg.digest != DigestOf(b)
    requires steps[n] == Propose(b) && steps[n + 1] == Handle(PrePreparePacket(0, b))
    requires steps[n + 2] == Handle(PreparePacket(0, b))
    ensures var now := Run(c, steps, n + 3);
            && |now.nodes| == 2 && now.nodes[1] == sys.nodes[1] && now.locked && now.proposals == sys.proposals + [b]
            && now.nodes[0].stage == 3 && now.nodes[0].chain == sys.nodes[0].chain && now.nodes[0].id == 0
            && now.nodes[0].sequenceID == sys.nodes[0].sequenceID && DigestOf(b) in now.nodes[0].requestPool
            && now.nodes[0].requestPool[DigestOf(b)] == b
            && now.nodes[0].commits == sys.nodes[0].commits && now.nodes[0].isReply == sys.nodes[0].isReply
            && now.nodes[0].prepares.Keys == sys.nodes[0].prepares.Keys + {DigestOf(b)}
            && now.nodes[0].isCommitBroadcast == sys.nodes[0].isCommitBroadcast + {DigestOf(b)}
            && now.handled == sys.handled + {PrePreparePacket(0, b), PreparePacket(0, b)} && sys.sent <= now.sent
            && (forall to: nat :: to < 2 ==> PrePreparePacket(to, b) in now.sent && PreparePacket(to, b) in now.sent
                                             && CommitPacket(to, b) in now.sent)
  {
    var d, k := DigestOf(b), b.header.number;
    ToAllMembers(2, PrePrepare(k, d, b));
    ToAllMembers(2, Prepare(k, d, 0));
    ToAllMembers(2, Commit(k, d, 0));
    var s1 := Run(c, steps, n + 1);
    assert s1 == Next(c, sys, Propose(b));
    var s2 := Run(c, steps, n + 2);
    assert s2 == Next(c, s1, steps[n + 1]);
    assert Run(c, steps, n + 3) == Next(c, s2, steps[n + 2]);
  }

  /** The leader handles its own commit. */
  lemma LeaderExecutes(c: Config, sys: System, b: Block, steps: seq<Step>, n: nat)
    requires c.Valid() && c.nodeNums == 2 && n < |steps| && Run(c, steps, n) == sys && |sys.nodes| == 2
    requires steps[n] == Handle(CommitPacket(0, b)) && CommitPacket(0, b) in sys.sent
    requires CommitPacket(0, b) !in sys.handled
    requires sys.nodes[0].stage == 3 && sys.nodes[0].sequenceID == b.header.number && sys.nodes[0].commits == map[]
    requires sys.nodes[0].isReply == {} && Generated(sys.nodes[0].chain, b)
    requires DigestOf(b) in sys.nodes[0].requestPool && sys.nodes[0].requestPool[DigestOf(b)] == b
    ensures var now := Run(c, steps, n + 1);
            && now.nodes == sys.nodes[0 := now.nodes[0]] && !now.locked && now.proposals == sys.proposals
            && now.nodes[0].stage == 1 && now.nodes[0].chain == sys.nodes[0].chain + [b]
            && now.nodes[0].sequenceID == b.header.number + 1 && now.nodes[0].id == sys.nodes[0].id
            && now.nodes[0].prepares == sys.nodes[0].prepares
            && now.nodes[0].isCommitBroadcast == sys.nodes[0].isCommitBroadcast
            && now.handled == sys.handled + {CommitPacket(0, b)} && now.sent == sys.sent
  {
    assert Run(c, steps, n + 1) == Next(c, sys, steps[n]);
  }

  /** The leader after the first four steps. */
  lemma LeaderAfterOne(c: Config, b1: Block, steps: seq<Step>)
    requires c.Valid() && c.nodeNums == 2 && b1 == EmptyOn(c.genesis)
    requires 4 <= |steps| && steps[0] == Propose(b1) && steps[1] == Handle(PrePreparePacket(0, b1))
    requires steps[2] == Handle(PreparePacket(0, b1)) && steps[3] == Handle(CommitPacket(0, b1))
    ensures var sys := Run(c, steps, 4);
            && |sys.nodes| == 2 && sys.nodes[1] == Init(c).nodes[1] && !sys.locked && sys.proposals == [b1]
            && sys.nodes[0].id == 0 && sys.nodes[0].stage == 1 && sys.nodes[0].chain == [c.genesis, b1]
            && sys.nodes[0].sequenceID == 2
            && sys.nodes[0].prepares.Keys == {DigestOf(b1)} && sys.nodes[0].isCommitBroadcast == {DigestOf(b1)}
            && (forall p :: p in sys.handled ==> p.to == 0 && p.msg.digest == DigestOf(b1))
            && PrePreparePacket(1, b1) in sys.sent && PreparePacket(1, b1) in sys.sent
  {
    LeaderCommits(c, Init(c), b1, steps, 0);
    LeaderExecutes(c, Run(c, steps, 3), b1, steps, 3);
  }

  /** And after the first seven. */
  lemma LeaderAhead(c: Config, b1: Block, b2: Block)
    requires c.Valid() && c.nodeNums == 2 && b1 == EmptyOn(c.genesis) && b2 == EmptyOn(b1)
    ensures var sys := Run(c, Overhasty(b1, b2), 7);
            && |sys.nodes| == 2 && sys.nodes[1] == Init(c).nodes[1]
            && sys.proposals == [b1, b2] && sys.nodes[0].chain == [c.genesis, b1] && sys.nodes[0].sequenceID == 2
            && (forall p :: p in sys.handled ==> p.to == 0)
            && PrePreparePacket(1, b1) in sys.sent && PreparePacket(1, b1) in sys.sent
            && PrePreparePacket(1, b2) in sys.sent && CommitPacket(1, b2) in sys.sent
  {
    var steps := Overhasty(b1, b2);
    LeaderAfterOne(c, b1, steps);
    LeaderCommits(c, Run(c, steps, 4), b2, steps, 4);
  }

  /** The other node's four messages. */
  lemma FollowerBehind(c: Config, n: NodeState, b1: Block, b2: Block)
    requires c.Valid() && c.nodeNums == 2 && b1 == EmptyOn(c.genesis) && b2 == EmptyOn(b1) && n == Init(c).nodes[1]
    ensures var n1 := OnPrePrepare(n, PrePreparePacket(1, b1).msg).0;
            var n2 := OnPrepare(n1, PreparePacket(1, b1).msg, c.Enough()).0;
            var n3 := OnPrePrepare(n2, PrePreparePacket(1, b2).msg).0;
            var (n4, outcome) := OnCommit(n3, CommitPacket(1, b2).msg, c.Enough());
            && n.stage == 1 && n1.stage == 2 && n2.stage == n3.stage == 3 && n3.sequenceID == 1
            && outcome == Executed && n4.executed == [DigestOf(b2)] && n4.chain == [c.genesis] && n4.sequenceID == 2
  {
  }

  /** Falling behind happens, with nothing lost but the commit of b1 to one node: that node executes b2, its chain
      does not have it, and by StalledForGood its chain never grows again. */
  lemma FallsBehind(c: Config)
    requires c.Valid() && c.nodeNums == 2
    ensures var b1 := EmptyOn(c.genesis);
            var b2 := EmptyOn(b1);
            var sys := Run(c, Overhasty(b1, b2), 11);
            && |sys.nodes| == 2 && sys.proposals == [b1, b2]
            && sys.nodes[1].executed == [DigestOf(b2)] && sys.nodes[1].sequenceID == 2
            && sys.nodes[1].chain == [c.genesis] && !InStep(sys.nodes[1])
            && sys.nodes[0].chain == [c.genesis, b1] && InStep(sys.nodes[0])
  {
    var b1 := EmptyOn(c.genesis);
    var b2 := EmptyOn(b1);
    var steps := Overhasty(b1, b2);
    LeaderAhead(c, b1, b2);
    FollowerBehind(c, Init(c).nodes[1], b1, b2);
    var s7, s8, s9, s10 := Run(c, steps, 7), Run(c, steps, 8), Run(c, steps, 9), Run(c, steps, 10);
    assert s8 == Next(c, s7, steps[7]);
    assert s9 == Next(c, s8, steps[8]);
    assert s10 == Next(c, s9, steps[9]);
    assert Run(c, steps, 11) == Next(c, s10, steps[10]);
  }
}
