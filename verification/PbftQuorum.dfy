/** Quorums in numbers: which vote makes a node act, what an executed request proves about the other nodes, and that two
    quorums have nodes in common. */
module PbftQuorums {
  import opened Transactions
  import opened Chains
  import opened Pbfts
  import opened PbftSafety

  // ----- The vote that acts -----

  /** A node has broadcast its commit for exactly the digests with enough prepares, and replied to, by executing or
      asking, exactly those with enough commits. */
  ghost predicate Acted(quorum: nat, n: NodeState) {
    && (forall d :: d in n.isCommitBroadcast <==> |Votes(n.prepares, d)| >= quorum)
    && (forall d :: d in n.isReply <==> |Votes(n.commits, d)| >= quorum)
  }

  ghost predicate AllActed(quorum: nat, nodes: seq<NodeState>) {
    forall i :: 0 <= i < |nodes| ==> Acted(quorum, nodes[i])
  }

  lemma PrepareActed(quorum: nat, n: NodeState, m: PbftMsg)
    requires m.Prepare? && Acted(quorum, n)
    ensures Acted(quorum, OnPrepare(n, m, quorum).0)
  {
    var next := OnPrepare(n, m, quorum).0;
    forall d
      ensures d in next.isCommitBroadcast <==> |Votes(next.prepares, d)| >= quorum
    {
      assert d in n.isCommitBroadcast <==> |Votes(n.prepares, d)| >= quorum;
    }
  }

  lemma CommitActed(quorum: nat, n: NodeState, m: PbftMsg)
    requires m.Commit? && Acted(quorum, n)
    ensures Acted(quorum, OnCommit(n, m, quorum).0)
  {
    var next := OnCommit(n, m, quorum).0;
    forall d
      ensures d in next.isReply <==> |Votes(next.commits, d)| >= quorum
    {
      assert d in n.isReply <==> |Votes(n.commits, d)| >= quorum;
    }
  }

  lemma AfterActed(c: Config, sys: System, step: Step)
    requires c.Valid() && AllActed(c.Enough(), sys.nodes)
    ensures AllActed(c.Enough(), After(c, sys, step).nodes)
  {
    if Enabled(sys, step) && step.Handle? {
      var p := step.p;
      assert Acted(c.Enough(), sys.nodes[p.to]);
      match p.msg
      case PrePrepare(_, _, _) =>
      case Prepare(_, _, _) => PrepareActed(c.Enough(), sys.nodes[p.to], p.msg);
      case Commit(_, _, _) => CommitActed(c.Enough(), sys.nodes[p.to], p.msg);
    }
  }

  lemma {:induction false} RunActed(c: Config, steps: seq<Step>, n: nat)
    requires c.Valid() && n <= |steps|
    ensures AllActed(c.Enough(), Run(c, steps, n).nodes)
  {
    if n > 0 {
      RunActed(c, steps, n - 1);
      AfterActed(c, Run(c, steps, n - 1), steps[n - 1]);
    }
  }

  function Members(votes: seq<nat>): (q: set<nat>)
    ensures forall v :: v in q <==> v in votes
  {
    if votes == [] then {} else Members(votes[..|votes| - 1]) + {votes[|votes| - 1]}
  }

  /** Distinct votes are as many voters. */
  lemma {:induction false} DistinctVoters(votes: seq<nat>)
    requires Distinct(votes)
    ensures |Members(votes)| == |votes|
  {
    if votes != [] {
      DistinctVoters(votes[..|votes| - 1]);
    }
  }

  /** A set of different nodes that have broadcast Commit(d). */
  predicate Committers(nodes: seq<NodeState>, d: Digest, q: set<nat>) {
    forall i :: i in q ==> i < |nodes| && d in nodes[i].isCommitBroadcast
  }

  /** A set of different nodes that have validated d, each with every earlier block on its chain. */
  ghost predicate Validators(c: Config, sys: System, d: Digest, q: set<nat>) {
    forall i :: i in q ==> Validator(c, sys, d, i)
  }

  ghost predicate Validator(c: Config, sys: System, d: Digest, i: nat) {
    && i < |sys.nodes| && d in sys.nodes[i].validated
    && Number(d) <= |sys.nodes[i].chain| && Number(d) <= |sys.proposals|
    && sys.nodes[i].chain[..Number(d)] == Full(c, sys.proposals)[..Number(d)]
  }

  /** The senders of handled commit votes have broadcast their commits. */
  lemma CommitVoters(c: Config, sys: System, i: nat, d: Digest) returns (q: set<nat>)
    requires c.Valid() && Inv(c, sys) && i < |sys.nodes|
    ensures q == Members(Votes(sys.nodes[i].commits, d)) && |q| == |Votes(sys.nodes[i].commits, d)|
    ensures Committers(sys.nodes, d, q)
  {
    var votes := Votes(sys.nodes[i].commits, d);
    assert VotesOk(c.Enough(), sys.handled, sys.nodes[i], i);
    q := Members(votes);
    DistinctVoters(votes);
    forall v | v in q
      ensures v < |sys.nodes| && d in sys.nodes[v].isCommitBroadcast
    {
      assert PacketOk(sys.nodes, sys.proposals, Packet(i, Commit(Number(d), d, v)));
    }
  }

  /** The senders of handled prepare votes have validated the request. */
  lemma PrepareVoters(c: Config, sys: System, i: nat, d: Digest) returns (q: set<nat>)
    requires c.Valid() && Inv(c, sys) && i < |sys.nodes|
    ensures q == Members(Votes(sys.nodes[i].prepares, d)) && |q| == |Votes(sys.nodes[i].prepares, d)|
    ensures Validators(c, sys, d, q)
  {
    var votes := Votes(sys.nodes[i].prepares, d);
    assert VotesOk(c.Enough(), sys.handled, sys.nodes[i], i);
    q := Members(votes);
    DistinctVoters(votes);
    forall v | v in q
      ensures Validator(c, sys, d, v)
    {
      assert PacketOk(sys.nodes, sys.proposals, Packet(i, Prepare(Number(d), d, v)));
      ValidatedOnTop(c, sys, d, v);
    }
  }

  lemma ValidatedOnTop(c: Config, sys: System, d: Digest, v: nat)
    requires c.Valid() && Inv(c, sys) && v < |sys.nodes| && d in sys.nodes[v].validated
    ensures Validator(c, sys, d, v)
  {
    assert NodeOk(c, sys.proposals, sys.nodes[v], v);
  }

  lemma EnoughIs(c: Config, f: nat)
    requires c.Valid() && Tolerates(c.nodeNums, f)
    ensures c.Enough() == 2 * f + 1
  {
  }

  /** What a node has done, against its voters. */
  ghost predicate ActsExactly(n: NodeState, d: Digest, enough: nat) {
    && (d in n.isCommitBroadcast <==> |Members(Votes(n.prepares, d))| >= enough)
    && (d in n.isReply <==> |Members(Votes(n.commits, d))| >= enough)
  }

  lemma NodeActs(c: Config, sys: System, i: nat, d: Digest)
    requires c.Valid() && Inv(c, sys) && AllActed(c.Enough(), sys.nodes) && i < |sys.nodes|
    ensures ActsExactly(sys.nodes[i], d, c.Enough())
  {
    var q := CommitVoters(c, sys, i, d);
    var r := PrepareVoters(c, sys, i, d);
    assert Acted(c.Enough(), sys.nodes[i]);
  }

  /** In every run a node has broadcast its commit for a digest exactly when it holds the prepares of 2f+1 different
      nodes, and has replied to it exactly when it holds the commits of 2f+1 different nodes. */
  lemma ActsOnQuorum(c: Config, steps: seq<Step>, n: nat, i: nat, d: Digest, f: nat)
    requires c.Valid() && n <= |steps| && i < c.nodeNums && Tolerates(c.nodeNums, f)
    ensures i < |Run(c, steps, n).nodes| && ActsExactly(Run(c, steps, n).nodes[i], d, 2 * f + 1)
  {
    EnoughIs(c, f);
    RunInv(c, steps, n);
    RunActed(c, steps, n);
    NodeActs(c, Run(c, steps, n), i, d);
  }

  /** Each vote was handled, so a message that was not is nobody's who has voted. */
  lemma NewVoter(quorum: nat, handled: set<Packet>, n: NodeState, p: Packet)
    requires VotesOk(quorum, handled, n, p.to) && p !in handled
    requires p.msg.seqId == Number(p.msg.digest) && !p.msg.PrePrepare?
    ensures p.msg.sender !in Members(Votes(if p.msg.Prepare? then n.prepares else n.commits, p.msg.digest))
  {
  }

  lemma OnPrepareActs(n: NodeState, m: PbftMsg, enough: nat)
    requires m.Prepare? && ActsExactly(n, m.digest, enough) && enough > 0
    requires |Members(Votes(n.prepares, m.digest))| == |Votes(n.prepares, m.digest)|
    ensures OnPrepare(n, m, enough).1
         == if m.seqId == n.sequenceID && m.digest in n.requestPool
               && |Members(Votes(n.prepares, m.digest))| == enough - 1
            then Some(Commit(m.seqId, m.digest, n.id)) else None
  {
  }

  lemma OnCommitActs(n: NodeState, m: PbftMsg, enough: nat)
    requires m.Commit? && ActsExactly(n, m.digest, enough) && enough > 0
    requires |Members(Votes(n.commits, m.digest))| == |Votes(n.commits, m.digest)|
    ensures OnCommit(n, m, enough).1 == OutcomeBy(n, m, |Members(Votes(n.commits, m.digest))| == enough - 1)
  {
  }

  lemma HandledPrepare(c: Config, sys: System, p: Packet)
    requires c.Valid() && Inv(c, sys) && AllActed(c.Enough(), sys.nodes) && Enabled(sys, Handle(p)) && p.msg.Prepare?
    ensures var n := sys.nodes[p.to];
            var voters := Members(Votes(n.prepares, p.msg.digest));
            && n.id == p.to && p.msg.sender !in voters
            && OnPrepare(n, p.msg, c.Enough()).1
               == if p.msg.seqId == n.sequenceID && p.msg.digest in n.requestPool && |voters| == c.Enough() - 1
                  then Some(Commit(p.msg.seqId, p.msg.digest, p.to)) else None
  {
    var n := sys.nodes[p.to];
    Receiver(c, sys, p);
    NodeActs(c, sys, p.to, p.msg.digest);
    var r := PrepareVoters(c, sys, p.to, p.msg.digest);
    OnPrepareActs(n, p.msg, c.Enough());
    NewVoter(c.Enough(), sys.handled, n, p);
  }

  /** What handling a commit leads to, by the number of voters before. */
  function OutcomeBy(n: NodeState, m: PbftMsg, complete: bool): Outcome
    requires m.Commit?
  {
    if m.seqId < n.sequenceID || !complete then Counted
    else if m.digest in n.requestPool then Executed
    else Asked(n.sequenceID + 1, m.seqId)
  }

  lemma HandledCommit(c: Config, sys: System, p: Packet)
    requires c.Valid() && Inv(c, sys) && AllActed(c.Enough(), sys.nodes) && Enabled(sys, Handle(p)) && p.msg.Commit?
    ensures var n := sys.nodes[p.to];
            var voters := Members(Votes(n.commits, p.msg.digest));
            && p.msg.sender !in voters
            && OnCommit(n, p.msg, c.Enough()).1 == OutcomeBy(n, p.msg, |voters| == c.Enough() - 1)
  {
    var n := sys.nodes[p.to];
    CommitFacts(c, sys, p);
    OnCommitActs(n, p.msg, c.Enough());
  }

  lemma CommitFacts(c: Config, sys: System, p: Packet)
    requires c.Valid() && Inv(c, sys) && AllActed(c.Enough(), sys.nodes) && Enabled(sys, Handle(p)) && p.msg.Commit?
    ensures var n := sys.nodes[p.to];
            var voters := Members(Votes(n.commits, p.msg.digest));
            && p.msg.sender !in voters && |voters| == |Votes(n.commits, p.msg.digest)|
            && ActsExactly(n, p.msg.digest, c.Enough())
  {
    var n := sys.nodes[p.to];
    Receiver(c, sys, p);
    NewVoter(c.Enough(), sys.handled, n, p);
    NodeActs(c, sys, p.to, p.msg.digest);
    var q := CommitVoters(c, sys, p.to, p.msg.digest);
  }

  /** A node that handles a prepare broadcasts its commit if and only if it has the request, waits for its number, and
      2f different nodes have voted before, none of them the sender: the (2f+1)-th vote acts, and no other. */
  lemma PrepareThatActs(c: Config, steps: seq<Step>, n: nat, p: Packet, f: nat)
    requires c.Valid() && n <= |steps| && Enabled(Run(c, steps, n), Handle(p)) && p.msg.Prepare?
    requires Tolerates(c.nodeNums, f)
    ensures var sys := Run(c, steps, n);
            var voters := Members(Votes(sys.nodes[p.to].prepares, p.msg.digest));
            && p.msg.sender !in voters
            && OnPrepare(sys.nodes[p.to], p.msg, c.Enough()).1
               == if && p.msg.seqId == sys.nodes[p.to].sequenceID && p.msg.digest in sys.nodes[p.to].requestPool
                     && |voters| == 2 * f
                  then Some(Commit(p.msg.seqId, p.msg.digest, p.to)) else None
  {
    EnoughIs(c, f);
    RunInv(c, steps, n);
    RunActed(c, steps, n);
    HandledPrepare(c, Run(c, steps, n), p);
  }

  /** A node that handles a commit not below its sequence number executes the request, or asks for what it has missed if
      it does not have it, if and only if 2f different nodes have voted before, none of them the sender. */
  lemma CommitThatActs(c: Config, steps: seq<Step>, n: nat, p: Packet, f: nat)
    requires c.Valid() && n <= |steps| && Enabled(Run(c, steps, n), Handle(p)) && p.msg.Commit?
    requires Tolerates(c.nodeNums, f)
    ensures var sys := Run(c, steps, n);
            var voters := Members(Votes(sys.nodes[p.to].commits, p.msg.digest));
            && p.msg.sender !in voters
            && OnCommit(sys.nodes[p.to], p.msg, c.Enough()).1 == OutcomeBy(sys.nodes[p.to], p.msg, |voters| == 2 * f)
  {
    EnoughIs(c, f);
    RunInv(c, steps, n);
    RunActed(c, steps, n);
    HandledCommit(c, Run(c, steps, n), p);
  }

  // ----- Certificates -----

  /** So many different nodes have broadcast Commit for the digest, and each of them held the Prepare votes of so many
      different nodes, all of which validated it on top of the same earlier blocks. */
  ghost predicate Certified(c: Config, sys: System, d: Digest, committers: set<nat>, enough: nat) {
    && |committers| >= enough && Committers(sys.nodes, d, committers)
    && forall q :: q in committers ==>
         && |Members(Votes(sys.nodes[q].prepares, d))| >= enough
         && Validators(c, sys, d, Members(Votes(sys.nodes[q].prepares, d)))
  }

  lemma ExecutedCertified(c: Config, sys: System, i: nat, k: nat) returns (committers: set<nat>)
    requires c.Valid() && Inv(c, sys) && i < |sys.nodes| && k < |sys.nodes[i].executed|
    ensures Certified(c, sys, sys.nodes[i].executed[k], committers, c.Enough())
  {
    var d := sys.nodes[i].executed[k];
    assert VotesOk(c.Enough(), sys.handled, sys.nodes[i], i);
    committers := CommitVoters(c, sys, i, d);
    forall q | q in committers
      ensures |Members(Votes(sys.nodes[q].prepares, d))| >= c.Enough()
      ensures Validators(c, sys, d, Members(Votes(sys.nodes[q].prepares, d)))
    {
      var voters := PrepareVoters(c, sys, q, d);
      assert VotesOk(c.Enough(), sys.handled, sys.nodes[q], q);
    }
  }

  /** Whenever some node has executed a digest, 2f+1 different nodes have broadcast Commit for it, each on the Prepare
      votes of 2f+1 different nodes. */
  lemma CommitCertificate(c: Config, steps: seq<Step>, n: nat, i: nat, k: nat, f: nat) returns (committers: set<nat>)
    requires c.Valid() && n <= |steps| && i < |Run(c, steps, n).nodes| && k < |Run(c, steps, n).nodes[i].executed|
    requires Tolerates(c.nodeNums, f)
    ensures Certified(c, Run(c, steps, n), Run(c, steps, n).nodes[i].executed[k], committers, 2 * f + 1)
  {
    EnoughIs(c, f);
    RunInv(c, steps, n);
    committers := ExecutedCertified(c, Run(c, steps, n), i, k);
  }

  // ----- Quorums meet -----

  lemma {:induction false} SizeBelow(q: set<nat>, n: nat)
    requires forall i :: i in q ==> i < n
    ensures |q| <= n
  {
    if n == 0 {
      assert q == {};
    } else {
      SizeBelow(q - {n - 1}, n - 1);
    }
  }

  /** A quorum can be had without the faulty nodes; and any two quorums have nodes in common, more than the faulty ones
      when there are 3f+1 nodes. */
  lemma QuorumsMeet(nodeNums: nat, f: nat, x: set<nat>, y: set<nat>)
    requires Tolerates(nodeNums, f) && |x| >= 2 * f + 1 && |y| >= 2 * f + 1
    requires forall i :: i in x + y ==> i < nodeNums
    ensures 2 * f + 1 <= nodeNums - f
    ensures |x * y| + nodeNums >= 4 * f + 2
    ensures nodeNums == 3 * f + 1 ==> |x * y| >= f + 1
  {
    SizeBelow(x + y, nodeNums);
    assert |x + y| + |x * y| == |x| + |y|;
  }

  /** Of any two executions, whichever nodes' they are, f+1 nodes have committed to both requests. */
  lemma ExecutionsShareCommitters(c: Config, steps: seq<Step>, n: nat, i: nat, k: nat, j: nat, l: nat, f: nat)
    returns (both: set<nat>)
    requires c.Valid() && n <= |steps| && c.nodeNums == 3 * f + 1
    requires i < |Run(c, steps, n).nodes| && k < |Run(c, steps, n).nodes[i].executed|
    requires j < |Run(c, steps, n).nodes| && l < |Run(c, steps, n).nodes[j].executed|
    ensures var nodes := Run(c, steps, n).nodes;
            && |both| >= f + 1
            && Committers(nodes, nodes[i].executed[k], both) && Committers(nodes, nodes[j].executed[l], both)
  {
    RunInv(c, steps, n);
    var x := CommitCertificate(c, steps, n, i, k, f);
    var y := CommitCertificate(c, steps, n, j, l, f);
    both := x * y;
    QuorumsMeet(c.nodeNums, f, x, y);
  }
}
