/** The supervisor's epoch barrier (supervisor/committee/committee_clpa.go): acknowledgements are collected per
    epoch, and the current epoch advances only over epochs that enough shards have acknowledged. */
module EpochBarriers {

  datatype Ack = Ack(shard: nat, epoch: int)

  /** The current epoch and the shards that have acknowledged each later one. */
  datatype Barrier = Barrier(curEpoch: int, acks: map<int, set<nat>>)

  const START := Barrier(0, map[])

  function Bucket(acks: map<int, set<nat>>, epoch: int): set<nat> {
    if epoch in acks then acks[epoch] else {}
  }

  /** Advance over every acknowledged epoch in turn, dropping its bucket. */
  function Advance(b: Barrier, shardNum: nat): Barrier
    decreases |b.acks|
  {
    var expected := b.curEpoch + 1;
    if expected !in b.acks || |b.acks[expected]| < shardNum then b
    else Advance(Barrier(expected, b.acks - {expected}), shardNum)
  }

  /** What one acknowledgement does; one for an epoch that is already over is ignored. */
  function Record(b: Barrier, shardNum: nat, a: Ack): Barrier {
    if a.epoch <= b.curEpoch then b
    else Advance(b.(acks := b.acks[a.epoch := Bucket(b.acks, a.epoch) + {a.shard}]), shardNum)
  }

  /** The barrier after the first n acknowledgements. */
  function Run(shardNum: nat, acks: seq<Ack>, n: nat): Barrier
    requires n <= |acks|
  {
    if n == 0 then START else Record(Run(shardNum, acks, n - 1), shardNum, acks[n - 1])
  }

  // ----- What the barrier means -----

  function Ackers(history: set<Ack>, epoch: int): set<nat> {
    set a | a in history && a.epoch == epoch :: a.shard
  }

  /** n is the last epoch up to which every epoch has been acknowledged by shardNum different senders. */
  ghost predicate IsStable(history: set<Ack>, shardNum: nat, n: int) {
    && n >= 0
    && (forall e :: 1 <= e <= n ==> |Ackers(history, e)| >= shardNum)
    && |Ackers(history, n + 1)| < shardNum
  }

  /** The buckets hold the acknowledgements of the later epochs, and nothing else. */
  ghost predicate BucketsFor(b: Barrier, history: set<Ack>) {
    forall e :: (e in b.acks <==> e > b.curEpoch && Ackers(history, e) != {})
             && (e in b.acks ==> b.acks[e] == Ackers(history, e))
  }

  ghost predicate Represents(b: Barrier, history: set<Ack>, shardNum: nat) {
    IsStable(history, shardNum, b.curEpoch) && BucketsFor(b, history)
  }

  lemma AckersGrow(history: set<Ack>, a: Ack, e: int)
    ensures Ackers(history + {a}, e) == if e == a.epoch then Ackers(history, e) + {a.shard} else Ackers(history, e)
  {
  }

  /** Advancing stops exactly at the stable epoch. */
  lemma {:induction false} AdvanceReachesStable(b: Barrier, history: set<Ack>, shardNum: nat)
    requires shardNum > 0 && b.curEpoch >= 0 && BucketsFor(b, history)
    requires forall e :: 1 <= e <= b.curEpoch ==> |Ackers(history, e)| >= shardNum
    ensures Represents(Advance(b, shardNum), history, shardNum)
    decreases |b.acks|
  {
    var expected := b.curEpoch + 1;
    if expected in b.acks && |b.acks[expected]| >= shardNum {
      AdvanceReachesStable(Barrier(expected, b.acks - {expected}), history, shardNum);
    }
  }

  /** Filing an acknowledgement of a later epoch keeps the buckets right. */
  lemma FiledInBucket(b: Barrier, history: set<Ack>, a: Ack)
    requires BucketsFor(b, history) && a.epoch > b.curEpoch
    ensures BucketsFor(b.(acks := b.acks[a.epoch := Bucket(b.acks, a.epoch) + {a.shard}]), history + {a})
  {
  }

  /** An acknowledgement of an epoch that is over changes no bucket. */
  lemma TooLate(b: Barrier, history: set<Ack>, a: Ack)
    requires BucketsFor(b, history) && a.epoch <= b.curEpoch
    ensures BucketsFor(b, history + {a})
  {
  }

  lemma StillEnough(history: set<Ack>, a: Ack, e: int)
    ensures |Ackers(history, e)| <= |Ackers(history + {a}, e)|
  {
    AckersGrow(history, a, e);
    SubsetSmaller(Ackers(history, e), Ackers(history + {a}, e));
  }

  lemma RecordKeeps(b: Barrier, history: set<Ack>, shardNum: nat, a: Ack)
    requires shardNum > 0 && Represents(b, history, shardNum)
    ensures Represents(Record(b, shardNum, a), history + {a}, shardNum)
  {
    forall e | 1 <= e <= b.curEpoch
      ensures |Ackers(history + {a}, e)| >= shardNum
    {
      StillEnough(history, a, e);
    }
    if a.epoch > b.curEpoch {
      FiledInBucket(b, history, a);
      AdvanceReachesStable(b.(acks := b.acks[a.epoch := Bucket(b.acks, a.epoch) + {a.shard}]), history + {a}, shardNum);
    } else {
      TooLate(b, history, a);
      AckersGrow(history, a, b.curEpoch + 1);
    }
  }

  function Elements(acks: seq<Ack>, n: nat): set<Ack>
    requires n <= |acks|
  {
    set i | 0 <= i < n :: acks[i]
  }

  lemma ElementsGrow(acks: seq<Ack>, n: nat)
    requires n < |acks|
    ensures Elements(acks, n + 1) == Elements(acks, n) + {acks[n]}
  {
  }

  lemma StartRepresents(shardNum: nat)
    requires shardNum > 0
    ensures Represents(START, {}, shardNum)
  {
  }

  /** After any sequence of acknowledgements the current epoch is the stable one and no bucket is wrong. */
  lemma {:induction false} RunRepresents(shardNum: nat, acks: seq<Ack>, n: nat)
    requires shardNum > 0 && n <= |acks|
    ensures Represents(Run(shardNum, acks, n), Elements(acks, n), shardNum)
  {
    if n == 0 {
      StartRepresents(shardNum);
      assert Elements(acks, 0) == {};
    } else {
      RunRepresents(shardNum, acks, n - 1);
      RecordKeeps(Run(shardNum, acks, n - 1), Elements(acks, n - 1), shardNum, acks[n - 1]);
      ElementsGrow(acks, n - 1);
    }
  }

  /** There is only one barrier for a set of acknowledgements. */
  lemma RepresentsUnique(b: Barrier, c: Barrier, history: set<Ack>, shardNum: nat)
    requires Represents(b, history, shardNum) && Represents(c, history, shardNum)
    ensures b == c
  {
    StableUnique(history, shardNum, b.curEpoch, c.curEpoch);
    forall e
      ensures e in b.acks <==> e in c.acks
      ensures e in b.acks && e in c.acks ==> b.acks[e] == c.acks[e]
    {
      assert e in b.acks <==> e > b.curEpoch && Ackers(history, e) != {};
      assert e in c.acks <==> e > c.curEpoch && Ackers(history, e) != {};
    }
    assert b.acks == c.acks;
  }

  lemma StableUnique(history: set<Ack>, shardNum: nat, m: int, n: int)
    requires IsStable(history, shardNum, m) && IsStable(history, shardNum, n)
    ensures m == n
  {
  }

  /** The barrier does not depend on the order of the acknowledgements, nor on how often each arrived. */
  lemma OrderAndDuplicationIrrelevant(shardNum: nat, acks: seq<Ack>, others: seq<Ack>)
    requires shardNum > 0 && Elements(acks, |acks|) == Elements(others, |others|)
    ensures Run(shardNum, acks, |acks|) == Run(shardNum, others, |others|)
  {
    RunRepresents(shardNum, acks, |acks|);
    RunRepresents(shardNum, others, |others|);
    RepresentsUnique(Run(shardNum, acks, |acks|), Run(shardNum, others, |others|), Elements(acks, |acks|), shardNum);
  }

  /** More acknowledgements never take the current epoch back. */
  lemma EpochMonotone(shardNum: nat, acks: seq<Ack>, m: nat, n: nat)
    requires shardNum > 0 && m <= n <= |acks|
    ensures Run(shardNum, acks, m).curEpoch <= Run(shardNum, acks, n).curEpoch
  {
    RunRepresents(shardNum, acks, m);
    RunRepresents(shardNum, acks, n);
    var e := Run(shardNum, acks, n).curEpoch + 1;
    var few, many := Ackers(Elements(acks, m), e), Ackers(Elements(acks, n), e);
    forall s | s in few
      ensures s in many
    {
      assert Ack(s, e) in Elements(acks, m);
      assert Ack(s, e) in Elements(acks, n);
    }
    SubsetSmaller(few, many);
  }

  lemma SubsetSmaller(small: set<nat>, big: set<nat>)
    requires small <= big
    ensures |small| <= |big|
  {
    if small != {} {
      var x :| x in small;
      SubsetSmaller(small - {x}, big - {x});
    }
  }

  // ----- Shards and senders -----

  function Shards(n: nat): (s: set<nat>)
    ensures |s| == n && forall i: nat :: i in s <==> i < n
  {
    if n == 0 then {} else Shards(n - 1) + {n - 1}
  }

  ghost predicate AllShardsAcked(history: set<Ack>, shardNum: nat, epoch: int) {
    forall s: nat :: s < shardNum ==> Ack(s, epoch) in history
  }

  /** When only shards send acknowledgements, enough senders means every shard. */
  lemma EnoughMeansAll(history: set<Ack>, shardNum: nat, epoch: int)
    requires forall a :: a in history ==> a.shard < shardNum
    ensures |Ackers(history, epoch)| >= shardNum <==> AllShardsAcked(history, shardNum, epoch)
  {
    var ackers, all := Ackers(history, epoch), Shards(shardNum);
    if AllShardsAcked(history, shardNum, epoch) {
      forall s | s in all
        ensures s in ackers
      {
        assert Ack(s, epoch) in history;
      }
      SubsetSmaller(all, ackers);
    } else {
      var s: nat :| s < shardNum && Ack(s, epoch) !in history;
      assert ackers <= all - {s};
      SubsetSmaller(ackers, all - {s});
    }
  }

  /** After any sequence of acknowledgements from shards, every shard has acknowledged every epoch up to the
      current one, and some shard has not acknowledged the next: the barrier is never early and never late. */
  lemma BarrierExact(shardNum: nat, acks: seq<Ack>)
    requires shardNum > 0
    requires forall i :: 0 <= i < |acks| ==> acks[i].shard < shardNum
    ensures var cur := Run(shardNum, acks, |acks|).curEpoch;
            var history := Elements(acks, |acks|);
            && (forall e :: 1 <= e <= cur ==> AllShardsAcked(history, shardNum, e))
            && !AllShardsAcked(history, shardNum, cur + 1)
  {
    RunRepresents(shardNum, acks, |acks|);
    forall e {
      EnoughMeansAll(Elements(acks, |acks|), shardNum, e);
    }
  }

  /** The source does not check the sender: with two shards, an acknowledgement from an unknown sender 7 lets
      epoch 1 pass although shard 1 never acknowledged it. */
  lemma UnknownSenderPasses()
    ensures var acks := [Ack(0, 1), Ack(7, 1)];
            Run(2, acks, 2).curEpoch == 1 && !AllShardsAcked(Elements(acks, 2), 2, 1)
  {
    var acks := [Ack(0, 1), Ack(7, 1)];
    assert Run(2, acks, 0) == START;
    assert Run(2, acks, 1) == Barrier(0, map[1 := {0}]);
    var b := Barrier(0, map[1 := {0} + {7}]);
    assert b.acks[1] == {0, 7} && |{0, 7}| == 2;
    assert Run(2, acks, 2) == Advance(b, 2) by {
      assert map[1 := {0}][1 := {0} + {7}] == b.acks;
    }
    assert Advance(Barrier(1, b.acks - {1}), 2).curEpoch == 1;
    assert Ack(1, 1) !in Elements(acks, 2);
  }

  ghost predicate SentFrom(history: set<Ack>, senders: set<nat>) {
    forall a :: a in history ==> a.shard in senders
  }

  ghost predicate NeverEarly(senders: set<nat>, shardNum: nat) {
    forall history: set<Ack>, e: int ::
      SentFrom(history, senders) && |Ackers(history, e)| >= shardNum ==> AllShardsAcked(history, shardNum, e)
  }

  /** Senders that are numerous enough, and not all shards, can complete an epoch without one of the shards. */
  lemma EarlyHistory(senders: set<nat>, shardNum: nat) returns (history: set<Ack>)
    requires shardNum > 0 && !(senders <= Shards(shardNum)) && |senders| >= shardNum
    ensures SentFrom(history, senders) && |Ackers(history, 1)| >= shardNum && !AllShardsAcked(history, shardNum, 1)
  {
    var stranger :| stranger in senders && stranger >= shardNum;
    var who := if Shards(shardNum) <= senders then senders - {0} else senders;
    if Shards(shardNum) <= senders {
      SubsetSmaller(Shards(shardNum) - {0} + {stranger}, who);
    }
    history := set s | s in who :: Ack(s, 1);
    AckersAre(who);
    var missing :| missing in Shards(shardNum) && missing !in who;
    assert Ack(missing, 1) !in history;
  }

  lemma AckersAre(who: set<nat>)
    ensures Ackers(set s | s in who :: Ack(s, 1), 1) == who
  {
    var history := set s | s in who :: Ack(s, 1);
    forall s | s in who
      ensures s in Ackers(history, 1)
    {
      assert Ack(s, 1) in history;
    }
  }

  /** The unchecked sender matters exactly when the senders are numerous enough to complete an epoch and
      include one that is not a shard. */
  lemma NeverEarlyExactly(senders: set<nat>, shardNum: nat)
    requires shardNum > 0
    ensures NeverEarly(senders, shardNum) <==> senders <= Shards(shardNum) || |senders| < shardNum
  {
    if senders <= Shards(shardNum) || |senders| < shardNum {
      forall history: set<Ack>, e: int | SentFrom(history, senders) && |Ackers(history, e)| >= shardNum
        ensures AllShardsAcked(history, shardNum, e)
      {
        SubsetSmaller(Ackers(history, e), senders);
        EnoughMeansAll(history, shardNum, e);
      }
    } else {
      var history := EarlyHistory(senders, shardNum);
      assert SentFrom(history, senders) && |Ackers(history, 1)| >= shardNum;
    }
  }

  class EpochTracker {
    const shardNum: nat
    var curEpoch: int
    var epochShardAcks: map<int, set<nat>>

    function State(): Barrier
      reads this
    {
      Barrier(curEpoch, epochShardAcks)
    }

    constructor (shardNum: nat)
      ensures State() == START && this.shardNum == shardNum
    {
      this.shardNum := shardNum;
      curEpoch, epochShardAcks := 0, map[];
    }

    method RecordEpochAck(shardId: nat, epoch: int)
      modifies this
      ensures State() == Record(old(State()), shardNum, Ack(shardId, epoch))
    {
      var stableEpoch := curEpoch;
      if epoch <= stableEpoch {
        return;
      }
      if epoch !in epochShardAcks {
        epochShardAcks := epochShardAcks[epoch := {}];
      }
      epochShardAcks := epochShardAcks[epoch := epochShardAcks[epoch] + {shardId}];
      ghost var begun := State();
      assert begun == old(State()).(
                        acks := old(epochShardAcks)[epoch := Bucket(old(epochShardAcks), epoch) + {shardId}]);
      var expected := stableEpoch + 1;
      while true
        invariant expected == curEpoch + 1
        invariant Advance(State(), shardNum) == Advance(begun, shardNum)
        decreases |epochShardAcks|
      {
        if expected !in epochShardAcks {
          break;
        }
        var ackSet := epochShardAcks[expected];
        if |ackSet| < shardNum {
          break;
        }
        curEpoch := expected;
        epochShardAcks := epochShardAcks - {expected};
        expected := expected + 1;
      }
    }
  }
}
