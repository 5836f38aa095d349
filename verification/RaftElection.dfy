/** Election safety with its exact condition: which cluster sizes stay safe under which
    environment faults, and runs that elect two leaders for all the others. */
module RaftElection {
  import opened Foundation
  import opened Raft
  import opened RaftCluster

  /** No run of the cluster ever elects two leaders in one term. */
  ghost predicate ElectionSafe(config: RaftConfig, faults: Faults, size: nat) {
    forall steps | ValidRun(config, faults, Init(size), steps) ::
      AtMostOneLeaderPerTerm(Run(config, faults, Init(size), steps))
  }

  // -------------------------------------------------------------------- safety

  /** What every step keeps; a cluster of two has invariants of its own. */
  predicate Kept(faults: Faults, c: Cluster) {
    && Invariant(faults, c) && LeadersRecorded(c)
    && (|c.nodes| == 2 ==> PairInvariant(c))
  }

  lemma NextKept(config: RaftConfig, faults: Faults, c: Cluster, step: Step)
    requires Kept(faults, c) && !faults.solo && Enabled(faults, c, step)
    ensures Kept(faults, Next(config, faults, c, step))
    ensures |Next(config, faults, c, step).nodes| == |c.nodes|
  {
    NextKeepsInvariant(config, faults, c, step);
    if |c.nodes| == 2 {
      PairKept(config, faults, c, step);
    }
  }

  lemma {:induction false} RunKept(config: RaftConfig, faults: Faults, c: Cluster, steps: seq<Step>)
    requires Kept(faults, c) && !faults.solo && ValidRun(config, faults, c, steps)
    decreases |steps|
    ensures Kept(faults, Run(config, faults, c, steps))
    ensures |Run(config, faults, c, steps).nodes| == |c.nodes|
  {
    if steps != [] {
      NextKept(config, faults, c, steps[0]);
      RunKept(config, faults, Next(config, faults, c, steps[0]), steps[1..]);
    }
  }

  lemma InitInvariant(faults: Faults, size: nat)
    requires 2 <= size
    ensures Kept(faults, Init(size))
  {
  }

  /** Two leaders in one term can exist only if a voter that had forgotten its vote of that
      term granted a second candidate, or a grant was counted twice in a cluster of four or more. */
  lemma SafeWithoutFaults(config: RaftConfig, faults: Faults, size: nat)
    requires 2 <= size && !faults.solo
    requires size == 2 || (!faults.regrants && (size == 3 || !faults.recounts))
    ensures ElectionSafe(config, faults, size)
  {
    InitInvariant(faults, size);
    forall steps | ValidRun(config, faults, Init(size), steps)
      ensures AtMostOneLeaderPerTerm(Run(config, faults, Init(size), steps))
    {
      RunKept(config, faults, Init(size), steps);
      var end := Run(config, faults, Init(size), steps);
      if size == 2 {
        PairLeadersAreUnique(end);
      } else {
        BackedLeadersAreUnique(faults, end);
      }
    }
  }

  // ------------------------------------------------------- runs with two leaders

  lemma {:induction false} RunInTwo(config: RaftConfig, faults: Faults, c: Cluster, first: seq<Step>, second: seq<Step>)
    requires ValidRun(config, faults, c, first)
    requires ValidRun(config, faults, Run(config, faults, c, first), second)
    decreases |first|
    ensures ValidRun(config, faults, c, first + second)
    ensures Run(config, faults, c, first + second) == Run(config, faults, Run(config, faults, c, first), second)
  {
    if first == [] {
      assert first + second == second;
    } else {
      assert (first + second)[0] == first[0] && (first + second)[1..] == first[1..] + second;
      RunInTwo(config, faults, Next(config, faults, c, first[0]), first[1..], second);
    }
  }

  /** A cluster that some run from the start reaches. */
  ghost predicate Reachable(config: RaftConfig, faults: Faults, size: nat, c: Cluster) {
    exists steps :: ValidRun(config, faults, Init(size), steps) && Run(config, faults, Init(size), steps) == c
  }

  lemma ReachableStart(config: RaftConfig, faults: Faults, size: nat)
    ensures Reachable(config, faults, size, Init(size))
  {
    assert ValidRun(config, faults, Init(size), []) && Run(config, faults, Init(size), []) == Init(size);
  }

  lemma ReachableNext(config: RaftConfig, faults: Faults, size: nat, c: Cluster, step: Step)
    requires Reachable(config, faults, size, c) && Enabled(faults, c, step)
    ensures Reachable(config, faults, size, Next(config, faults, c, step))
  {
    var steps :| ValidRun(config, faults, Init(size), steps) && Run(config, faults, Init(size), steps) == c;
    assert [step][1..] == [];
    assert ValidRun(config, faults, c, [step]);
    assert Run(config, faults, c, [step]) == Run(config, faults, Next(config, faults, c, step), []);
    RunInTwo(config, faults, Init(size), steps, [step]);
  }

  lemma TwoLeadersUnsafe(config: RaftConfig, faults: Faults, size: nat, c: Cluster)
    requires Reachable(config, faults, size, c) && !AtMostOneLeaderPerTerm(c)
    ensures !ElectionSafe(config, faults, size)
  {
  }

  function RequestOf(node: NodeId): RaftMessage {
    RequestVote(1, node, 0, 0)
  }

  const HEARTBEAT: RaftMessage := AppendEntries(1, 0, 0, 0, [], 0)

  function CandidateState(node: NodeId, votes: nat): RaftState {
    RaftState(node, Candidate, 1, Some(node), [], 0, votes, 0)
  }

  function VoterState(node: NodeId, votedFor: Option<NodeId>): RaftState {
    RaftState(node, Follower, 1, votedFor, [], 0, 0, 0)
  }

  /** Nodes 0 and 1 stand in term 1; `votes` is node 1's tally, node 0 is in state `zero`. */
  predicate Standing(c: Cluster, size: nat, zero: RaftState, votes: nat) {
    && 2 < size == |c.nodes|
    && c.nodes[0] == zero && c.nodes[1] == CandidateState(1, votes)
    && RequestOf(0) in c.broadcasts && RequestOf(1) in c.broadcasts
  }

  lemma ReachStanding(config: RaftConfig, faults: Faults, size: nat) returns (c: Cluster)
    requires 2 < size
    ensures Reachable(config, faults, size, c)
    ensures Standing(c, size, CandidateState(0, 1), 1)
    ensures c.forgot == {} && c.counted == {} && c.leaders == {}
    ensures c.votes == {Vote(0, 0, 1), Vote(1, 1, 1)}
    ensures forall k | 2 <= k < size :: c.nodes[k] == NewNode(k)
  {
    ReachableStart(config, faults, size);
    c := Init(size);
    ReachableNext(config, faults, size, c, Tick(0, config.electionTimeoutMs, 2));
    c := Next(config, faults, c, Tick(0, config.electionTimeoutMs, 2));
    ReachableNext(config, faults, size, c, Tick(1, config.electionTimeoutMs, 2));
    c := Next(config, faults, c, Tick(1, config.electionTimeoutMs, 2));
  }

  // ---- a grant counted again and again

  /** Node 0 or 1 collects one fresh voter's grant `count` times. */
  lemma CountAgain(config: RaftConfig, faults: Faults, size: nat, before: Cluster, vote: Vote, votes: nat, count: nat)
    returns (c: Cluster)
    requires faults.recounts && Reachable(config, faults, size, before)
    requires vote in before.votes && vote.candidate < |before.nodes| && vote.voter != vote.candidate && vote.term == 1
    requires before.nodes[vote.candidate] == CandidateState(vote.candidate, votes)
    decreases count
    ensures Reachable(config, faults, size, c)
    ensures c == before.(nodes := before.nodes[vote.candidate := CandidateState(vote.candidate, votes + count)],
                         counted := c.counted)
  {
    c := before;
    if count != 0 {
      ReachableNext(config, faults, size, before, Return(vote));
      var next := Next(config, faults, before, Return(vote));
      c := CountAgain(config, faults, size, next, vote, votes + 1, count - 1);
    } else {
      assert before.nodes[vote.candidate := CandidateState(vote.candidate, votes)] == before.nodes;
    }
  }

  /** A candidate asks one fresh voter, counts its grant until it has a quorum, and leads. */
  lemma ElectByRecount(config: RaftConfig, faults: Faults, size: nat, before: Cluster, candidate: NodeId, voter: NodeId)
    returns (c: Cluster)
    requires faults.recounts && Reachable(config, faults, size, before)
    requires candidate < 2 <= voter < |before.nodes| == size && before.forgot == {}
    requires before.nodes[candidate] == CandidateState(candidate, 1) && before.nodes[voter] == NewNode(voter)
    requires RequestOf(candidate) in before.broadcasts
    ensures Reachable(config, faults, size, c)
    ensures |c.nodes| == size && c.forgot == {} && c.broadcasts == before.broadcasts
    ensures c.leaders == before.leaders + {(candidate, 1)}
    ensures forall k | 0 <= k < size && k != candidate && k != voter :: c.nodes[k] == before.nodes[k]
  {
    var ask := Ask(voter, RequestOf(candidate));
    ReachableNext(config, faults, size, before, ask);
    var asked := Next(config, faults, before, ask);
    var vote := Vote(voter, candidate, 1);
    var counted := CountAgain(config, faults, size, asked, vote, 1, Quorum(size));
    ReachableNext(config, faults, size, counted, Promote(candidate));
    c := Next(config, faults, counted, Promote(candidate));
  }

  lemma UnsafeByRecounts(config: RaftConfig, faults: Faults, size: nat)
    requires faults.recounts && 4 <= size
    ensures !ElectionSafe(config, faults, size)
  {
    var c := ReachStanding(config, faults, size);
    c := ElectByRecount(config, faults, size, c, 0, 2);
    c := ElectByRecount(config, faults, size, c, 1, 3);
    assert (0, 1) in c.leaders && (1, 1) in c.leaders;
    TwoLeadersUnsafe(config, faults, size, c);
  }

  // ---- ticked without peers

  lemma UnsafeBySolo(config: RaftConfig, faults: Faults, size: nat)
    requires faults.solo && 2 <= size
    ensures !ElectionSafe(config, faults, size)
  {
    ReachableStart(config, faults, size);
    var c := Init(size);
    ReachableNext(config, faults, size, c, Tick(0, config.electionTimeoutMs, 0));
    c := Next(config, faults, c, Tick(0, config.electionTimeoutMs, 0));
    ReachableNext(config, faults, size, c, Tick(1, config.electionTimeoutMs, 0));
    c := Next(config, faults, c, Tick(1, config.electionTimeoutMs, 0));
    assert (0, 1) in c.leaders && (1, 1) in c.leaders;
    TwoLeadersUnsafe(config, faults, size, c);
  }

  // ---- voters that forget

  /** Nodes 2 to `last` have each granted node 0 their vote, and node 0 has counted them. */
  predicate Wooed(c: Cluster, size: nat, last: nat) {
    && Standing(c, size, CandidateState(0, last), 1)
    && 1 <= last < size
    && c.forgot == {} && c.leaders == {}
    && (forall k | 2 <= k <= last :: c.nodes[k] == VoterState(k, Some(0)))
    && (forall k | last < k < size && 2 <= k :: c.nodes[k] == NewNode(k))
    && (forall vote | vote in c.counted :: vote.candidate == 0 && vote.voter <= last)
  }

  lemma Woo(config: RaftConfig, faults: Faults, size: nat, last: nat) returns (c: Cluster)
    requires 2 < size && 1 <= last < size
    ensures Reachable(config, faults, size, c) && Wooed(c, size, last)
  {
    if last == 1 {
      c := ReachStanding(config, faults, size);
    } else {
      var before := Woo(config, faults, size, last - 1);
      ReachableNext(config, faults, size, before, Ask(last, RequestOf(0)));
      var asked := Next(config, faults, before, Ask(last, RequestOf(0)));
      ReachableNext(config, faults, size, asked, Return(Vote(last, 0, 1)));
      c := Next(config, faults, asked, Return(Vote(last, 0, 1)));
    }
  }

  /** Node 0 leads, and nodes 2 to `last` have forgotten it and voted for node 1. */
  predicate Swayed(c: Cluster, size: nat, last: nat, quorum: nat) {
    && Standing(c, size, RaftState(0, Leader, 1, Some(0), [], 0, quorum, 0), last)
    && 1 <= last <= quorum < size
    && HEARTBEAT in c.broadcasts
    && (0, 1) in c.leaders
    && (forall k | last < k <= quorum && 2 <= k :: c.nodes[k] == VoterState(k, Some(0)))
    && (forall vote | vote in c.counted && vote.candidate == 1 :: vote.voter <= last)
  }

  lemma Sway(config: RaftConfig, faults: Faults, size: nat, last: nat) returns (c: Cluster)
    requires faults.regrants && 3 <= size && 1 <= last <= Quorum(size)
    ensures Reachable(config, faults, size, c) && Swayed(c, size, last, Quorum(size))
  {
    if last == 1 {
      var wooed := Woo(config, faults, size, Quorum(size));
      ReachableNext(config, faults, size, wooed, Promote(0));
      var promoted := Next(config, faults, wooed, Promote(0));
      ReachableNext(config, faults, size, promoted, Tick(0, config.heartbeatMs, 2));
      c := Next(config, faults, promoted, Tick(0, config.heartbeatMs, 2));
    } else {
      var before := Sway(config, faults, size, last - 1);
      ReachableNext(config, faults, size, before, Beat(last, HEARTBEAT));
      var beaten := Next(config, faults, before, Beat(last, HEARTBEAT));
      assert beaten.nodes[last] == VoterState(last, None);
      ReachableNext(config, faults, size, beaten, Ask(last, RequestOf(1)));
      var asked := Next(config, faults, beaten, Ask(last, RequestOf(1)));
      ReachableNext(config, faults, size, asked, Return(Vote(last, 1, 1)));
      c := Next(config, faults, asked, Return(Vote(last, 1, 1)));
    }
  }

  lemma UnsafeByRegrants(config: RaftConfig, faults: Faults, size: nat)
    requires faults.regrants && 3 <= size
    ensures !ElectionSafe(config, faults, size)
  {
    var swayed := Sway(config, faults, size, Quorum(size));
    ReachableNext(config, faults, size, swayed, Promote(1));
    var c := Next(config, faults, swayed, Promote(1));
    assert (0, 1) in c.leaders && (1, 1) in c.leaders;
    TwoLeadersUnsafe(config, faults, size, c);
  }

  // ------------------------------------------------------------ exact condition

  /** Replies reach only the candidate they answer, and no node hears its own request. Then a
      cluster of two or more nodes elects at most one leader per term in every run exactly
      when no node is ticked with fewer than two peers and, beyond two nodes, no voter grants
      a second candidate after a same-term AppendEntries erased its vote, and, beyond three
      nodes, no grant is counted twice. */
  lemma ElectionSafety(config: RaftConfig, faults: Faults, size: nat)
    requires 2 <= size
    ensures ElectionSafe(config, faults, size) <==>
            !faults.solo && (size == 2 || (!faults.regrants && (size == 3 || !faults.recounts)))
  {
    if faults.solo {
      UnsafeBySolo(config, faults, size);
    } else if size == 2 || (!faults.regrants && (size == 3 || !faults.recounts)) {
      SafeWithoutFaults(config, faults, size);
    } else if faults.regrants {
      UnsafeByRegrants(config, faults, size);
    } else {
      UnsafeByRecounts(config, faults, size);
    }
  }
}
