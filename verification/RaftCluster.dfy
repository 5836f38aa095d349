/** Elections in a fixed cluster over a network that may lose, delay, repeat and reorder
    messages, and the invariants behind election safety. */
module RaftCluster {
  import opened Foundation
  import opened Raft

  /** A vote that a node cast, by granting a request or by standing itself. */
  datatype Vote = Vote(voter: NodeId, candidate: NodeId, term: nat)

  /** `broadcasts` are the requests and heartbeats sent so far, `votes` every vote ever cast,
      `counted` the votes of others that their candidate has added up, `leaders` every node
      that ever led with the term it led, `forgot` the voters that lost a vote of that term
      to an AppendEntries of the same term. */
  datatype Cluster = Cluster(
    nodes: seq<RaftState>,
    broadcasts: set<RaftMessage>,
    votes: set<Vote>,
    counted: set<Vote>,
    leaders: set<(NodeId, nat)>,
    forgot: set<(NodeId, nat)>)

  function Init(size: nat): Cluster {
    Cluster(seq(size, i requires 0 <= i < size => NewNode(i)), {}, {}, {}, {}, {})
  }

  /** A granted request's reply goes to the candidate it answers; `Return` delivers it. */
  datatype Step =
    | Tick(node: NodeId, elapsedMs: nat, peers: nat)
    | Ask(voter: NodeId, request: RaftMessage)
    | Return(vote: Vote)
    | Beat(node: NodeId, heartbeat: RaftMessage)
    | Promote(node: NodeId)

  /** What the environment may do beyond an orderly election: get a second candidate's request
      granted by a voter that has forgotten its vote of that term, let a candidate count a
      voter's grant more than once, or tick a node with fewer than two peers. */
  datatype Faults = Faults(regrants: bool, recounts: bool, solo: bool)

  /** The voter would grant a second candidate a vote of a term in which a heartbeat erased
      the vote it had cast. Denied requests and repeats of the same candidate's do not count. */
  predicate Regrants(c: Cluster, voter: NodeId, request: RaftMessage)
    requires voter < |c.nodes| && request.RequestVote?
  {
    && (voter, request.term) in c.forgot
    && Grants(c.nodes[voter], request.term, request.candidateId)
    && exists vote | vote in c.votes ::
         vote.voter == voter && vote.term == request.term && vote.candidate != request.candidateId
  }

  predicate Enabled(faults: Faults, c: Cluster, step: Step) {
    match step
    case Tick(node, _, peers) => node < |c.nodes| && (faults.solo || 2 <= peers)
    case Ask(voter, request) =>
      && voter < |c.nodes| && request.RequestVote? && request in c.broadcasts && request.candidateId != voter
      && (faults.regrants || !Regrants(c, voter, request))
    case Return(vote) =>
      && vote in c.votes && vote.voter != vote.candidate && vote.candidate < |c.nodes|
      && (faults.recounts || vote !in c.counted)
    case Beat(node, heartbeat) => node < |c.nodes| && heartbeat.AppendEntries? && heartbeat in c.broadcasts
    case Promote(node) => node < |c.nodes|
  }

  /** Stores a node's new state, and records it if it leads. */
  function Store(c: Cluster, node: NodeId, state: RaftState): Cluster
    requires node < |c.nodes|
  {
    c.(nodes := c.nodes[node := state],
       leaders := if state.role == Leader then c.leaders + {(node, state.currentTerm)} else c.leaders)
  }

  function Next(config: RaftConfig, faults: Faults, c: Cluster, step: Step): Cluster
    requires Enabled(faults, c, step)
  {
    match step
    case Tick(node, elapsedMs, peers) =>
      var (state, message) := Ticked(config, c.nodes[node], elapsedMs, peers);
      var sent := if message.Some? then c.broadcasts + {message.value} else c.broadcasts;
      var votes := if message.Some? && message.value.RequestVote?
          then c.votes + {Vote(node, node, state.currentTerm)} else c.votes;
      Store(c, node, state).(broadcasts := sent, votes := votes)
    case Ask(voter, request) =>
      var granted := Grants(c.nodes[voter], request.term, request.candidateId);
      Store(c, voter, Handled(c.nodes[voter], request).0).(
        votes := if granted then c.votes + {Vote(voter, request.candidateId, request.term)} else c.votes)
    case Return(vote) =>
      var counts := Counts(c.nodes[vote.candidate], vote.term, true);
      Store(c, vote.candidate, Handled(c.nodes[vote.candidate], VoteGranted(vote.term, vote.voter, true)).0).(
        counted := if counts then c.counted + {vote} else c.counted)
    case Beat(node, heartbeat) =>
      var forgets := heartbeat.term == c.nodes[node].currentTerm && c.nodes[node].votedFor.Some?;
      Store(c, node, Handled(c.nodes[node], heartbeat).0).(
        forgot := if forgets then c.forgot + {(node, heartbeat.term)} else c.forgot)
    case Promote(node) => Store(c, node, Promoted(c.nodes[node], |c.nodes|))
  }

  predicate ValidRun(config: RaftConfig, faults: Faults, c: Cluster, steps: seq<Step>)
    decreases |steps|
  {
    steps != [] ==>
      Enabled(faults, c, steps[0]) && ValidRun(config, faults, Next(config, faults, c, steps[0]), steps[1..])
  }

  function Run(config: RaftConfig, faults: Faults, c: Cluster, steps: seq<Step>): Cluster
    requires ValidRun(config, faults, c, steps)
    decreases |steps|
  {
    if steps == [] then c else Run(config, faults, Next(config, faults, c, steps[0]), steps[1..])
  }

  predicate AtMostOneLeaderPerTerm(c: Cluster) {
    forall a, b | a in c.leaders && b in c.leaders && a.1 == b.1 :: a.0 == b.0
  }

  // ---------------------------------------------------------------- invariants

  function Voters(votes: set<Vote>, candidate: NodeId, term: nat): set<NodeId> {
    set vote | vote in votes && vote.candidate == candidate && vote.term == term :: vote.voter
  }

  lemma MoreVoters(fewer: set<Vote>, more: set<Vote>, candidate: NodeId, term: nat)
    requires fewer <= more
    ensures Voters(fewer, candidate, term) <= Voters(more, candidate, term)
    ensures |Voters(fewer, candidate, term)| <= |Voters(more, candidate, term)|
  {
    SubsetSize(Voters(fewer, candidate, term), Voters(more, candidate, term));
  }

  /** Votes belong to terms their voter has reached, and the voter still remembers a vote of
      its current term unless a heartbeat made it forget. */
  predicate VotesRemembered(c: Cluster) {
    forall vote | vote in c.votes ::
      && vote.voter < |c.nodes|
      && vote.term <= c.nodes[vote.voter].currentTerm
      && (vote.term == c.nodes[vote.voter].currentTerm ==>
            c.nodes[vote.voter].votedFor == Some(vote.candidate) || (vote.voter, vote.term) in c.forgot)
  }

  /** A voter has one candidate per term. */
  predicate OneVotePerTerm(c: Cluster) {
    forall a, b | a in c.votes && b in c.votes && a.voter == b.voter && a.term == b.term :: a.candidate == b.candidate
  }

  predicate CountsAreVotes(c: Cluster) {
    && c.counted <= c.votes
    && forall vote | vote in c.counted ::
         vote.voter != vote.candidate && vote.candidate < |c.nodes| && vote.term <= c.nodes[vote.candidate].currentTerm
  }

  /** A candidate has voted for itself, and its tally is backed by counted votes. */
  predicate TallyBacked(faults: Faults, c: Cluster, node: NodeId)
    requires node < |c.nodes|
  {
    var state := c.nodes[node];
    state.role == Candidate ==>
      && Vote(node, node, state.currentTerm) in c.votes
      && (!faults.recounts ==> state.votesReceived == 1 + |Voters(c.counted, node, state.currentTerm)|)
      && (state.votesReceived >= 2 ==> Voters(c.counted, node, state.currentTerm) != {})
  }

  /** How many distinct voters stand behind a leader. */
  function Backing(faults: Faults, size: nat): nat {
    if faults.recounts then 2 else Quorum(size)
  }

  predicate LeadersBacked(faults: Faults, c: Cluster) {
    forall leader | leader in c.leaders :: |Voters(c.votes, leader.0, leader.1)| >= Backing(faults, |c.nodes|)
  }

  predicate Invariant(faults: Faults, c: Cluster) {
    && 2 <= |c.nodes|
    && (forall k | 0 <= k < |c.nodes| :: c.nodes[k].id == k)
    && VotesRemembered(c)
    && (!faults.regrants ==> OneVotePerTerm(c))
    && CountsAreVotes(c)
    && (forall k | 0 <= k < |c.nodes| :: TallyBacked(faults, c, k))
    && LeadersBacked(faults, c)
  }

  // ---- every step keeps them

  /** A leader stays backed when votes are only added. */
  lemma BackingGrows(faults: Faults, before: Cluster, after: Cluster)
    requires LeadersBacked(faults, before)
    requires before.votes <= after.votes && after.leaders <= before.leaders && |after.nodes| == |before.nodes|
    ensures LeadersBacked(faults, after)
  {
    forall leader | leader in after.leaders
      ensures |Voters(after.votes, leader.0, leader.1)| >= Backing(faults, |after.nodes|)
    {
      MoreVoters(before.votes, after.votes, leader.0, leader.1);
    }
  }

  lemma TickKeepsVotes(config: RaftConfig, faults: Faults, c: Cluster, step: Step)
    requires Invariant(faults, c) && step.Tick? && Enabled(faults, c, step)
    ensures VotesRemembered(Next(config, faults, c, step)) && CountsAreVotes(Next(config, faults, c, step))
  {
  }

  lemma TickKeepsOneVote(config: RaftConfig, faults: Faults, c: Cluster, step: Step)
    requires Invariant(faults, c) && step.Tick? && Enabled(faults, c, step) && !faults.regrants
    ensures OneVotePerTerm(Next(config, faults, c, step))
  {
  }

  lemma TickKeepsTally(config: RaftConfig, faults: Faults, c: Cluster, step: Step, k: NodeId)
    requires Invariant(faults, c) && !faults.solo && step.Tick? && Enabled(faults, c, step) && k < |c.nodes|
    ensures k < |Next(config, faults, c, step).nodes| && TallyBacked(faults, Next(config, faults, c, step), k)
  {
    var after := Next(config, faults, c, step);
    assert TallyBacked(faults, c, k);
    if k == step.node && after.nodes[k].role == Candidate && after.nodes[k].currentTerm != c.nodes[k].currentTerm {
      assert Voters(after.counted, k, after.nodes[k].currentTerm) == {};
    }
  }

  lemma TickKeepsInvariant(config: RaftConfig, faults: Faults, c: Cluster, step: Step)
    requires Invariant(faults, c) && !faults.solo
    requires step.Tick? && Enabled(faults, c, step)
    requires c.nodes[step.node].role == Leader ==> (step.node, c.nodes[step.node].currentTerm) in c.leaders
    ensures Invariant(faults, Next(config, faults, c, step))
  {
    var after := Next(config, faults, c, step);
    BackingGrows(faults, c, after);
    TickKeepsVotes(config, faults, c, step);
    if !faults.regrants {
      TickKeepsOneVote(config, faults, c, step);
    }
    forall k | 0 <= k < |after.nodes|
      ensures TallyBacked(faults, after, k)
    {
      TickKeepsTally(config, faults, c, step, k);
    }
  }

  lemma AskKeepsVotes(config: RaftConfig, faults: Faults, c: Cluster, step: Step)
    requires Invariant(faults, c) && step.Ask? && Enabled(faults, c, step)
    ensures var after := Next(config, faults, c, step);
            VotesRemembered(after) && CountsAreVotes(after)
  {
  }

  lemma AskKeepsOneVote(config: RaftConfig, faults: Faults, c: Cluster, step: Step)
    requires Invariant(faults, c) && step.Ask? && Enabled(faults, c, step) && !faults.regrants
    ensures OneVotePerTerm(Next(config, faults, c, step))
  {
  }

  lemma AskKeepsTally(config: RaftConfig, faults: Faults, c: Cluster, step: Step, k: NodeId)
    requires Invariant(faults, c) && step.Ask? && Enabled(faults, c, step) && k < |c.nodes|
    ensures k < |Next(config, faults, c, step).nodes| && TallyBacked(faults, Next(config, faults, c, step), k)
  {
    assert TallyBacked(faults, c, k);
  }

  lemma AskKeepsInvariant(config: RaftConfig, faults: Faults, c: Cluster, step: Step)
    requires Invariant(faults, c)
    requires step.Ask? && Enabled(faults, c, step)
    requires c.nodes[step.voter].role == Leader ==> (step.voter, c.nodes[step.voter].currentTerm) in c.leaders
    ensures Invariant(faults, Next(config, faults, c, step))
  {
    var after := Next(config, faults, c, step);
    BackingGrows(faults, c, after);
    AskKeepsVotes(config, faults, c, step);
    if !faults.regrants {
      AskKeepsOneVote(config, faults, c, step);
    }
    forall k | 0 <= k < |after.nodes|
      ensures TallyBacked(faults, after, k)
    {
      AskKeepsTally(config, faults, c, step, k);
    }
  }

  /** Counting one more grant adds its voter to the counted ones, and a new voter unless the
      grant is counted again. */
  lemma CountedVoters(counted: set<Vote>, vote: Vote, candidate: NodeId, term: nat)
    ensures Voters(counted + {vote}, candidate, term) == Voters(counted, candidate, term)
            + (if vote.candidate == candidate && vote.term == term then {vote.voter} else {})
    ensures vote.voter in Voters(counted, vote.candidate, vote.term) <==> vote in counted
  {
    if vote.voter in Voters(counted, vote.candidate, vote.term) {
      var v :| v in counted && v.candidate == vote.candidate && v.term == vote.term && v.voter == vote.voter;
      assert v == vote;
    }
  }

  /** The tally of any node but the candidate that the grant returns to. */
  lemma ReturnKeepsOtherTally(config: RaftConfig, faults: Faults, c: Cluster, step: Step, k: NodeId)
    requires Invariant(faults, c) && step.Return? && Enabled(faults, c, step)
    requires k < |c.nodes| && k != step.vote.candidate
    ensures k < |Next(config, faults, c, step).nodes| && TallyBacked(faults, Next(config, faults, c, step), k)
  {
    assert TallyBacked(faults, c, k);
    CountedVoters(c.counted, step.vote, k, c.nodes[k].currentTerm);
  }

  lemma ReturnKeepsOwnTally(config: RaftConfig, faults: Faults, c: Cluster, step: Step)
    requires Invariant(faults, c) && step.Return? && Enabled(faults, c, step)
    ensures step.vote.candidate < |Next(config, faults, c, step).nodes|
    ensures TallyBacked(faults, Next(config, faults, c, step), step.vote.candidate)
  {
    var k := step.vote.candidate;
    assert TallyBacked(faults, c, k);
    CountedVoters(c.counted, step.vote, k, c.nodes[k].currentTerm);
  }

  lemma ReturnKeepsInvariant(config: RaftConfig, faults: Faults, c: Cluster, step: Step)
    requires Invariant(faults, c)
    requires step.Return? && Enabled(faults, c, step)
    requires c.nodes[step.vote.candidate].role == Leader ==>
               (step.vote.candidate, c.nodes[step.vote.candidate].currentTerm) in c.leaders
    ensures Invariant(faults, Next(config, faults, c, step))
  {
    var after := Next(config, faults, c, step);
    BackingGrows(faults, c, after);
    forall k | 0 <= k < |after.nodes|
      ensures TallyBacked(faults, after, k)
    {
      if k == step.vote.candidate {
        ReturnKeepsOwnTally(config, faults, c, step);
      } else {
        ReturnKeepsOtherTally(config, faults, c, step, k);
      }
    }
  }

  lemma BeatKeepsInvariant(config: RaftConfig, faults: Faults, c: Cluster, step: Step)
    requires Invariant(faults, c)
    requires step.Beat? && Enabled(faults, c, step)
    requires c.nodes[step.node].role == Leader ==> (step.node, c.nodes[step.node].currentTerm) in c.leaders
    ensures Invariant(faults, Next(config, faults, c, step))
  {
    var after := Next(config, faults, c, step);
    BackingGrows(faults, c, after);
    forall k | 0 <= k < |after.nodes|
      ensures TallyBacked(faults, after, k)
    {
      assert TallyBacked(faults, c, k);
    }
  }

  /** A promoted candidate has its own vote and a voter for every vote it counted. */
  lemma PromotedIsBacked(faults: Faults, c: Cluster, node: NodeId)
    requires Invariant(faults, c) && node < |c.nodes| && c.nodes[node].role == Candidate
    requires c.nodes[node].votesReceived >= Quorum(|c.nodes|)
    ensures |Voters(c.votes, node, c.nodes[node].currentTerm)| >= Backing(faults, |c.nodes|)
  {
    assert TallyBacked(faults, c, node);
    var term := c.nodes[node].currentTerm;
    var backers, others := Voters(c.votes, node, term), Voters(c.counted, node, term);
    assert others + {node} <= backers;
    assert node !in others;
    SubsetSize(others + {node}, backers);
  }

  lemma PromoteKeepsBacking(config: RaftConfig, faults: Faults, c: Cluster, step: Step)
    requires Invariant(faults, c)
    requires step.Promote? && Enabled(faults, c, step)
    requires c.nodes[step.node].role == Leader ==> (step.node, c.nodes[step.node].currentTerm) in c.leaders
    ensures LeadersBacked(faults, Next(config, faults, c, step))
  {
    var after := Next(config, faults, c, step);
    var node, state := step.node, c.nodes[step.node];
    if after.nodes[node] != state {
      PromotedIsBacked(faults, c, node);
      assert after.leaders == c.leaders + {(node, state.currentTerm)};
    } else {
      assert after.leaders == c.leaders;
    }
  }

  lemma PromoteKeepsInvariant(config: RaftConfig, faults: Faults, c: Cluster, step: Step)
    requires Invariant(faults, c)
    requires step.Promote? && Enabled(faults, c, step)
    requires c.nodes[step.node].role == Leader ==> (step.node, c.nodes[step.node].currentTerm) in c.leaders
    ensures Invariant(faults, Next(config, faults, c, step))
  {
    var after := Next(config, faults, c, step);
    PromoteKeepsBacking(config, faults, c, step);
    forall k | 0 <= k < |after.nodes|
      ensures TallyBacked(faults, after, k)
    {
      assert TallyBacked(faults, c, k);
    }
  }

  /** Every node that leads is on record. */
  predicate LeadersRecorded(c: Cluster) {
    forall k | 0 <= k < |c.nodes| && c.nodes[k].role == Leader :: (k, c.nodes[k].currentTerm) in c.leaders
  }

  lemma NextKeepsInvariant(config: RaftConfig, faults: Faults, c: Cluster, step: Step)
    requires Invariant(faults, c) && LeadersRecorded(c) && !faults.solo
    requires Enabled(faults, c, step)
    ensures Invariant(faults, Next(config, faults, c, step)) && LeadersRecorded(Next(config, faults, c, step))
  {
    match step
    case Tick(_, _, _) => TickKeepsInvariant(config, faults, c, step);
    case Ask(_, _) => AskKeepsInvariant(config, faults, c, step);
    case Return(_) => ReturnKeepsInvariant(config, faults, c, step);
    case Beat(_, _) => BeatKeepsInvariant(config, faults, c, step);
    case Promote(_) => PromoteKeepsInvariant(config, faults, c, step);
  }

  // ------------------------------------------------------------ quorum intersection

  /** Two leaders of one term would need disjoint sets of voters too large for the cluster. */
  lemma BackedLeadersAreUnique(faults: Faults, c: Cluster)
    requires Invariant(faults, c) && OneVotePerTerm(c)
    requires !faults.recounts || |c.nodes| <= 3
    ensures AtMostOneLeaderPerTerm(c)
  {
    forall a, b | a in c.leaders && b in c.leaders && a.1 == b.1
      ensures a.0 == b.0
    {
      if a.0 != b.0 {
        var left, right := Voters(c.votes, a.0, a.1), Voters(c.votes, b.0, b.1);
        assert left !! right;
        assert |left + right| == |left| + |right|;
        SubsetSize(left + right, Below(|c.nodes|));
      }
    }
  }

  // --------------------------------------------------------------- two-node clusters

  predicate LedTerm(c: Cluster, term: nat) {
    (0, term) in c.leaders || (1, term) in c.leaders
  }

  /** The peer of a leader never stood in that term, nor can it any more. */
  predicate PairLeaders(c: Cluster)
    requires |c.nodes| == 2
  {
    forall leader | leader in c.leaders ::
      && leader.0 < 2
      && Vote(leader.0, leader.0, leader.1) in c.votes
      && Vote(1 - leader.0, 1 - leader.0, leader.1) !in c.votes
      && leader.1 <= c.nodes[1 - leader.0].currentTerm
  }

  /** Until a term is led, nobody who stood in it votes for the other. */
  predicate PairVotes(c: Cluster) {
    forall vote | vote in c.votes && vote.voter != vote.candidate
        && Vote(vote.voter, vote.voter, vote.term) in c.votes ::
      LedTerm(c, vote.term)
  }

  /** Until a term is led, who stood in it remembers that vote. */
  predicate PairMemory(c: Cluster) {
    forall v | 0 <= v < |c.nodes| && Vote(v, v, c.nodes[v].currentTerm) in c.votes ::
      c.nodes[v].votedFor == Some(v) || LedTerm(c, c.nodes[v].currentTerm)
  }

  /** Heartbeats come from terms that were led. */
  predicate PairBeats(c: Cluster) {
    forall message | message in c.broadcasts && message.AppendEntries? :: LedTerm(c, message.term)
  }

  predicate PairInvariant(c: Cluster)
    requires |c.nodes| == 2
  {
    PairLeaders(c) && PairVotes(c) && PairMemory(c) && PairBeats(c)
  }

  /** What the steps below use of the general invariant. */
  predicate PairGround(c: Cluster) {
    && |c.nodes| == 2
    && c.nodes[0].id == 0 && c.nodes[1].id == 1
    && VotesRemembered(c)
    && LeadersRecorded(c)
    && PairInvariant(c)
  }

  lemma PairTickLeaders(config: RaftConfig, faults: Faults, c: Cluster, step: Step)
    requires PairGround(c) && !faults.solo && step.Tick? && Enabled(faults, c, step)
    ensures Next(config, faults, c, step).leaders == c.leaders && PairLeaders(Next(config, faults, c, step))
  {
  }

  lemma PairTickVotes(config: RaftConfig, faults: Faults, c: Cluster, step: Step)
    requires PairGround(c) && step.Tick? && Enabled(faults, c, step)
    requires Next(config, faults, c, step).leaders == c.leaders
    ensures PairVotes(Next(config, faults, c, step)) && PairMemory(Next(config, faults, c, step))
  {
  }

  lemma PairTick(config: RaftConfig, faults: Faults, c: Cluster, step: Step)
    requires PairGround(c) && !faults.solo && step.Tick? && Enabled(faults, c, step)
    ensures PairInvariant(Next(config, faults, c, step))
  {
    PairTickLeaders(config, faults, c, step);
    PairTickVotes(config, faults, c, step);
    assert PairBeats(Next(config, faults, c, step));
  }

  lemma PairAsk(config: RaftConfig, faults: Faults, c: Cluster, step: Step)
    requires PairGround(c) && step.Ask? && Enabled(faults, c, step)
    ensures PairInvariant(Next(config, faults, c, step))
  {
    var after := Next(config, faults, c, step);
    assert after.leaders == c.leaders;
    assert PairLeaders(after);
    assert PairVotes(after);
    assert PairMemory(after);
  }

  lemma PairBeat(config: RaftConfig, faults: Faults, c: Cluster, step: Step)
    requires PairGround(c) && step.Beat? && Enabled(faults, c, step)
    ensures PairInvariant(Next(config, faults, c, step))
  {
    var after := Next(config, faults, c, step);
    assert after.leaders == c.leaders;
    assert PairMemory(after);
  }

  lemma PairReturn(config: RaftConfig, faults: Faults, c: Cluster, step: Step)
    requires PairGround(c) && step.Return? && Enabled(faults, c, step)
    ensures PairInvariant(Next(config, faults, c, step))
  {
    var after := Next(config, faults, c, step);
    assert after.leaders == c.leaders;
    assert PairMemory(after);
  }

  /** A candidate with a counted vote has beaten its peer for good. */
  lemma PairVictory(faults: Faults, c: Cluster, node: NodeId)
    requires PairGround(c) && CountsAreVotes(c) && node < 2 && TallyBacked(faults, c, node)
    requires c.nodes[node].role == Candidate && c.nodes[node].votesReceived >= 2
    ensures Vote(1 - node, 1 - node, c.nodes[node].currentTerm) !in c.votes
    ensures c.nodes[node].currentTerm <= c.nodes[1 - node].currentTerm
  {
    var term := c.nodes[node].currentTerm;
    var other :| other in Voters(c.counted, node, term);
    assert Vote(other, node, term) in c.counted;
    assert Vote(other, node, term) in c.votes && other == 1 - node;
    assert Vote(other, other, term) in c.votes ==> LedTerm(c, term);
  }

  /** The cluster once `node` leads. */
  function Crowned(c: Cluster, node: NodeId): Cluster
    requires node < |c.nodes|
  {
    Store(c, node, c.nodes[node].(role := Leader))
  }

  lemma PairCrownedLeaders(faults: Faults, c: Cluster, node: NodeId)
    requires PairGround(c) && CountsAreVotes(c) && node < 2 && TallyBacked(faults, c, node)
    requires c.nodes[node].role == Candidate && c.nodes[node].votesReceived >= 2
    ensures PairLeaders(Crowned(c, node))
  {
    PairVictory(faults, c, node);
    assert Crowned(c, node).leaders == c.leaders + {(node, c.nodes[node].currentTerm)};
  }

  lemma PairCrownedRest(c: Cluster, node: NodeId)
    requires PairGround(c) && node < 2
    ensures PairVotes(Crowned(c, node)) && PairMemory(Crowned(c, node)) && PairBeats(Crowned(c, node))
  {
    LedTermsStay(c, Crowned(c, node));
  }

  /** A term that was led stays led. */
  lemma LedTermsStay(c: Cluster, after: Cluster)
    requires c.leaders <= after.leaders
    ensures forall term | LedTerm(c, term) :: LedTerm(after, term)
  {
  }

  lemma PairPromote(config: RaftConfig, faults: Faults, c: Cluster, step: Step)
    requires PairGround(c) && CountsAreVotes(c) && step.Promote? && Enabled(faults, c, step)
    requires TallyBacked(faults, c, step.node)
    ensures PairInvariant(Next(config, faults, c, step))
  {
    var node := step.node;
    if Promoted(c.nodes[node], 2) == c.nodes[node] {
      PairUnmoved(config, faults, c, step);
    } else {
      PairCrownedLeaders(faults, c, node);
      PairCrownedRest(c, node);
      assert Next(config, faults, c, step) == Crowned(c, node);
    }
  }

  lemma PairUnmoved(config: RaftConfig, faults: Faults, c: Cluster, step: Step)
    requires PairGround(c) && step.Promote? && Enabled(faults, c, step)
    requires Promoted(c.nodes[step.node], 2) == c.nodes[step.node]
    ensures PairInvariant(Next(config, faults, c, step))
  {
    var after := Next(config, faults, c, step);
    assert after.nodes == c.nodes;
    assert after.leaders == c.leaders;
    assert after == c;
  }

  lemma PairKept(config: RaftConfig, faults: Faults, c: Cluster, step: Step)
    requires Invariant(faults, c) && LeadersRecorded(c) && !faults.solo && |c.nodes| == 2
    requires PairInvariant(c) && Enabled(faults, c, step)
    ensures PairInvariant(Next(config, faults, c, step))
  {
    match step
    case Tick(_, _, _) => PairTick(config, faults, c, step);
    case Ask(_, _) => PairAsk(config, faults, c, step);
    case Return(_) => PairReturn(config, faults, c, step);
    case Beat(_, _) => PairBeat(config, faults, c, step);
    case Promote(_) => PairPromote(config, faults, c, step);
  }

  /** With only two nodes, neither a forgotten vote nor a repeated count elects two leaders. */
  lemma PairLeadersAreUnique(c: Cluster)
    requires |c.nodes| == 2 && PairInvariant(c)
    ensures AtMostOneLeaderPerTerm(c)
  {
    forall a, b | a in c.leaders && b in c.leaders && a.1 == b.1
      ensures a.0 == b.0
    {
      assert Vote(b.0, b.0, b.1) in c.votes;
    }
  }
}
