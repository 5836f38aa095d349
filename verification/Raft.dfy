/** Cluster-head election (src/topology/raft.rs): one node, as the source updates it. */
module Raft {
  import opened Foundation

  type NodeId = nat

  datatype RaftRole = Follower | Candidate | Leader

  datatype LogEntry = LogEntry(term: nat, data: seq<U8>)

  datatype RaftConfig = RaftConfig(electionTimeoutMs: nat, heartbeatMs: nat)

  datatype RaftMessage =
    | RequestVote(term: nat, candidateId: NodeId, lastLogIndex: nat, lastLogTerm: nat)
    | VoteGranted(term: nat, voterId: NodeId, granted: bool)
    | AppendEntries(term: nat, leaderId: NodeId, prevLogIndex: nat, prevLogTerm: nat,
                    entries: seq<LogEntry>, leaderCommit: nat)
    | AppendEntriesAck(term: nat, followerId: NodeId, success: bool, matchIndex: nat)

  datatype RaftState = RaftState(
    id: NodeId,
    role: RaftRole,
    currentTerm: nat,
    votedFor: Option<NodeId>,
    log: seq<LogEntry>,
    commitIndex: nat,
    votesReceived: nat,
    elapsedMs: nat)

  function NewNode(id: NodeId): RaftState {
    RaftState(id, Follower, 0, None, [], 0, 0, 0)
  }

  function LastLogTerm(log: seq<LogEntry>): nat {
    if log == [] then 0 else log[|log| - 1].term
  }

  function Quorum(size: nat): nat {
    size / 2 + 1
  }

  // ---- what one call does to a node

  function Ticked(config: RaftConfig, node: RaftState, elapsedMs: nat, peers: nat): (RaftState, Option<RaftMessage>) {
    var waited := node.elapsedMs + elapsedMs;
    if node.role == Leader then
      if waited >= config.heartbeatMs then
        (node.(elapsedMs := 0),
         Some(AppendEntries(node.currentTerm, node.id, |node.log|, LastLogTerm(node.log), [], node.commitIndex)))
      else (node.(elapsedMs := waited), None)
    else if waited >= config.electionTimeoutMs then
      (node.(elapsedMs := 0, currentTerm := node.currentTerm + 1, votedFor := Some(node.id), votesReceived := 1,
             role := if Quorum(peers) <= 1 then Leader else Candidate),
       Some(RequestVote(node.currentTerm + 1, node.id, |node.log|, LastLogTerm(node.log))))
    else (node.(elapsedMs := waited), None)
  }

  /** A follower of the term, its vote and clock cleared, with the given log. */
  function Stepped(node: RaftState, term: nat, log: seq<LogEntry>): RaftState {
    node.(currentTerm := term, role := Follower, votedFor := None, elapsedMs := 0, log := log)
  }

  /** The node once it has stepped up to a request's term. */
  function SteppedUp(node: RaftState, term: nat): RaftState {
    if term > node.currentTerm then node.(currentTerm := term, role := Follower, votedFor := None) else node
  }

  predicate Grants(node: RaftState, term: nat, candidate: NodeId) {
    var voter := SteppedUp(node, term);
    term >= voter.currentTerm && (voter.votedFor.None? || voter.votedFor == Some(candidate))
  }

  function Asked(node: RaftState, term: nat, candidate: NodeId): (RaftState, RaftMessage) {
    var voter := SteppedUp(node, term);
    var granted := Grants(node, term, candidate);
    (if granted then voter.(votedFor := Some(candidate), elapsedMs := 0) else voter,
     VoteGranted(voter.currentTerm, voter.id, granted))
  }

  predicate Counts(node: RaftState, term: nat, granted: bool) {
    term == node.currentTerm && node.role == Candidate && granted
  }

  function Appended(node: RaftState, message: RaftMessage): (RaftState, RaftMessage)
    requires message.AppendEntries?
  {
    if message.term >= node.currentTerm then
      var log := node.log + message.entries;
      (Stepped(node, message.term, log).(
             commitIndex := if message.leaderCommit <= node.commitIndex then node.commitIndex
                            else if message.leaderCommit <= |log| then message.leaderCommit else |log|),
       AppendEntriesAck(message.term, node.id, true, |log|))
    else (node, AppendEntriesAck(node.currentTerm, node.id, false, |node.log|))
  }

  function Handled(node: RaftState, message: RaftMessage): (RaftState, Option<RaftMessage>) {
    match message
    case RequestVote(term, candidate, _, _) =>
      var (voter, reply) := Asked(node, term, candidate);
      (voter, Some(reply))
    case VoteGranted(term, _, granted) =>
      (if Counts(node, term, granted) then node.(votesReceived := node.votesReceived + 1) else node, None)
    case AppendEntries(_, _, _, _, _, _) =>
      var (follower, reply) := Appended(node, message);
      (follower, Some(reply))
    case AppendEntriesAck(_, _, _, _) => (node, None)
  }

  function Promoted(node: RaftState, clusterSize: nat): RaftState {
    if node.role == Candidate && node.votesReceived >= Quorum(clusterSize) then node.(role := Leader) else node
  }

  class RaftNode {
    const id: NodeId
    const config: RaftConfig
    var role: RaftRole
    var currentTerm: nat
    var votedFor: Option<NodeId>
    var log: seq<LogEntry>
    var commitIndex: nat
    var votesReceived: nat
    var elapsedMs: nat

    function State(): RaftState
      reads this
    {
      RaftState(id, role, currentTerm, votedFor, log, commitIndex, votesReceived, elapsedMs)
    }

    constructor (id: NodeId, config: RaftConfig)
      ensures State() == NewNode(id) && this.config == config
    {
      this.id, this.config := id, config;
      role, currentTerm, votedFor := Follower, 0, None;
      log, commitIndex, votesReceived, elapsedMs := [], 0, 0, 0;
    }

    method Tick(elapsed: nat, peers: nat) returns (broadcast: Option<RaftMessage>)
      modifies this
      ensures (State(), broadcast) == Ticked(config, old(State()), elapsed, peers)
    {
      elapsedMs := elapsedMs + elapsed;
      if role == Leader {
        if elapsedMs >= config.heartbeatMs {
          elapsedMs := 0;
          return Some(AppendEntries(currentTerm, id, |log|, LastLogTerm(log), [], commitIndex));
        }
        return None;
      }
      if elapsedMs >= config.electionTimeoutMs {
        elapsedMs := 0;
        currentTerm := currentTerm + 1;
        role := Candidate;
        votedFor := Some(id);
        votesReceived := 1;
        if peers / 2 + 1 <= 1 {
          role := Leader;
        }
        return Some(RequestVote(currentTerm, id, |log|, LastLogTerm(log)));
      }
      return None;
    }

    method HandleMessage(message: RaftMessage) returns (reply: Option<RaftMessage>)
      modifies this
      ensures (State(), reply) == Handled(old(State()), message)
    {
      match message {
        case RequestVote(term, candidateId, _, _) =>
          if term > currentTerm {
            currentTerm := term;
            role := Follower;
            votedFor := None;
          }
          var granted := term >= currentTerm && (votedFor.None? || votedFor == Some(candidateId));
          if granted {
            votedFor := Some(candidateId);
            elapsedMs := 0;
          }
          return Some(VoteGranted(currentTerm, id, granted));
        case VoteGranted(term, _, granted) =>
          if term == currentTerm && role == Candidate && granted {
            votesReceived := votesReceived + 1;
          }
          return None;
        case AppendEntries(term, _, _, _, entries, leaderCommit) =>
          if term >= currentTerm {
            currentTerm := term;
            role := Follower;
            votedFor := None;
            elapsedMs := 0;
            var k := 0;
            ghost var before := log;
            while k < |entries|
              invariant 0 <= k <= |entries|
              invariant log == before + entries[..k]
              invariant State() == Stepped(old(State()), term, log)
            {
              assert entries[..k + 1] == entries[..k] + [entries[k]];
              log := log + [entries[k]];
              k := k + 1;
            }
            assert entries[..k] == entries;
            if leaderCommit > commitIndex {
              commitIndex := if leaderCommit <= |log| then leaderCommit else |log|;
            }
            return Some(AppendEntriesAck(currentTerm, id, true, |log|));
          }
          return Some(AppendEntriesAck(currentTerm, id, false, |log|));
        case AppendEntriesAck(_, _, _, _) =>
          return None;
      }
    }

    method TryPromote(clusterSize: nat)
      modifies this
      ensures State() == Promoted(old(State()), clusterSize)
    {
      if role == Candidate {
        var quorum := clusterSize / 2 + 1;
        if votesReceived >= quorum {
          role := Leader;
        }
      }
    }
  }
}
