/**
 Identifiers, log entries and RPC messages shared by the Raft modules.
 Commands are the replicated log's payload: a client command is opaque to Raft,
 a membership change is the one kind Raft interprets itself.
 */
module RaftTypes {

  type NodeId = nat
  type Term = nat
  type LogIndex = nat

  datatype PeerAddress = PeerAddress(host: string, port: nat)

  datatype Command =
    | Client(payload: string)
    | AddServer(server: NodeId, address: PeerAddress)
    | RemoveServer(server: NodeId)

  datatype LogEntry = LogEntry(index: LogIndex, term: Term, command: Command)

  datatype Role = Follower | Candidate | Leader

  datatype VoteRequest = VoteRequest(term: Term, candidate: NodeId, lastLogIndex: LogIndex, lastLogTerm: Term)

  datatype VoteReply = VoteReply(term: Term, granted: bool)

  datatype AppendRequest = AppendRequest(
    term: Term, leader: NodeId, prevLogIndex: LogIndex, prevLogTerm: Term,
    entries: seq<LogEntry>, leaderCommit: LogIndex)

  datatype AppendReply = AppendReply(term: Term, success: bool, matchIndex: LogIndex)

  datatype SnapshotRequest = SnapshotRequest(
    term: Term, leader: NodeId, lastIncludedIndex: LogIndex, lastIncludedTerm: Term,
    membership: map<NodeId, PeerAddress>)

  datatype SnapshotReply = SnapshotReply(term: Term)

  function Min(a: nat, b: nat): nat { if a <= b then a else b }

  function Max(a: nat, b: nat): nat { if a <= b then b else a }
}
