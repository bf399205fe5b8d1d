/** The two small files a node keeps beside its log. Every save replaces the file as a whole. */
module RaftDurable {
  import opened Options
  import opened RaftTypes
  import opened RaftNodeState

  /** Term and vote as written; a negative number stands for no vote. */
  datatype VoteFile = VoteFile(term: Term, vote: int)

  function LoadedTerm(file: Option<VoteFile>): Term { if file.Some? then file.value.term else 0 }

  function LoadedVote(file: Option<VoteFile>): Option<NodeId> {
    if file.Some? && file.value.vote >= 0 then Some(file.value.vote) else None
  }

  class PersistentState {
    var currentTerm: Term
    var votedFor: Option<NodeId>
    var file: Option<VoteFile>

    /** A restart would read back the present term and vote. */
    ghost predicate Valid()
      reads this
    {
      LoadedTerm(file) == currentTerm && LoadedVote(file) == votedFor
    }

    constructor (onDisk: Option<VoteFile>)
      ensures Valid() && file == onDisk
    {
      file := onDisk;
      currentTerm, votedFor := 0, None;
      if onDisk.Some? {
        currentTerm := onDisk.value.term;
        votedFor := if onDisk.value.vote < 0 then None else Some(onDisk.value.vote);
      }
    }

    method Set(term: Term, vote: Option<NodeId>)
      modifies this
      ensures Valid() && currentTerm == term && votedFor == vote
    {
      currentTerm := term;
      votedFor := vote;
      file := Some(VoteFile(term, if vote.Some? then vote.value else -1));
    }
  }

  class MembershipState {
    var basePeers: map<NodeId, PeerAddress>
    var selfIsMember: bool
    var ownAddress: PeerAddress
    var file: Option<Membership>

    ghost function Base(): Membership
      reads this
    {
      Membership(basePeers, selfIsMember, ownAddress)
    }

    ghost predicate Valid()
      reads this
    {
      file == Some(Base())
    }

    /** Loading the file of an earlier run; before the first one everything is at its default. */
    constructor (onDisk: Option<Membership>)
      ensures file == onDisk && (onDisk.Some? ==> Valid())
    {
      file := onDisk;
      basePeers, selfIsMember, ownAddress := map[], true, PeerAddress("", 0);
      if onDisk.Some? {
        basePeers := onDisk.value.peers;
        selfIsMember := onDisk.value.selfMember;
        ownAddress := onDisk.value.ownAddress;
      }
    }

    method Set(peers: map<NodeId, PeerAddress>, selfMember: bool, address: PeerAddress)
      modifies this
      ensures Valid() && Base() == Membership(peers, selfMember, address)
    {
      basePeers := peers;
      selfIsMember := selfMember;
      ownAddress := address;
      file := Some(Membership(peers, selfMember, address));
    }
  }
}
