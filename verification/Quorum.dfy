/** Quorum decisions of internal/raft/membership.go and the configurations that
    internal/raft/node_membership.go derives from the current one. */
module Quorum {
  import opened Types

  /** The number of positions of `voters` that hold a member of `votes`. */
  function Count(voters: seq<NodeID>, votes: set<NodeID>): nat {
    if voters == [] then 0
    else
      var last := |voters| - 1;
      Count(voters[..last], votes) + if voters[last] in votes then 1 else 0
  }

  predicate HasMajority(configuration: Configuration, votes: set<NodeID>) {
    Count(configuration.voters, votes) >= |configuration.voters| / 2 + 1
  }

  predicate HasQuorum(membership: Membership, votes: set<NodeID>) {
    match membership.joint
    case Some(joint) => HasMajority(joint.oldC, votes) && HasMajority(joint.newC, votes)
    case None => HasMajority(membership.current, votes)
  }

  predicate IsVoter(membership: Membership, id: NodeID) {
    id != [] &&
    match membership.joint
    case Some(joint) => id in joint.oldC.voters || id in joint.newC.voters
    case None => id in membership.current.voters
  }

  function Stable(configuration: Configuration): Membership {
    Membership(configuration, None)
  }

  function EnterJoint(oldC: Configuration, newC: Configuration): Membership {
    Membership(oldC, Some(JointConfiguration(oldC, newC)))
  }

  // ---- The counting loops ----

  method ConfigurationHasQuorum(configuration: Configuration, votes: set<NodeID>) returns (quorum: bool)
    ensures quorum == HasMajority(configuration, votes)
  {
    var required := |configuration.voters| / 2 + 1;
    if required == 0 {
      return false;
    }
    var granted := 0;
    for i := 0 to |configuration.voters|
      invariant granted == Count(configuration.voters[..i], votes)
    {
      assert configuration.voters[..i + 1][..i] == configuration.voters[..i];
      if configuration.voters[i] in votes {
        granted := granted + 1;
      }
    }
    assert configuration.voters[..|configuration.voters|] == configuration.voters;
    return granted >= required;
  }

  method MembershipHasQuorum(membership: Membership, votes: set<NodeID>) returns (quorum: bool)
    ensures quorum == HasQuorum(membership, votes)
  {
    if membership.joint.Some? {
      quorum := ConfigurationHasQuorum(membership.joint.value.oldC, votes);
      if quorum {
        quorum := ConfigurationHasQuorum(membership.joint.value.newC, votes);
      }
    } else {
      quorum := ConfigurationHasQuorum(membership.current, votes);
    }
  }

  // ---- What the count means ----

  lemma {:induction false} CountBound(voters: seq<NodeID>, votes: set<NodeID>)
    ensures Count(voters, votes) <= |voters|
  {
    if voters != [] {
      CountBound(voters[..|voters| - 1], votes);
    }
  }

  lemma {:induction false} CountMonotone(voters: seq<NodeID>, a: set<NodeID>, b: set<NodeID>)
    requires forall v | v in voters && v in a :: v in b
    ensures Count(voters, a) <= Count(voters, b)
  {
    if voters != [] {
      CountMonotone(voters[..|voters| - 1], a, b);
    }
  }

  /** A superset of a quorum is a quorum. */
  lemma QuorumMonotone(membership: Membership, a: set<NodeID>, b: set<NodeID>)
    requires HasQuorum(membership, a) && a <= b
    ensures HasQuorum(membership, b)
  {
    if membership.joint.Some? {
      CountMonotone(membership.joint.value.oldC.voters, a, b);
      CountMonotone(membership.joint.value.newC.voters, a, b);
    } else {
      CountMonotone(membership.current.voters, a, b);
    }
  }

  /** On a duplicate-free voter list the loop counts the voters in the set. */
  lemma {:induction false} CountIsCardinality(voters: seq<NodeID>, votes: set<NodeID>)
    requires NoDuplicates(voters)
    ensures Count(voters, votes) == |set v | v in voters && v in votes|
  {
    if voters == [] {
      assert (set v | v in voters && v in votes) == {};
    } else {
      var last := |voters| - 1;
      CountIsCardinality(voters[..last], votes);
      var before := set v | v in voters[..last] && v in votes;
      var all := set v | v in voters && v in votes;
      assert voters == voters[..last] + [voters[last]];
      assert voters[last] !in voters[..last];
      if voters[last] in votes {
        assert all == before + {voters[last]};
      } else {
        assert all == before;
      }
    }
  }

  /** A majority is exactly more than half of the voters. */
  lemma MajorityExactly(configuration: Configuration, votes: set<NodeID>)
    requires NoDuplicates(configuration.voters)
    ensures HasMajority(configuration, votes) <==>
            2 * |set v | v in configuration.voters && v in votes| > |configuration.voters|
  {
    CountIsCardinality(configuration.voters, votes);
  }

  /** A quorum is exactly a majority of the configuration in force, of both during a change. */
  lemma QuorumExactly(membership: Membership, votes: set<NodeID>)
    requires match membership.joint
             case Some(joint) => NoDuplicates(joint.oldC.voters) && NoDuplicates(joint.newC.voters)
             case None => NoDuplicates(membership.current.voters)
    ensures HasQuorum(membership, votes) <==>
            forall c | c in Deciding(membership) :: 2 * |set v | v in c.voters && v in votes| > |c.voters|
  {
    forall c | c in Deciding(membership)
      ensures HasMajority(c, votes) <==> 2 * |set v | v in c.voters && v in votes| > |c.voters|
    {
      MajorityExactly(c, votes);
    }
    if membership.joint.Some? {
      assert membership.joint.value.oldC in Deciding(membership) && membership.joint.value.newC in Deciding(membership);
    } else {
      assert membership.current in Deciding(membership);
    }
  }

  /** The configurations that take part in a decision. */
  function Deciding(membership: Membership): set<Configuration> {
    match membership.joint
    case Some(joint) => {joint.oldC, joint.newC}
    case None => {membership.current}
  }

  /** Two sets that together cover more positions than there are share a voter. */
  lemma {:induction false} Overlap(voters: seq<NodeID>, a: set<NodeID>, b: set<NodeID>) returns (v: NodeID)
    requires Count(voters, a) + Count(voters, b) > |voters|
    ensures v in voters && v in a && v in b
  {
    var last := |voters| - 1;
    if voters[last] in a && voters[last] in b {
      v := voters[last];
    } else {
      v := Overlap(voters[..last], a, b);
    }
  }

  lemma MajoritiesMeet(configuration: Configuration, a: set<NodeID>, b: set<NodeID>) returns (v: NodeID)
    requires HasMajority(configuration, a) && HasMajority(configuration, b)
    ensures v in configuration.voters && v in a && v in b
  {
    v := Overlap(configuration.voters, a, b);
  }

  /** Any two quorums of one membership, stable or joint, share a voter. */
  lemma QuorumsMeet(membership: Membership, a: set<NodeID>, b: set<NodeID>) returns (v: NodeID)
    requires HasQuorum(membership, a) && HasQuorum(membership, b)
    ensures v in a && v in b
  {
    if membership.joint.Some? {
      v := MajoritiesMeet(membership.joint.value.oldC, a, b);
    } else {
      v := MajoritiesMeet(membership.current, a, b);
    }
  }

  /** Those who are no voters add nothing to a quorum. */
  lemma VotersSuffice(membership: Membership, votes: set<NodeID>)
    requires forall c | c in Deciding(membership) :: [] !in c.voters
    ensures HasQuorum(membership, votes) <==> HasQuorum(membership, set v | v in votes && IsVoter(membership, v))
  {
    var voters := set v | v in votes && IsVoter(membership, v);
    forall c | c in Deciding(membership) ensures Count(c.voters, votes) == Count(c.voters, voters) {
      CountMonotone(c.voters, votes, voters);
      CountMonotone(c.voters, voters, votes);
    }
    if membership.joint.Some? {
      assert membership.joint.value.oldC in Deciding(membership) && membership.joint.value.newC in Deciding(membership);
    } else {
      assert membership.current in Deciding(membership);
    }
  }

  // ---- Quorums across a membership change ----

  /** Consecutive memberships of a change: old, joint, new. */
  ghost predicate Adjacent(oldC: Configuration, newC: Configuration, m: Membership, m': Membership) {
    var path := [Stable(oldC), EnterJoint(oldC, newC), Stable(newC)];
    exists i, j | 0 <= i < 3 && 0 <= j < 3 && (i == j || i == j + 1 || j == i + 1) ::
      m == path[i] && m' == path[j]
  }

  /** Quorums of adjacent memberships of one change share a voter, whatever the
      two configurations are. */
  lemma AdjacentQuorumsMeet(oldC: Configuration, newC: Configuration, m: Membership, m': Membership,
                            a: set<NodeID>, b: set<NodeID>) returns (v: NodeID)
    requires Adjacent(oldC, newC, m, m')
    requires HasQuorum(m, a) && HasQuorum(m', b)
    ensures v in a && v in b
  {
    if HasMajority(oldC, a) && HasMajority(oldC, b) {
      v := MajoritiesMeet(oldC, a, b);
    } else {
      v := MajoritiesMeet(newC, a, b);
    }
  }

  datatype Change = Refused | Change(oldC: Configuration, newC: Configuration)

  /** validateAddMemberLocked. */
  method ValidateAdd(leader: bool, self: NodeID, membership: Membership, peers: seq<NodeID>, peer: NodeID)
    returns (change: Change)
    ensures change.Change? <==>
            leader && peer != self && membership.joint.None? && !IsVoter(membership, peer) && peer in peers
    ensures change.Change? ==> change == Change(membership.current, Configuration(membership.current.voters + [peer]))
  {
    if !leader || peer == self || membership.joint.Some? || IsVoter(membership, peer) {
      return Refused;
    }
    var registered := false;
    for i := 0 to |peers|
      invariant registered <==> peer in peers[..i]
    {
      if peers[i] == peer {
        registered := true;
      }
    }
    assert peers[..|peers|] == peers;
    if !registered {
      return Refused;
    }
    return Change(membership.current, Configuration(membership.current.voters + [peer]));
  }

  /** The voters left when `peer` goes. */
  function Without(voters: seq<NodeID>, peer: NodeID): seq<NodeID> {
    if voters == [] then []
    else
      var last := |voters| - 1;
      Without(voters[..last], peer) + if voters[last] != peer then [voters[last]] else []
  }

  /** validateRemoveMemberLocked. */
  method ValidateRemove(leader: bool, self: NodeID, membership: Membership, peer: NodeID) returns (change: Change)
    ensures change.Change? <==>
            leader && peer != self && membership.joint.None? && IsVoter(membership, peer) &&
            |membership.current.voters| > 1
    ensures change.Change? ==>
            change == Change(membership.current, Configuration(Without(membership.current.voters, peer)))
  {
    var voters := membership.current.voters;
    if !leader || peer == self || membership.joint.Some? || !IsVoter(membership, peer) || |voters| <= 1 {
      return Refused;
    }
    var remaining := [];
    for i := 0 to |voters|
      invariant remaining == Without(voters[..i], peer)
    {
      assert voters[..i + 1][..i] == voters[..i];
      if voters[i] != peer {
        remaining := remaining + [voters[i]];
      }
    }
    assert voters[..|voters|] == voters;
    return Change(membership.current, Configuration(remaining));
  }

  lemma LastIsNew(voters: seq<NodeID>)
    requires NoDuplicates(voters) && voters != []
    ensures NoDuplicates(voters[..|voters| - 1]) && voters[|voters| - 1] !in voters[..|voters| - 1]
  {
  }

  lemma {:induction false} WithoutCounts(voters: seq<NodeID>, peer: NodeID, votes: set<NodeID>)
    requires NoDuplicates(voters)
    ensures |Without(voters, peer)| == |voters| - (if peer in voters then 1 else 0)
    ensures Count(Without(voters, peer), votes) ==
            Count(voters, votes) - (if peer in voters && peer in votes then 1 else 0)
  {
    if voters != [] {
      hide NoDuplicates;
      var last := |voters| - 1;
      var rest := voters[..last];
      LastIsNew(voters);
      WithoutCounts(rest, peer, votes);
      assert voters == rest + [voters[last]];
      if voters[last] != peer {
        var kept := Without(rest, peer) + [voters[last]];
        assert kept[..|kept| - 1] == Without(rest, peer);
      } else {
        assert Without(voters, peer) == Without(rest, peer);
      }
    }
  }

  /** Adding one voter: a quorum before and a quorum after share a voter even
      without a joint phase. */
  lemma AddedQuorumsMeet(voters: seq<NodeID>, peer: NodeID, a: set<NodeID>, b: set<NodeID>) returns (v: NodeID)
    requires HasMajority(Configuration(voters), a) && HasMajority(Configuration(voters + [peer]), b)
    ensures v in voters && v in a && v in b
  {
    assert (voters + [peer])[..|voters|] == voters;
    v := Overlap(voters, a, b);
  }

  /** Removing one voter of a duplicate-free list: likewise. */
  lemma RemovedQuorumsMeet(voters: seq<NodeID>, peer: NodeID, a: set<NodeID>, b: set<NodeID>) returns (v: NodeID)
    requires NoDuplicates(voters) && peer in voters
    requires HasMajority(Configuration(voters), a) && HasMajority(Configuration(Without(voters, peer)), b)
    ensures v in a && v in b
  {
    WithoutCounts(voters, peer, a);
    v := Overlap(Without(voters, peer), a, b);
  }
}
