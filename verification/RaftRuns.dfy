/** Whole runs in which the code breaks what the protocol is there for: a probe
    of ReadIndex that makes a follower commit an entry the leader never had, and
    a leader that sends an entry without its data (internal/raft/node_readindex.go,
    node_replication.go). */
module RaftRuns {
  import opened Types
  import opened Quorum
  import opened RaftStep
  import opened RaftProtocol

  const A: NodeID := [65]
  const B: NodeID := [66]
  const C: NodeID := [67]

  const TRIO := Cluster({A, B, C}, Membership(Configuration([A, B, C]), None),
                        map[A := [B, C], B := [A, C], C := [A, B]])

  const X := Entry(1, 1, [1])
  const Y := Entry(1, 2, [2])

  function World(a: Node, b: Node, c: Node, msgs: set<Message>): State {
    State(map[A := a, B := b, C := c], msgs)
  }

  /** The state is the last one of some run. */
  ghost predicate Reached(s: State) {
    exists r: seq<State> :: Run(TRIO, r) && r[|r| - 1] == s
  }

  lemma Continue(s: State, step: Step, s': State)
    requires Reached(s) && Enabled(TRIO, s, step) && s' == After(TRIO, s, step)
    ensures Reached(s')
  {
    hide Enabled, After, Init;
    var r: seq<State> :| Run(TRIO, r) && r[|r| - 1] == s;
    assert Next(TRIO, s, s');
    var r' := r + [s'];
    forall k | 0 <= k < |r'| - 1 ensures Next(TRIO, r'[k], r'[k + 1]) {
      if k < |r| - 1 {
        assert Next(TRIO, r[k], r[k + 1]);
      }
    }
    assert Run(TRIO, r') && r'[|r'| - 1] == s';
  }

  /** How the steps change the three nodes and the messages. */
  lemma Worlds()
    ensures forall a: Node, b: Node, c: Node, m: set<Message> ::
              var s := World(a, b, c, m);
              s.msgs == m && A in s.nodes && B in s.nodes && C in s.nodes &&
              s.nodes[A] == a && s.nodes[B] == b && s.nodes[C] == c
    ensures forall a: Node, b: Node, c: Node, m: set<Message>, n: Node ::
        Put(World(a, b, c, m), A, n) == World(n, b, c, m)
    ensures forall a: Node, b: Node, c: Node, m: set<Message>, n: Node ::
        Put(World(a, b, c, m), B, n) == World(a, n, c, m)
    ensures forall a: Node, b: Node, c: Node, m: set<Message>, n: Node ::
        Put(World(a, b, c, m), C, n) == World(a, b, n, m)
    ensures forall a: Node, b: Node, c: Node, m: set<Message>, x: Message ::
        Send(World(a, b, c, m), x) == World(a, b, c, m + {x})
  {
  }

  // ---- The nodes on their way ----

  const CANDIDATE_A := Node(1, A, Candidate, [], 0, 0, 0, {A}, map[], map[], Kept(1, A, 0, 0))
  const LEADER_A :=
    Node(1, A, Leader, [], 0, 0, 0, {A, B}, map[B := 1, C := 1], map[B := 0, C := 0], Kept(1, A, 0, 0))
  const FORMER_A := LEADER_A.(log := [X])

  const VOTER_B := Node(1, A, Follower, [], 0, 0, 0, {}, map[], map[], Kept(1, A, 0, 0))
  const CANDIDATE_B := Node(2, B, Candidate, [], 0, 0, 0, {B}, map[], map[], Kept(2, B, 0, 0))
  const LEADER_B :=
    Node(2, B, Leader, [], 0, 0, 0, {B, C}, map[A := 1, C := 1], map[A := 0, C := 0], Kept(2, B, 0, 0))
  const WRITER_B := LEADER_B.(log := [Y])
  const READER_B := WRITER_B.(commit := 1, next := map[A := 1, C := 2], matched := map[A := 0, C := 1])

  const VOTER_C := Node(2, B, Follower, [], 0, 0, 0, {}, map[], map[], Kept(2, B, 0, 0))
  const FOLLOWER_C := VOTER_C.(log := [Y])

  lemma Majorities()
    ensures HasQuorum(TRIO.membership, {A, B}) && HasQuorum(TRIO.membership, {B, C})
    ensures !HasQuorum(TRIO.membership, {A}) && !HasQuorum(TRIO.membership, {B})
    ensures IsVoter(TRIO.membership, A) && IsVoter(TRIO.membership, B) && IsVoter(TRIO.membership, C)
  {
    var voters := [A, B, C];
    assert voters[..2] == [A, B] && [A, B][..1] == [A] && [A][..0] == [];
    forall s: set<NodeID>
      ensures Count(voters, s) == (if A in s then 1 else 0) + (if B in s then 1 else 0) + (if C in s then 1 else 0)
    {
      assert Count([A], s) == Count([A][..0], s) + if A in s then 1 else 0;
      assert Count([A, B], s) == Count([A, B][..1], s) + if B in s then 1 else 0;
      assert Count(voters, s) == Count(voters[..2], s) + if C in s then 1 else 0;
    }
  }

  lemma Started()
    ensures Reached(World(FRESH, FRESH, FRESH, {}))
  {
    var s := World(FRESH, FRESH, FRESH, {});
    assert s.nodes == map id | id in TRIO.ids :: FRESH;
    assert Run(TRIO, [s]) && [s][|[s]| - 1] == s;
  }

  const ASK_A := VoteRequest(VoteArgs(1, A, 0, 0))
  const YES_B := VoteResponse(A, 1, VoteReply(1, B, true))
  const ASK_B := VoteRequest(VoteArgs(2, B, 0, 0))
  const YES_C := VoteResponse(B, 2, VoteReply(2, C, true))

  lemma CandidatesStand()
    ensures StartElection(SiteOf(TRIO, A), FRESH, true) == CANDIDATE_A
    ensures StartElection(SiteOf(TRIO, B), VOTER_B, true) == CANDIDATE_B
  {
    Majorities();
  }

  lemma VotersGrant()
    ensures RequestVote(SiteOf(TRIO, B), FRESH, ASK_A.vargs, true, true) == (VOTER_B, YES_B.vreply)
    ensures RequestVote(SiteOf(TRIO, C), FRESH, ASK_B.vargs, true, true) == (VOTER_C, YES_C.vreply)
  {
    Majorities();
  }

  const ELECTED_A := CANDIDATE_A.(votes := {A, B})
  const ELECTED_B := CANDIDATE_B.(votes := {B, C})

  lemma VotesCounted()
    ensures HandleVoteReply(SiteOf(TRIO, A), CANDIDATE_A, 1, YES_B.vreply, true) == ELECTED_A
    ensures HandleVoteReply(SiteOf(TRIO, B), CANDIDATE_B, 2, YES_C.vreply, true) == ELECTED_B
  {
    Majorities();
    assert {A} + {B} == {A, B} && {B} + {C} == {B, C};
  }

  lemma LeadersStart()
    ensures TryBecomeLeader(SiteOf(TRIO, A), ELECTED_A) == LEADER_A
    ensures TryBecomeLeader(SiteOf(TRIO, B), ELECTED_B) == LEADER_B
  {
    hide Filled, HasQuorum;
    Majorities();
    FilledTwo(B, C, 1);
    FilledTwo(B, C, 0);
    FilledTwo(A, C, 1);
    FilledTwo(A, C, 0);
  }

  lemma FilledTwo(p: NodeID, q: NodeID, value: nat)
    requires p != q
    ensures Filled(map[], [p, q], value) == map[p := value, q := value]
  {
  }

  const ASKED := {ASK_A, YES_B} + {ASK_B}
  const VOTED := ASKED + {YES_C}

  lemma FirstVote()
    ensures Reached(World(CANDIDATE_A, VOTER_B, FRESH, {ASK_A, YES_B}))
  {
    hide Reached, World, Put, Send, HasQuorum, StartElection, RequestVote, HandleVoteReply, TryBecomeLeader, Propose;
    hide BuildAppend, AppendEntries, HandleAppendReply, Probe, Restart, Compact, ApplyNext, IsVoter, Succeeds;
    Worlds();
    Majorities();
    CandidatesStand();
    VotersGrant();
    Started();
    var s1 := World(CANDIDATE_A, FRESH, FRESH, {});
    Continue(World(FRESH, FRESH, FRESH, {}), Campaign(A, true), s1);
    assert {} + {ASK_A} == {ASK_A} && {ASK_A} + {YES_B} == {ASK_A, YES_B};
    var s2 := World(CANDIDATE_A, FRESH, FRESH, {ASK_A});
    Continue(s1, SendVoteRequest(A), s2);
    Continue(s2, DeliverVoteRequest(B, ASK_A.vargs, true, true), World(CANDIDATE_A, VOTER_B, FRESH, {ASK_A, YES_B}));
  }

  /** A is elected in term 1 with the vote of B, and appends X. */
  lemma FirstLeader()
    ensures Reached(World(FORMER_A, VOTER_B, FRESH, {ASK_A, YES_B}))
  {
    hide Reached, World, Put, Send, HasQuorum, StartElection, RequestVote, HandleVoteReply, TryBecomeLeader, Propose;
    hide BuildAppend, AppendEntries, HandleAppendReply, Probe, Restart, Compact, ApplyNext, IsVoter, Succeeds;
    Worlds();
    Majorities();
    VotesCounted();
    LeadersStart();
    ProposedAlone();
    FirstVote();
    var s3 := World(CANDIDATE_A, VOTER_B, FRESH, {ASK_A, YES_B});
    var s4 := World(ELECTED_A, VOTER_B, FRESH, {ASK_A, YES_B});
    Continue(s3, DeliverVoteResponse(A, 1, YES_B.vreply, true), s4);
    var s5 := World(LEADER_A, VOTER_B, FRESH, {ASK_A, YES_B});
    Continue(s4, WinElection(A), s5);
    Continue(s5, ClientPropose(A, [1], true), World(FORMER_A, VOTER_B, FRESH, {ASK_A, YES_B}));
  }

  lemma ProposedAlone()
    ensures Propose(SiteOf(TRIO, A), LEADER_A, [1], true) == FORMER_A
    ensures Propose(SiteOf(TRIO, B), LEADER_B, [2], true) == WRITER_B
  {
    Majorities();
    assert [] + [X] == [X] && [] + [Y] == [Y];
    assert Replicated(SiteOf(TRIO, A), FORMER_A, 1) == {A};
    assert Replicated(SiteOf(TRIO, B), WRITER_B, 1) == {B};
    assert Scan(SiteOf(TRIO, A), FORMER_A, 0, 2) == 0;
    assert Scan(SiteOf(TRIO, B), WRITER_B, 0, 2) == 0;
  }

  /** B is elected in term 2 with the vote of C, and appends Y. */
  lemma SecondLeader()
    ensures Reached(World(FORMER_A, WRITER_B, VOTER_C, VOTED))
  {
    hide Reached, World, Put, Send, HasQuorum, StartElection, RequestVote, HandleVoteReply, TryBecomeLeader, Propose;
    hide BuildAppend, AppendEntries, HandleAppendReply, Probe, Restart, Compact, ApplyNext, IsVoter, Succeeds;
    Worlds();
    Majorities();
    CandidatesStand();
    VotersGrant();
    VotesCounted();
    LeadersStart();
    ProposedAlone();
    FirstLeader();
    var s0 := World(FORMER_A, VOTER_B, FRESH, {ASK_A, YES_B});
    var s1 := World(FORMER_A, CANDIDATE_B, FRESH, {ASK_A, YES_B});
    Continue(s0, Campaign(B, true), s1);
    var s2 := World(FORMER_A, CANDIDATE_B, FRESH, ASKED);
    Continue(s1, SendVoteRequest(B), s2);
    var s3 := World(FORMER_A, CANDIDATE_B, VOTER_C, VOTED);
    Continue(s2, DeliverVoteRequest(C, ASK_B.vargs, true, true), s3);
    var s4 := World(FORMER_A, ELECTED_B, VOTER_C, VOTED);
    Continue(s3, DeliverVoteResponse(B, 2, YES_C.vreply, true), s4);
    var s5 := World(FORMER_A, LEADER_B, VOTER_C, VOTED);
    Continue(s4, WinElection(B), s5);
    Continue(s5, ClientPropose(B, [2], true), World(FORMER_A, WRITER_B, VOTER_C, VOTED));
  }

  const BATCH := AppendArgs(2, B, 0, 0, [Y], 0)

  lemma BatchSteps()
    ensures BuildAppend(SiteOf(TRIO, B), WRITER_B, C) == Some(BATCH)
    ensures AppendEntries(VOTER_C, BATCH, true, true) == (FOLLOWER_C, AppendReply(2, true))
    ensures HandleAppendReply(SiteOf(TRIO, B), WRITER_B, C, BATCH, AppendReply(2, true), true) == READER_B
  {
    Majorities();
    assert Batch(WRITER_B, 1) == [Y];
    assert FirstNew(VOTER_C, [Y], 0) == 0 && [Y][0..] == [Y] && [] + [Y] == [Y];
    var n := NoteReplicated(WRITER_B, C, 1);
    assert n == READER_B.(commit := 0);
    assert Replicated(SiteOf(TRIO, B), n, 1) == {B, C};
    assert Scan(SiteOf(TRIO, B), n, 1, 2) == 1;
  }

  const SENT := VOTED + {AppendRequest(C, 0, BATCH)}
  const TAKEN := SENT + {AppendResponse(C, 0, BATCH, AppendReply(2, true))}

  lemma BatchSent()
    ensures Reached(World(FORMER_A, WRITER_B, VOTER_C, SENT))
  {
    hide Reached, World, Put, Send, HasQuorum, BuildAppend, AppendEntries, HandleAppendReply;
    hide StartElection, RequestVote, HandleVoteReply, TryBecomeLeader, Propose, Probe, Restart, Compact, ApplyNext,
        Succeeds;
    Worlds();
    BatchSteps();
    SecondLeader();
    Continue(World(FORMER_A, WRITER_B, VOTER_C, VOTED), SendAppend(B, C, 0), World(FORMER_A, WRITER_B, VOTER_C, SENT));
  }

  lemma BatchTaken()
    ensures Reached(World(FORMER_A, WRITER_B, FOLLOWER_C, TAKEN))
  {
    hide Reached, World, Put, Send, HasQuorum, BuildAppend, AppendEntries, HandleAppendReply;
    hide StartElection, RequestVote, HandleVoteReply, TryBecomeLeader, Propose, Probe, Restart, Compact, ApplyNext,
        Succeeds;
    Worlds();
    BatchSteps();
    BatchSent();
    Continue(World(FORMER_A, WRITER_B, VOTER_C, SENT), DeliverAppend(C, 0, BATCH, true, true),
             World(FORMER_A, WRITER_B, FOLLOWER_C, TAKEN));
  }

  /** Y is replicated to C and committed by B. */
  lemma Committed()
    ensures Reached(World(FORMER_A, READER_B, FOLLOWER_C, TAKEN))
  {
    hide Reached, World, Put, Send, HasQuorum, BuildAppend, AppendEntries, HandleAppendReply;
    hide StartElection, RequestVote, HandleVoteReply, TryBecomeLeader, Propose, Probe, Restart, Compact, ApplyNext,
        Succeeds;
    Worlds();
    BatchSteps();
    BatchTaken();
    Continue(World(FORMER_A, WRITER_B, FOLLOWER_C, TAKEN),
             DeliverAppendResponse(B, C, 0, BATCH, AppendReply(2, true), true),
             World(FORMER_A, READER_B, FOLLOWER_C, TAKEN));
  }

  /** B may serve reads. The probe it sends to A carries commit index 1 and no
      entry; A then has index 1 committed too, with a different entry. */
  lemma ProbeBreaksSafety()
    ensures exists r: seq<State>, probe: AppendArgs ::
              && Run(TRIO, r)
              && var s := r[|r| - 1];
                 && A in s.nodes && B in s.nodes
                 && s.nodes[B].commit == 1
                 && Probe(SiteOf(TRIO, B), s.nodes[B], A, s.nodes[B].commit) == Some(probe)
                 && var a := AppendEntries(s.nodes[A], probe, true, true).0;
                    && a.commit == 1
                    && |a.log| == |s.nodes[B].log| == 1
                    && a.log[0] != s.nodes[B].log[0]
  {
    Committed();
    var r: seq<State> :| Run(TRIO, r) && r[|r| - 1] == World(FORMER_A, READER_B, FOLLOWER_C, TAKEN);
    var probe := AppendArgs(2, B, 0, 0, [], 1);
    assert Probe(SiteOf(TRIO, B), READER_B, A, 1) == Some(probe);
    var a := AppendEntries(FORMER_A, probe, true, true).0;
    assert a.commit == 1 && a.log == [X];
    assert Run(TRIO, r) && r[|r| - 1].nodes[A] == FORMER_A && r[|r| - 1].nodes[B] == READER_B;
  }

  // ---- Sending from the boundary ----

  const FIRST_BATCH := AppendArgs(1, A, 0, 0, [X], 0)
  const FOLLOWER_B := VOTER_B.(log := [X])
  const COMMITTER_A := FORMER_A.(commit := 1, next := map[B := 2, C := 1], matched := map[B := 1, C := 0])
  const APPLIED_A := COMMITTER_A.(applied := 1)
  const COMPACT_A := APPLIED_A.(base := 1, kept := Kept(1, A, 1, 1))

  const FIRST_SENT := {ASK_A, YES_B} + {AppendRequest(B, 0, FIRST_BATCH)}
  const FIRST_TAKEN := FIRST_SENT + {AppendResponse(B, 0, FIRST_BATCH, AppendReply(1, true))}

  lemma FirstBatchSteps()
    ensures BuildAppend(SiteOf(TRIO, A), FORMER_A, B) == Some(FIRST_BATCH)
    ensures AppendEntries(VOTER_B, FIRST_BATCH, true, true) == (FOLLOWER_B, AppendReply(1, true))
    ensures HandleAppendReply(SiteOf(TRIO, A), FORMER_A, B, FIRST_BATCH, AppendReply(1, true), true) == COMMITTER_A
  {
    Majorities();
    assert Batch(FORMER_A, 1) == [X];
    assert FirstNew(VOTER_B, [X], 0) == 0 && [X][0..] == [X] && [] + [X] == [X];
    var n := NoteReplicated(FORMER_A, B, 1);
    assert n == COMMITTER_A.(commit := 0);
    assert Replicated(SiteOf(TRIO, A), n, 1) == {A, B};
    assert Scan(SiteOf(TRIO, A), n, 1, 2) == 1;
  }

  lemma FirstBatchTaken()
    ensures Reached(World(FORMER_A, FOLLOWER_B, FRESH, FIRST_TAKEN))
  {
    hide Reached, World, Put, Send, HasQuorum, BuildAppend, AppendEntries, HandleAppendReply;
    hide StartElection, RequestVote, HandleVoteReply, TryBecomeLeader, Propose, Probe, Restart, Compact, ApplyNext,
        Succeeds;
    Worlds();
    FirstBatchSteps();
    FirstLeader();
    var s1 := World(FORMER_A, VOTER_B, FRESH, FIRST_SENT);
    Continue(World(FORMER_A, VOTER_B, FRESH, {ASK_A, YES_B}), SendAppend(A, B, 0), s1);
    Continue(s1, DeliverAppend(B, 0, FIRST_BATCH, true, true), World(FORMER_A, FOLLOWER_B, FRESH, FIRST_TAKEN));
  }

  /** X is committed, applied and compacted away by A. */
  lemma Snapshotted()
    ensures Reached(World(COMPACT_A, FOLLOWER_B, FRESH, FIRST_TAKEN))
  {
    hide Reached, World, Put, Send, HasQuorum, BuildAppend, AppendEntries, HandleAppendReply;
    hide StartElection, RequestVote, HandleVoteReply, TryBecomeLeader, Propose, Probe, Restart, Succeeds;
    Worlds();
    FirstBatchSteps();
    FirstBatchTaken();
    var s1 := World(COMMITTER_A, FOLLOWER_B, FRESH, FIRST_TAKEN);
    Continue(World(FORMER_A, FOLLOWER_B, FRESH, FIRST_TAKEN),
             DeliverAppendResponse(A, B, 0, FIRST_BATCH, AppendReply(1, true), true), s1);
    var s2 := World(APPLIED_A, FOLLOWER_B, FRESH, FIRST_TAKEN);
    Continue(s1, ApplyEntry(A), s2);
    Continue(s2, TakeSnapshot(A, 1, true), World(COMPACT_A, FOLLOWER_B, FRESH, FIRST_TAKEN));
  }

  const BARE := Entry(1, 1, [])
  const BARE_BATCH := AppendArgs(1, A, 0, 0, [BARE], 1)

  lemma BareBatchSteps()
    ensures BuildAppend(SiteOf(TRIO, A), COMPACT_A, C) == Some(BARE_BATCH)
    ensures var (c, reply) := AppendEntries(FRESH, BARE_BATCH, true, true); reply.success && c.log == [BARE]
  {
    assert Batch(COMPACT_A, 1) == [BARE];
    var n := AdoptTerm(FRESH, 1);
    assert FirstNew(n, [BARE], 0) == 0 && [BARE][0..] == [BARE] && [] + [BARE] == [BARE];
    assert Reconcile(n, [BARE]) == Some([BARE]);
  }

  /** In the last state of `r`, what A builds for C makes C's log differ from A's
      at an index where their terms agree. */
  ghost predicate BreaksMatching(r: seq<State>, args: AppendArgs)
    requires r != []
  {
    var s := r[|r| - 1];
    && A in s.nodes && C in s.nodes
    && BuildAppend(SiteOf(TRIO, A), s.nodes[A], C) == Some(args)
    && var (c, reply) := AppendEntries(s.nodes[C], args, true, true);
       && reply.success
       && |c.log| == |s.nodes[A].log| == 1
       && c.log[0].index == s.nodes[A].log[0].index && c.log[0].term == s.nodes[A].log[0].term
       && c.log[0].data != s.nodes[A].log[0].data
  }

  /** C has never been reached. What A builds for C, once the transfer of the
      snapshot has failed, carries the entry without its data, and C accepts it. */
  lemma BoundaryBreaksLogMatching()
    ensures exists r: seq<State>, args: AppendArgs :: Run(TRIO, r) && BreaksMatching(r, args)
  {
    hide BuildAppend, AppendEntries, World;
    Worlds();
    BareBatchSteps();
    Snapshotted();
    var r: seq<State> :| Run(TRIO, r) && r[|r| - 1] == World(COMPACT_A, FOLLOWER_B, FRESH, FIRST_TAKEN);
    assert BreaksMatching(r, BARE_BATCH);
  }
}
