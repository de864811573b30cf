/** Progress: whatever state a run has reached, a quorum of nodes can go on to
    elect one of them, and can commit and apply what is then proposed. Safety
    alone would be met by nodes that never do anything. */
module RaftProgress {
  import opened Types
  import opened Quorum
  import opened RaftStep
  import opened RaftProtocol
  import opened RaftInvariant
  import opened RaftAccepts
  import opened RaftElection
  import opened RaftCommit
  import RaftSafety
  import Replication

  function End(r: seq<State>): State {
    if r == [] then State(map[], {}) else r[|r| - 1]
  }

  /** `r'` is a run that goes on from `r`. */
  ghost predicate Extends(cl: Cluster, r: seq<State>, r': seq<State>) {
    Run(cl, r) && Run(cl, r') && r <= r'
  }

  lemma ExtendsTransitive(cl: Cluster, r: seq<State>, r': seq<State>, r'': seq<State>)
    requires Extends(cl, r, r') && Extends(cl, r', r'')
    ensures Extends(cl, r, r'')
  {
    hide Run;
  }

  lemma TakeStep(cl: Cluster, r: seq<State>, step: Step) returns (r': seq<State>)
    requires Run(cl, r) && Enabled(cl, End(r), step)
    ensures Extends(cl, r, r') && End(r') == After(cl, End(r), step)
  {
    hide Enabled, After, Init;
    var s' := After(cl, End(r), step);
    assert Next(cl, End(r), s');
    r' := r + [s'];
    forall k | 0 <= k < |r'| - 1 ensures Next(cl, r'[k], r'[k + 1]) {
      if k < |r| - 1 {
        assert Next(cl, r[k], r[k + 1]);
      }
    }
  }

  /** Voters of the cluster that make up a quorum. */
  ghost predicate Electorate(cl: Cluster, ids: set<NodeID>) {
    ids <= cl.ids && HasQuorum(cl.membership, ids) && forall q | q in ids :: IsVoter(cl.membership, q)
  }

  // ---- Standing for election ----

  /** The node is `n` and all others are as before. */
  predicate OnlyChanged(s: State, s': State, id: NodeID) {
    s'.nodes.Keys == s.nodes.Keys && forall q | q in s.nodes && q != id :: s'.nodes[q] == s.nodes[q]
  }

  /** A candidate of `term` with nothing but its own vote. */
  predicate Standing(s: State, id: NodeID, term: nat) {
    && id in s.nodes && s.nodes[id].role.Candidate? && s.nodes[id].term == term && s.nodes[id].votes == {id}
  }

  /** Campaigning again and again takes a node past any term. */
  lemma {:induction false} StandAbove(cl: Cluster, r: seq<State>, id: NodeID, term: nat) returns (r': seq<State>)
    requires Run(cl, r) && id in End(r).nodes && IsVoter(cl.membership, id)
    ensures Extends(cl, r, r') && OnlyChanged(End(r), End(r'), id)
    ensures id in End(r').nodes && Standing(End(r'), id, End(r').nodes[id].term) && End(r').nodes[id].term > term
    ensures End(r').nodes[id].log == End(r).nodes[id].log && End(r').nodes[id].base == End(r).nodes[id].base
    ensures End(r').nodes[id].kept.boundary == End(r).nodes[id].kept.boundary
    decreases term - End(r).nodes[id].term
  {
    hide Run, IsVoter;
    r' := TakeStep(cl, r, Campaign(id, true));
    if End(r').nodes[id].term <= term {
      var r1 := r';
      r' := StandAbove(cl, r1, id, term);
      ExtendsTransitive(cl, r, r1, r');
    }
  }

  // ---- Collecting votes ----

  function Ask(s: State, id: NodeID): VoteArgs
    requires id in s.nodes
  {
    VoteArgs(s.nodes[id].term, id, |s.nodes[id].log|, LastTerm(s.nodes[id].log))
  }

  /** The candidate has asked, and the voters in `todo` have yet to answer. */
  ghost predicate Polling(cl: Cluster, s: State, id: NodeID, todo: set<NodeID>) {
    && id in s.nodes && s.nodes[id].role.Candidate? && VoteRequest(Ask(s, id)) in s.msgs
    && IsVoter(cl.membership, id) && id !in todo
    && forall q | q in todo :: q in s.nodes && IsVoter(cl.membership, q) && s.nodes[q].term < s.nodes[id].term &&
                               AsGood(s.nodes[q].log, s.nodes[id].log)
  }

  /** The voter is in the candidate's term, with the log it had. */
  predicate Supports(s: State, s': State, q: NodeID, term: nat) {
    && q in s.nodes && q in s'.nodes && s'.nodes[q].term == term && s'.nodes[q].log == s.nodes[q].log
    && s'.nodes[q].base == s.nodes[q].base && s'.nodes[q].kept.boundary == s.nodes[q].kept.boundary
  }

  /** What the answers of `asked` change. */
  ghost predicate Polled(s: State, s': State, id: NodeID, asked: set<NodeID>) {
    && s'.nodes.Keys == s.nodes.Keys && id in s.nodes && id !in asked
    && s'.nodes[id] == s.nodes[id].(votes := s.nodes[id].votes + asked)
    && (forall q | q in asked :: Supports(s, s', q, s.nodes[id].term))
    && forall p | p in s.nodes && p != id && p !in asked :: s'.nodes[p] == s.nodes[p]
  }

  lemma PolledNone(s: State, id: NodeID)
    requires id in s.nodes
    ensures Polled(s, s, id, {})
  {
    assert s.nodes[id].votes + {} == s.nodes[id].votes;
  }

  lemma PolledMore(s: State, s1: State, s2: State, id: NodeID, q: NodeID, rest: set<NodeID>)
    requires Polled(s, s1, id, {q}) && Polled(s1, s2, id, rest) && q !in rest
    ensures Polled(s, s2, id, {q} + rest)
  {
    assert (s.nodes[id].votes + {q}) + rest == s.nodes[id].votes + ({q} + rest);
    forall p | p in {q} + rest ensures Supports(s, s2, p, s.nodes[id].term) {
      if p == q {
        assert s2.nodes[q] == s1.nodes[q];
      } else {
        assert Supports(s1, s2, p, s1.nodes[id].term);
      }
    }
  }

  lemma OneVote(cl: Cluster, r: seq<State>, id: NodeID, q: NodeID, todo: set<NodeID>) returns (r': seq<State>)
    requires Run(cl, r) && Polling(cl, End(r), id, todo) && q in todo
    ensures Extends(cl, r, r') && Polling(cl, End(r'), id, todo - {q}) && Polled(End(r), End(r'), id, {q})
  {
    hide Run, IsVoter, AsGood, UpToDate, End;
    var s := End(r);
    var args := Ask(s, id);
    AsGoodExactly(s.nodes[q].log, s.nodes[id].log);
    GrantedExactly(SiteOf(cl, q), s.nodes[q], args, true, true);
    var r1 := TakeStep(cl, r, DeliverVoteRequest(q, args, true, true));
    var reply := VoteReply(args.term, q, true);
    assert VoteResponse(id, args.term, reply) in End(r1).msgs;
    r' := TakeStep(cl, r1, DeliverVoteResponse(id, args.term, reply, true));
    ExtendsTransitive(cl, r, r1, r');
  }

  lemma {:induction false} AllVotes(cl: Cluster, r: seq<State>, id: NodeID, todo: set<NodeID>) returns (r': seq<State>)
    requires Run(cl, r) && Polling(cl, End(r), id, todo)
    ensures Extends(cl, r, r') && Polled(End(r), End(r'), id, todo)
    decreases |todo|
  {
    hide Run, Polling, Polled, End;
    PollingNode(cl, End(r), id, todo);
    if todo == {} {
      r' := r;
      PolledNone(End(r), id);
    } else {
      var q :| q in todo;
      var r1 := OneVote(cl, r, id, q, todo);
      r' := AllVotes(cl, r1, id, todo - {q});
      ExtendsTransitive(cl, r, r1, r');
      PolledMore(End(r), End(r1), End(r'), id, q, todo - {q});
      assert {q} + (todo - {q}) == todo;
    }
  }

  lemma PollingNode(cl: Cluster, s: State, id: NodeID, todo: set<NodeID>)
    requires Polling(cl, s, id, todo)
    ensures id in s.nodes && id !in todo && forall q | q in todo :: q in s.nodes
  {
  }

  // ---- Elections ----

  lemma {:induction false} HighestTerm(nodes: map<NodeID, Node>, ids: set<NodeID>) returns (term: nat)
    requires ids <= nodes.Keys
    ensures forall q | q in ids :: nodes[q].term <= term
    decreases |ids|
  {
    if ids == {} {
      term := 0;
    } else {
      var x :| x in ids;
      var rest := HighestTerm(nodes, ids - {x});
      term := if nodes[x].term > rest then nodes[x].term else rest;
    }
  }

  lemma ElectorateNotEmpty(cl: Cluster, ids: set<NodeID>)
    requires Electorate(cl, ids)
    ensures ids != {}
  {
    var v := QuorumsMeet(cl.membership, ids, ids);
  }

  /** A leader that has just won: nothing is known of its peers yet. */
  ghost predicate JustLeading(cl: Cluster, n: Node, id: NodeID) {
    && n.role.Leader?
    && forall q | q in SiteOf(cl, id).peers ::
         q in n.next && n.next[q] == |n.log| + 1 && q in n.matched && n.matched[q] == 0
  }

  /** All of `ids` are in the leader's term, with the logs they had. */
  ghost predicate Elected(cl: Cluster, s: State, s': State, ids: set<NodeID>, id: NodeID) {
    && id in ids && ids <= s.nodes.Keys == s'.nodes.Keys && JustLeading(cl, s'.nodes[id], id)
    && forall q | q in ids :: Supports(s, s', q, s'.nodes[id].term)
  }

  lemma RunNodes(cl: Cluster, r: seq<State>)
    requires Run(cl, r)
    ensures End(r).nodes.Keys == cl.ids
  {
    var k := 0;
    while k < |r| - 1
      invariant k < |r| && r[k].nodes.Keys == cl.ids
    {
      assert Next(cl, r[k], r[k + 1]);
      var step :| Enabled(cl, r[k], step) && r[k + 1] == After(cl, r[k], step);
      SameNodes(cl, r[k], step);
      k := k + 1;
    }
  }

  lemma SameNodes(cl: Cluster, s: State, step: Step)
    requires Enabled(cl, s, step)
    ensures After(cl, s, step).nodes.Keys == s.nodes.Keys
  {
    hide StartElection, RequestVote, HandleVoteReply, TryBecomeLeader, Propose, BuildAppend, Probe, AppendEntries;
    hide HandleAppendReply, Compact, Restart, MayRestart;
  }

  /** A candidate that has the votes of a quorum leads. */
  lemma Win(cl: Cluster, r: seq<State>, id: NodeID, ids: set<NodeID>) returns (r': seq<State>)
    requires Run(cl, r) && id in End(r).nodes && End(r).nodes[id].role.Candidate?
    requires HasQuorum(cl.membership, ids) && ids <= End(r).nodes[id].votes
    ensures Extends(cl, r, r') && OnlyChanged(End(r), End(r'), id)
    ensures id in End(r').nodes && JustLeading(cl, End(r').nodes[id], id)
    ensures End(r').nodes[id] ==
            End(r).nodes[id].(role := Leader, next := End(r').nodes[id].next, matched := End(r').nodes[id].matched)
  {
    hide Run, HasQuorum, End;
    QuorumMonotone(cl.membership, ids, End(r).nodes[id].votes);
    r' := TakeStep(cl, r, WinElection(id));
  }

  /** From every state that a run can reach, any quorum can elect one of its nodes,
      without any log being changed. */
  lemma CanElect(cl: Cluster, r: seq<State>, ids: set<NodeID>) returns (r': seq<State>, id: NodeID)
    requires Run(cl, r) && Electorate(cl, ids)
    ensures Extends(cl, r, r') && Elected(cl, End(r), End(r'), ids, id)
  {
    hide Run, HasQuorum, End, IsVoter, AsGood;
    RunNodes(cl, r);
    ElectorateNotEmpty(cl, ids);
    var s := End(r);
    id := BestLog(s.nodes, ids);
    var term := HighestTerm(s.nodes, ids);
    var r1 := StandAbove(cl, r, id, term);
    var r2 := TakeStep(cl, r1, SendVoteRequest(id));
    var todo := ids - {id};
    assert Polling(cl, End(r2), id, todo);
    var r3 := AllVotes(cl, r2, id, todo);
    assert ids <= End(r3).nodes[id].votes;
    r' := Win(cl, r3, id, ids);
    ExtendsTransitive(cl, r, r1, r2);
    ExtendsTransitive(cl, r, r2, r3);
    ExtendsTransitive(cl, r, r3, r');
    forall q | q in ids ensures Supports(s, End(r'), q, End(r').nodes[id].term) {
      if q != id {
        assert Supports(End(r2), End(r3), q, End(r2).nodes[id].term);
      }
    }
  }

  // ---- Replication ----

  lemma Matched(cl: Cluster, r: seq<State>, id: NodeID, q: NodeID)
    requires Run(cl, r) && id in End(r).nodes && q in End(r).nodes
    ensures Matching(End(r).nodes[q].log, End(r).nodes[id].log) && Consecutive(End(r).nodes[id].log, 1)
  {
    hide Run;
    var a, b := End(r).nodes[q].log, End(r).nodes[id].log;
    RunNotEmpty(cl, r);
    RaftSafety.RunConsecutive(cl, r, |r| - 1, id);
    forall i | 1 <= i <= |a| && i <= |b| && a[i - 1].term == b[i - 1].term ensures Holds(a, b, i) {
      RaftSafety.LogMatching(cl, r, |r| - 1, |r| - 1, q, id, i);
    }
  }

  lemma RunNotEmpty(cl: Cluster, r: seq<State>)
    requires Run(cl, r)
    ensures r != []
  {
  }

  /** A leader and a follower of its term, neither with a snapshot, and something to send. */
  ghost predicate Sending(s: State, id: NodeID, q: NodeID) {
    && id in s.nodes && q in s.nodes && id != q
    && s.nodes[id].role.Leader? && s.nodes[id].base == 0 && s.nodes[q].base == 0 == s.nodes[q].kept.boundary
    && s.nodes[q].term == s.nodes[id].term
    && q in s.nodes[id].next && 1 <= s.nodes[id].next[q] <= |s.nodes[id].log|
    && At(s.nodes[id].matched, q) < |s.nodes[id].log|
  }

  /** One message and its answer: what becomes of leader and follower. */
  ghost predicate Exchanged(cl: Cluster, s: State, s': State, id: NodeID, q: NodeID) {
    && id in s.nodes && q in s.nodes && s'.nodes.Keys == s.nodes.Keys
    && (forall p | p in s.nodes && p != id && p != q :: s'.nodes[p] == s.nodes[p])
    && s'.nodes[q].term == s.nodes[q].term && s'.nodes[q].base == 0 == s'.nodes[q].kept.boundary
    && var n, n' := s.nodes[id], s'.nodes[id];
       && n' == n.(next := n'.next, matched := n'.matched, commit := n'.commit)
       && (forall p | p != q && p in n.next :: p in n'.next && n'.next[p] == n.next[p])
       && (forall p | p in n.matched :: p in n'.matched && (p != q ==> n'.matched[p] == n.matched[p]))
  }

  /** The follower has the leader's whole log, and the leader knows. */
  ghost predicate Caught(s: State, id: NodeID, q: NodeID) {
    && id in s.nodes && q in s.nodes && id != q && s.nodes[id].base == 0 == s.nodes[q].base == s.nodes[q].kept.boundary
    && s.nodes[q].term == s.nodes[id].term && Holds(s.nodes[q].log, s.nodes[id].log, |s.nodes[id].log|)
    && At(s.nodes[id].matched, q) >= |s.nodes[id].log|
    && q in s.nodes[id].next && s.nodes[id].next[q] == |s.nodes[id].log| + 1
  }

  ghost predicate CaughtNow(cl: Cluster, s: State, id: NodeID, q: NodeID) {
    Caught(s, id, q) && CommittedAll(SiteOf(cl, id), s.nodes[id])
  }

  /** What the message, its acceptance and its answer come to. */
  ghost predicate RoundTrip(cl: Cluster, n: Node, m: Node, id: NodeID, q: NodeID, args: AppendArgs, m': Node,
                            reply: AppendReply, n': Node) {
    && args.leader == id && m'.term == m.term && m'.base == 0 == m'.kept.boundary
    && n' == n.(next := n'.next, matched := n'.matched, commit := n'.commit)
    && (forall p | p != q && p in n.next :: p in n'.next && n'.next[p] == n.next[p])
    && (forall p | p in n.matched :: p in n'.matched && (p != q ==> n'.matched[p] == n.matched[p]))
    && if reply.success then
         && At(n'.matched, q) >= |n.log| && q in n'.next && n'.next[q] == |n.log| + 1
         && CommittedAll(SiteOf(cl, id), n') && Holds(m'.log, n.log, |n.log|)
       else q in n.next && n.next[q] > 1 && n' == n.(next := n.next[q := n.next[q] - 1])
  }

  lemma RoundTrips(cl: Cluster, n: Node, m: Node, id: NodeID, q: NodeID)
    requires Replication.Paired(n, q, m) && m.term == n.term && n.next[q] <= |n.log| && At(n.matched, q) < |n.log|
    ensures BuildAppend(SiteOf(cl, id), n, q).Some?
    ensures var site, args := SiteOf(cl, id), BuildAppend(SiteOf(cl, id), n, q).value;
            var (m', reply) := AppendEntries(m, args, true, true);
            RoundTrip(cl, n, m, id, q, args, m', reply, HandleAppendReply(site, n, q, args, reply, true))
  {
    hide Matching, Merge, Consecutive, AdvanceCommit, Holds, CommittedAll, AppendEntries, BuildAppend;
    var site := SiteOf(cl, id);
    Replication.RoundArgs(site, n, q, m);
    Replication.RoundReply(site, n, q, m);
    Replication.MessageExactly(site, n, q);
    var args := BuildAppend(site, n, q).value;
    var (m', reply) := AppendEntries(m, args, true, true);
    Ends(args, n.log);
    ReplyEffect(site, n, q, args, reply);
    if reply.success {
      ConfirmationCommitsAll(site, n, q, args, reply, true);
      MergeAgrees(m.log, n.log, |n.log|);
    }
  }

  /** One exchange: the follower is caught up, or the next message begins one index earlier. */
  lemma Exchange(cl: Cluster, r: seq<State>, id: NodeID, q: NodeID) returns (r': seq<State>)
    requires Run(cl, r) && Sending(End(r), id, q)
    ensures Extends(cl, r, r') && Exchanged(cl, End(r), End(r'), id, q)
    ensures CaughtNow(cl, End(r'), id, q) ||
            (Sending(End(r'), id, q) && End(r').nodes[id].next[q] == End(r).nodes[id].next[q] - 1)
  {
    hide Run, End, Matching, Consecutive, Holds, CommittedAll, BuildAppend, AppendEntries, HandleAppendReply;
    var s := End(r);
    var site, n, m := SiteOf(cl, id), s.nodes[id], s.nodes[q];
    Matched(cl, r, id, q);
    RoundTrips(cl, n, m, id, q);
    var args := BuildAppend(site, n, q).value;
    var (m', reply) := AppendEntries(m, args, true, true);
    var r1 := TakeStep(cl, r, SendAppend(id, q, 0));
    assert AppendRequest(q, 0, args) in End(r1).msgs;
    var r2 := TakeStep(cl, r1, DeliverAppend(q, 0, args, true, true));
    assert AppendResponse(q, 0, args, reply) in End(r2).msgs;
    r' := TakeStep(cl, r2, DeliverAppendResponse(id, q, 0, args, reply, true));
    ExtendsTransitive(cl, r, r1, r2);
    ExtendsTransitive(cl, r, r2, r');
  }

  lemma Ends(args: AppendArgs, log: seq<Entry>)
    requires Carries(args, log) && Consecutive(log, 1) && args.prevIndex < Last(args) == |log|
    ensures args.entries != [] && args.entries[|args.entries| - 1].index == |log|
  {
    assert args.entries[|args.entries| - 1] == log[|log| - 1];
  }

  /** What an answer in the leader's own term does to its account of the peer. */
  lemma ReplyEffect(site: Site, n: Node, q: NodeID, args: AppendArgs, reply: AppendReply)
    requires n.role.Leader? && reply.term == n.term == args.term && args.entries != []
    requires q in n.next && n.next[q] >= 1 && (!reply.success ==> n.next[q] > 1)
    ensures var n' := HandleAppendReply(site, n, q, args, reply, true);
            && n' == n.(next := n'.next, matched := n'.matched, commit := n'.commit)
            && (forall p | p != q && p in n.next :: p in n'.next && n'.next[p] == n.next[p])
            && (forall p | p in n.matched :: p in n'.matched && (p != q ==> n'.matched[p] == n.matched[p]))
            && (!reply.success ==> n' == n.(next := n.next[q := n.next[q] - 1]))
  {
    hide CommittedAll;
    if reply.success {
      ConfirmationCommitsAll(site, n, q, args, reply, true);
    }
  }

  lemma ExchangedTwice(cl: Cluster, s: State, s1: State, s2: State, id: NodeID, q: NodeID)
    requires Exchanged(cl, s, s1, id, q) && Exchanged(cl, s1, s2, id, q)
    ensures Exchanged(cl, s, s2, id, q)
  {
  }

  /** Replication to one follower ends with the follower caught up. */
  lemma {:induction false} CatchUp(cl: Cluster, r: seq<State>, id: NodeID, q: NodeID) returns (r': seq<State>)
    requires Run(cl, r) && Sending(End(r), id, q)
    ensures Extends(cl, r, r') && Exchanged(cl, End(r), End(r'), id, q) && CaughtNow(cl, End(r'), id, q)
    decreases End(r).nodes[id].next[q]
  {
    hide Run, End, Exchanged, CaughtNow;
    r' := Exchange(cl, r, id, q);
    if !CaughtNow(cl, End(r'), id, q) {
      var r1 := r';
      r' := CatchUp(cl, r1, id, q);
      ExtendsTransitive(cl, r, r1, r');
      ExchangedTwice(cl, End(r), End(r1), End(r'), id, q);
    }
  }

  /** The leader has caught up the followers in `done` and has the same to do for those in `todo`. */
  ghost predicate Working(cl: Cluster, s: State, id: NodeID, done: set<NodeID>, todo: set<NodeID>) {
    && id in s.nodes && s.nodes[id].role.Leader? && CommittedAll(SiteOf(cl, id), s.nodes[id])
    && (forall q | q in done :: Caught(s, id, q))
    && (forall q | q in todo :: Sending(s, id, q))
  }

  /** The leader is as it was but for what it knows of its peers and has committed. */
  predicate SameLeader(s: State, s': State, id: NodeID) {
    && id in s.nodes && id in s'.nodes
    && var n, n' := s.nodes[id], s'.nodes[id];
       n' == n.(next := n'.next, matched := n'.matched, commit := n'.commit)
  }

  lemma OneDone(cl: Cluster, s: State, s': State, id: NodeID, q: NodeID, done: set<NodeID>, todo: set<NodeID>)
    requires Working(cl, s, id, done, todo) && q in todo && Exchanged(cl, s, s', id, q) && CaughtNow(cl, s', id, q)
    requires q !in done && (forall p | p in done + todo :: p in s.nodes[id].matched)
    ensures Working(cl, s', id, done + {q}, todo - {q}) && SameLeader(s, s', id)
    ensures forall p | p in done + todo :: p in s'.nodes[id].matched
  {
    hide CommittedAll, Holds;
    assert s'.nodes[id].log == s.nodes[id].log;
    forall p | p in done ensures Caught(s', id, p) {
      assert Caught(s, id, p) && s'.nodes[p] == s.nodes[p];
    }
    forall p | p in todo - {q} ensures Sending(s', id, p) {
      assert Sending(s, id, p) && s'.nodes[p] == s.nodes[p];
    }
  }

  lemma {:induction false} CatchUpAll(cl: Cluster, r: seq<State>, id: NodeID, done: set<NodeID>, todo: set<NodeID>)
      returns (r': seq<State>)
    requires Run(cl, r) && Working(cl, End(r), id, done, todo) && done !! todo
    requires forall p | p in done + todo :: p in End(r).nodes[id].matched
    ensures Extends(cl, r, r') && Working(cl, End(r'), id, done + todo, {}) && SameLeader(End(r), End(r'), id)
    decreases |todo|
  {
    hide Run, End, Exchanged, Caught, CaughtNow, CommittedAll, Sending;
    if todo == {} {
      r' := r;
      assert done + todo == done;
    } else {
      var q :| q in todo;
      var r1 := CatchUp(cl, r, id, q);
      OneDone(cl, End(r), End(r1), id, q, done, todo);
      r' := CatchUpAll(cl, r1, id, done + {q}, todo - {q});
      ExtendsTransitive(cl, r, r1, r');
      assert (done + {q}) + (todo - {q}) == done + todo;
    }
  }

  // ---- Committing and applying ----

  /** Each node of `ids` talks to all the others. */
  ghost predicate Wired(cl: Cluster, ids: set<NodeID>) {
    forall p, q | p in ids && q in ids && p != q :: q in SiteOf(cl, p).peers
  }

  /** A log that is on a quorum and ends in the leader's term is committed. */
  lemma QuorumCommits(cl: Cluster, s: State, id: NodeID, ids: set<NodeID>)
    requires Working(cl, s, id, ids - {id}, {}) && HasQuorum(cl.membership, ids) && Wired(cl, ids) && id in ids
    requires var n := s.nodes[id]; n.commit <= |n.log| && n.log != [] && LastTerm(n.log) == n.term
    ensures s.nodes[id].commit == |s.nodes[id].log|
  {
    hide HasQuorum, CommittedAll, Holds;
    var site, n := SiteOf(cl, id), s.nodes[id];
    var holders := {id} + set p | p in site.peers && p in n.matched && n.matched[p] >= |n.log|;
    forall q | q in ids ensures q in holders {
      if q != id {
        assert q in site.peers && Caught(s, id, q);
      }
    }
    QuorumMonotone(cl.membership, ids, holders);
    AllCommitted(site, n);
  }

  /** A node applies all that it has committed. */
  lemma {:induction false} ApplyAll(cl: Cluster, r: seq<State>, id: NodeID) returns (r': seq<State>)
    requires Run(cl, r) && id in End(r).nodes && End(r).nodes[id].applied <= End(r).nodes[id].commit
    ensures Extends(cl, r, r') && OnlyChanged(End(r), End(r'), id) && id in End(r').nodes
    ensures End(r').nodes[id] == End(r).nodes[id].(applied := End(r).nodes[id].commit)
    decreases End(r).nodes[id].commit - End(r).nodes[id].applied
  {
    hide Run, End;
    if End(r).nodes[id].applied == End(r).nodes[id].commit {
      r' := r;
    } else {
      var r1 := TakeStep(cl, r, ApplyEntry(id));
      r' := ApplyAll(cl, r1, id);
      ExtendsTransitive(cl, r, r1, r');
    }
  }

  /** The next message tells a follower that has everything of the leader's commit index. */
  lemma Announce(cl: Cluster, r: seq<State>, id: NodeID, q: NodeID) returns (r': seq<State>)
    requires Run(cl, r) && Caught(End(r), id, q) && End(r).nodes[id].role.Leader?
    requires End(r).nodes[id].log != [] && End(r).nodes[id].commit == |End(r).nodes[id].log|
    ensures Extends(cl, r, r') && OnlyChanged(End(r), End(r'), q) && q in End(r').nodes
    ensures End(r').nodes[q].log == End(r).nodes[q].log && End(r').nodes[q].commit >= End(r).nodes[id].commit
  {
    hide Run, End;
    var s := End(r);
    var n, m := s.nodes[id], s.nodes[q];
    Replication.MessageExactly(SiteOf(cl, id), n, q);
    var args := BuildAppend(SiteOf(cl, id), n, q).value;
    assert args.entries == [];
    assert m.log[|n.log| - 1] == m.log[..|n.log|][|n.log| - 1] == n.log[..|n.log|][|n.log| - 1] == n.log[|n.log| - 1];
    assert PrevMatches(m, args) && FirstNew(m, [], 0) == 0;
    hide BuildAppend;
    var r1 := TakeStep(cl, r, SendAppend(id, q, 0));
    assert AppendRequest(q, 0, args) in End(r1).msgs;
    r' := TakeStep(cl, r1, DeliverAppend(q, 0, args, true, true));
    ExtendsTransitive(cl, r, r1, r');
  }

  /** A follower has applied the leader's whole log. */
  ghost predicate AppliedAll(s: State, log: seq<Entry>, q: NodeID) {
    q in s.nodes && |log| <= s.nodes[q].applied && Holds(s.nodes[q].log, log, |log|)
  }

  lemma Inform(cl: Cluster, r: seq<State>, id: NodeID, q: NodeID) returns (r': seq<State>)
    requires Run(cl, r) && Caught(End(r), id, q) && End(r).nodes[id].role.Leader?
    requires End(r).nodes[id].log != [] && End(r).nodes[id].commit == |End(r).nodes[id].log|
    ensures Extends(cl, r, r') && OnlyChanged(End(r), End(r'), q) && AppliedAll(End(r'), End(r).nodes[id].log, q)
  {
    hide Run, End, Holds;
    var r1 := Announce(cl, r, id, q);
    EndOrder(cl, r1, q);
    r' := ApplyAll(cl, r1, q);
    ExtendsTransitive(cl, r, r1, r');
  }

  lemma {:induction false} InformAll(cl: Cluster, r: seq<State>, id: NodeID, todo: set<NodeID>) returns (r': seq<State>)
    requires Run(cl, r) && id in End(r).nodes && End(r).nodes[id].role.Leader? && id !in todo
    requires End(r).nodes[id].log != [] && End(r).nodes[id].commit == |End(r).nodes[id].log|
    requires forall q | q in todo :: Caught(End(r), id, q)
    ensures Extends(cl, r, r') && End(r').nodes.Keys == End(r).nodes.Keys
    ensures forall q | q in todo :: AppliedAll(End(r'), End(r).nodes[id].log, q)
    ensures forall p | p in End(r).nodes && p !in todo :: End(r').nodes[p] == End(r).nodes[p]
    decreases |todo|
  {
    hide Run, End, Holds;
    if todo == {} {
      r' := r;
    } else {
      var q :| q in todo;
      var r1 := Inform(cl, r, id, q);
      forall p | p in todo - {q} ensures Caught(End(r1), id, p) {
        assert Caught(End(r), id, p);
      }
      r' := InformAll(cl, r1, id, todo - {q});
      ExtendsTransitive(cl, r, r1, r');
      assert AppliedAll(End(r1), End(r).nodes[id].log, q) && End(r').nodes[q] == End(r1).nodes[q];
    }
  }

  /** No node of `ids` has stored a snapshot. */
  predicate Uncompacted(s: State, ids: set<NodeID>) {
    forall q | q in ids && q in s.nodes :: s.nodes[q].base == 0 == s.nodes[q].kept.boundary
  }

  /** A leader that has just won proposes: it then has one entry to send to everyone. */
  lemma ProposeFirst(cl: Cluster, s: State, r: seq<State>, ids: set<NodeID>, id: NodeID, data: seq<byte>)
      returns (r': seq<State>)
    requires Run(cl, r) && Elected(cl, s, End(r), ids, id) && Uncompacted(s, ids) && Wired(cl, ids)
    ensures Extends(cl, r, r') && Working(cl, End(r'), id, {}, ids - {id})
    ensures forall q | q in ids - {id} :: q in End(r').nodes[id].matched
    ensures var n, n' := End(r).nodes[id], End(r').nodes[id];
            && n'.term == n.term && n'.log == n.log + [Entry(|n.log| + 1, n.term, data)]
  {
    hide Run, End, CommittedAll, AdvanceCommit;
    var n := End(r).nodes[id];
    ProposalCommitsAll(SiteOf(cl, id), n, data);
    hide Propose;
    r' := TakeStep(cl, r, ClientPropose(id, data, true));
    forall q | q in ids - {id} ensures Sending(End(r'), id, q) {
      assert Supports(s, End(r), q, n.term) && Supports(s, End(r), id, n.term);
      assert q in SiteOf(cl, id).peers;
    }
  }

  /** From every state that a run can reach, a quorum of nodes without snapshots can
      elect one of them, and anything proposed to it can be committed, and applied
      by all of them. */
  lemma CanCommit(cl: Cluster, r: seq<State>, ids: set<NodeID>, data: seq<byte>) returns (r': seq<State>, id: NodeID)
    requires Run(cl, r) && Electorate(cl, ids) && Wired(cl, ids) && Uncompacted(End(r), ids)
    ensures Extends(cl, r, r') && id in ids && id in End(r).nodes && id in End(r').nodes
    ensures var n, log := End(r').nodes[id], End(r).nodes[id].log;
            && n.role.Leader? && n.log == log + [Entry(|log| + 1, n.term, data)]
            && n.applied == n.commit == |n.log|
            && forall q | q in ids :: AppliedAll(End(r'), n.log, q)
  {
    hide Run, End, Working, HasQuorum, IsVoter, Holds, AppliedAll;
    var s := End(r);
    var r1, winner := CanElect(cl, r, ids);
    id := winner;
    assert Supports(s, End(r1), id, End(r1).nodes[id].term);
    var r2 := ProposeFirst(cl, s, r1, ids, id, data);
    assert {} + (ids - {id}) == ids - {id};
    var r3 := CatchUpAll(cl, r2, id, {}, ids - {id});
    EndOrder(cl, r3, id);
    WorkingLeads(cl, End(r3), id, ids - {id}, {});
    QuorumCommits(cl, End(r3), id, ids);
    var r4 := InformAll(cl, r3, id, ids - {id});
    r' := ApplyAll(cl, r4, id);
    ExtendsTransitive(cl, r, r1, r2);
    ExtendsTransitive(cl, r, r2, r3);
    ExtendsTransitive(cl, r, r3, r4);
    ExtendsTransitive(cl, r, r4, r');
    AllApplied(End(r4), End(r'), id, ids);
  }

  lemma AllApplied(s: State, s': State, id: NodeID, ids: set<NodeID>)
    requires id in s.nodes && id in s'.nodes && OnlyChanged(s, s', id) && s'.nodes[id].log == s.nodes[id].log
    requires s'.nodes[id].applied == |s.nodes[id].log|
    requires forall q | q in ids - {id} :: AppliedAll(s, s.nodes[id].log, q)
    ensures forall q | q in ids :: AppliedAll(s', s'.nodes[id].log, q)
  {
    forall q | q in ids ensures AppliedAll(s', s'.nodes[id].log, q) {
      if q != id {
        assert AppliedAll(s, s.nodes[id].log, q);
      }
    }
  }

  lemma EndOrder(cl: Cluster, r: seq<State>, id: NodeID)
    requires Run(cl, r) && id in End(r).nodes
    ensures var n := End(r).nodes[id]; n.applied <= n.commit <= |n.log|
  {
    hide Run;
    RunNotEmpty(cl, r);
    RaftSafety.IndexOrder(cl, r, |r| - 1, id);
  }

  lemma WorkingLeads(cl: Cluster, s: State, id: NodeID, done: set<NodeID>, todo: set<NodeID>)
    requires Working(cl, s, id, done, todo)
    ensures id in s.nodes && s.nodes[id].role.Leader? && forall q | q in done :: Caught(s, id, q)
  {
  }
}
