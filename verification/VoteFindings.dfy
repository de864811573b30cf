/** Where the code falls short on votes and terms, with the exact conditions
    (internal/storage/wal.go, internal/raft/node_role.go, node_apply.go). */
module VoteFindings {
  import opened Types
  import opened Bytes
  import opened WalCodec
  import opened Wal
  import opened RaftStep
  import opened RaftDurable
  import opened VoteFile
  import opened VoteDurability
  import Quorum

  // ---- Restarts that do not sync ----

  lemma EmptyStateSmall(term: nat)
    ensures Small(StateRecord(EMPTY.state.(term := term)))
  {
    assert PutIds([]) == [];
  }

  lemma WholeFile(f: Format, rec: Record)
    ensures Frames(f, []) == [] && Frames(f, [rec]) == Frame(f, rec)
    ensures Whole(f, [rec], |Frame(f, rec)|) == 1 && Whole(f, [rec], 0) == 0
  {
    assert [rec][1..] == [];
  }

  /** OpenWAL does not sync. A node that is restarted after a failed sync answers
      with the term it finds in the file, and a power loss may still take that
      term away. */
  lemma RestartMayLowerTerm(f: Format, id: NodeID, term: nat)
    requires Sound(f) && 1 <= term < U64
    ensures exists events: seq<Event> ::
              && PossibleRun(f, id, events)
              && term in RunAll(f, id, events).replies
              && RunAll(f, id, events).voter.memory.term == 0
  {
    hide StateRecord, Small, Frame, Frames, Whole, ReplayAll, StateAt, RunAll, PossibleRun, HandleAsk, Rewritten, Noted;
    var st := EMPTY.state.(term := term);
    var rec := StateRecord(st);
    var e1, e2, e3, e4 := Learn(term, SyncFails), Crash(|Frame(f, rec)|, 0), Answer, Crash(0, 0);
    EmptyStateSmall(term);
    WholeFile(f, rec);
    FirstStates(f, st);
    var v := Voter(EMPTY.state, [rec], 0, Kept(0, [], 0, 0));
    assert [] + [rec] == [rec];
    var t1 := Trace(v, {}, {});
    assert Step(f, id, FIRST, e1) == t1;
    assert v.recs[..0] == [] && v.recs[..1] == v.recs;
    var t2 := Trace(v.(memory := st), {}, {});
    assert Possible(f, id, t1, e2) && Step(f, id, t1, e2) == t2;
    var t3 := t2.(replies := {} + {term});
    assert Step(f, id, t2, e3) == t3;
    assert Possible(f, id, t3, e4) && Step(f, id, t3, e4).voter.memory == EMPTY.state;
    RunsOf(f, id, e1, e2, e3, e4, t1, t2, t3);
  }

  lemma FirstStates(f: Format, st: PersistentState)
    requires Small(StateRecord(st)) && StateOk(st)
    ensures StateAt(f, [StateRecord(st)], 0) == EMPTY.state && StateAt(f, [StateRecord(st)], 1) == st
  {
    hide Replay, StateRecord;
    var rec := StateRecord(st);
    assert [rec][..0] == [] && [rec][..1] == [rec];
    ReplayOne(f, EMPTY, rec);
    ReplayState(f, EMPTY, st);
  }

  /** Four steps written out as one run. */
  lemma RunsOf(f: Format, id: NodeID, e1: Event, e2: Event, e3: Event, e4: Event, t1: Trace, t2: Trace, t3: Trace)
    requires Possible(f, id, FIRST, e1) && t1 == Step(f, id, FIRST, e1)
    requires Possible(f, id, t1, e2) && t2 == Step(f, id, t1, e2)
    requires Possible(f, id, t2, e3) && t3 == Step(f, id, t2, e3)
    requires Possible(f, id, t3, e4)
    ensures PossibleRun(f, id, [e1, e2, e3, e4]) && RunAll(f, id, [e1, e2, e3, e4]) == Step(f, id, t3, e4)
  {
    hide Possible, Step;
    var r1, r2, r3, r4 := [e1], [e1, e2], [e1, e2, e3], [e1, e2, e3, e4];
    assert r1[..0] == [] && r2[..1] == r1 && r3[..2] == r2 && r4[..3] == r3;
    assert PossibleRun(f, id, []) && RunAll(f, id, []) == FIRST;
    assert PossibleRun(f, id, r1) && RunAll(f, id, r1) == t1;
    assert PossibleRun(f, id, r2) && RunAll(f, id, r2) == t2;
    assert PossibleRun(f, id, r3) && RunAll(f, id, r3) == t3;
  }

  // ---- Stepping down ----

  /** becomeFollowerLocked: any term, and always an empty vote. */
  function BecomeFollower(v: Voter, term: nat, o: Outcome): Voter {
    Saved(v, v.memory.(term := term, votedFor := []), o)
  }

  /** A state that cannot go back on a grant. */
  predicate Extends(st: PersistentState, g: Grant) {
    st.term > g.term || (st.term == g.term && st.votedFor == g.candidate)
  }

  /** Whatever a crash leaves behind, it keeps to the grant, and so does memory. */
  ghost predicate Honours(f: Format, v: Voter, g: Grant) {
    && g.candidate != [] && v.synced <= |v.recs|
    && Extends(v.memory, g)
    && forall k | v.synced <= k <= |v.recs| :: Extends(StateAt(f, v.recs, k), g)
  }

  /** It keeps every promise of a node whose state is synced exactly when the term
      rises, or stays and no vote was cast in it. Two of its callers do not check
      that. */
  lemma BecomeFollowerKeepsPromises(f: Format, v: Voter, term: nat, o: Outcome)
    requires FileOk(f, v) && KeptOk(f, v) && v.kept == KeptBy(v.kept, v.memory) && term < U64
    requires Lands(v.memory.(term := term, votedFor := []), o)
    ensures (forall g: Grant | Honours(f, v, g) :: Honours(f, BecomeFollower(v, term, o), g)) <==>
            term > v.memory.term || (term == v.memory.term && v.memory.votedFor == [])
  {
    hide FileOk, StatePayload;
    var st := v.memory.(term := term, votedFor := []);
    FileSize(f, v);
    SaveKeepsFile(f, v, st, o);
    if !(term > v.memory.term || (term == v.memory.term && v.memory.votedFor == [])) {
      var g := if term == v.memory.term then Grant(term, v.memory.votedFor) else Grant(term, [1]);
      assert Honours(f, v, g) && !Extends(st, g);
    }
  }

  /** After such a step in an unchanged term, the next candidate gets the vote
      that was already given away. */
  lemma SecondGrant(id: NodeID, v: Voter, first: NodeID, e: Event)
    requires e.Ask? && e.args.term == v.memory.term && v.memory.votedFor == first != e.args.candidate && first != []
    requires Quorum.IsVoter(v.memory.membership, e.args.candidate) && UpToDate(e.log, e.args.lastIndex, e.args.lastTerm)
    requires Lands(v.memory.(votedFor := []), Written) && Lands(v.memory.(votedFor := e.args.candidate), e.b)
    ensures !HandleAsk(id, v, e).1.granted
    ensures HandleAsk(id, BecomeFollower(v, v.memory.term, Written), e).1.granted
  {
    hide StatePayload, UpToDate;
  }
}
