/** Votes and terms over whole runs of one node: failing writes, failing syncs,
    compaction, and crashes at any byte, with the handlers of
    internal/raft/node_election.go in between. */
module VoteDurability {
  import opened Types
  import opened Bytes
  import opened WalCodec
  import opened Wal
  import opened RaftStep
  import opened RaftDurable
  import opened VoteFile
  import RaftProtocol

  datatype Grant = Grant(term: nat, candidate: NodeID)

  /** A voter with all it has ever granted and every term it has ever answered with. */
  datatype Trace = Trace(voter: Voter, grants: set<Grant>, replies: set<nat>)

  const FIRST := Trace(Voter(EMPTY.state, [], 0, Kept(0, [], 0, 0)), {}, {})

  datatype Event =
    | Ask(log: seq<Entry>, args: VoteArgs, a: Outcome, b: Outcome)
    | Stand(o: Outcome)
    | Learn(term: nat, o: Outcome)
    | Answer
    | Reconfigure(membership: Membership, o: Outcome)
    | Note(rec: Record, flushed: bool)
    | Rewrite(snapshot: Snapshot)
    | Crash(cut: nat, synced: nat)

  function NodeOf(v: Voter, log: seq<Entry>): Node {
    Node(v.memory.term, v.memory.votedFor, Follower, log, 0, 0, 0, {}, map[], map[], v.kept)
  }

  function SiteOf(id: NodeID, v: Voter): Site {
    Site(id, v.memory.membership, [])
  }

  function HandleAsk(id: NodeID, v: Voter, e: Event): (Voter, VoteReply)
    requires e.Ask?
  {
    var v1 := if e.args.term > v.memory.term then Saved(v, v.memory.(term := e.args.term, votedFor := []), e.a) else v;
    if v1.memory.term != e.args.term || !Grants(SiteOf(id, v1), NodeOf(v1, e.log), e.args) then
      (v1, VoteReply(v1.memory.term, id, false))
    else
      var st := v1.memory.(votedFor := e.args.candidate);
      (Saved(v1, st, e.b), VoteReply(v1.memory.term, id, Lands(st, e.b)))
  }

  /** It is the RequestVote of the protocol, its two outcomes decided by the storage. */
  lemma AskIsRequestVote(id: NodeID, v: Voter, e: Event)
    requires e.Ask?
    ensures var (v', reply) := HandleAsk(id, v, e);
            var m := v.memory.(term := e.args.term, votedFor := []);
            var base := if e.args.term > v.memory.term then m else v.memory;
            var (n', reply') := RequestVote(SiteOf(id, v), NodeOf(v, e.log), e.args, Lands(m, e.a),
                                            Lands(base.(votedFor := e.args.candidate), e.b));
            reply == reply' && v'.memory.term == n'.term && v'.memory.votedFor == n'.votedFor && v'.kept == n'.kept
  {
  }

  function Step(f: Format, id: NodeID, t: Trace, e: Event): Trace {
    var v := t.voter;
    match e
    case Ask(_, args, _, _) =>
      var (v', reply) := HandleAsk(id, v, e);
      Trace(v', t.grants + (if reply.granted then {Grant(reply.term, args.candidate)} else {}),
          t.replies + {reply.term})
    case Stand(o) =>
      var st := v.memory.(term := v.memory.term + 1, votedFor := id);
      t.(voter := Saved(v, st, o), grants := t.grants + if Lands(st, o) then {Grant(st.term, id)} else {})
    case Learn(term, o) =>
      if term > v.memory.term then t.(voter := Saved(v, v.memory.(term := term, votedFor := []), o)) else t
    case Answer => t.(replies := t.replies + {v.memory.term})
    case Reconfigure(m, o) => t.(voter := Saved(v, v.memory.(membership := m), o))
    case Note(rec, flushed) => t.(voter := Noted(v, rec, flushed))
    case Rewrite(snapshot) => t.(voter := Rewritten(f, v, snapshot))
    case Crash(cut, synced) => t.(voter := Reopened(f, v, Whole(f, v.recs, cut), synced))
  }

  /** What the surroundings guarantee: widths, decodable memberships, log and
      snapshot records that replay, a compaction the storage accepts, and crashes
      that spare what was synced. After a restart anything between that and all
      that was found may count as synced: OpenWAL itself does not sync. */
  ghost predicate Possible(f: Format, id: NodeID, t: Trace, e: Event) {
    var v := t.voter;
    match e
    case Ask(_, args, _, _) => args.term < U64
    case Stand(_) => v.memory.term + 1 < U64 && id != []
    case Learn(term, _) => term < U64
    case Answer => true
    case Reconfigure(m, _) => GoodMembership(m)
    case Note(rec, _) => rec.kind != STATE && Small(rec) && ReplayAll(f, EMPTY, v.recs + [rec]).Some?
    case Rewrite(snapshot) =>
      MayCompact(FileLive(f, v.recs), snapshot) && AllSmall(CompactRecords(f, FileLive(f, v.recs), snapshot))
    case Crash(cut, synced) => Spares(f, v, cut) && v.synced <= synced <= Whole(f, v.recs, cut)
  }

  function RunAll(f: Format, id: NodeID, events: seq<Event>): Trace {
    if events == [] then FIRST
    else Step(f, id, RunAll(f, id, events[..|events| - 1]), events[|events| - 1])
  }

  ghost predicate PossibleRun(f: Format, id: NodeID, events: seq<Event>) {
    events != [] ==>
      && PossibleRun(f, id, events[..|events| - 1])
      && Possible(f, id, RunAll(f, id, events[..|events| - 1]), events[|events| - 1])
  }

  /** A crash step is what recovery makes of the bytes that are left. */
  lemma CrashIsRecovery(f: Format, id: NodeID, t: Trace, e: Event)
    requires FileOk(f, t.voter) && e.Crash? && Possible(f, id, t, e)
    ensures var r := Recover(f, Frames(f, t.voter.recs)[..e.cut], EMPTY);
            && r.Some?
            && Step(f, id, t, e).voter.memory == r.value.live.state
            && |Frames(f, Step(f, id, t, e).voter.recs)| == r.value.size
  {
    hide Recover, Frames, Whole, ReplayAll, FileOk;
    CrashRecovers(f, t.voter, e.cut);
  }

  // ---- Grants ----

  predicate Promised(kept: Kept, g: Grant) {
    g.candidate != [] && (kept.term > g.term || (kept.term == g.term && kept.votedFor == g.candidate))
  }

  /** No crash falls behind what is kept, and what is kept bears out every grant. */
  ghost predicate Inv(f: Format, t: Trace) {
    FileOk(f, t.voter) && KeptOk(f, t.voter) && forall g | g in t.grants :: Promised(t.voter.kept, g)
  }

  lemma AskKeeps(f: Format, id: NodeID, t: Trace, e: Event)
    requires Inv(f, t) && e.Ask? && Possible(f, id, t, e)
    ensures Inv(f, Step(f, id, t, e))
  {
    hide FileOk, KeptOk, UpToDate, StatePayload, GoodMembership;
    var v := t.voter;
    FileSize(f, v);
    var m := v.memory.(term := e.args.term, votedFor := []);
    if e.args.term > v.memory.term {
      SaveKeeps(f, v, m, e.a);
    }
    var v1 := if e.args.term > v.memory.term then Saved(v, m, e.a) else v;
    if v1.memory.term == e.args.term && Grants(SiteOf(id, v1), NodeOf(v1, e.log), e.args) {
      FileSize(f, v1);
      SaveKeeps(f, v1, v1.memory.(votedFor := e.args.candidate), e.b);
    }
  }

  lemma StepKeeps(f: Format, id: NodeID, t: Trace, e: Event)
    requires Inv(f, t) && Possible(f, id, t, e)
    ensures Inv(f, Step(f, id, t, e))
  {
    hide FileOk, KeptOk, ReplayAll, StatePayload, GoodMembership, Whole, Frames, CompactRecords;
    var v := t.voter;
    FileSize(f, v);
    match e
    case Ask(_, _, _, _) => AskKeeps(f, id, t, e);
    case Stand(o) => SaveKeeps(f, v, v.memory.(term := v.memory.term + 1, votedFor := id), o);
    case Learn(term, o) =>
      if term > v.memory.term {
        SaveKeeps(f, v, v.memory.(term := term, votedFor := []), o);
      }
    case Answer => {}
    case Reconfigure(m, o) => SaveKeeps(f, v, v.memory.(membership := m), o);
    case Note(rec, flushed) =>
      KeptBelow(f, v);
      NoteKeeps(f, v, rec, flushed);
    case Rewrite(snapshot) =>
      KeptBelow(f, v);
      RewriteKeeps(f, v, snapshot);
    case Crash(cut, synced) =>
      CrashRecovers(f, v, cut);
      ReopenKeeps(f, v, Whole(f, v.recs, cut), synced);
  }

  lemma KeptBelow(f: Format, v: Voter)
    requires FileOk(f, v) && KeptOk(f, v)
    ensures RaftProtocol.Succeeds(v.kept, v.memory.term, v.memory.votedFor)
  {
  }

  lemma FirstInv(f: Format)
    requires Sound(f)
    ensures Inv(f, FIRST) && NoLower(f, FIRST.voter)
  {
    assert FIRST.voter.recs[..0] == [];
  }

  lemma {:induction false} RunKeeps(f: Format, id: NodeID, events: seq<Event>)
    requires Sound(f) && PossibleRun(f, id, events)
    ensures Inv(f, RunAll(f, id, events))
  {
    hide Inv, Possible, Step;
    if events == [] {
      FirstInv(f);
    } else {
      RunKeeps(f, id, events[..|events| - 1]);
      StepKeeps(f, id, RunAll(f, id, events[..|events| - 1]), events[|events| - 1]);
    }
  }

  /** A grant made in a step is what is kept right after it. */
  lemma NewGrantIsKept(f: Format, id: NodeID, t: Trace, e: Event, g: Grant)
    requires g in Step(f, id, t, e).grants && g !in t.grants
    ensures Step(f, id, t, e).voter.kept.term == g.term && Step(f, id, t, e).voter.kept.votedFor == g.candidate
  {
    hide Whole, StatePayload, Grants, ReplayAll, CompactRecords;
  }

  /** Over any run with failing writes, failing syncs, compactions and crashes at
      any byte, a node never grants its vote to two candidates in one term. */
  lemma {:induction false} OneGrantPerTerm(f: Format, id: NodeID, events: seq<Event>, g: Grant, g': Grant)
    requires Sound(f) && PossibleRun(f, id, events)
    requires g in RunAll(f, id, events).grants && g' in RunAll(f, id, events).grants && g.term == g'.term
    ensures g.candidate == g'.candidate
    decreases |events|
  {
    hide Possible, FileOk, KeptOk;
    var before := RunAll(f, id, events[..|events| - 1]);
    RunKeeps(f, id, events);
    if g in before.grants && g' in before.grants {
      OneGrantPerTerm(f, id, events[..|events| - 1], g, g');
    } else {
      NewGrantIsKept(f, id, before, events[|events| - 1], if g in before.grants then g' else g);
    }
  }

  /** Whatever bytes a crash leaves in any such run, the state recovered from them
      is one that the protocol's restart step allows. */
  lemma RecoveredStateAllowed(f: Format, id: NodeID, events: seq<Event>, cut: nat, log: seq<Entry>)
    requires Sound(f) && PossibleRun(f, id, events) && Spares(f, RunAll(f, id, events).voter, cut)
    ensures var v := RunAll(f, id, events).voter;
            var r := Recover(f, Frames(f, v.recs)[..cut], EMPTY);
            r.Some? && RaftProtocol.Succeeds(NodeOf(v, log).kept, r.value.live.state.term, r.value.live.state.votedFor)
  {
    hide FileOk, KeptOk, Possible, Spares, Recover;
    RunKeeps(f, id, events);
    RecoveredAllowed(f, RunAll(f, id, events).voter, cut);
  }

  lemma RecoveredAllowed(f: Format, v: Voter, cut: nat)
    requires FileOk(f, v) && KeptOk(f, v) && Spares(f, v, cut)
    ensures cut <= |Frames(f, v.recs)|
    ensures var r := Recover(f, Frames(f, v.recs)[..cut], EMPTY);
            r.Some? && RaftProtocol.Succeeds(v.kept, r.value.live.state.term, r.value.live.state.votedFor)
  {
    hide Recover, Frames, Whole, ReplayAll, FileOk;
    CrashRecovers(f, v, cut);
    var st := StateAt(f, v.recs, Whole(f, v.recs, cut));
    assert RaftProtocol.Succeeds(v.kept, st.term, st.votedFor);
  }

  // ---- Terms ----

  /** The term that recovery finds in the bytes a crash has left. */
  function TermAfter(f: Format, v: Voter, cut: nat): nat {
    match Recover(f, Frames(f, v.recs)[..Least(cut, |Frames(f, v.recs)|)], EMPTY)
    case None => 0
    case Some(r) => r.live.state.term
  }

  function Least(a: nat, b: nat): nat {
    if a < b then a else b
  }

  /** No crash loses a term the node has answered with, or would answer with now. */
  ghost predicate Covered(f: Format, t: Trace) {
    forall cut: nat | Spares(f, t.voter, cut) ::
      && t.voter.memory.term <= TermAfter(f, t.voter, cut)
      && forall reply | reply in t.replies :: reply <= TermAfter(f, t.voter, cut)
  }

  /** The part of the file that is not synced holds no lower term than memory. */
  ghost predicate NoLower(f: Format, v: Voter) {
    v.synced <= |v.recs| && forall k | v.synced <= k <= |v.recs| :: StateAt(f, v.recs, k).term >= v.memory.term
  }

  lemma TermAtCut(f: Format, v: Voter, cut: nat)
    requires FileOk(f, v) && Spares(f, v, cut)
    ensures v.synced <= Whole(f, v.recs, cut) <= |v.recs|
    ensures TermAfter(f, v, cut) == StateAt(f, v.recs, Whole(f, v.recs, cut)).term
  {
    hide Recover, Frames, Whole, ReplayAll, FileOk;
    CrashRecovers(f, v, cut);
  }

  lemma TermAtRecord(f: Format, v: Voter, k: nat)
    requires FileOk(f, v) && v.synced <= k <= |v.recs|
    ensures Spares(f, v, |Frames(f, v.recs[..k])|) &&
        TermAfter(f, v, |Frames(f, v.recs[..k])|) == StateAt(f, v.recs, k).term
  {
    hide Frames, Whole, ReplayAll, FileOk, TermAfter, Spares;
    CrashAt(f, v, k);
    TermAtCut(f, v, |Frames(f, v.recs[..k])|);
  }

  /** That is exactly the condition for no crash to fall below memory. */
  lemma CoversMemoryExactly(f: Format, v: Voter)
    requires FileOk(f, v)
    ensures (forall cut: nat | Spares(f, v, cut) :: v.memory.term <= TermAfter(f, v, cut)) <==> NoLower(f, v)
  {
    hide Frames, Whole, StateAt, FileOk, TermAfter, Spares;
    FileSize(f, v);
    if NoLower(f, v) {
      forall cut: nat | Spares(f, v, cut) ensures v.memory.term <= TermAfter(f, v, cut) {
        TermAtCut(f, v, cut);
      }
    } else {
      var k :| v.synced <= k <= |v.recs| && StateAt(f, v.recs, k).term < v.memory.term;
      TermAtRecord(f, v, k);
    }
  }

  /** A restart on a file whose unsynced end holds no lower term than the one it
      comes up with. */
  ghost predicate KeepsTerm(f: Format, t: Trace, e: Event) {
    e.Crash? ==>
      var recs, k := t.voter.recs, Whole(f, t.voter.recs, e.cut);
      e.synced <= k <= |recs| && forall j | e.synced <= j <= k :: StateAt(f, recs, j).term >= StateAt(f, recs, k).term
  }

  ghost predicate KeepsTerms(f: Format, id: NodeID, events: seq<Event>) {
    events != [] ==>
      && KeepsTerms(f, id, events[..|events| - 1])
      && KeepsTerm(f, RunAll(f, id, events[..|events| - 1]), events[|events| - 1])
  }

  /** Every term answered with is at most memory's, and no crash falls below that. */
  ghost predicate TermsOk(f: Format, t: Trace) {
    (forall r | r in t.replies :: r <= t.voter.memory.term) && NoLower(f, t.voter)
  }

  lemma SaveNoLower(f: Format, v: Voter, st: PersistentState, o: Outcome)
    requires FileOk(f, v) && NoLower(f, v) && StateOk(st) && st.term >= v.memory.term
    ensures NoLower(f, Saved(v, st, o)) && Saved(v, st, o).memory.term >= v.memory.term
  {
    hide FileOk, StateOk, StatePayload;
    FileSize(f, v);
    if !o.WriteFails? && Small(StateRecord(st)) {
      SaveKeepsFile(f, v, st, o);
    }
  }

  lemma AskKeepsTerms(f: Format, id: NodeID, t: Trace, e: Event)
    requires Inv(f, t) && TermsOk(f, t) && e.Ask? && Possible(f, id, t, e)
    ensures TermsOk(f, Step(f, id, t, e))
  {
    hide FileOk, KeptOk, NoLower, UpToDate, StatePayload, GoodMembership;
    var v := t.voter;
    FileSize(f, v);
    var m := v.memory.(term := e.args.term, votedFor := []);
    if e.args.term > v.memory.term {
      SaveKeeps(f, v, m, e.a);
      SaveNoLower(f, v, m, e.a);
    }
    var v1 := if e.args.term > v.memory.term then Saved(v, m, e.a) else v;
    if v1.memory.term == e.args.term && Grants(SiteOf(id, v1), NodeOf(v1, e.log), e.args) {
      FileSize(f, v1);
      SaveNoLower(f, v1, v1.memory.(votedFor := e.args.candidate), e.b);
    }
  }

  lemma OthersNoLower(f: Format, id: NodeID, t: Trace, e: Event)
    requires Inv(f, t) && TermsOk(f, t) && (e.Note? || e.Rewrite?) && Possible(f, id, t, e)
    ensures TermsOk(f, Step(f, id, t, e))
  {
    hide FileOk, ReplayAll, CompactRecords;
    FileSize(f, t.voter);
    if e.Note? {
      NoteKeepsFile(f, t.voter, e.rec, e.flushed);
    } else {
      RewrittenStates(f, t.voter, e.snapshot);
    }
  }

  /** What a crash does, one way and the other. */
  lemma CrashTerms(f: Format, id: NodeID, t: Trace, e: Event)
    requires Inv(f, t) && e.Crash? && Possible(f, id, t, e)
    ensures NoLower(f, Step(f, id, t, e).voter) <==> KeepsTerm(f, t, e)
    ensures NoLower(f, t.voter) ==> Step(f, id, t, e).voter.memory.term >= t.voter.memory.term
  {
    hide FileOk, KeptOk, Whole, Frames, ReplayAll;
    CrashRecovers(f, t.voter, e.cut);
    var k := Whole(f, t.voter.recs, e.cut);
    ReopenKeepsFile(f, t.voter, k, e.synced);
  }

  lemma StepKeepsTerms(f: Format, id: NodeID, t: Trace, e: Event)
    requires Inv(f, t) && TermsOk(f, t) && Possible(f, id, t, e) && KeepsTerm(f, t, e)
    ensures TermsOk(f, Step(f, id, t, e))
  {
    hide FileOk, KeptOk, NoLower, ReplayAll, Whole, Frames, CompactRecords, StatePayload, GoodMembership, KeepsTerm;
    var v := t.voter;
    FileSize(f, v);
    match e
    case Ask(_, _, _, _) => AskKeepsTerms(f, id, t, e);
    case Stand(o) => SaveNoLower(f, v, v.memory.(term := v.memory.term + 1, votedFor := id), o);
    case Learn(term, o) =>
      if term > v.memory.term {
        SaveNoLower(f, v, v.memory.(term := term, votedFor := []), o);
      }
    case Answer => {}
    case Reconfigure(m, o) => SaveNoLower(f, v, v.memory.(membership := m), o);
    case Note(_, _) => OthersNoLower(f, id, t, e);
    case Rewrite(_) => OthersNoLower(f, id, t, e);
    case Crash(_, _) => CrashTerms(f, id, t, e);
  }

  lemma {:induction false} RunKeepsTerms(f: Format, id: NodeID, events: seq<Event>)
    requires Sound(f) && PossibleRun(f, id, events) && KeepsTerms(f, id, events)
    ensures TermsOk(f, RunAll(f, id, events)) && Covered(f, RunAll(f, id, events))
  {
    hide Inv, Possible, KeepsTerm, Step, NoLower, Covered;
    if events == [] {
      FirstInv(f);
    } else {
      RunKeeps(f, id, events[..|events| - 1]);
      RunKeepsTerms(f, id, events[..|events| - 1]);
      StepKeepsTerms(f, id, RunAll(f, id, events[..|events| - 1]), events[|events| - 1]);
    }
    RunKeeps(f, id, events);
    TermsCovered(f, RunAll(f, id, events));
  }

  lemma TermsCovered(f: Format, t: Trace)
    requires Inv(f, t) && TermsOk(f, t)
    ensures Covered(f, t)
  {
    hide FileOk, KeptOk, NoLower, TermAfter, Spares;
    CoversMemoryExactly(f, t.voter);
  }

  /** The recovered term is at least every term ever answered with, and the one the
      node would answer with now, at every point of a run, if and only if each
      restart of the run found a file whose unsynced end holds no lower term than
      the one it came up with. */
  lemma {:induction false} RunCoveredExactly(f: Format, id: NodeID, events: seq<Event>)
    requires Sound(f) && PossibleRun(f, id, events)
    ensures (forall n | 0 <= n <= |events| :: Covered(f, RunAll(f, id, events[..n]))) <==> KeepsTerms(f, id, events)
    decreases |events|
  {
    hide Inv, Possible, KeepsTerm, Step, Covered;
    assert events[..|events|] == events;
    if events == [] {
      RunKeepsTerms(f, id, events);
    } else {
      var before, e := events[..|events| - 1], events[|events| - 1];
      RunCoveredExactly(f, id, before);
      assert forall n | 0 <= n <= |before| :: before[..n] == events[..n];
      RunKeeps(f, id, before);
      if KeepsTerms(f, id, events) {
        RunKeepsTerms(f, id, events);
      } else if KeepsTerms(f, id, before) {
        UncoveredCrash(f, id, RunAll(f, id, before), e);
        assert !Covered(f, RunAll(f, id, events[..|events|]));
      }
    }
  }

  /** A restart on a file that may still fall back is followed by a crash that does. */
  lemma UncoveredCrash(f: Format, id: NodeID, t: Trace, e: Event)
    requires Inv(f, t) && Possible(f, id, t, e) && !KeepsTerm(f, t, e)
    ensures !Covered(f, Step(f, id, t, e))
  {
    hide Step, NoLower, Covered, Inv, Possible;
    StepKeeps(f, id, t, e);
    CrashTerms(f, id, t, e);
    NotCovered(f, Step(f, id, t, e));
  }

  lemma NotCovered(f: Format, t: Trace)
    requires Inv(f, t) && !NoLower(f, t.voter)
    ensures !Covered(f, t)
  {
    hide FileOk, KeptOk, NoLower, TermAfter, Spares;
    CoversMemoryExactly(f, t.voter);
    var cut: nat :| Spares(f, t.voter, cut) && !(t.voter.memory.term <= TermAfter(f, t.voter, cut));
  }

  // ---- Answers alone ----

  /** No crash loses a term the node has answered with. */
  ghost predicate Answered(f: Format, t: Trace) {
    forall cut: nat | Spares(f, t.voter, cut) ::
      forall reply | reply in t.replies :: reply <= TermAfter(f, t.voter, cut)
  }

  /** Neither memory nor any part of the file that a crash may leave is below `term`. */
  ghost predicate AtLeast(f: Format, v: Voter, term: nat) {
    && term <= v.memory.term && v.synced <= |v.recs|
    && forall k | v.synced <= k <= |v.recs| :: StateAt(f, v.recs, k).term >= term
  }

  ghost predicate AnswersOk(f: Format, t: Trace) {
    forall reply | reply in t.replies :: AtLeast(f, t.voter, reply)
  }

  lemma AnsweredExactly(f: Format, t: Trace)
    requires Inv(f, t) && forall reply | reply in t.replies :: reply <= t.voter.memory.term
    ensures Answered(f, t) <==> AnswersOk(f, t)
  {
    hide FileOk, KeptOk, TermAfter, Spares, StateAt, Frames, Whole;
    FileSize(f, t.voter);
    if AnswersOk(f, t) {
      forall cut: nat | Spares(f, t.voter, cut)
        ensures forall reply | reply in t.replies :: reply <= TermAfter(f, t.voter, cut)
      {
        TermAtCut(f, t.voter, cut);
      }
    } else {
      var reply :| reply in t.replies && !AtLeast(f, t.voter, reply);
      var k :| t.voter.synced <= k <= |t.voter.recs| && StateAt(f, t.voter.recs, k).term < reply;
      TermAtRecord(f, t.voter, k);
    }
  }

  /** An answer is given only with a term that no crash falls below. */
  ghost predicate KeepsAnswer(f: Format, id: NodeID, t: Trace, e: Event) {
    e.Ask? || e.Answer? ==> NoLower(f, Step(f, id, t, e).voter)
  }

  ghost predicate KeepsAnswers(f: Format, id: NodeID, events: seq<Event>) {
    events != [] ==>
      && KeepsAnswers(f, id, events[..|events| - 1])
      && KeepsAnswer(f, id, RunAll(f, id, events[..|events| - 1]), events[|events| - 1])
  }

  lemma SaveAtLeast(f: Format, v: Voter, st: PersistentState, o: Outcome, term: nat)
    requires FileOk(f, v) && AtLeast(f, v, term) && StateOk(st) && st.term >= v.memory.term
    ensures AtLeast(f, Saved(v, st, o), term)
  {
    hide FileOk, StateOk, StatePayload;
    FileSize(f, v);
    if !o.WriteFails? && Small(StateRecord(st)) {
      SaveKeepsFile(f, v, st, o);
    }
  }

  lemma AskAtLeast(f: Format, id: NodeID, t: Trace, e: Event, term: nat)
    requires Inv(f, t) && AtLeast(f, t.voter, term) && e.Ask? && Possible(f, id, t, e)
    ensures AtLeast(f, Step(f, id, t, e).voter, term)
  {
    hide FileOk, KeptOk, AtLeast, UpToDate, StatePayload, GoodMembership;
    var v := t.voter;
    FileSize(f, v);
    var m := v.memory.(term := e.args.term, votedFor := []);
    if e.args.term > v.memory.term {
      SaveKeeps(f, v, m, e.a);
      SaveAtLeast(f, v, m, e.a, term);
    }
    var v1 := if e.args.term > v.memory.term then Saved(v, m, e.a) else v;
    if v1.memory.term == e.args.term && Grants(SiteOf(id, v1), NodeOf(v1, e.log), e.args) {
      FileSize(f, v1);
      SaveAtLeast(f, v1, v1.memory.(votedFor := e.args.candidate), e.b, term);
    }
  }

  lemma OthersAtLeast(f: Format, id: NodeID, t: Trace, e: Event, term: nat)
    requires Inv(f, t) && AtLeast(f, t.voter, term) && (e.Note? || e.Rewrite? || e.Crash?) && Possible(f, id, t, e)
    ensures AtLeast(f, Step(f, id, t, e).voter, term)
  {
    hide FileOk, KeptOk, ReplayAll, CompactRecords, Whole, Frames, StateAt;
    FileSize(f, t.voter);
    match e
    case Note(rec, flushed) => NoteKeepsFile(f, t.voter, rec, flushed);
    case Rewrite(snapshot) => RewrittenStates(f, t.voter, snapshot);
    case Crash(cut, synced) =>
      CrashRecovers(f, t.voter, cut);
      ReopenKeepsFile(f, t.voter, Whole(f, t.voter.recs, cut), synced);
  }

  /** A term that no crash falls below stays one. */
  lemma StepAtLeast(f: Format, id: NodeID, t: Trace, e: Event, term: nat)
    requires Inv(f, t) && AtLeast(f, t.voter, term) && Possible(f, id, t, e)
    ensures AtLeast(f, Step(f, id, t, e).voter, term)
  {
    hide FileOk, KeptOk, AtLeast, ReplayAll, Whole, Frames, CompactRecords, StatePayload, GoodMembership;
    var v := t.voter;
    FileSize(f, v);
    match e
    case Ask(_, _, _, _) => AskAtLeast(f, id, t, e, term);
    case Stand(o) => SaveAtLeast(f, v, v.memory.(term := v.memory.term + 1, votedFor := id), o, term);
    case Learn(other, o) =>
      if other > v.memory.term {
        SaveAtLeast(f, v, v.memory.(term := other, votedFor := []), o, term);
      }
    case Answer => {}
    case Reconfigure(m, o) => SaveAtLeast(f, v, v.memory.(membership := m), o, term);
    case Note(_, _) => OthersAtLeast(f, id, t, e, term);
    case Rewrite(_) => OthersAtLeast(f, id, t, e, term);
    case Crash(_, _) => OthersAtLeast(f, id, t, e, term);
  }

  /** Only a request and an answer add to the answers, and what they add is memory's term. */
  lemma NewAnswer(f: Format, id: NodeID, t: Trace, e: Event)
    ensures var t' := Step(f, id, t, e);
            t'.replies == if e.Ask? || e.Answer? then t.replies + {t'.voter.memory.term} else t.replies
  {
    hide Whole, StatePayload, Grants, ReplayAll, CompactRecords, StateAt;
  }

  lemma StepAnswers(f: Format, id: NodeID, t: Trace, e: Event)
    requires Inv(f, t) && AnswersOk(f, t) && Possible(f, id, t, e)
    ensures Answered(f, Step(f, id, t, e)) <==> KeepsAnswer(f, id, t, e)
    ensures KeepsAnswer(f, id, t, e) ==> AnswersOk(f, Step(f, id, t, e))
  {
    hide Inv, Possible, Step, Answered, StateAt;
    var t' := Step(f, id, t, e);
    StepKeeps(f, id, t, e);
    NewAnswer(f, id, t, e);
    forall reply | reply in t.replies ensures AtLeast(f, t'.voter, reply) {
      StepAtLeast(f, id, t, e, reply);
    }
    AnsweredExactly(f, t');
  }

  lemma {:induction false} RunAnswers(f: Format, id: NodeID, events: seq<Event>)
    requires Sound(f) && PossibleRun(f, id, events) && KeepsAnswers(f, id, events)
    ensures AnswersOk(f, RunAll(f, id, events)) && Answered(f, RunAll(f, id, events))
  {
    hide Inv, Possible, KeepsAnswer, Step, Answered, AtLeast;
    if events != [] {
      RunKeeps(f, id, events[..|events| - 1]);
      RunAnswers(f, id, events[..|events| - 1]);
      StepAnswers(f, id, RunAll(f, id, events[..|events| - 1]), events[|events| - 1]);
    } else {
      NoAnswers(f);
    }
  }

  lemma NoAnswers(f: Format)
    ensures Answered(f, FIRST)
  {
  }

  /** For the answers alone: no crash loses a term answered with, at every point of
      a run, if and only if each answer was given while the unsynced end of the
      file held no lower term. */
  lemma {:induction false} RunAnsweredExactly(f: Format, id: NodeID, events: seq<Event>)
    requires Sound(f) && PossibleRun(f, id, events)
    ensures (forall n | 0 <= n <= |events| :: Answered(f, RunAll(f, id, events[..n]))) <==> KeepsAnswers(f, id, events)
    decreases |events|
  {
    hide Inv, Possible, KeepsAnswer, Step, Answered;
    assert events[..|events|] == events;
    if events == [] {
      RunAnswers(f, id, events);
    } else {
      var before := events[..|events| - 1];
      RunAnsweredExactly(f, id, before);
      assert forall n | 0 <= n <= |before| :: before[..n] == events[..n];
      if KeepsAnswers(f, id, events) {
        RunAnswers(f, id, events);
      } else if KeepsAnswers(f, id, before) {
        RunKeeps(f, id, before);
        RunAnswers(f, id, before);
        StepAnswers(f, id, RunAll(f, id, before), events[|events| - 1]);
        assert !Answered(f, RunAll(f, id, events[..|events|]));
      }
    }
  }
}
