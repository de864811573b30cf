/** A node's term and vote beside the file they are saved in. A crash keeps any
    number of bytes of the file, as long as what was synced is among them, and
    recovery takes over from there (internal/storage/wal.go under the handlers of
    internal/raft/node_election.go). */
module VoteFile {
  import opened Types
  import opened Bytes
  import opened WalCodec
  import opened Wal
  import opened RaftStep
  import opened RaftDurable
  import opened RaftProtocol
  import WalStorage

  /** The persistent state in memory, the records written to the file, how many
      of them a sync has covered, and what no crash can take away. */
  datatype Voter = Voter(memory: PersistentState, recs: seq<Record>, synced: nat, kept: Kept)

  function StateRecord(st: PersistentState): Record {
    Record(STATE, StatePayload(st))
  }

  /** SaveState and Sync both succeed. */
  predicate Lands(st: PersistentState, o: Outcome) {
    o.Written? && Small(StateRecord(st))
  }

  function KeptBy(kept: Kept, st: PersistentState): Kept {
    kept.(term := st.term, votedFor := st.votedFor)
  }

  /** SaveState, Sync, and only then the assignment to memory. */
  function Saved(v: Voter, st: PersistentState, o: Outcome): Voter {
    if o.WriteFails? || !Small(StateRecord(st)) then v
    else if o.SyncFails? then v.(recs := v.recs + [StateRecord(st)])
    else Voter(st, v.recs + [StateRecord(st)], |v.recs| + 1, KeptBy(v.kept, st))
  }

  /** Any other record; a sync covers the states before it as well. */
  function Noted(v: Voter, rec: Record, flushed: bool): Voter {
    if flushed then Voter(v.memory, v.recs + [rec], |v.recs| + 1, KeptBy(v.kept, v.memory))
    else v.(recs := v.recs + [rec])
  }

  /** Compact writes a new file from what the storage holds, which may be a state
      whose sync failed, and syncs it. */
  function Rewritten(f: Format, v: Voter, snapshot: Snapshot): Voter {
    var recs := CompactRecords(f, FileLive(f, v.recs), snapshot);
    Voter(v.memory, recs, |recs|, KeptBy(v.kept, v.memory))
  }

  /** What recovery finds of the first `k` records; `synced` of them count as
      durable once the file is open again. */
  function Reopened(f: Format, v: Voter, k: nat, synced: nat): Voter
    requires k <= |v.recs|
  {
    Voter(StateAt(f, v.recs, k), v.recs[..k], synced, v.kept)
  }

  // ---- What the file says ----

  /** The fields rebuilt from the whole file. */
  function FileLive(f: Format, recs: seq<Record>): Live {
    match ReplayAll(f, EMPTY, recs)
    case None => EMPTY
    case Some(live) => live
  }

  /** The term and vote that recovery finds if the first `k` records survive. */
  function StateAt(f: Format, recs: seq<Record>, k: nat): PersistentState
    requires k <= |recs|
  {
    FileLive(f, recs[..k]).state
  }

  predicate StateOk(st: PersistentState) {
    st.term < U64 && GoodMembership(st.membership)
  }

  predicate Legible(f: Format, recs: seq<Record>, k: nat)
    requires k <= |recs|
  {
    ReplayAll(f, EMPTY, recs[..k]).Some?
  }

  ghost predicate FileOk(f: Format, v: Voter) {
    && Sound(f)
    && AllSmall(v.recs)
    && v.synced <= |v.recs|
    && StateOk(v.memory)
    && (forall k | 0 <= k <= |v.recs| :: Legible(f, v.recs, k))
    && (forall k | 0 <= k <= |v.recs| :: StateOk(StateAt(f, v.recs, k)))
  }

  lemma ReplayState(f: Format, live: Live, st: PersistentState)
    requires Small(StateRecord(st)) && StateOk(st)
    ensures Replay(f, live, StateRecord(st)) == Some(live.(state := st))
  {
    hide StatePayload, DecodeState, GoodMembership;
    StateSize(st);
    StateRoundTrip(st);
  }

  lemma ReplayOther(f: Format, live: Live, rec: Record)
    requires rec.kind != STATE && Replay(f, live, rec).Some?
    ensures Replay(f, live, rec).value.state == live.state
  {
    hide DecodeEntries, DecodeSuffix, Replaced, ValidReplace, ValidEntries, Continues, ValidSnapshot;
  }

  lemma ReplayOne(f: Format, live: Live, rec: Record)
    ensures ReplayAll(f, live, [rec]) == Replay(f, live, rec)
  {
    hide Replay;
    if Replay(f, live, rec).Some? {
      assert [rec][1..] == [];
    }
  }

  /** One more record at the end: shorter prefixes say what they said before. */
  lemma Appended(f: Format, recs: seq<Record>, rec: Record)
    requires Legible(f, recs, |recs|)
    ensures ReplayAll(f, EMPTY, recs + [rec]) == Replay(f, FileLive(f, recs), rec)
    ensures forall k | 0 <= k <= |recs| :: (recs + [rec])[..k] == recs[..k]
  {
    hide Replay;
    assert recs[..|recs|] == recs;
    ReplayAppend(f, EMPTY, recs, [rec]);
    ReplayOne(f, FileLive(f, recs), rec);
  }

  /** A readable record keeps the file readable; only the state after it is new. */
  lemma WriteKeepsFile(f: Format, v: Voter, rec: Record, v': Voter)
    requires FileOk(f, v) && Small(rec) && Replay(f, FileLive(f, v.recs), rec).Some?
    requires StateOk(Replay(f, FileLive(f, v.recs), rec).value.state)
    requires v'.recs == v.recs + [rec] && StateOk(v'.memory) && v'.synced <= |v'.recs|
    ensures FileOk(f, v')
    ensures forall k | 0 <= k <= |v.recs| :: StateAt(f, v'.recs, k) == StateAt(f, v.recs, k)
    ensures StateAt(f, v'.recs, |v'.recs|) == Replay(f, FileLive(f, v.recs), rec).value.state
  {
    hide Replay, Sound, StateOk, ReplayAll;
    var recs := v.recs + [rec];
    assert Legible(f, v.recs, |v.recs|);
    Appended(f, v.recs, rec);
    assert recs[..|recs|] == recs;
    forall k | 0 <= k <= |recs| ensures Legible(f, recs, k) && StateOk(StateAt(f, recs, k)) {
      if k <= |v.recs| {
        assert recs[..k] == v.recs[..k];
        assert Legible(f, v.recs, k) && StateOk(StateAt(f, v.recs, k));
      }
    }
  }

  lemma SaveKeepsFile(f: Format, v: Voter, st: PersistentState, o: Outcome)
    requires FileOk(f, v) && StateOk(st) && !o.WriteFails? && Small(StateRecord(st))
    ensures var v' := Saved(v, st, o);
            && FileOk(f, v')
            && (forall k | 0 <= k <= |v.recs| :: StateAt(f, v'.recs, k) == StateAt(f, v.recs, k))
            && StateAt(f, v'.recs, |v.recs| + 1) == st
  {
    hide Replay, StateOk, Sound;
    ReplayState(f, FileLive(f, v.recs), st);
    WriteKeepsFile(f, v, StateRecord(st), Saved(v, st, o));
  }

  lemma NoteKeepsFile(f: Format, v: Voter, rec: Record, flushed: bool)
    requires FileOk(f, v) && rec.kind != STATE && Small(rec) && ReplayAll(f, EMPTY, v.recs + [rec]).Some?
    ensures var v' := Noted(v, rec, flushed);
            && FileOk(f, v')
            && (forall k | 0 <= k <= |v.recs| :: StateAt(f, v'.recs, k) == StateAt(f, v.recs, k))
            && StateAt(f, v'.recs, |v.recs| + 1) == StateAt(f, v.recs, |v.recs|)
  {
    hide Replay, StateOk, Sound;
    assert Legible(f, v.recs, |v.recs|) && StateOk(StateAt(f, v.recs, |v.recs|));
    assert v.recs[..|v.recs|] == v.recs;
    Appended(f, v.recs, rec);
    ReplayOther(f, FileLive(f, v.recs), rec);
    WriteKeepsFile(f, v, rec, Noted(v, rec, flushed));
  }

  lemma ReopenKeepsFile(f: Format, v: Voter, k: nat, synced: nat)
    requires FileOk(f, v) && synced <= k <= |v.recs|
    ensures var v' := Reopened(f, v, k, synced);
            FileOk(f, v') && forall j | 0 <= j <= k :: StateAt(f, v'.recs, j) == StateAt(f, v.recs, j)
  {
    hide Sound, ReplayAll, StateOk;
    forall j | 0 <= j <= k
      ensures Legible(f, v.recs[..k], j) && StateAt(f, v.recs[..k], j) == StateAt(f, v.recs, j) &&
          StateOk(StateAt(f, v.recs, j))
    {
      assert v.recs[..k][..j] == v.recs[..j];
      assert Legible(f, v.recs, j);
    }
  }

  // ---- A rewritten file ----

  lemma {:induction false} ReplayAllStorable(f: Format, live: Live, recs: seq<Record>)
    requires WalStorage.Storable(live) && ReplayAll(f, live, recs).Some?
    ensures WalStorage.Storable(ReplayAll(f, live, recs).value)
    decreases |recs|
  {
    hide Replay, WalStorage.Storable;
    if recs != [] {
      WalStorage.ReplayStorable(f, live, recs[0]);
      ReplayAllStorable(f, Replay(f, live, recs[0]).value, recs[1..]);
    }
  }

  /** The rewritten file holds the state that the old one ended with. */
  lemma RewrittenStates(f: Format, v: Voter, snapshot: Snapshot)
    requires FileOk(f, v) && MayCompact(FileLive(f, v.recs), snapshot)
    requires AllSmall(CompactRecords(f, FileLive(f, v.recs), snapshot))
    ensures FileOk(f, Rewritten(f, v, snapshot))
    ensures var v' := Rewritten(f, v, snapshot); StateAt(f, v'.recs, |v'.recs|) == StateAt(f, v.recs, |v.recs|)
  {
    hide Replay, Sound, StateOk;
    var live := FileLive(f, v.recs);
    var recs := CompactRecords(f, live, snapshot);
    assert v.recs[..|v.recs|] == v.recs && Legible(f, v.recs, |v.recs|) && StateOk(StateAt(f, v.recs, |v.recs|));
    WalStorage.EmptyStorable();
    ReplayAllStorable(f, EMPTY, v.recs);
    RewrittenReplays(f, live, snapshot);
    forall k | 0 <= k <= |recs| ensures Legible(f, recs, k) && StateOk(StateAt(f, recs, k)) {
      RewrittenPrefix(f, live, snapshot, k);
      EmptyStateOk();
    }
    RewrittenPrefix(f, live, snapshot, |recs|);
  }

  lemma EmptyStateOk()
    ensures StateOk(EMPTY.state)
  {
  }

  lemma RewrittenReplays(f: Format, live: Live, snapshot: Snapshot)
    requires Sound(f) && WalStorage.Storable(live) && MayCompact(live, snapshot) &&
        AllSmall(CompactRecords(f, live, snapshot))
    ensures ReplayAll(f, EMPTY, CompactRecords(f, live, snapshot)) == Some(Compacted(live, snapshot))
  {
    hide Above, ValidEntries, WideEntries, GoodMembership, Sound, ReplayAll, PerformAll, AllRecords;
    var kept := Above(live.entries, snapshot.index);
    WalStorage.CompactedStorable(live, snapshot);
    CompactionOps(f, live, snapshot);
    assert ValidEntries(EMPTY.entries) by {
      WalStorage.EmptyStorable();
    }
    PerformedReplays(f, EMPTY, [SaveState(live.state), SaveSnapshot(snapshot), Op.AppendEntries(kept)]);
  }

  /** Every non-empty prefix of a rewritten file holds the same state. */
  lemma RewrittenPrefix(f: Format, live: Live, snapshot: Snapshot, k: nat)
    requires k <= |CompactRecords(f, live, snapshot)| && ReplayAll(f, EMPTY, CompactRecords(f, live, snapshot)).Some?
    requires Small(StateRecord(live.state)) && StateOk(live.state)
    ensures Legible(f, CompactRecords(f, live, snapshot), k)
    ensures StateAt(f, CompactRecords(f, live, snapshot), k) == if k == 0 then EMPTY.state else live.state
  {
    hide Replay, StateOk, Above;
    var recs := CompactRecords(f, live, snapshot);
    assert recs[0] == StateRecord(live.state);
    if k == 0 {
      assert recs[..0] == [];
    } else {
      assert recs == recs[..k] + recs[k..] && recs[..k] == [recs[0]] + recs[1..k];
      ReplayAppend(f, EMPTY, recs[..k], recs[k..]);
      ReplayAppend(f, EMPTY, [recs[0]], recs[1..k]);
      ReplayOne(f, EMPTY, recs[0]);
      ReplayState(f, EMPTY, live.state);
      OthersKeepState(f, EMPTY.(state := live.state), recs[1..k]);
    }
  }

  lemma {:induction false} OthersKeepState(f: Format, live: Live, recs: seq<Record>)
    requires ReplayAll(f, live, recs).Some? && forall i | 0 <= i < |recs| :: recs[i].kind != STATE
    ensures ReplayAll(f, live, recs).value.state == live.state
    decreases |recs|
  {
    hide Replay;
    if recs != [] {
      ReplayOther(f, live, recs[0]);
      OthersKeepState(f, Replay(f, live, recs[0]).value, recs[1..]);
    }
  }

  // ---- Crashes ----

  /** A crash may leave `cut` bytes: at least those that were synced. */
  predicate Spares(f: Format, v: Voter, cut: nat) {
    v.synced <= |v.recs| && |Frames(f, v.recs[..v.synced])| <= cut <= |Frames(f, v.recs)|
  }

  lemma WholeAtLeast(f: Format, recs: seq<Record>, j: nat, cut: nat)
    requires j <= |recs| && |Frames(f, recs[..j])| <= cut
    ensures j <= Whole(f, recs, cut)
  {
    var k := Whole(f, recs, cut);
    WholeMeaning(f, recs, cut);
    if k < j {
      assert recs[..j] == recs[..k + 1] + recs[k + 1..j];
      FramesAppend(f, recs[..k + 1], recs[k + 1..j]);
    }
  }

  /** A crash at any byte leaves exactly the state after some number of whole
      records, at least those that were synced. */
  lemma CrashRecovers(f: Format, v: Voter, cut: nat)
    requires FileOk(f, v) && Spares(f, v, cut)
    ensures var k := Whole(f, v.recs, cut);
            && v.synced <= k <= |v.recs|
            && Recover(f, Frames(f, v.recs)[..cut], EMPTY) ==
               Some(Recovered(FileLive(f, v.recs[..k]), |Frames(f, v.recs[..k])|))
  {
    hide Replay, Recover, Frames, Whole, Sound, StateOk;
    assert Legible(f, v.recs, |v.recs|);
    assert v.recs[..|v.recs|] == v.recs;
    TornTail(f, v.recs, cut, EMPTY);
    WholeAtLeast(f, v.recs, v.synced, cut);
  }

  /** Conversely, for each number of records from the synced ones on there is a
      crash that leaves exactly those. */
  lemma CrashAt(f: Format, v: Voter, k: nat)
    requires v.synced <= k <= |v.recs|
    ensures Spares(f, v, |Frames(f, v.recs[..k])|) && Whole(f, v.recs, |Frames(f, v.recs[..k])|) == k
  {
    hide Frame;
    var cut := |Frames(f, v.recs[..k])|;
    assert v.recs[..k] == v.recs[..v.synced] + v.recs[v.synced..k];
    FramesAppend(f, v.recs[..v.synced], v.recs[v.synced..k]);
    assert v.recs == v.recs[..k] + v.recs[k..];
    FramesAppend(f, v.recs[..k], v.recs[k..]);
    WholeMeaning(f, v.recs, cut);
    WholeAtLeast(f, v.recs, k, cut);
    var w := Whole(f, v.recs, cut);
    if k < w {
      LongerFile(f, v.recs, k, w);
    }
  }

  lemma LongerFile(f: Format, recs: seq<Record>, k: nat, w: nat)
    requires k < w <= |recs|
    ensures |Frames(f, recs[..k])| < |Frames(f, recs[..w])|
  {
    assert recs[..w] == recs[..k] + recs[k..w];
    FramesAppend(f, recs[..k], recs[k..w]);
    assert Frames(f, recs[k..w]) == Frame(f, recs[k]) + Frames(f, recs[k..w][1..]);
  }

  // ---- What survives ----

  /** The two ways for the persistent state to move on within the handlers. */
  predicate Follows(st: PersistentState, st': PersistentState) {
    st'.term > st.term || (st'.term == st.term && (st.votedFor == [] || st'.votedFor == st.votedFor))
  }

  /** No crash falls behind what is kept, and neither does memory; the last state
      in the file is memory's or one that was to follow it. */
  ghost predicate KeptOk(f: Format, v: Voter)
    requires FileOk(f, v)
  {
    && Succeeds(v.kept, v.memory.term, v.memory.votedFor)
    && (forall k | v.synced <= k <= |v.recs| ::
          Succeeds(v.kept, StateAt(f, v.recs, k).term, StateAt(f, v.recs, k).votedFor))
    && Follows(v.memory, StateAt(f, v.recs, |v.recs|))
  }

  lemma SaveKeeps(f: Format, v: Voter, st: PersistentState, o: Outcome)
    requires FileOk(f, v) && KeptOk(f, v) && StateOk(st) && Follows(v.memory, st)
    ensures FileOk(f, Saved(v, st, o)) && KeptOk(f, Saved(v, st, o))
    ensures Succeeds(v.kept, Saved(v, st, o).kept.term, Saved(v, st, o).kept.votedFor)
  {
    hide FileOk, StateOk, StateAt, StateRecord, Small;
    FileSize(f, v);
    if !o.WriteFails? && Small(StateRecord(st)) {
      SaveKeepsFile(f, v, st, o);
      FileSize(f, Saved(v, st, o));
    }
  }

  lemma FileSize(f: Format, v: Voter)
    requires FileOk(f, v)
    ensures v.synced <= |v.recs| && StateOk(v.memory)
  {
  }

  lemma NoteKeeps(f: Format, v: Voter, rec: Record, flushed: bool)
    requires FileOk(f, v) && KeptOk(f, v)
    requires rec.kind != STATE && Small(rec) && ReplayAll(f, EMPTY, v.recs + [rec]).Some?
    ensures FileOk(f, Noted(v, rec, flushed)) && KeptOk(f, Noted(v, rec, flushed))
  {
    hide FileOk, ReplayAll, StateAt, Small;
    FileSize(f, v);
    NoteKeepsFile(f, v, rec, flushed);
  }

  lemma RewriteKeeps(f: Format, v: Voter, snapshot: Snapshot)
    requires FileOk(f, v) && KeptOk(f, v) && MayCompact(FileLive(f, v.recs), snapshot)
    requires AllSmall(CompactRecords(f, FileLive(f, v.recs), snapshot))
    ensures FileOk(f, Rewritten(f, v, snapshot)) && KeptOk(f, Rewritten(f, v, snapshot))
  {
    hide FileOk, CompactRecords, StateAt, FileLive, MayCompact, AllSmall;
    FileSize(f, v);
    RewrittenStates(f, v, snapshot);
  }

  lemma ReopenKeeps(f: Format, v: Voter, k: nat, synced: nat)
    requires FileOk(f, v) && KeptOk(f, v) && v.synced <= synced <= k <= |v.recs|
    ensures FileOk(f, Reopened(f, v, k, synced)) && KeptOk(f, Reopened(f, v, k, synced))
  {
    hide FileOk;
    ReopenKeepsFile(f, v, k, synced);
  }
}
