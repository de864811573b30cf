/** The log entries of a node beside the file they are saved in: what a write
    makes of them, and what a crash leaves of them (internal/storage/wal.go and
    wal_entries.go under the handler of internal/raft/node_replication.go). The
    node has stored no snapshot. */
module LogFile {
  import opened Types
  import opened WalCodec
  import opened Wal
  import opened RaftStep
  import opened RaftDurable
  import opened VoteFile

  /** The entries that recovery finds if the first `k` records survive. */
  function EntriesAt(f: Format, recs: seq<Record>, k: nat): seq<Entry>
    requires k <= |recs|
  {
    FileLive(f, recs[..k]).entries
  }

  /** The entries the storage holds. */
  function Disk(f: Format, v: Voter): seq<Entry> {
    FileLive(f, v.recs).entries
  }

  predicate Plain(live: Live) {
    live.snapshot.None? && Consecutive(live.entries, 1)
  }

  ghost predicate LogFileOk(f: Format, v: Voter) {
    FileOk(f, v) && forall k | 0 <= k <= |v.recs| :: Plain(FileLive(f, v.recs[..k]))
  }

  // ---- Crashes ----

  /** The log that recovery finds in the bytes a crash has left. */
  function LogAfter(f: Format, v: Voter, cut: nat): Option<seq<Entry>>
    requires cut <= |Frames(f, v.recs)|
  {
    match Recover(f, Frames(f, v.recs)[..cut], EMPTY)
    case None => None
    case Some(r) => Some(r.live.entries)
  }

  /** Whatever bytes a crash leaves, the log recovered from them begins with `log`. */
  ghost predicate Survives(f: Format, v: Voter, log: seq<Entry>) {
    forall cut: nat | Spares(f, v, cut) :: LogAfter(f, v, cut).Some? && log <= LogAfter(f, v, cut).value
  }

  /** Every part of the file that a crash may leave begins with `log`. */
  ghost predicate Lasts(f: Format, v: Voter, log: seq<Entry>) {
    v.synced <= |v.recs| && forall k | v.synced <= k <= |v.recs| :: log <= EntriesAt(f, v.recs, k)
  }

  lemma LogAtCut(f: Format, v: Voter, cut: nat)
    requires FileOk(f, v) && Spares(f, v, cut)
    ensures v.synced <= Whole(f, v.recs, cut) <= |v.recs|
    ensures LogAfter(f, v, cut) == Some(EntriesAt(f, v.recs, Whole(f, v.recs, cut)))
  {
    hide Recover, Frames, Whole, ReplayAll, FileOk;
    CrashRecovers(f, v, cut);
  }

  /** A log survives every crash exactly if it is in every part of the file from
      the synced one on. */
  lemma SurvivesExactly(f: Format, v: Voter, log: seq<Entry>)
    requires FileOk(f, v)
    ensures Survives(f, v, log) <==> Lasts(f, v, log)
  {
    hide Frames, Whole, EntriesAt, FileOk, LogAfter;
    FileSize(f, v);
    if Lasts(f, v, log) {
      forall cut: nat | Spares(f, v, cut) ensures LogAfter(f, v, cut).Some? && log <= LogAfter(f, v, cut).value {
        LogAtCut(f, v, cut);
      }
    } else {
      var k :| v.synced <= k <= |v.recs| && !(log <= EntriesAt(f, v.recs, k));
      CrashAt(f, v, k);
      LogAtCut(f, v, |Frames(f, v.recs[..k])|);
    }
  }

  lemma WholeDisk(f: Format, v: Voter)
    ensures EntriesAt(f, v.recs, |v.recs|) == Disk(f, v)
  {
    assert v.recs[..|v.recs|] == v.recs;
  }

  lemma LastsShorter(f: Format, v: Voter, log: seq<Entry>, shorter: seq<Entry>)
    requires Lasts(f, v, log) && shorter <= log
    ensures Lasts(f, v, shorter)
  {
    hide EntriesAt;
  }

  // ---- Writes ----

  /** One more readable record: only the entries after it are new. */
  lemma WriteEntries(f: Format, v: Voter, rec: Record, v': Voter)
    requires LogFileOk(f, v) && FileOk(f, v') && v'.recs == v.recs + [rec]
    requires Replay(f, FileLive(f, v.recs), rec).Some? && Plain(Replay(f, FileLive(f, v.recs), rec).value)
    ensures LogFileOk(f, v') && Disk(f, v') == Replay(f, FileLive(f, v.recs), rec).value.entries
    ensures forall k | 0 <= k <= |v.recs| :: EntriesAt(f, v'.recs, k) == EntriesAt(f, v.recs, k)
  {
    hide Replay, ReplayAll, StateOk, Sound;
    assert Legible(f, v.recs, |v.recs|);
    Appended(f, v.recs, rec);
    forall k | 0 <= k <= |v'.recs| ensures Plain(FileLive(f, v'.recs[..k])) {
      if k <= |v.recs| {
        assert v'.recs[..k] == v.recs[..k];
      } else {
        assert v'.recs[..k] == v'.recs;
      }
    }
  }

  /** Saving a term or a vote leaves the log alone, and can only make more of the file durable. */
  lemma SaveEntries(f: Format, v: Voter, st: PersistentState, o: Outcome)
    requires LogFileOk(f, v) && StateOk(st)
    ensures var v' := Saved(v, st, o); LogFileOk(f, v') && Disk(f, v') == Disk(f, v)
    ensures forall log | Lasts(f, v, log) :: Lasts(f, Saved(v, st, o), log)
  {
    hide FileOk, StateOk, StateRecord, Small, EntriesAt, Replay;
    var v' := Saved(v, st, o);
    FileSize(f, v);
    if !o.WriteFails? && Small(StateRecord(st)) {
      SaveKeepsFile(f, v, st, o);
      ReplayState(f, FileLive(f, v.recs), st);
      assert v.recs[..|v.recs|] == v.recs;
      WriteEntries(f, v, StateRecord(st), v');
      WholeDisk(f, v);
      WholeDisk(f, v');
    }
  }

  /** The storage call for what a batch has new. */
  function LogOp(n: Node, tail: seq<Entry>): Op
    requires tail != []
  {
    if Readable(n, tail[0].index) then ReplaceSuffix(tail[0].index, tail) else Op.AppendEntries(tail)
  }

  /** The storage accepts the tail and its record is within bounds. */
  predicate Writes(f: Format, n: Node, disk: seq<Entry>, tail: seq<Entry>)
    requires tail != []
  {
    Takes(n, disk, tail) && Small(OpRecord(f, LogOp(n, tail)))
  }

  lemma OpPerforms(f: Format, live: Live, n: Node, tail: seq<Entry>)
    requires Plain(live) && n.kept.boundary == 0 && tail != [] && WideEntries(tail)
    requires Writes(f, n, live.entries, tail)
    ensures var op := LogOp(n, tail);
            && Fits(op) && op != Op.AppendEntries([])
            && Perform(f, live, op) ==
               Some(live.(entries := if op.ReplaceSuffix? then Replaced(live.entries, op.from, tail)
                                     else live.entries + tail))
            && (Lasting(live, op) <==> op.AppendEntries? || live.entries == [] || tail[0].index <= |live.entries| + 1)
  {
    hide Replaced, Counted, SuffixPayload;
  }

  lemma BelowFromOne(entries: seq<Entry>, from: nat)
    requires Consecutive(entries, 1) && 1 <= from <= |entries| + 1
    ensures Below(entries, from) == entries[..from - 1]
  {
    hide Below;
    BelowMeaning(entries, from);
  }

  /** What the entries become. */
  lemma TailWritten(disk: seq<Entry>, n: Node, tail: seq<Entry>)
    requires Consecutive(disk, 1) && tail != [] && Takes(n, disk, tail) && 1 <= tail[0].index <= |disk| + 1
    ensures var start := tail[0].index;
            && (if Readable(n, start) then Replaced(disk, start, tail) else disk + tail) == disk[..start - 1] + tail
            && Consecutive(disk[..start - 1] + tail, 1)
  {
    hide Below;
    BelowFromOne(disk, tail[0].index);
    if !Readable(n, tail[0].index) {
      assert disk[..|disk|] == disk;
    }
  }

  /** A tail that leaves no gap is in the file, and the file stays readable. */
  lemma TailEntries(f: Format, v: Voter, n: Node, tail: seq<Entry>, flushed: bool)
    requires LogFileOk(f, v) && n.kept.boundary == 0 && tail != [] && WideEntries(tail)
    requires Writes(f, n, Disk(f, v), tail) && 1 <= tail[0].index <= |Disk(f, v)| + 1
    ensures var v' := Noted(v, OpRecord(f, LogOp(n, tail)), flushed);
            && LogFileOk(f, v') && Disk(f, v') == Disk(f, v)[..tail[0].index - 1] + tail
            && forall k | 0 <= k <= |v.recs| :: EntriesAt(f, v'.recs, k) == EntriesAt(f, v.recs, k)
  {
    hide FileOk, Replay, Perform, Lasting, EntriesAt, OpRecord, Takes, Replaced, Small;
    var live, op := FileLive(f, v.recs), LogOp(n, tail);
    var rec := OpRecord(f, op);
    FilePlain(f, v);
    OpPerforms(f, live, n, tail);
    TailWritten(live.entries, n, tail);
    ReplayMatches(f, live, op);
    OpKind(f, n, tail);
    assert ReplayAll(f, EMPTY, v.recs + [rec]) == Replay(f, live, rec) by {
      Appended(f, v.recs, rec);
    }
    NoteKeepsFile(f, v, rec, flushed);
    WriteEntries(f, v, rec, Noted(v, rec, flushed));
  }

  lemma OpKind(f: Format, n: Node, tail: seq<Entry>)
    requires tail != []
    ensures OpRecord(f, LogOp(n, tail)).kind != STATE
  {
  }

  lemma FilePlain(f: Format, v: Voter)
    requires LogFileOk(f, v)
    ensures Sound(f) && Plain(FileLive(f, v.recs)) && ValidEntries(Disk(f, v)) && Legible(f, v.recs, |v.recs|)
  {
    assert v.recs[..|v.recs|] == v.recs;
  }

  /** A replacement past the end of the entries leaves a file that recovery refuses. */
  lemma GapIsFatal(f: Format, v: Voter, n: Node, tail: seq<Entry>, flushed: bool, log: seq<Entry>)
    requires LogFileOk(f, v) && n.kept.boundary == 0 && tail != [] && WideEntries(tail)
    requires Writes(f, n, Disk(f, v), tail) && Readable(n, tail[0].index)
    requires Disk(f, v) != [] && tail[0].index > |Disk(f, v)| + 1
    ensures !Survives(f, Noted(v, OpRecord(f, LogOp(n, tail)), flushed), log)
  {
    hide Replay, Perform, Lasting, OpRecord, Takes, Replaced, Small, Frames, Recover, ReplayAll, StateOk;
    var live, op := FileLive(f, v.recs), LogOp(n, tail);
    var rec := OpRecord(f, op);
    var v' := Noted(v, rec, flushed);
    FilePlain(f, v);
    OpPerforms(f, live, n, tail);
    GapIsRefused(f, live, op);
    FramesAppend(f, v.recs, [rec]);
    OneFrame(f, rec);
    assert v.recs[..|v.recs|] == v.recs;
    RecoverRefuses(f, v.recs, rec, EMPTY);
    WholeFileSpared(f, v');
    assert Frames(f, v'.recs)[..|Frames(f, v'.recs)|] == Frames(f, v'.recs);
    assert LogAfter(f, v', |Frames(f, v'.recs)|).None?;
  }

  lemma OneFrame(f: Format, rec: Record)
    ensures Frames(f, [rec]) == Frame(f, rec)
  {
    assert [rec][1..] == [];
  }

  lemma WholeFileSpared(f: Format, v: Voter)
    requires v.synced <= |v.recs|
    ensures Spares(f, v, |Frames(f, v.recs)|)
  {
    assert v.recs == v.recs[..v.synced] + v.recs[v.synced..];
    FramesAppend(f, v.recs[..v.synced], v.recs[v.synced..]);
  }
}
