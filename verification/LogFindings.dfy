/** Entries that a follower confirms and a power loss takes away: a batch that is
    in the log already is confirmed without a write or a sync, and after a restart
    the log may not be synced (internal/raft/node_replication.go,
    internal/storage/wal.go). */
module LogFindings {
  import opened Types
  import opened WalCodec
  import opened Wal
  import opened RaftStep
  import opened RaftAccepts
  import opened RaftDurable
  import opened VoteFile
  import opened LogFile
  import opened LogDurability
  import RaftFindings

  /** The whole log as one batch of the current term. */
  function WholeLog(h: Holder): AppendArgs {
    AppendArgs(h.voter.memory.term, [], 0, 0, h.log, 0)
  }

  /** All that is in memory would be confirmed now, and nothing would be written. */
  lemma MemoryIsConfirmable(f: Format, h: Holder, a: Outcome, o: Outcome)
    requires HolderOk(f, h)
    ensures Step(f, h, Batch(WholeLog(h), a, o)) == h.(confirmed := h.log)
  {
    hide LogFileOk, Disk;
    KnownStep(f, h, WholeLog(h), a, o);
    assert h.log[..|h.log|] == h.log;
  }

  lemma KnownStep(f: Format, h: Holder, args: AppendArgs, a: Outcome, o: Outcome)
    requires h.voter.kept.boundary == 0 && Consecutive(h.log, 1) && args.term == h.voter.memory.term
    requires args.prevIndex + |args.entries| <= |h.log|
    requires args.prevIndex > 0 ==> h.log[args.prevIndex - 1].term == args.prevTerm
    requires args.entries == h.log[args.prevIndex..Last(args)]
    ensures HandleBatch(f, h, args, a, o) == h.(confirmed := ConfirmedAfter(h.confirmed, h.log, Last(args)))
  {
    hide Disk, FirstNew, ConfirmedAfter, Writes;
    var n := NodeOf(h.voter, h.log);
    forall k | 0 <= k < |args.entries| ensures RaftStep.Known(n, args.entries[k]) {
      assert args.entries[k] == h.log[args.prevIndex + k];
    }
    RaftFindings.AllKnown(n, args.entries, 0);
  }

  // ---- The loss ----

  /** A follower whose file is synced and says what memory says. */
  ghost predicate Settled(f: Format, h: Holder) {
    && HolderOk(f, h) && h.voter.synced == |h.voter.recs|
    && Disk(f, h.voter) == h.log && FileLive(f, h.voter.recs).state == h.voter.memory
  }

  /** A batch of the current term that begins right behind the log. */
  predicate FollowsOn(f: Format, h: Holder, args: AppendArgs) {
    && args.term == h.voter.memory.term && args.prevIndex == |h.log| && args.prevTerm == LastTerm(h.log)
    && args.entries != [] && Consecutive(args.entries, args.prevIndex + 1) && WideEntries(args.entries)
    && Small(OpRecord(f, Op.AppendEntries(args.entries)))
  }

  function Extended(f: Format, h: Holder, args: AppendArgs): seq<Record> {
    h.voter.recs + [OpRecord(f, Op.AppendEntries(args.entries))]
  }

  /** The batch with a sync that fails, a restart that finds all that was
      written, the batch again, and a power loss that leaves what was synced. */
  function Losing(f: Format, h: Holder, args: AppendArgs): seq<Event> {
    var batch, synced := Batch(args, Written, SyncFails), |h.voter.recs|;
    [batch, Crash(|Frames(f, Extended(f, h, args))|, synced), batch, Crash(|Frames(f, h.voter.recs)|, synced)]
  }

  /** The batch is in the file and not in memory. */
  function Unflushed(f: Format, h: Holder, args: AppendArgs): Holder {
    h.(voter := h.voter.(recs := Extended(f, h, args)))
  }

  lemma FirstTime(f: Format, h: Holder, args: AppendArgs)
    requires Settled(f, h) && FollowsOn(f, h, args)
    ensures var e := Losing(f, h, args)[0]; Possible(f, h, e) && Step(f, h, e) == Unflushed(f, h, args)
    ensures LogFileOk(f, Unflushed(f, h, args).voter) && Disk(f, Unflushed(f, h, args).voter) == h.log + args.entries
    ensures EntriesAt(f, Extended(f, h, args), |h.voter.recs|) == h.log
    ensures FileLive(f, Extended(f, h, args)).state == h.voter.memory
  {
    hide LogFileOk, Disk, FileLive, OpRecord, Small, Reconcile, Frames, EntriesAt;
    var v, n := h.voter, NodeOf(h.voter, h.log);
    LogFileSize(f, v);
    FileSize(f, v);
    assert args.entries[0..] == args.entries && !RaftStep.Known(n, args.entries[0]);
    assert FirstNew(n, args.entries, 0) == 0;
    assert LogOp(n, args.entries) == Op.AppendEntries(args.entries);
    assert Writes(f, n, Disk(f, v), args.entries);
    Courses(f, h, args, Written, SyncFails);
    TailEntries(f, v, n, args.entries, false);
    WholeDisk(f, v);
    assert h.log[..|h.log|] == h.log;
    StateStays(f, h, args);
  }

  lemma StateStays(f: Format, h: Holder, args: AppendArgs)
    requires LogFileOk(f, h.voter) && LogFileOk(f, Unflushed(f, h, args).voter)
    ensures FileLive(f, Extended(f, h, args)).state == FileLive(f, h.voter.recs).state
  {
    hide Replay, FileOk, OpRecord;
    var rec := OpRecord(f, Op.AppendEntries(args.entries));
    FilePlain(f, h.voter);
    FilePlain(f, Unflushed(f, h, args).voter);
    assert Extended(f, h, args)[..|Extended(f, h, args)|] == Extended(f, h, args);
    Appended(f, h.voter.recs, rec);
    assert rec.kind != STATE by {
      OpKindAppend(f, args.entries);
    }
    ReplayOther(f, FileLive(f, h.voter.recs), rec);
  }

  lemma OpKindAppend(f: Format, entries: seq<Entry>)
    ensures OpRecord(f, Op.AppendEntries(entries)).kind != STATE
  {
  }

  /** A crash at the end of the first `k` records leaves exactly those. */
  lemma CrashAfter(f: Format, h: Holder, k: nat)
    requires h.voter.synced <= k <= |h.voter.recs|
    ensures var e := Crash(|Frames(f, h.voter.recs[..k])|, h.voter.synced);
            && Possible(f, h, e)
            && var v := Voter(StateAt(f, h.voter.recs, k), h.voter.recs[..k], h.voter.synced, h.voter.kept);
               Step(f, h, e) == h.(voter := v, log := EntriesAt(f, h.voter.recs, k))
  {
    hide Frames, Whole, StateAt, EntriesAt, Spares;
    CrashAt(f, h.voter, k);
  }

  /** After the four events the follower has confirmed the batch and has lost it. */
  lemma ConfirmedIsLost(f: Format, h: Holder, args: AppendArgs)
    requires Settled(f, h) && FollowsOn(f, h, args)
    ensures var es := Losing(f, h, args);
            var h1 := Step(f, h, es[0]);
            var h2 := Step(f, h1, es[1]);
            var h3 := Step(f, h2, es[2]);
            var h4 := Step(f, h3, es[3]);
            && Possible(f, h, es[0]) && Possible(f, h1, es[1]) && Possible(f, h2, es[2]) && Possible(f, h3, es[3])
            && h4.confirmed == h.log + args.entries && h4.log == h.log
  {
    hide LogFileOk, Disk, FileLive, OpRecord, Small, HandleBatch, Frames, EntriesAt, ConfirmedAfter, Spares;
    var es, recs, whole := Losing(f, h, args), h.voter.recs, Extended(f, h, args);
    var log := h.log + args.entries;
    FirstTime(f, h, args);
    var h1 := Unflushed(f, h, args);
    assert whole[..|whole|] == whole && whole[..|recs|] == recs;
    CrashAfter(f, h1, |whole|);
    WholeDisk(f, h1.voter);
    var h2 := h1.(log := log);
    assert Step(f, h1, es[1]) == h2;
    assert args.entries == log[args.prevIndex..Last(args)];
    LogFileSize(f, h1.voter);
    KnownStep(f, h2, args, Written, SyncFails);
    Longer(h.confirmed, log);
    var h3 := h2.(confirmed := log);
    assert Step(f, h2, es[2]) == h3;
    CrashAfter(f, h3, |recs|);
  }

  lemma Longer(confirmed: seq<Entry>, log: seq<Entry>)
    requires confirmed <= log
    ensures ConfirmedAfter(confirmed, log, |log|) == log
  {
    assert log[..|log|] == log;
  }

  lemma RunOneMore(f: Format, events: seq<Event>, e: Event)
    requires PossibleRun(f, events) && Possible(f, RunAll(f, events), e)
    ensures PossibleRun(f, events + [e]) && RunAll(f, events + [e]) == Step(f, RunAll(f, events), e)
  {
    hide Possible, Step;
    assert (events + [e])[..|events|] == events;
  }

  /** Any run that ends with file and memory settled goes on to confirm a batch
      and lose it. */
  lemma KnownBatchLost(f: Format, events: seq<Event>, args: AppendArgs)
    requires PossibleRun(f, events) && Settled(f, RunAll(f, events)) && FollowsOn(f, RunAll(f, events), args)
    ensures var h := RunAll(f, events);
            var run := events + Losing(f, h, args);
            && PossibleRun(f, run)
            && RunAll(f, run).confirmed == h.log + args.entries && RunAll(f, run).log == h.log
  {
    hide Possible, Step, Settled, FollowsOn, PossibleRun, RunAll;
    var h := RunAll(f, events);
    var es := Losing(f, h, args);
    ConfirmedIsLost(f, h, args);
    RunOneMore(f, events, es[0]);
    RunOneMore(f, events + [es[0]], es[1]);
    RunOneMore(f, events + [es[0]] + [es[1]], es[2]);
    RunOneMore(f, events + [es[0]] + [es[1]] + [es[2]], es[3]);
    assert events + [es[0]] + [es[1]] + [es[2]] + [es[3]] == events + es;
  }

  /** Such runs exist, whatever the checksum and the snapshot codec are. */
  lemma ConfirmedMayBeLost(f: Format)
    requires Sound(f)
    ensures exists events: seq<Event> ::
              && PossibleRun(f, events)
              && RunAll(f, events).confirmed == [Entry(1, 1, [])] && RunAll(f, events).log == []
  {
    hide Losing, FileLive, LogFileOk;
    var st := EMPTY.state.(term := 1);
    var e := Save(st, Written);
    var args := AppendArgs(1, [], 0, 0, [Entry(1, 1, [])], 0);
    FirstGood(f);
    FirstSaved(f, st);
    RunOneMore(f, [], e);
    assert [] + [e] == [e];
    SmallBatch(f);
    KnownBatchLost(f, [e], args);
    assert [] + args.entries == args.entries;
  }

  lemma SmallBatch(f: Format)
    ensures Small(OpRecord(f, Op.AppendEntries([Entry(1, 1, [])])))
  {
  }

  lemma FirstSaved(f: Format, st: PersistentState)
    requires Sound(f) && StateOk(st) && Small(StateRecord(st))
    ensures Settled(f, Step(f, FIRST, Save(st, Written)))
  {
    hide Replay, StateRecord, StateOk, FileOk;
    FirstGood(f);
    SaveEntries(f, FIRST.voter, st, Written);
    ReplayOne(f, EMPTY, StateRecord(st));
    ReplayState(f, EMPTY, st);
    assert [] + [StateRecord(st)] == [StateRecord(st)];
  }
}
