/** The follower's durable log beside its log in memory
    (reconcileReplicatedEntriesLocked with the storage calls it makes). */
module RaftDurable {
  import opened Types
  import opened WalCodec
  import opened Wal
  import opened RaftStep
  import opened RaftInvariant
  import opened RaftGrowth
  import opened RaftAccepts

  /** How a write followed by Sync ends. A write whose sync fails is in the file nevertheless. */
  datatype Outcome = Written | WriteFails | SyncFails

  /** The storage takes a tail that begins at `start`: as a replacement when the
      log has an entry there, as an append otherwise. */
  predicate Takes(n: Node, disk: seq<Entry>, tail: seq<Entry>)
    requires tail != []
  {
    var start := tail[0].index;
    if Readable(n, start) then
      n.kept.boundary < start && ValidEntries(tail)
    else
      ValidEntries(tail) && Continues(disk, tail)
  }

  /** The durable entries after reconciliation. */
  function ReconcileDisk(n: Node, disk: seq<Entry>, entries: seq<Entry>, o: Outcome): seq<Entry> {
    var f := FirstNew(n, entries, 0);
    if f == |entries| || o.WriteFails? || !Takes(n, disk, entries[f..]) then disk
    else if Readable(n, entries[f].index) then Replaced(disk, entries[f].index, entries[f..])
    else disk + entries[f..]
  }

  /** The log in memory after reconciliation, `None` when that fails and leaves the log alone. */
  function ReconcileMemory(n: Node, disk: seq<Entry>, entries: seq<Entry>, o: Outcome): Option<seq<Entry>> {
    var f := FirstNew(n, entries, 0);
    if f == |entries| then Some(n.log)
    else if !o.Written? || !Takes(n, disk, entries[f..]) then None
    else Reconcile(n, entries)
  }

  function MemoryAfter(n: Node, disk: seq<Entry>, entries: seq<Entry>, o: Outcome): seq<Entry> {
    var r := ReconcileMemory(n, disk, entries, o);
    if r.None? then n.log else r.value
  }

  /** The one way for the two to part: the storage has taken the tail and memory
      has not, either because the sync failed or because an empty durable log
      took a tail that does not follow on the log in memory. */
  predicate Parts(n: Node, disk: seq<Entry>, entries: seq<Entry>, o: Outcome) {
    var f := FirstNew(n, entries, 0);
    && f < |entries|
    && !o.WriteFails?
    && Takes(n, disk, entries[f..])
    && (o.SyncFails? || (!Readable(n, entries[f].index) && entries[f].index != |n.log| + 1))
  }

  /** Storage holds exactly the entries it has not dropped. */
  ghost predicate InStep(n: Node, disk: seq<Entry>) {
    && n.kept.dropped <= n.base <= n.kept.boundary <= |n.log|
    && Consecutive(n.log, 1)
    && disk == n.log[n.kept.dropped..]
  }

  lemma ReplacedInStep(n: Node, disk: seq<Entry>, start: nat, tail: seq<Entry>)
    requires InStep(n, disk) && n.kept.dropped < start <= |n.log|
    ensures Replaced(disk, start, tail) == (n.log[..start - 1] + tail)[n.kept.dropped..]
  {
    hide Below;
    BelowMeaning(disk, start);
    assert Below(disk, start) == disk[..start - 1 - n.kept.dropped];
    assert (n.log[..start - 1] + tail)[n.kept.dropped..] == n.log[n.kept.dropped..start - 1] + tail;
  }

  lemma TakenInStep(n: Node, disk: seq<Entry>, tail: seq<Entry>)
    requires InStep(n, disk) && tail != [] && Takes(n, disk, tail)
    requires Readable(n, tail[0].index) || tail[0].index == |n.log| + 1
    ensures (if Readable(n, tail[0].index) then Replaced(disk, tail[0].index, tail) else disk + tail) ==
            (n.log[..tail[0].index - 1] + tail)[n.kept.dropped..]
  {
    hide Below, Replaced;
    var start := tail[0].index;
    if Readable(n, start) {
      ReplacedInStep(n, disk, start, tail);
    } else {
      assert n.log[..start - 1] == n.log;
    }
  }

  /** Durable and in-memory log stay equal exactly unless they part in that way. */
  lemma StaysInStep(n: Node, disk: seq<Entry>, entries: seq<Entry>, o: Outcome)
    requires InStep(n, disk)
    ensures ReconcileDisk(n, disk, entries, o) == MemoryAfter(n, disk, entries, o)[n.kept.dropped..] <==>
        !Parts(n, disk, entries, o)
  {
    hide Replaced, ValidEntries, Continues;
    var f := FirstNew(n, entries, 0);
    if f < |entries| && !o.WriteFails? && Takes(n, disk, entries[f..]) {
      var tail := entries[f..];
      var start := tail[0].index;
      ValidTail(tail);
      if Readable(n, start) || start == |n.log| + 1 {
        TakenInStep(n, disk, tail);
        TailDiffers(n, tail);
      }
    } else {
      NotTaken(n, disk, entries, o);
    }
  }

  lemma ValidTail(tail: seq<Entry>)
    requires tail != []
    ensures ValidEntries(tail) <==> tail[0].index >= 1 && Consecutive(tail, tail[0].index)
  {
  }

  /** A tail that begins with something new changes the log. */
  lemma TailDiffers(n: Node, tail: seq<Entry>)
    requires n.kept.dropped <= n.base <= |n.log| && tail != [] && !Known(n, tail[0]) &&
        n.base < tail[0].index <= |n.log| + 1
    ensures (n.log[..tail[0].index - 1] + tail)[n.kept.dropped..] != n.log[n.kept.dropped..]
  {
    var start := tail[0].index;
    var log := n.log[..start - 1] + tail;
    assert log[start - 1] == tail[0];
    assert log[n.kept.dropped..][start - 1 - n.kept.dropped] == tail[0];
    if start <= |n.log| {
      assert n.log[n.kept.dropped..][start - 1 - n.kept.dropped] == n.log[start - 1];
    }
  }

  /** With the two in step, the storage refuses nothing that memory would take:
      reconciliation is the one of the protocol, with the write as its only condition. */
  lemma InStepReconcile(n: Node, disk: seq<Entry>, entries: seq<Entry>, o: Outcome)
    requires InStep(n, disk)
    ensures ReconcileMemory(n, disk, entries, o) ==
            if FirstNew(n, entries, 0) < |entries| && !o.Written? then None else Reconcile(n, entries)
  {
    var f := FirstNew(n, entries, 0);
    if f < |entries| {
      ValidTail(entries[f..]);
    }
  }

  lemma NotTaken(n: Node, disk: seq<Entry>, entries: seq<Entry>, o: Outcome)
    requires InStep(n, disk)
    requires var f := FirstNew(n, entries, 0); f == |entries| || o.WriteFails? || !Takes(n, disk, entries[f..])
    ensures MemoryAfter(n, disk, entries, o) == n.log
  {
    var f := FirstNew(n, entries, 0);
    if f < |entries| && !o.WriteFails? {
      ValidTail(entries[f..]);
    }
  }

  /** A batch that follows on a matching entry at or above the boundary never
      parts the two, save by a failed sync. */
  lemma FollowingBatchStaysInStep(n: Node, disk: seq<Entry>, args: AppendArgs, o: Outcome)
    requires InStep(n, disk) && PrevMatches(n, args) && n.kept.boundary <= args.prevIndex && !o.SyncFails?
    requires Consecutive(args.entries, args.prevIndex + 1)
    ensures ReconcileDisk(n, disk, args.entries, o) == MemoryAfter(n, disk, args.entries, o)[n.kept.dropped..]
  {
    var f := FirstNew(n, args.entries, 0);
    if 0 < f < |args.entries| {
      assert Known(n, args.entries[f - 1]);
    }
    StaysInStep(n, disk, args.entries, o);
  }

  /** What the log becomes: itself if nothing disagrees, otherwise its prefix up
      to the first disagreement and the entries from there. */
  lemma ReconcileResult(n: Node, args: AppendArgs)
    requires Consecutive(n.log, 1) && n.base <= n.kept.boundary <= args.prevIndex && PrevMatches(n, args)
    requires Consecutive(args.entries, args.prevIndex + 1)
    ensures var f := FirstNew(n, args.entries, 0);
            if f == |args.entries| then Reconcile(n, args.entries) == Some(n.log)
            else args.prevIndex + f <= |n.log| &&
                 Reconcile(n, args.entries) == Some(n.log[..args.prevIndex + f] + args.entries[f..])
  {
    var f := FirstNew(n, args.entries, 0);
    if f < |args.entries| {
      var tail := args.entries[f..];
      assert tail[0].index == args.prevIndex + 1 + f;
      assert Consecutive(tail, tail[0].index);
      if f > 0 {
        assert Known(n, args.entries[f - 1]);
      }
      if args.prevIndex + f == |n.log| {
        assert n.log[..|n.log|] == n.log;
      }
    }
  }

  /** A log that already holds a leader's log up to the end of a batch keeps it:
      redelivering an older message of the same leader changes nothing. */
  lemma HeldBatchIsKnown(n: Node, args: AppendArgs, lead: seq<Entry>)
    requires Consecutive(lead, 1) && Carries(args, lead) && Holds(n.log, lead, args.prevIndex + |args.entries|)
    ensures Reconcile(n, args.entries).Some? ==> Reconcile(n, args.entries).value == n.log
    ensures n.base <= args.prevIndex ==> PrevMatches(n, args) && Reconcile(n, args.entries) == Some(n.log)
  {
    hide Consecutive, Holds, Reconcile, FirstNew;
    var f := FirstNew(n, args.entries, 0);
    var last := args.prevIndex + |args.entries|;
    HoldsLength(n.log, lead, last);
    if args.prevIndex > 0 {
      HoldsAt(n.log, lead, last, args.prevIndex - 1);
    }
    if f == |args.entries| {
      KnownIsKept(n, args.entries);
    } else {
      var i := args.prevIndex + f;
      assert args.entries[f] == lead[i];
      HoldsAt(n.log, lead, last, i);
      IndexAt(lead, i);
      if Reconcile(n, args.entries).Some? {
        ReconcileTail(n, args.entries);
      }
    }
  }

  lemma KnownIsKept(n: Node, entries: seq<Entry>)
    requires FirstNew(n, entries, 0) == |entries|
    ensures Reconcile(n, entries) == Some(n.log)
  {
  }

  lemma IndexAt(log: seq<Entry>, i: nat)
    requires Consecutive(log, 1) && i < |log|
    ensures log[i].index == i + 1
  {
  }

  /** Redelivery: once a message of a leader has been accepted, delivering an
      earlier message of the same leader leaves the log and the commit index as
      they are. */
  lemma Redelivery(n: Node, older: AppendArgs, newer: AppendArgs, lead: seq<Entry>, adopted: bool, logged: bool,
      again: bool)
    requires Consecutive(lead, 1) && Matching(n.log, lead) && Carries(newer, lead) && Carries(older, lead)
    requires older.term == newer.term && Last(older) <= Last(newer) && older.leaderCommit <= newer.leaderCommit
    requires RaftStep.AppendEntries(n, newer, adopted, logged).1.success
    ensures var n' := RaftStep.AppendEntries(n, newer, adopted, logged).0;
            var (n'', reply) := RaftStep.AppendEntries(n', older, adopted, again);
            n'' == n' && (n'.base <= older.prevIndex ==> reply.success)
  {
    hide Matching, Carries, Consecutive, Holds;
    var a := if newer.term > n.term then AdoptTerm(n, newer.term) else n;
    var b := a.(role := Follower);
    PrevSame(b, a, newer);
    ReconcileMerges(b, newer, lead);
    var log := Reconcile(b, newer.entries).value;
    CarriesLast(newer, lead);
    MergeAgrees(b.log, lead, Last(newer));
    HoldsShorter(log, lead, Last(newer), Last(older));
    var n' := RaftStep.AppendEntries(n, newer, adopted, logged).0;
    assert n' == AcceptLog(b, log, newer.leaderCommit);
    HeldBatchIsKnown(n', older, lead);
    if FirstNew(n', older.entries, 0) < |older.entries| && Reconcile(n', older.entries).Some? {
      NewChanges(n', older.entries);
    }
  }

  lemma CarriesLast(args: AppendArgs, lead: seq<Entry>)
    requires Carries(args, lead)
    ensures Last(args) <= |lead|
  {
  }

  lemma PrevSame(n: Node, n': Node, args: AppendArgs)
    requires n.log == n'.log && n.base == n'.base
    ensures PrevMatches(n, args) <==> PrevMatches(n', args)
  {
  }

  /** Reconciliation with anything new in the batch changes the log. */
  lemma NewChanges(n: Node, entries: seq<Entry>)
    requires FirstNew(n, entries, 0) < |entries| && Reconcile(n, entries).Some?
    ensures Reconcile(n, entries).value != n.log
  {
    var f := FirstNew(n, entries, 0);
    var tail := entries[f..];
    var start := tail[0].index;
    if Readable(n, start) {
      assert (n.log[..start - 1] + tail)[start - 1] == tail[0];
    }
  }

  /** Parting without any failure: a follower that has compacted its whole log
      receives a late copy of a batch from below the boundary. The empty durable
      log takes it, the log in memory refuses it. */
  lemma LateBatchParts()
    ensures exists n: Node, args: AppendArgs ::
              && InStep(n, [])
              && PrevMatches(n, args)
              && Carries(args, n.log)
              && ReconcileMemory(n, [], args.entries, Written).None?
              && ReconcileDisk(n, [], args.entries, Written) == args.entries != []
  {
    var e1, e2 := Entry(1, 1, []), Entry(2, 1, []);
    var n := Node(1, [], Follower, [e1, e2], 2, 2, 2, {}, map[], map[], Kept(1, [], 2, 2));
    var args := AppendArgs(1, [1], 0, 0, [e1], 0);
    assert !Known(n, e1);
    assert FirstNew(n, args.entries, 0) == 0;
    assert args.entries[0..] == [e1] == n.log[0..1];
    assert [] + [e1] == [e1];
    assert InStep(n, []) && PrevMatches(n, args) && Carries(args, n.log);
  }

  /** Parted in that way, the follower is stuck: no batch of any leader is taken
      any more, until it stores a snapshot again. */
  lemma StuckFollower(n: Node, disk: seq<Entry>, args: AppendArgs, o: Outcome)
    requires n.base == |n.log| <= n.kept.boundary && disk != [] && 1 <= LastOf(disk) < n.base
    requires PrevMatches(n, args) && Consecutive(args.entries, args.prevIndex + 1)
    ensures MemoryAfter(n, disk, args.entries, o) == n.log && ReconcileDisk(n, disk, args.entries, o) == disk
  {
    if args.entries != [] {
      assert !Known(n, args.entries[0]);
    }
  }

  /** A write behind the end of the log whose sync failed: until a replacement or
      a restart, nothing that follows on the log is taken, neither a proposal nor
      the tail of a batch. */
  lemma StuckBehindFailedAppend(n: Node, disk: seq<Entry>, tail: seq<Entry>)
    requires disk != [] && LastOf(disk) > |n.log|
    requires tail != [] && tail[0].index == |n.log| + 1
    ensures !Continues(disk, tail) && !Takes(n, disk, tail)
  {
  }

  /** What frees it: compacting at the boundary empties the durable log again. */
  lemma SnapshotFrees(n: Node, disk: seq<Entry>)
    requires ValidEntries(disk) && disk != [] && LastOf(disk) < n.base == |n.log|
    ensures Above(disk, n.base) == [] == n.log[n.base..]
  {
    AboveMeaning(disk, n.base);
  }

  // ---- The whole handler ----

  /** AppendEntries beside its storage, whether or not the two logs were equal before. */
  function AppendDurably(n: Node, disk: seq<Entry>, args: AppendArgs, adopted: bool, o: Outcome)
    : (Node, seq<Entry>, AppendReply)
  {
    if args.term < n.term || (args.term > n.term && !adopted) then
      (n, disk, AppendReply(n.term, false))
    else
      var a := if args.term > n.term then AdoptTerm(n, args.term) else n;
      if !PrevMatches(a, args) then (a, disk, AppendReply(a.term, false))
      else
        var b := a.(role := Follower);
        var log, disk' := ReconcileMemory(b, disk, args.entries, o), ReconcileDisk(b, disk, args.entries, o);
        if log.None? then (b, disk', AppendReply(b.term, false))
        else (AcceptLog(b, log.value, args.leaderCommit), disk', AppendReply(b.term, true))
  }

  /** A batch that runs on from an entry at or above the stored snapshot, without a failed sync. */
  predicate KeepsInStep(n: Node, args: AppendArgs, o: Outcome) {
    !o.SyncFails? && n.kept.boundary <= args.prevIndex && Consecutive(args.entries, args.prevIndex + 1)
  }

  /** With equal logs it is the handler of the protocol, and a batch that follows on leaves them equal. */
  lemma AppendInStep(n: Node, disk: seq<Entry>, args: AppendArgs, adopted: bool, o: Outcome)
    requires InStep(n, disk)
    ensures var (n', disk', reply) := AppendDurably(n, disk, args, adopted, o);
            && (n', reply) == RaftStep.AppendEntries(n, args, adopted, o.Written?)
            && (KeepsInStep(n, args, o) ==> InStep(n', disk'))
  {
    hide Reconcile, FirstNew, ReconcileDisk, ReconcileMemory, MemoryAfter;
    var a := if args.term > n.term then AdoptTerm(n, args.term) else n;
    if args.term >= n.term && (args.term == n.term || adopted) && PrevMatches(a, args) {
      var b := a.(role := Follower);
      assert PrevMatches(b, args) by {
        PrevSame(a, b, args);
      }
      InStepReconcile(b, disk, args.entries, o);
      MemoryWhen(b, disk, args.entries, o);
      if KeepsInStep(n, args, o) {
        FollowingBatchStaysInStep(b, disk, args, o);
        ReconciledConsecutive(b, disk, args, o);
      }
    }
  }

  lemma MemoryWhen(n: Node, disk: seq<Entry>, entries: seq<Entry>, o: Outcome)
    ensures var r := ReconcileMemory(n, disk, entries, o);
            MemoryAfter(n, disk, entries, o) == if r.None? then n.log else r.value
  {
  }

  lemma ReconciledConsecutive(n: Node, disk: seq<Entry>, args: AppendArgs, o: Outcome)
    requires InStep(n, disk) && PrevMatches(n, args) && KeepsInStep(n, args, o)
    ensures Consecutive(MemoryAfter(n, disk, args.entries, o), 1)
    ensures n.kept.boundary <= |MemoryAfter(n, disk, args.entries, o)|
  {
    ReconcileResult(n, args);
    InStepReconcile(n, disk, args.entries, o);
  }
}
