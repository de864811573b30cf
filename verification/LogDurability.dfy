/** What a follower has confirmed, over whole runs beside its file: failing
    writes, failing syncs, restarts, and crashes at any byte, with the
    AppendEntries handler of internal/raft/node_replication.go in between. The
    node has stored no snapshot. */
module LogDurability {
  import opened Types
  import opened Bytes
  import opened WalCodec
  import opened Wal
  import opened RaftStep
  import opened RaftAccepts
  import opened RaftDurable
  import opened VoteFile
  import opened LogFile
  import VoteDurability

  /** A file with the state in memory, the log in memory, and the longest log the
      node has confirmed and has not replaced since. */
  datatype Holder = Holder(voter: Voter, log: seq<Entry>, confirmed: seq<Entry>)

  const FIRST := Holder(Voter(EMPTY.state, [], 0, Kept(0, [], 0, 0)), [], [])

  /** A batch with the outcomes of saving the term and the entries; any other
      save of a term and vote; a crash and the restart after it. */
  datatype Event =
    | Batch(args: AppendArgs, a: Outcome, o: Outcome)
    | Save(st: PersistentState, o: Outcome)
    | Crash(cut: nat, synced: nat)

  function NodeOf(v: Voter, log: seq<Entry>): Node {
    VoteDurability.NodeOf(v, log)
  }

  function Promoted(v: Voter, term: nat): PersistentState {
    v.memory.(term := term, votedFor := [])
  }

  function Adopted(v: Voter, term: nat, a: Outcome): Voter {
    if term > v.memory.term then Saved(v, Promoted(v, term), a) else v
  }

  /** A record out of bounds is refused before anything is written. */
  function Fitting(f: Format, n: Node, entries: seq<Entry>, o: Outcome): Outcome {
    var i := FirstNew(n, entries, 0);
    if i < |entries| && !Small(OpRecord(f, LogOp(n, entries[i..]))) then WriteFails else o
  }

  /** The file after reconciliation. */
  function Logged(f: Format, v: Voter, n: Node, entries: seq<Entry>, o: Outcome): Voter {
    var i := FirstNew(n, entries, 0);
    if i == |entries| || o.WriteFails? || !Writes(f, n, Disk(f, v), entries[i..]) then v
    else Noted(v, OpRecord(f, LogOp(n, entries[i..])), o.Written?)
  }

  function UpTo(log: seq<Entry>, last: int): seq<Entry> {
    if 0 <= last <= |log| then log[..last] else log
  }

  function ConfirmedAfter(confirmed: seq<Entry>, log: seq<Entry>, last: nat): seq<Entry> {
    if last <= |confirmed| && confirmed <= log then confirmed else UpTo(log, last)
  }

  /** The batch gets as far as reconciliation. */
  predicate Reconciles(v: Voter, log: seq<Entry>, args: AppendArgs) {
    v.memory.term == args.term && PrevMatches(NodeOf(v, log), args)
  }

  function HandleBatch(f: Format, h: Holder, args: AppendArgs, a: Outcome, o: Outcome): Holder {
    var v := Adopted(h.voter, args.term, a);
    if !Reconciles(v, h.log, args) then h.(voter := v)
    else
      var n := NodeOf(v, h.log);
      var log := ReconcileMemory(n, Disk(f, v), args.entries, Fitting(f, n, args.entries, o));
      var v' := Logged(f, v, n, args.entries, o);
      if log.None? then h.(voter := v') else Holder(v', log.value, ConfirmedAfter(h.confirmed, log.value, Last(args)))
  }

  function Step(f: Format, h: Holder, e: Event): Holder {
    match e
    case Batch(args, a, o) => HandleBatch(f, h, args, a, o)
    case Save(st, o) => h.(voter := Saved(h.voter, st, o))
    case Crash(cut, synced) =>
      var k := Whole(f, h.voter.recs, cut);
      h.(voter := Reopened(f, h.voter, k, synced), log := EntriesAt(f, h.voter.recs, k))
  }

  /** What the surroundings guarantee: widths, batches that are consecutive from
      the entry after the previous one, as leaders build them, and crashes that
      spare what was synced. After a restart anything between that and all that
      was found may count as synced: OpenWAL itself does not sync. */
  predicate Possible(f: Format, h: Holder, e: Event) {
    match e
    case Batch(args, _, _) =>
      args.term < U64 && WideEntries(args.entries) && Consecutive(args.entries, args.prevIndex + 1)
    case Save(st, _) => StateOk(st)
    case Crash(cut, synced) =>
      Spares(f, h.voter, cut) && h.voter.synced <= synced <= Whole(f, h.voter.recs, cut)
  }

  function RunAll(f: Format, events: seq<Event>): Holder {
    if events == [] then FIRST else Step(f, RunAll(f, events[..|events| - 1]), events[|events| - 1])
  }

  predicate PossibleRun(f: Format, events: seq<Event>) {
    events != [] ==>
      && PossibleRun(f, events[..|events| - 1])
      && Possible(f, RunAll(f, events[..|events| - 1]), events[|events| - 1])
  }

  // ---- One batch ----

  /** File and memory of a follower, whether or not they hold the same log. */
  ghost predicate HolderOk(f: Format, h: Holder) {
    && LogFileOk(f, h.voter) && h.voter.kept.boundary == 0
    && Consecutive(h.log, 1) && h.confirmed <= h.log
    && (Disk(f, h.voter) == [] ==> h.log == [])
  }

  /** How a batch goes on from reconciliation. */
  datatype Course =
    | Known
    | Refused
    | Unsynced(tail: seq<Entry>)
    | Accepted(tail: seq<Entry>)

  function CourseOf(f: Format, v: Voter, n: Node, entries: seq<Entry>, o: Outcome): (c: Course)
    ensures c.Unsynced? || c.Accepted? ==> c.tail != []
  {
    var i := FirstNew(n, entries, 0);
    if i == |entries| then Known
    else if o.WriteFails? || !Writes(f, n, Disk(f, v), entries[i..]) then Refused
    else if o.SyncFails? then Unsynced(entries[i..])
    else Accepted(entries[i..])
  }

  /** Where the tail of a batch begins, and that it ends the new log. */
  lemma TailStarts(n: Node, args: AppendArgs)
    requires n.base == n.kept.boundary == 0 && Consecutive(n.log, 1) && PrevMatches(n, args)
    requires Consecutive(args.entries, args.prevIndex + 1) && WideEntries(args.entries)
    ensures var i := FirstNew(n, args.entries, 0);
            if i == |args.entries| then Last(args) <= |n.log| && Reconcile(n, args.entries) == Some(n.log)
            else
              var tail := args.entries[i..];
              && 1 <= tail[0].index == args.prevIndex + 1 + i <= |n.log| + 1
              && WideEntries(tail) && !RaftStep.Known(n, tail[0])
              && (Readable(n, tail[0].index) <==> tail[0].index <= |n.log|)
              && Reconcile(n, args.entries) == Some(n.log[..tail[0].index - 1] + tail)
              && |n.log[..tail[0].index - 1] + tail| == Last(args)
              && Consecutive(n.log[..tail[0].index - 1] + tail, 1)
  {
    hide Reconcile, FirstNew;
    var i := FirstNew(n, args.entries, 0);
    ReconcileResult(n, args);
    if 0 < i == |args.entries| {
      assert RaftStep.Known(n, args.entries[i - 1]);
    }
  }

  function TailRecord(f: Format, n: Node, tail: seq<Entry>): Record
    requires tail != []
  {
    OpRecord(f, LogOp(n, tail))
  }

  /** What a tail is: it begins where the log first lacks or contradicts the
      batch, and ends the log if it is taken. */
  ghost predicate TailOk(n: Node, tail: seq<Entry>) {
    && tail != [] && WideEntries(tail) && !RaftStep.Known(n, tail[0])
    && 1 <= tail[0].index <= |n.log| + 1
    && (Readable(n, tail[0].index) <==> tail[0].index <= |n.log|)
    && Consecutive(n.log[..tail[0].index - 1] + tail, 1)
  }

  /** What each course makes of the follower, once the term is settled in `v`. */
  ghost predicate Goes(f: Format, h: Holder, v: Voter, args: AppendArgs, course: Course, h': Holder) {
    var n := NodeOf(v, h.log);
    match course
    case Known => Last(args) <= |h.log| && h' == Holder(v, h.log, ConfirmedAfter(h.confirmed, h.log, Last(args)))
    case Refused => h' == h.(voter := v)
    case Unsynced(tail) =>
      && TailOk(n, tail) && Writes(f, n, Disk(f, v), tail)
      && h' == h.(voter := Noted(v, TailRecord(f, n, tail), false))
    case Accepted(tail) =>
      && TailOk(n, tail) && Writes(f, n, Disk(f, v), tail)
      && var log := h.log[..tail[0].index - 1] + tail;
         h' == Holder(Noted(v, TailRecord(f, n, tail), true), log, log)
  }

  lemma Courses(f: Format, h: Holder, args: AppendArgs, a: Outcome, o: Outcome)
    requires Possible(f, h, Batch(args, a, o)) && h.voter.kept.boundary == 0 && Consecutive(h.log, 1)
    requires Reconciles(Adopted(h.voter, args.term, a), h.log, args)
    ensures var v := Adopted(h.voter, args.term, a);
            Goes(f, h, v, args, CourseOf(f, v, NodeOf(v, h.log), args.entries, o), HandleBatch(f, h, args, a, o))
  {
    hide Reconcile, FirstNew, Takes, Small, OpRecord, LogOp, Saved, Consecutive, WideEntries, PrevMatches;
    var v := Adopted(h.voter, args.term, a);
    AdoptedBoundary(h.voter, args.term, a);
    TailStarts(NodeOf(v, h.log), args);
  }

  lemma AdoptedBoundary(v: Voter, term: nat, a: Outcome)
    ensures Adopted(v, term, a).kept.boundary == v.kept.boundary
  {
  }

  /** Once reconciled, the file holds what the durable log becomes. */
  lemma CourseDisk(f: Format, h: Holder, v: Voter, tail: seq<Entry>, flushed: bool)
    requires HolderOk(f, h.(voter := v)) && TailOk(NodeOf(v, h.log), tail)
    requires Writes(f, NodeOf(v, h.log), Disk(f, v), tail)
    ensures var n := NodeOf(v, h.log);
            var v' := Noted(v, TailRecord(f, n, tail), flushed);
            LogFileOk(f, v') ==>
              Disk(f, v') == if Readable(n, tail[0].index) then Replaced(Disk(f, v), tail[0].index, tail)
                             else Disk(f, v) + tail
  {
    hide LogFileOk, Disk, EntriesAt, LogOp, OpRecord, Survives, Takes, Small, Replaced;
    var n := NodeOf(v, h.log);
    var v' := Noted(v, TailRecord(f, n, tail), flushed);
    LogFileSize(f, v);
    if tail[0].index > |Disk(f, v)| + 1 {
      OnlyReplacementsGap(f, h, v, tail);
      GapIsFatal(f, v, n, tail, flushed, []);
      if LogFileOk(f, v') {
        LogFileSize(f, v');
        SurvivesExactly(f, v', []);
      }
    } else {
      TailEntries(f, v, n, tail, flushed);
      TailWritten(Disk(f, v), n, tail);
    }
  }

  /** The handler of this model is the one of the node, beside a storage that
      holds what the file says. */
  lemma BatchIsAppendEntries(f: Format, h: Holder, args: AppendArgs, a: Outcome, o: Outcome)
    requires HolderOk(f, h) && Possible(f, h, Batch(args, a, o))
    ensures var h' := HandleBatch(f, h, args, a, o);
            var n := NodeOf(Adopted(h.voter, args.term, a), h.log);
            var (n', disk', reply) :=
              AppendDurably(NodeOf(h.voter, h.log), Disk(f, h.voter), args, Lands(Promoted(h.voter, args.term), a),
                            Fitting(f, n, args.entries, o));
            && h'.log == n'.log && h'.voter.memory.term == n'.term == reply.term
            && h'.confirmed == (if reply.success then ConfirmedAfter(h.confirmed, h'.log, Last(args)) else h.confirmed)
            && (LogFileOk(f, h'.voter) ==> Disk(f, h'.voter) == disk')
  {
    hide LogFileOk, Disk, LogOp, OpRecord, Small, Takes, Reconcile, FirstNew, StateRecord, Replaced, Consecutive;
    hide PrevMatches, ConfirmedAfter, TailOk;
    var v := Adopted(h.voter, args.term, a);
    LogFileSize(f, h.voter);
    AdoptKeeps(f, h, args.term, a, []);
    if Reconciles(v, h.log, args) {
      Courses(f, h, args, a, o);
      var course := CourseOf(f, v, NodeOf(v, h.log), args.entries, o);
      if course.Unsynced? || course.Accepted? {
        CourseDisk(f, h, v, course.tail, course.Accepted?);
      }
    }
  }

  /** A proposal as a batch of the node's own. */
  function Own(h: Holder, data: seq<byte>): AppendArgs {
    AppendArgs(h.voter.memory.term, [], |h.log|, LastTerm(h.log), [Entry(|h.log| + 1, h.voter.memory.term, data)], 0)
  }

  /** What Propose does to log and file is such a batch; a leader counts itself
      among those that hold the entry. */
  lemma ProposalIsBatch(f: Format, h: Holder, data: seq<byte>, a: Outcome, o: Outcome)
    requires HolderOk(f, h) && |h.log| + 1 < U64
    ensures Possible(f, h, Batch(Own(h, data), a, o))
    ensures var entry := Own(h, data).entries[0];
            var h' := HandleBatch(f, h, Own(h, data), a, o);
            var took := !o.WriteFails? && Continues(Disk(f, h.voter), [entry]) &&
                        Small(OpRecord(f, Op.AppendEntries([entry])));
            && h'.log == (if took && o.Written? then h.log + [entry] else h.log)
            && h'.confirmed == (if took && o.Written? then h'.log else h.confirmed)
            && (took ==> LogFileOk(f, h'.voter) && Disk(f, h'.voter) == Disk(f, h.voter) + [entry])
            && (!took ==> h'.voter == h.voter)
  {
    hide LogFileOk, Disk, OpRecord, Small, Reconcile, EntriesAt, StatePayload, GoodMembership;
    var v, n, tail := h.voter, NodeOf(h.voter, h.log), Own(h, data).entries;
    LogFileSize(f, v);
    FileSize(f, v);
    assert tail[0..] == tail && !RaftStep.Known(n, tail[0]);
    assert FirstNew(n, tail, 0) == 0;
    assert LogOp(n, tail) == Op.AppendEntries(tail);
    Courses(f, h, Own(h, data), a, o);
    assert h.log[..|h.log|] == h.log;
    if !o.WriteFails? && Writes(f, n, Disk(f, v), tail) {
      assert Disk(f, v)[..|Disk(f, v)|] == Disk(f, v);
      TailEntries(f, v, n, tail, o.Written?);
    }
  }

  // ---- What is confirmed ----

  /** What each course asks for. A batch that is known is confirmed without a
      write: all that a crash may leave of the file has to hold it. A tail that is
      written and synced has to follow on the same log in the file as in memory.
      One whose sync fails must not reach into what is confirmed, nor leave a gap. */
  ghost predicate KeepsCourse(f: Format, h: Holder, v: Voter, args: AppendArgs, course: Course) {
    match course
    case Known => Lasts(f, v, UpTo(h.log, Last(args)))
    case Refused => true
    case Unsynced(tail) =>
      tail != [] && (tail[0].index > |h.log| || |h.confirmed| < tail[0].index <= |Disk(f, v)| + 1)
    case Accepted(tail) => tail != [] && UpTo(h.log, tail[0].index - 1) <= Disk(f, v)
  }

  ghost predicate Good(f: Format, h: Holder) {
    HolderOk(f, h) && Lasts(f, h.voter, h.confirmed)
  }

  lemma KnownCourse(f: Format, h: Holder, v: Voter, args: AppendArgs, h': Holder)
    requires Good(f, h.(voter := v)) && Goes(f, h, v, args, Known, h')
    ensures HolderOk(f, h') && (Lasts(f, v, h'.confirmed) <==> KeepsCourse(f, h, v, args, Known))
  {
    hide LogFileOk, Disk, EntriesAt;
    var last := Last(args);
    if last <= |h.confirmed| {
      assert h.log[..last] == h.confirmed[..last];
      LastsShorter(f, v, h.confirmed, h.log[..last]);
    }
  }

  /** A tail that leaves no gap: what holds of the file after it. */
  lemma TailLasts(f: Format, h: Holder, v: Voter, tail: seq<Entry>, flushed: bool, log: seq<Entry>)
    requires HolderOk(f, h.(voter := v)) && TailOk(NodeOf(v, h.log), tail)
    requires Writes(f, NodeOf(v, h.log), Disk(f, v), tail) && tail[0].index <= |Disk(f, v)| + 1
    ensures var v' := Noted(v, TailRecord(f, NodeOf(v, h.log), tail), flushed);
            && LogFileOk(f, v') && Disk(f, v') == Disk(f, v)[..tail[0].index - 1] + tail
            && (Lasts(f, v', log) <==> log <= Disk(f, v') && (flushed || Lasts(f, v, log)))
  {
    hide LogFileOk, Disk, EntriesAt, Writes, LogOp, OpRecord;
    var n := NodeOf(v, h.log);
    var v' := Noted(v, TailRecord(f, n, tail), flushed);
    TailEntries(f, v, n, tail, flushed);
    WholeDisk(f, v');
    LogFileSize(f, v);
  }

  lemma LogFileSize(f: Format, v: Voter)
    requires LogFileOk(f, v)
    ensures FileOk(f, v) && v.synced <= |v.recs| && Consecutive(Disk(f, v), 1)
  {
    FilePlain(f, v);
  }

  /** A tail begins past the end of the durable log only as a replacement. */
  lemma OnlyReplacementsGap(f: Format, h: Holder, v: Voter, tail: seq<Entry>)
    requires HolderOk(f, h.(voter := v)) && TailOk(NodeOf(v, h.log), tail)
    requires Writes(f, NodeOf(v, h.log), Disk(f, v), tail) && tail[0].index > |Disk(f, v)| + 1
    ensures tail[0].index <= |h.log| && Disk(f, v) != []
  {
    hide LogFileOk, Disk, Small;
    LogFileSize(f, v);
  }

  lemma TailConflicts(h: Holder, v: Voter, tail: seq<Entry>, disk: seq<Entry>, log: seq<Entry>)
    requires TailOk(NodeOf(v, h.log), tail) && tail[0].index <= |disk| + 1
    requires log <= h.log && Consecutive(h.log, 1)
    ensures log <= disk && |log| < tail[0].index ==> log <= disk[..tail[0].index - 1] + tail
    ensures tail[0].index <= |log| ==> !(log <= disk[..tail[0].index - 1] + tail)
  {
    var start := tail[0].index;
    var disk' := disk[..start - 1] + tail;
    assert disk'[start - 1] == tail[0];
    if |log| >= start {
      assert log[start - 1] == h.log[start - 1];
    }
  }

  lemma UnsyncedCourse(f: Format, h: Holder, v: Voter, args: AppendArgs, tail: seq<Entry>, h': Holder)
    requires Good(f, h.(voter := v)) && Goes(f, h, v, args, Unsynced(tail), h')
    ensures Survives(f, h'.voter, h'.confirmed) <==> KeepsCourse(f, h, v, args, Unsynced(tail))
    ensures KeepsCourse(f, h, v, args, Unsynced(tail)) ==> Good(f, h')
  {
    hide LogFileOk, Disk, EntriesAt, Writes, LogOp, OpRecord, Survives, Lasts, TailOk;
    var n := NodeOf(v, h.log);
    TailBounds(n, tail);
    var start := tail[0].index;
    LogFileSize(f, v);
    if start > |Disk(f, v)| + 1 {
      OnlyReplacementsGap(f, h, v, tail);
      GapIsFatal(f, v, n, tail, false, h.confirmed);
    } else {
      TailLasts(f, h, v, tail, false, h.confirmed);
      LogFileSize(f, h'.voter);
      SurvivesExactly(f, h'.voter, h.confirmed);
      LastsDisk(f, v, h.confirmed);
      TailConflicts(h, v, tail, Disk(f, v), h.confirmed);
    }
  }

  lemma TailBounds(n: Node, tail: seq<Entry>)
    requires TailOk(n, tail)
    ensures tail != [] && WideEntries(tail) && 1 <= tail[0].index <= |n.log| + 1
    ensures Readable(n, tail[0].index) <==> tail[0].index <= |n.log|
    ensures Consecutive(n.log[..tail[0].index - 1] + tail, 1)
  {
  }

  lemma LastsDisk(f: Format, v: Voter, log: seq<Entry>)
    requires Lasts(f, v, log)
    ensures log <= Disk(f, v)
  {
    WholeDisk(f, v);
  }

  lemma AcceptedCourse(f: Format, h: Holder, v: Voter, args: AppendArgs, tail: seq<Entry>, h': Holder)
    requires HolderOk(f, h.(voter := v)) && Goes(f, h, v, args, Accepted(tail), h')
    ensures Survives(f, h'.voter, h'.log) <==> KeepsCourse(f, h, v, args, Accepted(tail))
    ensures KeepsCourse(f, h, v, args, Accepted(tail)) ==> Good(f, h')
  {
    hide LogFileOk, Disk, EntriesAt, Writes, LogOp, OpRecord, Survives, Lasts, TailOk;
    var n := NodeOf(v, h.log);
    TailBounds(n, tail);
    var start := tail[0].index;
    LogFileSize(f, v);
    if start > |Disk(f, v)| + 1 {
      OnlyReplacementsGap(f, h, v, tail);
      GapIsFatal(f, v, n, tail, true, h'.log);
    } else {
      TailLasts(f, h, v, tail, true, h'.log);
      LogFileSize(f, h'.voter);
      SurvivesExactly(f, h'.voter, h'.log);
      SameBelow(h.log, Disk(f, v), start, tail);
    }
  }

  lemma SameBelow(log: seq<Entry>, disk: seq<Entry>, start: nat, tail: seq<Entry>)
    requires 1 <= start <= |log| + 1 && start <= |disk| + 1
    ensures log[..start - 1] + tail <= disk[..start - 1] + tail <==> log[..start - 1] <= disk
  {
    if log[..start - 1] + tail <= disk[..start - 1] + tail {
      assert (log[..start - 1] + tail)[..start - 1] == log[..start - 1];
      assert (disk[..start - 1] + tail)[..start - 1] == disk[..start - 1];
    }
  }

  ghost predicate KeepsConfirmed(f: Format, h: Holder, e: Event) {
    e.Batch? ==>
      var v := Adopted(h.voter, e.args.term, e.a);
      Reconciles(v, h.log, e.args) ==>
        KeepsCourse(f, h, v, e.args, CourseOf(f, v, NodeOf(v, h.log), e.args.entries, e.o))
  }

  lemma AdoptKeeps(f: Format, h: Holder, term: nat, a: Outcome, log: seq<Entry>)
    requires HolderOk(f, h) && Lasts(f, h.voter, log) && term < U64
    ensures var v := Adopted(h.voter, term, a);
            HolderOk(f, h.(voter := v)) && Lasts(f, v, log) && Disk(f, v) == Disk(f, h.voter)
  {
    hide LogFileOk, Disk, Lasts, StatePayload, GoodMembership;
    LogFileSize(f, h.voter);
    FileSize(f, h.voter);
    if term > h.voter.memory.term {
      SaveEntries(f, h.voter, Promoted(h.voter, term), a);
    }
  }

  lemma BatchConfirmed(f: Format, h: Holder, e: Event)
    requires Good(f, h) && Possible(f, h, e) && e.Batch?
    ensures var h' := Step(f, h, e);
            && (Survives(f, h'.voter, h'.confirmed) <==> KeepsConfirmed(f, h, e))
            && (KeepsConfirmed(f, h, e) ==> Good(f, h'))
  {
    hide LogFileOk, Disk, Lasts, Survives, KeepsCourse, Goes, CourseOf, HandleBatch, Adopted, Reconciles;
    var v, h' := Adopted(h.voter, e.args.term, e.a), Step(f, h, e);
    AdoptKeeps(f, h, e.args.term, e.a, h.confirmed);
    LogFileSize(f, v);
    SurvivesExactly(f, v, h.confirmed);
    if !Reconciles(v, h.log, e.args) {
      Unreconciled(f, h, e.args, e.a, e.o);
    } else {
      Courses(f, h, e.args, e.a, e.o);
      CourseKeeps(f, h, v, e.args, CourseOf(f, v, NodeOf(v, h.log), e.args.entries, e.o), h');
    }
  }

  lemma Unreconciled(f: Format, h: Holder, args: AppendArgs, a: Outcome, o: Outcome)
    requires !Reconciles(Adopted(h.voter, args.term, a), h.log, args)
    ensures HandleBatch(f, h, args, a, o) == h.(voter := Adopted(h.voter, args.term, a))
  {
  }

  lemma CourseKeeps(f: Format, h: Holder, v: Voter, args: AppendArgs, course: Course, h': Holder)
    requires Good(f, h.(voter := v)) && Goes(f, h, v, args, course, h')
    ensures Survives(f, h'.voter, h'.confirmed) <==> KeepsCourse(f, h, v, args, course)
    ensures KeepsCourse(f, h, v, args, course) ==> Good(f, h')
  {
    hide LogFileOk, Disk, Lasts, Survives, KeepsCourse, TailOk, Writes, TailRecord;
    match course
    case Known =>
      KnownCourse(f, h, v, args, h');
      LogFileSize(f, v);
      SurvivesExactly(f, v, h'.confirmed);
    case Refused =>
      LogFileSize(f, v);
      SurvivesExactly(f, v, h.confirmed);
      RefusedAsksNothing(f, h, v, args);
    case Unsynced(tail) => UnsyncedCourse(f, h, v, args, tail, h');
    case Accepted(tail) => AcceptedCourse(f, h, v, args, tail, h');
  }

  lemma RefusedAsksNothing(f: Format, h: Holder, v: Voter, args: AppendArgs)
    ensures KeepsCourse(f, h, v, args, Refused)
  {
  }

  /** A restart finds a log of the file; nothing more than the cut is lost. */
  lemma CrashEntries(f: Format, h: Holder, e: Event)
    requires HolderOk(f, h) && Possible(f, h, e) && e.Crash?
    ensures var v, k := Step(f, h, e).voter, Whole(f, h.voter.recs, e.cut);
            && h.voter.synced <= v.synced == e.synced <= k == |v.recs| <= |h.voter.recs|
            && LogFileOk(f, v) && v.kept.boundary == 0 && Disk(f, v) == Step(f, h, e).log
            && forall j | 0 <= j <= k :: EntriesAt(f, v.recs, j) == EntriesAt(f, h.voter.recs, j)
  {
    hide FileOk, Whole, Frames, FileLive;
    var v, k := h.voter, Whole(f, h.voter.recs, e.cut);
    ReopenKeepsFile(f, v, k, e.synced);
    forall j | 0 <= j <= k
      ensures Plain(FileLive(f, v.recs[..k][..j])) && EntriesAt(f, v.recs[..k], j) == EntriesAt(f, v.recs, j)
    {
      assert v.recs[..k][..j] == v.recs[..j];
    }
  }

  /** Every event keeps what is confirmed exactly under its condition. */
  lemma StepConfirmed(f: Format, h: Holder, e: Event)
    requires Good(f, h) && Possible(f, h, e)
    ensures var h' := Step(f, h, e);
            && (Survives(f, h'.voter, h'.confirmed) <==> KeepsConfirmed(f, h, e))
            && (KeepsConfirmed(f, h, e) ==> Good(f, h'))
  {
    hide LogFileOk, Disk, Lasts, Survives, HandleBatch, EntriesAt, Whole, Spares, StateOk;
    var h' := Step(f, h, e);
    match e
    case Batch(_, _, _) => BatchConfirmed(f, h, e);
    case Save(st, o) =>
      SaveEntries(f, h.voter, st, o);
      LogFileSize(f, h'.voter);
      SurvivesExactly(f, h'.voter, h.confirmed);
    case Crash(_, _) =>
      CrashEntries(f, h, e);
      CrashLasts(f, h, e, h.confirmed);
      LogFileSize(f, h'.voter);
      SurvivesExactly(f, h'.voter, h.confirmed);
  }

  lemma CrashLasts(f: Format, h: Holder, e: Event, log: seq<Entry>)
    requires HolderOk(f, h) && Possible(f, h, e) && e.Crash? && Lasts(f, h.voter, log)
    ensures Lasts(f, Step(f, h, e).voter, log) && log <= Step(f, h, e).log && Consecutive(Step(f, h, e).log, 1)
  {
    hide LogFileOk, Disk, EntriesAt, Whole, Spares;
    CrashEntries(f, h, e);
    var v := Step(f, h, e).voter;
    WholeDisk(f, v);
    LogFileSize(f, v);
  }

  // ---- Runs ----

  ghost predicate KeepsAllConfirmed(f: Format, events: seq<Event>) {
    events != [] ==>
      && KeepsAllConfirmed(f, events[..|events| - 1])
      && KeepsConfirmed(f, RunAll(f, events[..|events| - 1]), events[|events| - 1])
  }

  lemma FirstGood(f: Format)
    requires Sound(f)
    ensures Good(f, FIRST) && Survives(f, FIRST.voter, [])
  {
    assert FIRST.voter.recs[..0] == [];
    SurvivesExactly(f, FIRST.voter, []);
  }

  lemma {:induction false} RunGood(f: Format, events: seq<Event>)
    requires Sound(f) && PossibleRun(f, events) && KeepsAllConfirmed(f, events)
    ensures Good(f, RunAll(f, events)) && Survives(f, RunAll(f, events).voter, RunAll(f, events).confirmed)
  {
    hide Good, Possible, Step, KeepsConfirmed, Survives;
    if events == [] {
      FirstGood(f);
    } else {
      RunGood(f, events[..|events| - 1]);
      StepConfirmed(f, RunAll(f, events[..|events| - 1]), events[|events| - 1]);
    }
  }

  ghost predicate ConfirmedSurvives(f: Format, events: seq<Event>) {
    Survives(f, RunAll(f, events).voter, RunAll(f, events).confirmed)
  }

  /** At every point of a run, every crash leaves what the follower has confirmed,
      if and only if each batch of the run met the condition of its course. */
  lemma {:induction false} RunConfirmedExactly(f: Format, events: seq<Event>)
    requires Sound(f) && PossibleRun(f, events)
    ensures (forall n | 0 <= n <= |events| :: ConfirmedSurvives(f, events[..n])) <==> KeepsAllConfirmed(f, events)
    decreases |events|
  {
    hide Good, Possible, Step, KeepsConfirmed, Survives;
    assert events[..|events|] == events;
    if events == [] {
      RunGood(f, events);
    } else {
      var before := events[..|events| - 1];
      RunConfirmedExactly(f, before);
      assert forall n | 0 <= n <= |before| :: before[..n] == events[..n];
      if KeepsAllConfirmed(f, events) {
        RunGood(f, events);
      } else if KeepsAllConfirmed(f, before) {
        RunGood(f, before);
        StepConfirmed(f, RunAll(f, before), events[|events| - 1]);
        assert !ConfirmedSurvives(f, events[..|events|]);
      }
    }
  }

  // ---- What is in memory ----

  /** A restart on a file whose unsynced end holds all of the log it comes up
      with; a failed sync of an append, not of a replacement. */
  ghost predicate KeepsLog(f: Format, h: Holder, e: Event) {
    match e
    case Batch(args, a, o) =>
      var v := Adopted(h.voter, args.term, a);
      Reconciles(v, h.log, args) ==>
        var course := CourseOf(f, v, NodeOf(v, h.log), args.entries, o);
        course.Unsynced? ==> course.tail[0].index > |h.log|
    case Save(_, _) => true
    case Crash(cut, synced) =>
      var recs, k := h.voter.recs, Whole(f, h.voter.recs, cut);
      synced <= k && forall j | synced <= j <= k :: EntriesAt(f, recs, k) <= EntriesAt(f, recs, j)
  }

  ghost predicate KeepsAllLogs(f: Format, events: seq<Event>) {
    events != [] ==>
      && KeepsAllLogs(f, events[..|events| - 1])
      && KeepsLog(f, RunAll(f, events[..|events| - 1]), events[|events| - 1])
  }

  ghost predicate Held(f: Format, h: Holder) {
    HolderOk(f, h) && Lasts(f, h.voter, h.log)
  }

  lemma UnsyncedHeld(f: Format, h: Holder, v: Voter, args: AppendArgs, tail: seq<Entry>, h': Holder)
    requires Held(f, h.(voter := v)) && Goes(f, h, v, args, Unsynced(tail), h')
    ensures tail != [] && (Survives(f, h'.voter, h.log) <==> tail[0].index > |h.log|)
    ensures tail[0].index > |h.log| ==> Held(f, h')
  {
    hide LogFileOk, Disk, EntriesAt, Writes, LogOp, OpRecord, Survives, Lasts, TailOk;
    var n := NodeOf(v, h.log);
    TailBounds(n, tail);
    LogFileSize(f, v);
    LastsDisk(f, v, h.log);
    if tail[0].index > |Disk(f, v)| + 1 {
      OnlyReplacementsGap(f, h, v, tail);
      GapIsFatal(f, v, n, tail, false, h.log);
    } else {
      TailLasts(f, h, v, tail, false, h.log);
      LogFileSize(f, h'.voter);
      SurvivesExactly(f, h'.voter, h.log);
      TailConflicts(h, v, tail, Disk(f, v), h.log);
    }
  }

  lemma AcceptedHeld(f: Format, h: Holder, v: Voter, args: AppendArgs, tail: seq<Entry>, h': Holder)
    requires Held(f, h.(voter := v)) && Goes(f, h, v, args, Accepted(tail), h')
    ensures Held(f, h')
  {
    hide LogFileOk, Disk, EntriesAt, Writes, LogOp, OpRecord, Survives, Lasts, TailOk;
    TailBounds(NodeOf(v, h.log), tail);
    LastsDisk(f, v, h.log);
    AcceptedCourse(f, h, v, args, tail, h');
    AcceptedLog(f, h, v, args, tail, h');
  }

  lemma AcceptedLog(f: Format, h: Holder, v: Voter, args: AppendArgs, tail: seq<Entry>, h': Holder)
    requires Goes(f, h, v, args, Accepted(tail), h')
    ensures h'.confirmed == h'.log
  {
  }

  lemma CourseHeld(f: Format, h: Holder, v: Voter, args: AppendArgs, course: Course, h': Holder)
    requires Held(f, h.(voter := v)) && Goes(f, h, v, args, course, h')
    requires course.Unsynced? ==> course.tail != []
    ensures Survives(f, h'.voter, h'.log) <==> (course.Unsynced? ==> course.tail[0].index > |h.log|)
    ensures (course.Unsynced? ==> course.tail[0].index > |h.log|) ==> Held(f, h')
  {
    hide LogFileOk, Disk, Lasts, Survives, TailOk, Writes, TailRecord;
    LogFileSize(f, v);
    SurvivesExactly(f, v, h.log);
    match course
    case Known =>
      LastsShorter(f, v, h.log, h.confirmed);
      KnownCourse(f, h, v, args, h');
    case Refused => {}
    case Unsynced(tail) => UnsyncedHeld(f, h, v, args, tail, h');
    case Accepted(tail) =>
      AcceptedHeld(f, h, v, args, tail, h');
      LogFileSize(f, h'.voter);
      SurvivesExactly(f, h'.voter, h'.log);
  }

  lemma BatchHeld(f: Format, h: Holder, e: Event)
    requires Held(f, h) && Possible(f, h, e) && e.Batch?
    ensures var h' := Step(f, h, e);
            (Survives(f, h'.voter, h'.log) <==> KeepsLog(f, h, e)) && (KeepsLog(f, h, e) ==> Held(f, h'))
  {
    hide LogFileOk, Disk, Lasts, Survives, Goes, CourseOf, HandleBatch, Adopted, Reconciles;
    var v, h' := Adopted(h.voter, e.args.term, e.a), Step(f, h, e);
    AdoptKeeps(f, h, e.args.term, e.a, h.log);
    LogFileSize(f, v);
    SurvivesExactly(f, v, h.log);
    if !Reconciles(v, h.log, e.args) {
      Unreconciled(f, h, e.args, e.a, e.o);
    } else {
      Courses(f, h, e.args, e.a, e.o);
      CourseHeld(f, h, v, e.args, CourseOf(f, v, NodeOf(v, h.log), e.args.entries, e.o), h');
    }
  }

  lemma CrashHeld(f: Format, h: Holder, e: Event)
    requires Held(f, h) && Possible(f, h, e) && e.Crash?
    ensures var h' := Step(f, h, e);
            (Survives(f, h'.voter, h'.log) <==> KeepsLog(f, h, e)) && (KeepsLog(f, h, e) ==> Held(f, h'))
  {
    hide LogFileOk, Disk, Survives, EntriesAt, Whole, Spares;
    var h' := Step(f, h, e);
    CrashEntries(f, h, e);
    LastsShorter(f, h.voter, h.log, h.confirmed);
    CrashLasts(f, h, e, h.confirmed);
    LogFileSize(f, h'.voter);
    SurvivesExactly(f, h'.voter, h'.log);
  }

  lemma StepHeld(f: Format, h: Holder, e: Event)
    requires Held(f, h) && Possible(f, h, e)
    ensures var h' := Step(f, h, e);
            (Survives(f, h'.voter, h'.log) <==> KeepsLog(f, h, e)) && (KeepsLog(f, h, e) ==> Held(f, h'))
  {
    hide LogFileOk, Disk, Lasts, Survives, HandleBatch, EntriesAt, Whole, Spares, StateOk;
    match e
    case Batch(_, _, _) => BatchHeld(f, h, e);
    case Save(st, o) =>
      SaveEntries(f, h.voter, st, o);
      LogFileSize(f, Step(f, h, e).voter);
      SurvivesExactly(f, Step(f, h, e).voter, h.log);
    case Crash(_, _) => CrashHeld(f, h, e);
  }

  ghost predicate LogSurvives(f: Format, events: seq<Event>) {
    Survives(f, RunAll(f, events).voter, RunAll(f, events).log)
  }

  lemma {:induction false} RunHeld(f: Format, events: seq<Event>)
    requires Sound(f) && PossibleRun(f, events) && KeepsAllLogs(f, events)
    ensures Held(f, RunAll(f, events)) && LogSurvives(f, events) && ConfirmedSurvives(f, events)
  {
    hide Held, Possible, Step, KeepsLog, Survives;
    if events == [] {
      FirstHeld(f);
    } else {
      RunHeld(f, events[..|events| - 1]);
      StepHeld(f, RunAll(f, events[..|events| - 1]), events[|events| - 1]);
    }
    HeldConfirms(f, RunAll(f, events));
  }

  lemma FirstHeld(f: Format)
    requires Sound(f)
    ensures Held(f, FIRST) && Survives(f, FIRST.voter, [])
  {
    hide Survives;
    FirstGood(f);
  }

  lemma HeldConfirms(f: Format, h: Holder)
    requires Held(f, h)
    ensures Survives(f, h.voter, h.confirmed)
  {
    hide LogFileOk, Disk, Lasts, Survives;
    LogFileSize(f, h.voter);
    LastsShorter(f, h.voter, h.log, h.confirmed);
    SurvivesExactly(f, h.voter, h.confirmed);
  }

  /** At every point of a run, every crash leaves the log in memory, which is all
      that the follower has confirmed or would confirm now, if and only if each
      restart found a file whose unsynced end holds all of the log it came up
      with, and each sync that failed was that of an append. */
  lemma {:induction false} RunHeldExactly(f: Format, events: seq<Event>)
    requires Sound(f) && PossibleRun(f, events)
    ensures (forall n | 0 <= n <= |events| :: LogSurvives(f, events[..n])) <==> KeepsAllLogs(f, events)
    ensures KeepsAllLogs(f, events) ==> KeepsAllConfirmed(f, events)
    decreases |events|
  {
    hide Held, Possible, Step, KeepsLog, Survives;
    assert events[..|events|] == events;
    if events == [] {
      RunHeld(f, events);
    } else {
      var before := events[..|events| - 1];
      RunHeldExactly(f, before);
      assert forall n | 0 <= n <= |before| :: before[..n] == events[..n];
      if KeepsAllLogs(f, events) {
        RunHeld(f, events);
        ConfirmedToo(f, events);
      } else if KeepsAllLogs(f, before) {
        RunHeld(f, before);
        StepHeld(f, RunAll(f, before), events[|events| - 1]);
        assert !LogSurvives(f, events[..|events|]);
      }
    }
  }

  lemma ConfirmedToo(f: Format, events: seq<Event>)
    requires Sound(f) && PossibleRun(f, events) && events != []
    requires KeepsAllConfirmed(f, events[..|events| - 1]) && ConfirmedSurvives(f, events)
    ensures KeepsAllConfirmed(f, events)
  {
    hide Good, Possible, Step, KeepsConfirmed, Survives;
    RunGood(f, events[..|events| - 1]);
    StepConfirmed(f, RunAll(f, events[..|events| - 1]), events[|events| - 1]);
  }
}
