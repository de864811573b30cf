/** The node object and its locked handlers, proved to do what RaftStep says
    (internal/raft: node_election.go, node_replication.go, node_role.go,
    node_snapshot.go, node_apply.go). `disk` stands for the entries of the
    storage, `channel` for all that was ever sent to the state machine. */
module RaftNode {
  import opened Types
  import opened Quorum
  import opened WalCodec
  import opened Wal
  import opened RaftCommit
  import opened RaftStep
  import RaftProtocol
  import opened RaftLog
  import opened RaftDurable
  import WalStorage
  import opened RaftApply
  import ConfigEntry

  /** Log.Get in terms of the step functions. */
  lemma LookupIsFetch(n: Node, index: nat)
    ensures Lookup(n.log, n.base, index).Some? <==> Readable(n, index)
    ensures Readable(n, index) ==> Lookup(n.log, n.base, index) == Some(Fetch(n, index))
  {
  }

  /** The entry a leader appends for a proposal. */
  function Proposed(n: Node, data: seq<byte>): Entry {
    Entry(|n.log| + 1, n.term, data)
  }

  lemma ScanNext(site: Site, n: Node, commit: nat, index: nat)
    ensures Scan(site, n, commit, index) ==
            if index > |n.log| then commit
            else Scan(site, n, if Commits(site, n, index) then index else commit, index + 1)
  {
  }

  lemma AdvancesFor(site: Site, n: Node)
    ensures var n' := AdvanceCommit(site, n);
            && (n'.commit != n.commit ==> n.role.Leader? && Committable(site, n', n'.commit))
            && (n.role.Leader? ==> CommittedAll(site, n'))
  {
    hide Committable;
    if n.role.Leader? {
      AdvancesExactly(site, n);
      SameAccount(site, n, AdvanceCommit(site, n), AdvanceCommit(site, n).commit);
    }
  }

  /** Log and durable entries after a proposal of a leader. */
  function ProposeDurably(n: Node, disk: seq<Entry>, data: seq<byte>, o: Outcome): (seq<Entry>, seq<Entry>) {
    var entry := Proposed(n, data);
    if o.WriteFails? || !Continues(disk, [entry]) then (n.log, disk)
    else (if o.Written? then n.log + [entry] else n.log, disk + [entry])
  }

  /** A proposal whose sync fails without the disk being full leaves the leader in
      place and its file one entry ahead: every later proposal is refused,
      whatever its outcome would have been, and changes neither log. */
  lemma StuckLeader(n: Node, disk: seq<Entry>, data: seq<byte>, later: Node, more: seq<byte>, o: Outcome)
    requires InStep(n, disk) && later.log == n.log
    ensures var (log, disk') := ProposeDurably(n, disk, data, SyncFails);
            log == n.log && disk' == disk + [Proposed(n, data)] && ProposeDurably(later, disk', more, o) == (log, disk')
  {
    ProposeInStep(Site([], WalCodec.NO_MEMBERSHIP, []), n, disk, data);
    StuckBehindFailedAppend(later, disk + [Proposed(n, data)], [Proposed(later, more)]);
  }

  /** With equal logs a proposal is never refused for its index, and leaves them
      equal if its sync succeeds. */
  lemma ProposeInStep(site: Site, n: Node, disk: seq<Entry>, data: seq<byte>)
    requires InStep(n, disk)
    ensures Continues(disk, [Proposed(n, data)]) && ValidEntries([Proposed(n, data)])
    ensures n.role.Leader? ==> InStep(RaftStep.Propose(site, n, data, true), disk + [Proposed(n, data)])
  {
    hide Scan;
  }

  /** The loop over the peers that fills one of the replication maps. */
  method SetAll(m: map<NodeID, nat>, peers: seq<NodeID>, value: nat) returns (filled: map<NodeID, nat>)
    ensures filled == Filled(m, peers, value)
  {
    filled := m;
    for i := 0 to |peers|
      invariant filled.Keys == m.Keys + set p | p in peers[..i]
      invariant forall p | p in filled :: filled[p] == if p in peers[..i] then value else m[p]
    {
      assert peers[..i + 1] == peers[..i] + [peers[i]];
      filled := filled[peers[i] := value];
    }
    assert peers[..|peers|] == peers;
  }

  class RaftNode {
    const id: NodeID
    const peers: seq<NodeID>
    const log: Log
    var membership: Membership
    var term: nat
    var votedFor: NodeID
    var role: Role
    var applied: nat
    var commit: nat
    var votes: set<NodeID>
    var next: map<NodeID, nat>
    var matched: map<NodeID, nat>
    var disk: seq<Entry>
    var channel: seq<Entry>
    ghost var kept: Kept

    ghost function View(): Node
      reads this, log
    {
      Node(term, votedFor, role, log.plain, log.lastIncludedIndex, applied, commit, votes, next, matched, kept)
    }

    function Here(): Site
      reads this
    {
      Site(id, membership, peers)
    }

    ghost predicate Valid()
      reads this, log
    {
      log.Valid() && log.lastIncludedIndex <= applied <= commit <= |log.plain| && log.lastIncludedIndex <= kept.boundary
    }

    constructor (id: NodeID, membership: Membership, peers: seq<NodeID>)
      ensures Valid() && fresh(log) && this.id == id && this.membership == membership && this.peers == peers
      ensures View() == RaftProtocol.FRESH && InStep(View(), disk) && channel == []
    {
      this.id, this.membership, this.peers := id, membership, peers;
      term, votedFor, role := 0, [], Follower;
      applied, commit := 0, 0;
      votes, next, matched := {}, map[], map[];
      log := new Log();
      disk, channel, kept := [], [], Kept(0, [], 0, 0);
    }

    // ---- Elections ----

    method AdoptHigherTerm(t: nat)
      requires Valid()
      modifies this`term, this`votedFor, this`role, this`kept
      ensures Valid() && View() == AdoptTerm(old(View()), t)
    {
      term, votedFor, role := t, [], Follower;
      kept := kept.(term := t, votedFor := []);
    }

    method StartElection(durable: bool) returns (ok: bool)
      requires Valid()
      modifies this`term, this`votedFor, this`role, this`votes, this`kept
      ensures Valid() && View() == RaftStep.StartElection(Here(), old(View()), durable)
      ensures ok == (IsVoter(membership, id) && durable)
    {
      if !IsVoter(membership, id) || !durable {
        return false;
      }
      term := term + 1;
      votedFor := id;
      role := Candidate;
      votes := {id};
      kept := kept.(term := term, votedFor := id);
      return true;
    }

    /** isCandidateLogUpToDate. */
    method CandidateUpToDate(lastIndex: nat, lastTerm: nat) returns (ok: bool)
      requires Valid()
      ensures ok == UpToDate(View().log, lastIndex, lastTerm)
      ensures ok <==> LastTerm(log.plain) < lastTerm || (LastTerm(log.plain) == lastTerm && |log.plain| <= lastIndex)
    {
      var ownTerm := log.LastTermOf();
      var ownIndex := log.LastIndex();
      if lastTerm != ownTerm {
        return lastTerm > ownTerm;
      }
      return lastIndex >= ownIndex;
    }

    method RequestVote(args: VoteArgs, adopted: bool, voted: bool) returns (reply: VoteReply)
      requires Valid()
      modifies this`term, this`votedFor, this`role, this`kept
      ensures Valid() && (View(), reply) == RaftStep.RequestVote(Here(), old(View()), args, adopted, voted)
    {
      reply := VoteReply(term, id, false);
      if args.term < term {
        return;
      }
      if args.term > term {
        if !adopted {
          return;
        }
        AdoptHigherTerm(args.term);
      }
      reply := VoteReply(term, id, false);
      if !IsVoter(membership, args.candidate) || (votedFor != [] && votedFor != args.candidate) {
        return;
      }
      var upToDate := CandidateUpToDate(args.lastIndex, args.lastTerm);
      if !upToDate || !voted {
        return;
      }
      votedFor := args.candidate;
      kept := kept.(term := term, votedFor := votedFor);
      reply := VoteReply(term, id, true);
    }

    method HandleVoteReply(electionTerm: nat, reply: VoteReply, durable: bool)
      requires Valid()
      modifies this`term, this`votedFor, this`role, this`votes, this`kept
      ensures Valid() && View() == RaftStep.HandleVoteReply(Here(), old(View()), electionTerm, reply, durable)
    {
      if reply.term > term {
        if durable {
          AdoptHigherTerm(reply.term);
          votes := {};
        }
        return;
      }
      if !role.Candidate? || electionTerm != term || reply.term != electionTerm || !reply.granted ||
         !IsVoter(membership, reply.voter)
      {
        return;
      }
      votes := votes + {reply.voter};
    }

    /** tryBecomeLeader with the initialisation loop of becomeLeaderLocked. */
    method TryBecomeLeader() returns (won: bool)
      requires Valid()
      modifies this`role, this`next, this`matched
      ensures Valid() && View() == RaftStep.TryBecomeLeader(Here(), old(View()))
      ensures won == (old(role).Candidate? && HasQuorum(membership, votes))
    {
      hide Filled, HasQuorum;
      if !role.Candidate? {
        return false;
      }
      won := MembershipHasQuorum(membership, votes);
      if !won {
        return;
      }
      role := Leader;
      var last := log.LastIndex();
      next := SetAll(next, peers, last + 1);
      matched := SetAll(matched, peers, 0);
    }

    // ---- Leading ----

    /** advanceCommitIndexLocked: the commit index of a leader becomes the greatest
        committable one, if that is past it. */
    method AdvanceCommitIndex()
      requires Valid()
      modifies this`commit
      ensures Valid() && View() == AdvanceCommit(Here(), old(View()))
      ensures old(commit) <= commit && (commit != old(commit) ==> role.Leader? && Committable(Here(), View(), commit))
      ensures role.Leader? ==> forall i | commit < i <= |log.plain| :: !Committable(Here(), View(), i)
    {
      hide Committable, HasQuorum, Scan, Consecutive, LastTerm;
      AdvancesFor(Here(), View());
      if !role.Leader? {
        return;
      }
      var last := log.LastIndex();
      var index := commit + 1;
      while index <= last
        invariant old(commit) + 1 <= index <= last + 1 && old(commit) <= commit < index
        invariant Scan(Here(), old(View()), commit, index) == Scan(Here(), old(View()), old(commit), old(commit) + 1)
      {
        var entry := log.Get(index);
        LookupIsFetch(old(View()), index);
        ScanNext(Here(), old(View()), commit, index);
        if entry.value.term == term {
          var replicated := ReplicatedOn(index);
          var quorum := MembershipHasQuorum(membership, replicated);
          if quorum {
            commit := index;
          }
        }
        index := index + 1;
      }
      ScanNext(Here(), old(View()), commit, index);
    }

    /** The members that hold `index`, by the leader's own account. */
    method ReplicatedOn(index: nat) returns (replicated: set<NodeID>)
      ensures replicated == Replicated(Here(), View(), index)
    {
      replicated := {id};
      for i := 0 to |peers|
        invariant replicated == {id} + set p | p in peers[..i] && At(matched, p) >= index
      {
        assert forall p :: p in peers[..i + 1] <==> p in peers[..i] || p == peers[i];
        if At(matched, peers[i]) >= index {
          replicated := replicated + {peers[i]};
        }
      }
      assert peers[..|peers|] == peers;
    }

    /** The storage calls of a proposal. */
    method Persist(entry: Entry, o: Outcome) returns (written: bool, stored: bool)
      modifies this`disk
      ensures written == (!o.WriteFails? && Continues(old(disk), [entry])) && stored == (written && o.Written?)
      ensures disk == if written then old(disk) + [entry] else old(disk)
    {
      if o.WriteFails? || !Continues(disk, [entry]) {
        return false, false;
      }
      disk := disk + [entry];
      return true, o.Written?;
    }

    /** `full` tells a failed sync for want of space from any other. What this
        does to equal logs is said by ProposeInStep. */
    method Propose(data: seq<byte>, o: Outcome, full: bool) returns (ok: bool)
      requires Valid()
      modifies this`commit, this`disk, this`role, log
      ensures Valid()
      ensures var n, took := old(View()), !o.WriteFails? && Continues(old(disk), [Proposed(old(View()), data)]);
              && ok == (n.role.Leader? && took && o.Written?)
              && View() == (if n.role.Leader? && took && o.SyncFails? && full then StepDown(n)
                            else RaftStep.Propose(Here(), n, data, ok))
              && disk == if n.role.Leader? && took then old(disk) + [Proposed(n, data)] else old(disk)
      ensures old(role).Leader? ==> (log.plain, disk) == ProposeDurably(old(View()), old(disk), data, o)
      ensures ok ==> CommittedAll(Here(), View())
      ensures !ok && full && disk != old(disk) && o.SyncFails? ==> role == Follower
    {
      hide AdvanceCommit, Continues;
      if !role.Leader? {
        return false;
      }
      var last := log.LastIndex();
      var entry := Entry(last + 1, term, data);
      var written, stored := Persist(entry, o);
      if !stored {
        if written && full {
          role := Follower;
        }
        return false;
      }
      ok := log.Append(entry);
      AdvanceCommitIndex();
    }

    /** buildAppendEntries. */
    method BuildAppendEntries(peer: NodeID) returns (args: Option<AppendArgs>)
      requires Valid()
      ensures args == BuildAppend(Here(), View(), peer)
    {
      hide Batch, Fetch;
      if !role.Leader? || peer !in next {
        return None;
      }
      var nextIndex := next[peer];
      var prevIndex, prevTerm := 0, 0;
      if nextIndex > 1 {
        var prev := log.Get(nextIndex - 1);
        LookupIsFetch(View(), nextIndex - 1);
        if prev.None? {
          return None;
        }
        prevIndex, prevTerm := nextIndex - 1, prev.value.term;
      }
      var last := log.LastIndex();
      var entries: seq<Entry> := [];
      var index := nextIndex;
      while index <= last
        invariant nextIndex <= index && (index <= last + 1 || index == nextIndex) && |entries| == index - nextIndex
        invariant forall j | nextIndex <= j < index :: Readable(View(), j) && entries[j - nextIndex] == Fetch(View(), j)
      {
        var entry := log.Get(index);
        LookupIsFetch(View(), index);
        if entry.None? {
          return None;
        }
        entries := entries + [entry.value];
        index := index + 1;
      }
      BatchBuilt(View(), nextIndex, entries);
      return Some(AppendArgs(term, id, prevIndex, prevTerm, entries, commit));
    }

    /** handleAppendEntriesReply. */
    method HandleAppendReply(peer: NodeID, args: AppendArgs, reply: AppendReply, durable: bool)
      requires Valid()
      modifies this`term, this`votedFor, this`role, this`next, this`matched, this`commit, this`kept
      ensures Valid() && View() == RaftStep.HandleAppendReply(Here(), old(View()), peer, args, reply, durable)
      ensures role.Leader? && reply.term <= term == args.term && reply.success && args.entries != [] ==>
                CommittedAll(Here(), View())
    {
      hide Committable, AdvanceCommit;
      if reply.term > term {
        if durable {
          AdoptHigherTerm(reply.term);
        }
        return;
      }
      if !role.Leader? || args.term != term {
        return;
      }
      if !reply.success {
        if At(next, peer) > 1 {
          next := next[peer := next[peer] - 1];
        }
        return;
      }
      if args.entries == [] {
        return;
      }
      var lastReplicated := args.entries[|args.entries| - 1].index;
      if lastReplicated > At(matched, peer) {
        matched := matched[peer := lastReplicated];
        next := next[peer := lastReplicated + 1];
      }
      AdvanceCommitIndex();
    }

    // ---- Following ----

    /** The scanning loop of reconcileReplicatedEntriesLocked. */
    method FindFirstNew(entries: seq<Entry>) returns (firstNew: nat, replace: bool)
      requires Valid()
      ensures firstNew == FirstNew(View(), entries, 0)
      ensures firstNew < |entries| ==> replace == Readable(View(), entries[firstNew].index)
    {
      for i := 0 to |entries|
        invariant FirstNew(View(), entries, 0) == FirstNew(View(), entries, i)
      {
        var existing := log.Get(entries[i].index);
        LookupIsFetch(View(), entries[i].index);
        if existing.None? {
          return i, false;
        }
        if existing.value.term != entries[i].term {
          return i, true;
        }
      }
      return |entries|, false;
    }

    /** reconcileReplicatedEntriesLocked: write, sync, cut, append. The storage
        refuses to replace what its snapshot covers. */
    method ReconcileEntries(entries: seq<Entry>, snapshotIndex: nat, o: Outcome) returns (ok: bool)
      requires Valid() && snapshotIndex == kept.boundary
      modifies this`disk, log
      ensures log.Valid() && log.lastIncludedIndex == old(log.lastIncludedIndex)
      ensures disk == ReconcileDisk(old(View()), old(disk), entries, o)
      ensures ok == ReconcileMemory(old(View()), old(disk), entries, o).Some?
      ensures log.plain == MemoryAfter(old(View()), old(disk), entries, o)
    {
      hide Replaced, FirstNew, Continues, ValidEntries;
      var firstNew, replace := FindFirstNew(entries);
      if firstNew == |entries| {
        return true;
      }
      var tail := entries[firstNew..];
      var start := tail[0].index;
      assert start == entries[firstNew].index;
      ValidTail(tail);
      var taken := ValidateEntries(tail);
      taken := taken && if replace then snapshotIndex < start else Continues(disk, tail);
      assert taken == Takes(View(), disk, tail);
      if o.WriteFails? || !taken {
        return false;
      }
      if replace {
        disk := Replaced(disk, start, tail);
        if o.SyncFails? {
          return false;
        }
        log.TruncateFrom(start);
      } else {
        disk := disk + tail;
        if o.SyncFails? {
          return false;
        }
      }
      ok := AppendAll(tail);
    }

    /** The appending loop; it fails at the first entry or not at all. */
    method AppendAll(tail: seq<Entry>) returns (ok: bool)
      requires log.Valid() && tail != [] && Consecutive(tail, tail[0].index)
      modifies log
      ensures log.Valid() && log.lastIncludedIndex == old(log.lastIncludedIndex)
      ensures ok == (tail[0].index == old(|log.plain|) + 1)
      ensures log.plain == if ok then old(log.plain) + tail else old(log.plain)
    {
      for i := 0 to |tail|
        invariant log.Valid() && log.lastIncludedIndex == old(log.lastIncludedIndex)
        invariant log.plain == old(log.plain) + tail[..i]
        invariant i > 0 ==> tail[0].index == old(|log.plain|) + 1
      {
        ok := log.Append(tail[i]);
        if !ok {
          assert log.plain == old(log.plain) + tail[..i];
          return;
        }
        assert tail[..i + 1] == tail[..i] + [tail[i]];
      }
      return true;
    }

    method CheckPrev(args: AppendArgs) returns (ok: bool)
      requires Valid()
      ensures ok == PrevMatches(View(), args)
    {
      if args.prevIndex == 0 {
        return true;
      }
      var prev := log.Get(args.prevIndex);
      LookupIsFetch(View(), args.prevIndex);
      return prev.Some? && prev.value.term == args.prevTerm;
    }

    method FollowCommit(leaderCommit: nat)
      requires log.Valid()
      modifies this`commit
      ensures commit == AcceptLog(old(View()), log.plain, leaderCommit).commit
    {
      if leaderCommit > commit {
        var last := log.LastIndex();
        commit := if leaderCommit < last then leaderCommit else last;
      }
    }

    /** The second half of AppendEntries, once the batch is known to fit. */
    method AcceptBatch(args: AppendArgs, snapshotIndex: nat, o: Outcome) returns (ok: bool)
      requires Valid() && snapshotIndex == kept.boundary
      modifies this`commit, this`disk, this`kept, log
      ensures log.Valid() && log.lastIncludedIndex == old(log.lastIncludedIndex)
      ensures ok == ReconcileMemory(old(View()), old(disk), args.entries, o).Some?
      ensures View() ==
              if ok then AcceptLog(old(View()), MemoryAfter(old(View()), old(disk), args.entries, o), args.leaderCommit)
              else old(View())
      ensures disk == ReconcileDisk(old(View()), old(disk), args.entries, o)
    {
      hide ReconcileDisk, ReconcileMemory, MemoryAfter;
      MemoryWhen(View(), disk, args.entries, o);
      ok := ReconcileEntries(args.entries, snapshotIndex, o);
      if ok {
        FollowCommit(args.leaderCommit);
        kept := if log.plain == old(log.plain) then kept else kept.(term := term, votedFor := votedFor);
      }
    }

    /** The whole AppendEntries handler. */
    method AppendEntries(args: AppendArgs, snapshotIndex: nat, adopted: bool, o: Outcome) returns (reply: AppendReply)
      requires Valid() && snapshotIndex == kept.boundary
      modifies this`term, this`votedFor, this`role, this`commit, this`disk, this`kept, log
      ensures log.Valid() && log.lastIncludedIndex == old(log.lastIncludedIndex)
      ensures (View(), disk, reply) == AppendDurably(old(View()), old(disk), args, adopted, o)
    {
      hide ReconcileDisk, ReconcileMemory, MemoryAfter;
      reply := AppendReply(term, false);
      if args.term < term {
        return;
      }
      if args.term > term {
        if !adopted {
          return;
        }
        AdoptHigherTerm(args.term);
      }
      reply := AppendReply(term, false);
      var matches := CheckPrev(args);
      if !matches {
        return;
      }
      role := Follower;
      MemoryWhen(View(), disk, args.entries, o);
      var ok := AcceptBatch(args, snapshotIndex, o);
      reply := AppendReply(term, ok);
    }

    // ---- Snapshots and application ----

    /** CreateSnapshot: refused beyond what is applied. `saved` is whether the
        snapshot is saved and synced, `compacted` whether the storage is then
        compacted; only after that is the log cut. What this does to equal logs
        is said by SnapshotInStep. */
    method CreateSnapshot(index: nat, saved: bool, compacted: bool) returns (ok: bool)
      requires Valid()
      modifies this`disk, this`kept, log
      ensures Valid()
      ensures ok == (MaySnapshot(old(View()), index) && saved && compacted)
      ensures View() == if saved then RaftStep.Compact(old(View()), index, compacted) else old(View())
      ensures disk == if ok then Above(old(disk), index) else old(disk)
    {
      hide Above, Fetch;
      if index > applied || index > commit || index == 0 {
        return false;
      }
      var entry := log.Get(index);
      LookupIsFetch(View(), index);
      if entry.None? || !saved {
        return false;
      }
      kept := kept.(term := term, votedFor := votedFor, boundary := index);
      if !compacted {
        return false;
      }
      disk := WalStorage.KeepAbove(disk, index);
      kept := kept.(dropped := index);
      ok := log.Compact(index, entry.value.term);
    }

    method NextEntry() returns (entry: Entry)
      requires Valid() && applied < commit
      ensures entry == log.plain[applied]
    {
      var found := log.Get(applied + 1);
      return found.value;
    }

    /** applyConfigurationEntryLocked. `saved` says which memberships the storage
        manages to save, `left` whether the step-down of a removed leader can be
        saved; if it can not, the membership is published nevertheless. */
    method ApplyConfiguration(entry: Entry, saved: Membership -> bool, left: bool) returns (round: Round)
      requires Valid() && ConfigEntry.IsConfiguration(entry.data)
      modifies this`membership, this`role, this`votedFor, this`kept
      ensures Valid() && round == RoundOf(entry, saved, left, old(role), id)
      ensures membership == if round.Stopped? then old(membership) else MembershipWith(old(membership), entry)
      ensures round.Applied? && old(role).Leader? && Removes(entry, id) ==> role == Follower && votedFor == []
      ensures View() == if round.Applied? && old(role).Leader? && Removes(entry, id) then Dethroned(old(View()))
                        else old(View())
    {
      hide Reconfigured, IsVoter;
      var nextMembership := Reconfigured(entry.data);
      if nextMembership.None? || !saved(nextMembership.value) {
        return Stopped;
      }
      membership := nextMembership.value;
      if role.Leader? && membership.joint.None? && !IsVoter(membership, id) {
        if !left {
          return Published;
        }
        role, votedFor := Follower, [];
        kept := kept.(term := term, votedFor := []);
      }
      return Applied;
    }

    /** One round of applyCommitted. */
    method ApplyEntry(saved: Membership -> bool, left: bool) returns (round: Round)
      requires Valid() && applied < commit
      modifies this`applied, this`membership, this`channel, this`role, this`votedFor, this`kept
      ensures Valid() && round == RoundOf(log.plain[old(applied)], saved, left, old(role), id)
      ensures membership == if round.Stopped? then old(membership)
          else MembershipWith(old(membership), log.plain[old(applied)])
      ensures channel == if round.Applied? then old(channel) + Command(log.plain[old(applied)]) else old(channel)
      ensures View() == if !round.Applied? then old(View())
                        else if old(role).Leader? && Removes(log.plain[old(applied)], id)
                        then Dethroned(ApplyNext(old(View())))
                        else ApplyNext(old(View()))
    {
      hide Reconfigured, IsVoter;
      round := Applied;
      var entry := NextEntry();
      if ConfigEntry.IsConfiguration(entry.data) {
        round := ApplyConfiguration(entry, saved, left);
        if !round.Applied? {
          return;
        }
      } else {
        channel := channel + [entry];
      }
      applied := applied + 1;
    }

    /** applyCommitted. */
    method ApplyCommitted(saved: Membership -> bool, left: bool) returns (round: Round)
      requires Valid()
      modifies this`applied, this`membership, this`channel, this`role, this`votedFor, this`kept
      ensures Valid() && old(applied) <= applied && (round.Applied? <==> applied == commit)
      ensures channel == old(channel) + Commands(log.plain, old(applied), applied)
      ensures SendsExactly(channel[|old(channel)|..], log.plain, old(applied), applied)
      ensures membership == MembershipAfter(old(membership), log.plain, old(applied),
                                            if round.Published? then applied + 1 else applied)
      ensures round.Stopped? ==> Refuses(log.plain[applied], saved)
      ensures round.Published? ==> role.Leader? && Removes(log.plain[applied], id) && !left
      ensures View() == AppliedUpTo(old(View()), id, applied)
    {
      hide Removes, Refuses, MembershipWith, MembershipAfter, Command, Commands, AppliedUpTo, ApplyNext, Dethroned;
      hide RoundOf, Consecutive, LastTerm, SendsExactly;
      ghost var n := View();
      round := Applied;
      NoneApplied(n, id);
      NothingYet(membership, log.plain, applied);
      while applied < commit
        invariant Valid() && n.applied <= applied && round.Applied?
        invariant channel == old(channel) + Commands(log.plain, n.applied, applied)
        invariant membership == MembershipAfter(old(membership), log.plain, n.applied, applied)
        invariant View() == AppliedUpTo(n, id, applied)
      {
        AppliedStep(n, id, applied);
        OneEntryMore(old(membership), log.plain, n.applied, applied);
        RoundMeaning(log.plain[applied], saved, left, role, id);
        Joined(old(channel), Commands(log.plain, n.applied, applied), Command(log.plain[applied]));
        round := ApplyEntry(saved, left);
        if !round.Applied? {
          SentSince(old(channel), log.plain, n.applied, applied);
          return;
        }
      }
      SentSince(old(channel), log.plain, n.applied, applied);
    }
  }

  /** The node once its entries up to `end` are applied: nothing but the applied
      index changes, save for a leader that one of them removes. */
  function AppliedUpTo(n: Node, id: NodeID, end: nat): Node
    requires n.applied <= end <= |n.log|
  {
    var n' := ApplyTimes(n, end - n.applied);
    if n.role.Leader? && RemovedIn(n.log, id, n.applied, end) then Dethroned(n') else n'
  }

  function RoundOf(e: Entry, saved: Membership -> bool, left: bool, role: Role, id: NodeID): Round {
    if Refuses(e, saved) then Stopped else if role.Leader? && Removes(e, id) && !left then Published else Applied
  }

  lemma NoneApplied(n: Node, id: NodeID)
    requires n.applied <= |n.log|
    ensures AppliedUpTo(n, id, n.applied) == n
  {
  }

  lemma SentSince(before: seq<Entry>, log: seq<Entry>, start: nat, end: nat)
    requires start <= end <= |log| && Consecutive(log, 1)
    ensures SendsExactly((before + Commands(log, start, end))[|before|..], log, start, end)
  {
    hide SendsExactly;
    CommandsExactly(log, start, end);
    assert (before + Commands(log, start, end))[|before|..] == Commands(log, start, end);
  }

  lemma RoundMeaning(e: Entry, saved: Membership -> bool, left: bool, role: Role, id: NodeID)
    ensures var round := RoundOf(e, saved, left, role, id);
            && (round.Stopped? ==> Refuses(e, saved))
            && (round.Published? ==> role.Leader? && Removes(e, id) && !left)
  {
    hide Refuses, Removes;
  }

  lemma Joined(a: seq<Entry>, b: seq<Entry>, c: seq<Entry>)
    ensures (a + b) + c == a + (b + c)
  {
  }

  lemma NothingYet(m: Membership, log: seq<Entry>, start: nat)
    requires start <= |log|
    ensures Commands(log, start, start) == [] && MembershipAfter(m, log, start, start) == m
  {
  }

  lemma OneEntryMore(m: Membership, log: seq<Entry>, start: nat, end: nat)
    requires start <= end < |log|
    ensures Commands(log, start, end + 1) == Commands(log, start, end) + Command(log[end])
    ensures MembershipAfter(m, log, start, end + 1) == MembershipWith(MembershipAfter(m, log, start, end), log[end])
  {
    hide Command, MembershipWith;
  }

  lemma AppliedStep(n: Node, id: NodeID, end: nat)
    requires n.applied <= end < n.commit <= |n.log|
    ensures var m, m' := AppliedUpTo(n, id, end), AppliedUpTo(n, id, end + 1);
            && m.applied == end && m'.applied == end + 1
            && m' == if m.role.Leader? && Removes(n.log[end], id) then Dethroned(ApplyNext(m)) else ApplyNext(m)
  {
    hide Removes;
    AppliedTimes(n, end - n.applied);
    AppliedTimes(n, end + 1 - n.applied);
    RemovedStep(n.log, id, n.applied, end);
  }

  /** How a round of applying ends. */
  datatype Round = Applied | Stopped | Published

  /** A configuration entry that does not decode or whose membership can not be saved. */
  predicate Refuses(e: Entry, saved: Membership -> bool) {
    ConfigEntry.IsConfiguration(e.data) && (Reconfigured(e.data).None? || !saved(Reconfigured(e.data).value))
  }

  /** becomeFollowerLocked in the current term. */
  function Dethroned(n: Node): Node {
    n.(role := Follower, votedFor := [], kept := n.kept.(term := n.term, votedFor := []))
  }

  lemma RemovedStep(log: seq<Entry>, id: NodeID, start: nat, end: nat)
    requires start <= end < |log|
    ensures RemovedIn(log, id, start, end + 1) <==> RemovedIn(log, id, start, end) || Removes(log[end], id)
  {
    if RemovedIn(log, id, start, end) {
      var i :| start <= i < end && Removes(log[i], id);
      assert start <= i < end + 1 && Removes(log[i], id);
    }
  }

  /** A snapshot at or past the stored one keeps equal logs equal, compacted or not. */
  lemma SnapshotInStep(n: Node, disk: seq<Entry>, index: nat, compacted: bool)
    requires InStep(n, disk) && MaySnapshot(n, index) && n.kept.boundary <= index
    ensures InStep(RaftStep.Compact(n, index, compacted), if compacted then Above(disk, index) else disk)
  {
    hide Above, Consecutive;
    if compacted {
      AboveInStep(n.log, n.kept.dropped, index);
    }
  }

  lemma AboveInStep(log: seq<Entry>, dropped: nat, index: nat)
    requires Consecutive(log, 1) && dropped <= index <= |log|
    ensures Above(log[dropped..], index) == log[index..]
  {
    hide Above;
    var disk := log[dropped..];
    AboveMeaning(disk, index);
    if disk != [] && index < |log| {
      assert disk[0].index == dropped + 1 && LastOf(disk) == |log|;
      assert disk[index - dropped..] == log[index..];
    }
  }

  /** After a compaction the node can be started again exactly if nothing is left
      behind the snapshot. */
  lemma CompactionStopsRestart(n: Node, disk: seq<Entry>, index: nat)
    requires InStep(n, disk) && MaySnapshot(n, index) && n.kept.boundary <= index
    ensures var n' := RaftStep.Compact(n, index, true);
            InStep(n', Above(disk, index)) && (MayRestart(n') <==> index == |n.log|)
  {
    hide Above;
    SnapshotInStep(n, disk, index, true);
  }

  /** NewRaftNodeWithStorage: rebuild the log from the stored entries and
      snapshot of a node. It succeeds exactly if the storage has dropped nothing,
      or has nothing left, and then gives back the node's log with the stored
      snapshot as its boundary. */
  method Reopen(ghost n: Node, disk: seq<Entry>, snapshotIndex: nat, snapshotTerm: nat) returns (ok: bool, log: Log)
    requires InStep(n, disk) && snapshotIndex == n.kept.boundary && snapshotTerm == LastTerm(n.log[..n.kept.boundary])
    ensures ok <==> MayRestart(n)
    ensures ok ==> log.Valid() && log.plain == n.log && log.lastIncludedIndex == n.kept.boundary
  {
    log := new Log();
    for i := 0 to |disk|
      invariant log.Valid() && log.plain == disk[..i] && log.lastIncludedIndex == 0 && fresh(log)
      invariant i > 0 ==> n.kept.dropped == 0
    {
      assert disk[i] == n.log[n.kept.dropped + i];
      ok := log.Append(disk[i]);
      if !ok {
        return;
      }
      assert disk[..i + 1] == disk[..i] + [disk[i]];
    }
    assert disk[..|disk|] == disk;
    ok := true;
    if snapshotIndex > 0 {
      assert n.kept.dropped == 0 ==> log.plain == n.log;
      ok := log.RestoreSnapshot(snapshotIndex, snapshotTerm, n.log[..n.kept.boundary]);
    }
  }

  lemma BatchBuilt(n: Node, next: nat, entries: seq<Entry>)
    requires |entries| == if next > |n.log| then 0 else |n.log| + 1 - next
    requires forall j | next <= j < next + |entries| :: Readable(n, j) && entries[j - next] == Fetch(n, j)
    ensures next <= |n.log| ==> Readable(n, next)
    ensures entries == Batch(n, next)
  {
    if next <= |n.log| {
      assert Readable(n, next);
      forall k | 0 <= k < |entries| ensures entries[k] == Batch(n, next)[k] {
        assert Readable(n, next + k) && entries[next + k - next] == Fetch(n, next + k);
      }
    }
  }
}
