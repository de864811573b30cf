/** Places where the code does not give the property it is there for: what goes
    wrong, and the exact condition under which it does not. */
module RaftFindings {
  import opened Types
  import opened Wal
  import opened RaftStep
  import opened RaftInvariant
  import opened RaftGrowth
  import opened RaftAccepts
  import opened RaftDurable
  import RaftInduction

  // ---- The commit index a follower takes from a message ----

  /** A follower and a leader's log between which `args` may be delivered. */
  ghost predicate Delivers(args: AppendArgs, n: Node, lead: seq<Entry>) {
    && Consecutive(lead, 1) && Carries(args, lead) && args.leaderCommit <= |lead|
    && Matching(n.log, lead)
    && n.role.Follower? && n.term == args.term && n.base <= n.kept.boundary <= args.prevIndex && PrevMatches(n, args)
    && Holds(n.log, lead, n.commit)
  }

  /** The message never makes a follower commit what is not in the leader's log. */
  ghost predicate SafeToFollow(args: AppendArgs) {
    forall n: Node, lead: seq<Entry> | Delivers(args, n, lead) ::
      var n' := RaftStep.AppendEntries(n, args, true, true).0;
      Holds(n'.log, lead, n'.commit)
  }

  lemma CoveredCommitIsSafe(args: AppendArgs, n: Node, lead: seq<Entry>)
    requires Delivers(args, n, lead) && args.leaderCommit <= Last(args)
    ensures var n' := RaftStep.AppendEntries(n, args, true, true).0; Holds(n'.log, lead, n'.commit)
  {
    hide Matching, Reconcile, FirstNew, Merge, Consecutive;
    ReconcileAccepts(n, args, lead);
    ReconcileMerges(n, args, lead);
    assert n.(role := Follower) == n;
    var n' := RaftStep.AppendEntries(n, args, true, true).0;
    MergeAgrees(n.log, lead, Last(args));
    if args.leaderCommit <= n.commit {
      HoldsSelf(lead, n.commit);
      MergeKeeps(n.log, lead, Last(args), lead, n.commit);
    } else {
      HoldsShorter(n'.log, lead, Last(args), args.leaderCommit);
    }
  }

  lemma HoldsSelf(log: seq<Entry>, i: nat)
    requires i <= |log|
    ensures Holds(log, log, i)
  {
  }

  /** A follower with one stale entry behind what the message covers. */
  function Stale(args: AppendArgs, lead: seq<Entry>): Node
    requires Last(args) < |lead|
  {
    var last := Last(args);
    Node(args.term, [], Follower, lead[..last] + [Entry(last + 1, lead[last].term + 1, [])], 0, 0, 0, {}, map[], map[],
         Kept(args.term, [], 0, 0))
  }

  lemma StaleDelivers(args: AppendArgs, lead: seq<Entry>)
    requires Consecutive(lead, 1) && Carries(args, lead) && Last(args) < args.leaderCommit <= |lead|
    ensures Delivers(args, Stale(args, lead), lead)
  {
    var n, last := Stale(args, lead), Last(args);
    forall i | 1 <= i <= |n.log| && i <= |lead| && n.log[i - 1].term == lead[i - 1].term ensures Holds(n.log, lead, i) {
      assert n.log[..i] == lead[..i];
    }
    assert Matching(n.log, lead);
    assert PrevMatches(n, args);
    assert n.log[..0] == lead[..0];
  }

  lemma StaleCommits(args: AppendArgs, lead: seq<Entry>)
    requires Consecutive(lead, 1) && Carries(args, lead) && Last(args) < args.leaderCommit <= |lead|
    ensures var n' := RaftStep.AppendEntries(Stale(args, lead), args, true, true).0;
            n'.commit == Last(args) + 1 && !Holds(n'.log, lead, n'.commit)
  {
    var n, last := Stale(args, lead), Last(args);
    StaleDelivers(args, lead);
    forall k | 0 <= k < |args.entries| ensures Known(n, args.entries[k]) {
      assert args.entries[k] == lead[args.prevIndex + k] == n.log[args.prevIndex + k];
    }
    assert n.log[last] != lead[last];
    assert n.log[..last + 1][last] != lead[..last + 1][last];
    AllKnown(n, args.entries, 0);
    assert n.(role := Follower) == n;
  }

  lemma {:induction false} AllKnown(n: Node, entries: seq<Entry>, i: nat)
    requires i <= |entries| && forall k | i <= k < |entries| :: Known(n, entries[k])
    ensures FirstNew(n, entries, i) == |entries|
    decreases |entries| - i
  {
    if i < |entries| {
      AllKnown(n, entries, i + 1);
    }
  }

  /** The rule is safe exactly for messages whose entries reach the commit index
      they announce. Messages of buildAppendEntries always do; a probe of
      ReadIndex carries no entries and does not once the commit index is at or
      past the follower's next index. */
  lemma SafeToFollowExactly(args: AppendArgs, lead: seq<Entry>)
    requires Consecutive(lead, 1) && Carries(args, lead) && args.leaderCommit <= |lead|
    ensures SafeToFollow(args) <==> args.leaderCommit <= Last(args)
  {
    if args.leaderCommit <= Last(args) {
      forall n: Node, log: seq<Entry> | Delivers(args, n, log)
        ensures var n' := RaftStep.AppendEntries(n, args, true, true).0; Holds(n'.log, log, n'.commit)
      {
        CoveredCommitIsSafe(args, n, log);
      }
    } else {
      StaleDelivers(args, lead);
      StaleCommits(args, lead);
    }
  }

  // ---- Sending from the boundary ----

  /** A message carries the leader's own entries exactly if it starts above the
      boundary, or the entry at the boundary has no data to lose. */
  lemma BuiltCarriesExactly(site: Site, n: Node, peer: NodeID)
    requires n.base <= |n.log| && Consecutive(n.log, 1) && BuildAppend(site, n, peer).Some?
    ensures Carries(BuildAppend(site, n, peer).value, n.log) <==>
            n.next[peer] > n.base || n.log[n.base - 1].data == []
  {
    var next := n.next[peer];
    var args := BuildAppend(site, n, peer).value;
    if next > n.base {
      RaftInduction.BatchIsTail(n, next);
      assert args.entries == n.log[args.prevIndex..|n.log|];
    } else {
      assert next == 1 == n.base;
      assert args.entries[0] == Fetch(n, 1) == Entry(1, n.log[0].term, []);
      assert n.log[0..|n.log|] == n.log;
      if n.log[0].data == [] {
        forall k | 0 <= k < |n.log| ensures args.entries[k] == n.log[k] {
          assert args.entries[k] == Fetch(n, 1 + k);
        }
        assert args.entries == n.log;
      }
    }
  }

  // ---- Syncs that fail ----

  /** `first` is refused for its sync, `second` is confirmed to the end of the
      log. A restart then brings up a log that agrees with the confirmed one in
      the last entry and not in the one before it. */
  ghost predicate LosesConfirmed(n: Node, disk: seq<Entry>, first: AppendArgs, second: AppendArgs) {
    var (n1, disk1, reply1) := AppendDurably(n, disk, first, true, SyncFails);
    var (n2, disk2, reply2) := AppendDurably(n1, disk1, second, true, Written);
    var reopened := n2.(log := disk2);
    && InStep(n, disk) && n.kept.term == n.term
    && n1 == n && !reply1.success
    && reply2.success && Last(second) == |n2.log|
    && InStep(reopened, disk2) && MayRestart(reopened)
    && |reopened.log| == |n2.log| == 3
    && reopened.log[2] == n2.log[2] && reopened.log[1] != n2.log[1]
  }

  /** A follower whose sync failed while replacing a suffix goes on to confirm a
      batch of the next leader; what it has confirmed is not what its storage holds. */
  lemma FailedSyncLosesConfirmed()
    ensures exists n: Node, disk: seq<Entry>, first: AppendArgs, second: AppendArgs ::
        LosesConfirmed(n, disk, first, second)
  {
    var a, x, y, z := Entry(1, 1, []), Entry(2, 1, []), Entry(2, 2, []), Entry(3, 3, []);
    var n := Node(2, [], Follower, [a, x], 0, 0, 0, {}, map[], map[], Kept(2, [], 0, 0));
    var disk := [a, x];
    var first, second := AppendArgs(2, [1], 1, 1, [y], 0), AppendArgs(3, [1], 2, 1, [z], 0);
    assert n.log[0..] == n.log && InStep(n, disk);
    assert FirstNew(n, [y], 0) == 0 && [y][0..] == [y];
    assert Below(disk, 2) == [a] by {
      BelowMeaning(disk, 2);
    }
    assert ReconcileDisk(n, disk, [y], SyncFails) == [a, y];
    assert AppendDurably(n, disk, first, true, SyncFails) == (n, [a, y], AppendReply(2, false));
    ConfirmedOnTop(n, [a, y], z);
    assert [a, y, z][0..] == [a, y, z] && [a, x] + [z] == [a, x, z] && [a, y] + [z] == [a, y, z];
    assert LosesConfirmed(n, disk, first, second);
  }

  lemma ConfirmedOnTop(n: Node, disk: seq<Entry>, z: Entry)
    requires n.term == 2 && n.role.Follower? && n.base == 0 && n.kept == Kept(2, [], 0, 0) && |n.log| == 2 &&
        n.commit == 0
    requires |disk| == 2 && LastOf(disk) == 2 && z == Entry(3, 3, []) && n.log[1].term == 1
    ensures AppendDurably(n, disk, AppendArgs(3, [1], 2, 1, [z], 0), true, Written) ==
            (AdoptTerm(n, 3).(log := n.log + [z]), disk + [z], AppendReply(3, true))
  {
    var b := AdoptTerm(n, 3);
    assert FirstNew(b, [z], 0) == 0 && [z][0..] == [z];
    assert Takes(b, disk, [z]);
    assert Reconcile(b, [z]) == Some(n.log + [z]);
  }
}
