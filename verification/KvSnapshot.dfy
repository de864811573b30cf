/** Snapshots of the state machine: what makes one acceptable, what restoring it
    gives back, and replay from one (internal/kv/store_snapshot.go, applier.go). */
module KvSnapshot {
  import opened Types
  import opened KvState
  import KvHistory

  /** The decoded form of a snapshot; its JSON text is not modelled. */
  datatype Image = Image(
    version: nat,
    data: map<Text, seq<byte>>,
    locks: map<Text, Lock>,
    nextToken: nat,
    fenced: map<Text, Fenced>,
    jobs: map<Text, Job>)

  const VERSION := 1

  function ImageOf(s: State): Image {
    Image(VERSION, s.data, s.locks, s.nextToken, s.fenced, s.jobs)
  }

  predicate ValidLock(key: Text, l: Lock, nextToken: nat) {
    key != [] && l.key == key && l.owner != [] && 1 <= l.token <= nextToken
  }

  /** validateActiveJobOwnership. */
  predicate ValidOwnership(job: Job, locks: map<Text, Lock>) {
    && job.worker != [] && job.token != 0
    && job.id in locks && locks[job.id].owner == job.worker && locks[job.id].token == job.token
  }

  predicate ValidJob(id: Text, job: Job, locks: map<Text, Lock>) {
    && id != [] && job.id == id
    && (job.state.Pending? ==> job.worker == [] && job.token == 0)
    && (Active(job) ==> ValidOwnership(job, locks))
  }

  /** validateSnapshotState. */
  predicate Valid(image: Image) {
    && (forall key | key in image.locks :: ValidLock(key, image.locks[key], image.nextToken))
    && (forall id | id in image.jobs :: ValidJob(id, image.jobs[id], image.locks))
  }

  /** Restore, for a versioned snapshot. */
  function Restore(image: Image): Option<State> {
    if image.version != VERSION || !Valid(image) then None
    else Some(State(image.data, image.locks, image.nextToken, image.fenced, image.jobs))
  }

  /** A lock that no state machine would have recorded. */
  predicate LockDefect(image: Image, key: Text)
    requires key in image.locks
  {
    var l := image.locks[key];
    key == [] || l.key != key || l.owner == [] || l.token == 0 || l.token > image.nextToken
  }

  /** A job that no state machine would have recorded: a pending one that someone
      holds, or one under way without its worker's lock. */
  predicate JobDefect(image: Image, id: Text)
    requires id in image.jobs
  {
    var job := image.jobs[id];
    id == [] || job.id != id ||
    match job.state
    case Pending => job.worker != [] || job.token != 0
    case Succeeded => false
    case Failed => false
    case _ => job.worker == [] || job.token == 0 || id !in image.locks || image.locks[id].owner != job.worker ||
              image.locks[id].token != job.token
  }

  /** A snapshot is refused exactly for another version or for such a defect. */
  lemma RefusedExactly(image: Image)
    ensures Restore(image) == None <==>
            || image.version != 1
            || (exists key :: key in image.locks && LockDefect(image, key))
            || (exists id :: id in image.jobs && JobDefect(image, id))
  {
    if Restore(image) == None && image.version == 1 {
      if key :| key in image.locks && !ValidLock(key, image.locks[key], image.nextToken) {
        assert LockDefect(image, key);
      } else {
        var id :| id in image.jobs && !ValidJob(id, image.jobs[id], image.locks);
        assert JobDefect(image, id);
      }
    }
  }

  // ---- When states stay valid ----

  /** LOCK_EXPIRE with the current token of an active job's own lock. */
  predicate BreaksLease(s: State, c: Command) {
    && c.LockExpire? && c.key != [] && c.token != 0
    && c.key in s.jobs && Active(s.jobs[c.key])
    && c.key in s.locks && s.locks[c.key].token == c.token
  }

  lemma LocksStayValid(s: State, c: Command, index: nat)
    requires Valid(ImageOf(s))
    ensures var s' := Apply(s, c, index).state;
            forall key | key in s'.locks :: ValidLock(key, s'.locks[key], s'.nextToken)
  {
    hide Apply;
    LocksChange(s, c, index);
  }

  lemma ValidAt(s: State, id: Text)
    requires Valid(ImageOf(s))
    ensures id in s.jobs ==> ValidJob(id, s.jobs[id], s.locks)
    ensures id in s.locks ==> ValidLock(id, s.locks[id], s.nextToken)
  {
  }

  lemma JobsStayValid(s: State, c: Command, index: nat, id: Text)
    requires Valid(ImageOf(s)) && !BreaksLease(s, c) && id in Apply(s, c, index).state.jobs
    ensures ValidJob(id, Apply(s, c, index).state.jobs[id], Apply(s, c, index).state.locks)
  {
    hide Digits, Valid;
    ValidAt(s, id);
  }

  /** A command takes a valid state to a valid state exactly if it does not
      expire the lock under an active job. */
  lemma StaysValidExactly(s: State, c: Command, index: nat)
    requires Valid(ImageOf(s))
    ensures Valid(ImageOf(Apply(s, c, index).state)) <==> !BreaksLease(s, c)
  {
    hide Apply, ValidJob, ValidLock, BreaksLease;
    if BreaksLease(s, c) {
      LeaseBroken(s, c, index);
    } else {
      LocksStayValid(s, c, index);
      forall id | id in Apply(s, c, index).state.jobs
        ensures ValidJob(id, Apply(s, c, index).state.jobs[id], Apply(s, c, index).state.locks)
      {
        JobsStayValid(s, c, index, id);
      }
    }
  }

  lemma LeaseBroken(s: State, c: Command, index: nat)
    requires Valid(ImageOf(s)) && BreaksLease(s, c)
    ensures !Valid(ImageOf(Apply(s, c, index).state))
  {
    var s' := Apply(s, c, index).state;
    assert ValidJob(c.key, s.jobs[c.key], s.locks);
    assert s'.jobs[c.key] == s.jobs[c.key] && c.key !in s'.locks;
    assert !ValidJob(c.key, s'.jobs[c.key], s'.locks);
  }

  /** No command of the log expires a lock under an active job. */
  ghost predicate KeepsLeases(cs: seq<KvHistory.Logged>) {
    cs != [] ==> KeepsLeases(cs[..|cs| - 1]) && !BreaksLease(KvHistory.Run(cs[..|cs| - 1]).state, cs[|cs| - 1].command)
  }

  /** Validity over every log that keeps leases. */
  lemma {:induction false} RunStaysValid(cs: seq<KvHistory.Logged>)
    requires KeepsLeases(cs)
    ensures Valid(ImageOf(KvHistory.Run(cs).state))
  {
    hide Valid, BreaksLease;
    if cs == [] {
      EmptyValid();
    } else {
      RunStaysValid(cs[..|cs| - 1]);
      StaysValidExactly(KvHistory.Run(cs[..|cs| - 1]).state, cs[|cs| - 1].command, cs[|cs| - 1].index);
    }
  }

  lemma EmptyValid()
    ensures Valid(ImageOf(EMPTY))
  {
  }

  // ---- A broken lease is final ----

  /** An active job whose token is no longer that of its lock. */
  predicate Stranded(s: State, id: Text) {
    && id in s.jobs && Active(s.jobs[id]) && 1 <= s.jobs[id].token <= s.nextToken
    && (id in s.locks ==> s.locks[id].token != s.jobs[id].token)
  }

  lemma StrandedStays(s: State, c: Command, index: nat, id: Text)
    requires Stranded(s, id)
    ensures Stranded(Apply(s, c, index).state, id) && Apply(s, c, index).state.jobs[id] == s.jobs[id]
  {
    hide Digits;
  }

  function ApplyAll(s: State, cs: seq<KvHistory.Logged>): State
    decreases |cs|
  {
    if cs == [] then s else ApplyAll(Apply(s, cs[0].command, cs[0].index).state, cs[1..])
  }

  /** A job stranded in this way stays as it is whatever commands follow: it is
      never started, finished, reclaimed or claimed again. */
  lemma {:induction false} StrandedForever(s: State, cs: seq<KvHistory.Logged>, id: Text)
    requires Stranded(s, id)
    ensures id in ApplyAll(s, cs).jobs && ApplyAll(s, cs).jobs[id] == s.jobs[id]
    decreases |cs|
  {
    hide Stranded, Apply;
    StrandedJob(s, id);
    if cs != [] {
      StrandedStays(s, cs[0].command, cs[0].index, id);
      StrandedForever(Apply(s, cs[0].command, cs[0].index).state, cs[1..], id);
    }
  }

  lemma StrandedJob(s: State, id: Text)
    requires Stranded(s, id)
    ensures id in s.jobs
  {
  }

  /** An active job can be reclaimed, at some time, exactly if it is not stranded;
      in a valid state every one can. */
  lemma ReclaimableExactly(s: State, id: Text)
    requires id in s.jobs && Active(s.jobs[id]) && id != [] && 1 <= s.jobs[id].token <= s.nextToken
    ensures (exists at: int :: Apply(s, ReclaimJob(id, s.jobs[id].token, at), 0).error == None) <==> !Stranded(s, id)
    ensures Valid(ImageOf(s)) ==> !Stranded(s, id)
  {
    if !Stranded(s, id) {
      var at := if s.locks[id].expiresAt > 1 then s.locks[id].expiresAt else 1;
      assert Apply(s, ReclaimJob(id, s.jobs[id].token, at), 0).error == None;
    }
    if Valid(ImageOf(s)) {
      assert ValidJob(id, s.jobs[id], s.locks);
    }
  }

  /** Expiring the lock under an active job is what strands it. */
  lemma ExpiringStrands(s: State, c: Command, index: nat)
    requires Valid(ImageOf(s)) && BreaksLease(s, c)
    ensures Stranded(Apply(s, c, index).state, c.key)
  {
    assert ValidJob(c.key, s.jobs[c.key], s.locks);
    assert ValidLock(c.key, s.locks[c.key], s.nextToken);
  }
}
