/** The store object and the applier around it (internal/kv/store.go and its
    companions, applier.go): methods that change the maps in place, proved to do
    what KvState and KvSnapshot say. */
module KvStore {
  import opened Types
  import opened KvState
  import opened KvRules
  import opened KvSnapshot
  import KvHistory

  class Store {
    var data: map<Text, seq<byte>>
    var locks: map<Text, Lock>
    var nextToken: nat
    var fenced: map<Text, Fenced>
    var jobs: map<Text, Job>

    function View(): State
      reads this
    {
      State(data, locks, nextToken, fenced, jobs)
    }

    constructor ()
      ensures View() == EMPTY
    {
      data, locks, nextToken, fenced, jobs := map[], map[], 0, map[], map[];
    }

    /** State.Acquire. */
    method AcquireIn(key: Text, owner: Text, expiresAt: int, index: nat) returns (current: Lock, acquired: bool)
      modifies this`locks, this`nextToken
      ensures View() == Acquire(old(View()), key, owner, expiresAt, index)
      ensures acquired == (key !in old(locks)) && key in locks && current == locks[key]
    {
      if key in locks {
        return locks[key], false;
      }
      nextToken := nextToken + 1;
      current := Lock(key, owner, nextToken, expiresAt, index);
      locks := locks[key := current];
      return current, true;
    }

    method AcquireLock(key: Text, owner: Text, expiresAt: int, index: nat) returns (error: Option<Error>)
      modifies this`locks, this`nextToken
      ensures Outcome(View(), error) == KvState.AcquireLock(old(View()), key, owner, expiresAt, index)
    {
      if key == [] {
        return Some(InvalidKey);
      }
      if owner == [] {
        return Some(InvalidOwner);
      }
      var current, acquired := AcquireIn(key, owner, expiresAt, index);
      return None;
    }

    method ExpireLock(key: Text, token: nat) returns (error: Option<Error>)
      modifies this`locks
      ensures Outcome(View(), error) == KvState.ExpireLock(old(View()), key, token)
    {
      if key == [] {
        return Some(InvalidKey);
      }
      if token == 0 {
        return Some(InvalidToken);
      }
      if key in locks && locks[key].token == token {
        locks := locks - {key};
      }
      return None;
    }

    method FencedPut(key: Text, value: seq<byte>, token: nat) returns (error: Option<Error>)
      modifies this`fenced
      ensures Outcome(View(), error) == PutFenced(old(View()), key, value, token)
      ensures error == None <==> key != [] && token != 0 && key in locks && locks[key].token == token
    {
      if key == [] {
        return Some(InvalidKey);
      }
      if token == 0 {
        return Some(StaleToken);
      }
      if key !in locks {
        return Some(LockNotFound);
      }
      if locks[key].token != token {
        return Some(StaleToken);
      }
      fenced := fenced[key := Fenced(value, token)];
      return None;
    }

    method CreateJob(job: Job) returns (error: Option<Error>)
      modifies this`jobs
      ensures Outcome(View(), error) == AddJob(old(View()), job)
    {
      if job.id == [] {
        return Some(InvalidJob);
      }
      if job.id in jobs {
        return Some(JobExists);
      }
      jobs := jobs[job.id := job];
      return None;
    }

    method ClaimJob(id: Text, worker: Text, expiresAt: int, index: nat) returns (error: Option<Error>)
      modifies this`locks, this`nextToken, this`jobs
      ensures Outcome(View(), error) == Claim(old(View()), id, worker, expiresAt, index)
    {
      if id == [] || worker == [] || expiresAt <= 0 {
        return Some(InvalidJob);
      }
      if id !in jobs {
        return Some(JobNotFound);
      }
      var job := jobs[id];
      if job.state.Scheduled? {
        return if job.worker == worker then None else Some(AlreadyClaimed);
      }
      if !job.state.Pending? {
        return Some(NotClaimable);
      }
      var current, acquired := AcquireIn(id, worker, expiresAt, index);
      if !acquired {
        if current.owner != worker {
          return Some(AlreadyClaimed);
        }
        jobs := jobs[id := job.(state := Scheduled, worker := worker, token := current.token)];
        return None;
      }
      var attempt := NextAttempt(job.attempt);
      job := job.(state := Scheduled, worker := worker, token := current.token,
                  attempt := attempt, executionId := ExecutionId(job.id, attempt));
      jobs := jobs[id := job];
      return None;
    }

    method ReclaimExpiredJob(id: Text, token: nat, at: int) returns (error: Option<Error>)
      modifies this`locks, this`jobs
      ensures Outcome(View(), error) == Reclaim(old(View()), id, token, at)
      ensures error == None <==> Reclaims(old(View()), ReclaimJob(id, token, at), id)
    {
      if id == [] || token == 0 || at <= 0 {
        return Some(InvalidJob);
      }
      if id !in jobs {
        return Some(JobNotFound);
      }
      var job := jobs[id];
      if !Active(job) {
        return Some(InvalidJobState);
      }
      if job.token != token || id !in locks || locks[id].token != token || locks[id].expiresAt > at {
        return Some(OwnershipLost);
      }
      locks := locks - {id};
      jobs := jobs[id := job.(state := Pending, worker := [], token := 0)];
      return None;
    }

    method TransitionJobState(c: Command) returns (error: Option<Error>)
      requires c.TransitJob?
      modifies this`jobs
      ensures Outcome(View(), error) == Transit(old(View()), c)
      ensures error == None <==> Transits(old(View()), c, c.id)
    {
      if c.id == [] || c.worker == [] || c.executionId == [] || c.token == 0 || c.at <= 0 {
        return Some(InvalidJob);
      }
      if c.id !in jobs {
        return Some(JobNotFound);
      }
      var job := jobs[c.id];
      if job.state != Expecting(c.kind) {
        return Some(InvalidJobState);
      }
      if !Owns(View(), job, c) {
        return Some(OwnershipLost);
      }
      jobs := jobs[c.id := job.(state := Reaching(c.kind))];
      return None;
    }

    /** applyCommand. */
    method ApplyCommand(c: Command, index: nat) returns (error: Option<Error>)
      modifies this
      ensures Outcome(View(), error) == Apply(old(View()), c, index)
    {
      match c
      case Put(key, value) =>
        data := data[key := value];
        return None;
      case Delete(key) =>
        data := data - {key};
        return None;
      case ReadBarrier => return None;
      case LockAcquire(key, owner, expiresAt) => error := AcquireLock(key, owner, expiresAt, index);
      case LockExpire(key, token) => error := ExpireLock(key, token);
      case FencedPut(key, value, token) => error := FencedPut(key, value, token);
      case CreateJob(id, payload, scheduledAt) =>
        error := CreateJob(Job(id, payload, Pending, scheduledAt, [], 0, 0, [], index));
      case ClaimJob(id, worker, expiresAt) => error := ClaimJob(id, worker, expiresAt, index);
      case ReclaimJob(id, token, at) => error := ReclaimExpiredJob(id, token, at);
      case TransitJob(_, _, _, _, _, _) => error := TransitionJobState(c);
      case Foreign => return Some(Unknown);
      case Garbage => return Some(Malformed);
    }

    method TakeSnapshot() returns (image: Image)
      ensures image == ImageOf(View())
    {
      return Image(VERSION, data, locks, nextToken, fenced, jobs);
    }

    /** Restore: all fields or none. */
    method RestoreFrom(image: Image) returns (ok: bool)
      modifies this
      ensures ok == Restore(image).Some?
      ensures View() == if ok then Restore(image).value else old(View())
    {
      if image.version != VERSION {
        return false;
      }
      ok := ValidateImage(image);
      if ok {
        data, locks, nextToken, fenced, jobs := image.data, image.locks, image.nextToken, image.fenced, image.jobs;
      }
    }
  }

  /** The two loops of validateSnapshotState, in whatever order the maps are walked. */
  method ValidateImage(image: Image) returns (ok: bool)
    ensures ok == Valid(image)
  {
    var keys := image.locks.Keys;
    while keys != {}
      invariant keys <= image.locks.Keys
      invariant forall key | key in image.locks && key !in keys :: ValidLock(key, image.locks[key], image.nextToken)
      decreases |keys|
    {
      var key :| key in keys;
      if !ValidLock(key, image.locks[key], image.nextToken) {
        return false;
      }
      keys := keys - {key};
    }
    var ids := image.jobs.Keys;
    while ids != {}
      invariant ids <= image.jobs.Keys
      invariant forall id | id in image.jobs && id !in ids :: ValidJob(id, image.jobs[id], image.locks)
      decreases |ids|
    {
      var id :| id in ids;
      if !ValidJob(id, image.jobs[id], image.locks) {
        return false;
      }
      ids := ids - {id};
    }
    return true;
  }

  // ---- The applier ----

  /** The state machine, the index it stands for, and whether an unexpected error has stopped it. */
  datatype Applied = Applied(state: State, lastApplied: nat, halted: bool)

  const START := Applied(EMPTY, 0, false)

  /** One entry from the apply channel; a stopped applier takes none. */
  function Take(decode: seq<byte> -> Command, a: Applied, e: Entry): Applied {
    if a.halted then a
    else
      var r := Apply(a.state, decode(e.data), e.index);
      Applied(r.state, if e.index > a.lastApplied then e.index else a.lastApplied,
              r.error.Some? && !Expected(r.error.value))
  }

  function TakeAll(decode: seq<byte> -> Command, a: Applied, es: seq<Entry>): Applied
    decreases |es|
  {
    if es == [] then a else TakeAll(decode, Take(decode, a, es[0]), es[1..])
  }

  lemma {:induction false} TakeAppend(decode: seq<byte> -> Command, a: Applied, p: seq<Entry>, q: seq<Entry>)
    ensures TakeAll(decode, a, p + q) == TakeAll(decode, TakeAll(decode, a, p), q)
    decreases |p|
  {
    hide Take;
    if p == [] {
      assert p + q == q;
    } else {
      assert (p + q)[1..] == p[1..] + q;
      TakeAppend(decode, Take(decode, a, p[0]), p[1..], q);
    }
  }

  lemma {:induction false} HaltedForever(decode: seq<byte> -> Command, a: Applied, es: seq<Entry>)
    requires a.halted
    ensures TakeAll(decode, a, es) == a
    decreases |es|
  {
    if es != [] {
      HaltedForever(decode, a, es[1..]);
    }
  }

  /** Indices of the entries sent to the applier rise. */
  predicate Rising(es: seq<Entry>, above: nat) {
    es == [] || (es[0].index > above && Rising(es[1..], es[0].index))
  }

  /** Taking entries with rising indices ends stopped or at the last index. */
  lemma {:induction false} TakenFurther(decode: seq<byte> -> Command, a: Applied, es: seq<Entry>)
    requires Rising(es, a.lastApplied) && !a.halted
    ensures var b := TakeAll(decode, a, es);
            a.lastApplied <= b.lastApplied && (b.halted ==> a.lastApplied < b.lastApplied)
    decreases |es|
  {
    hide Apply;
    if es != [] {
      var b := Take(decode, a, es[0]);
      if b.halted {
        HaltedForever(decode, b, es[1..]);
      } else {
        TakenFurther(decode, b, es[1..]);
      }
    }
  }

  predicate FirstSenseless(decode: seq<byte> -> Command, es: seq<Entry>, i: nat)
    requires i < |es|
  {
    Senseless(decode(es[i].data)) && forall j | 0 <= j < i :: !Senseless(decode(es[j].data))
  }

  /** The applier stops exactly if some entry is a senseless command, at the first
      of them, whatever the state is: all replicas stop at the same entry. */
  lemma {:induction false} HaltsExactly(decode: seq<byte> -> Command, a: Applied, es: seq<Entry>)
    requires !a.halted && Rising(es, a.lastApplied)
    ensures TakeAll(decode, a, es).halted <==> exists i :: 0 <= i < |es| && Senseless(decode(es[i].data))
    ensures TakeAll(decode, a, es).halted ==>
            exists i ::
              0 <= i < |es| && FirstSenseless(decode, es, i) && TakeAll(decode, a, es).lastApplied == es[i].index
    ensures !TakeAll(decode, a, es).halted ==>
            TakeAll(decode, a, es).lastApplied == if es == [] then a.lastApplied else es[|es| - 1].index
    decreases |es|
  {
    hide Apply, Senseless;
    if es != [] {
      StopsExactly(a.state, decode(es[0].data), es[0].index);
      var b, rest := Take(decode, a, es[0]), es[1..];
      if b.halted {
        HaltedForever(decode, b, rest);
        assert FirstSenseless(decode, es, 0);
      } else {
        HaltsExactly(decode, b, rest);
        if TakeAll(decode, b, rest).halted {
          var i :| 0 <= i < |rest| && FirstSenseless(decode, rest, i) &&
                   TakeAll(decode, b, rest).lastApplied == rest[i].index;
          assert es[i + 1] == rest[i];
          forall j | 0 <= j < i + 1 ensures !Senseless(decode(es[j].data)) {
            if j > 0 {
              assert es[j] == rest[j - 1];
            }
          }
          assert FirstSenseless(decode, es, i + 1);
        }
        if i: nat :| i < |es| && Senseless(decode(es[i].data)) {
          assert rest[i - 1] == es[i];
        }
      }
    }
  }

  /** RestoreSnapshot of a snapshot that stands for `index`. */
  function RestoreAt(image: Image, index: nat): Option<Applied> {
    match Restore(image)
    case None => None
    case Some(s) => Some(Applied(s, index, false))
  }

  /** Snapshot plus suffix equals full replay: restoring what Snapshot returned
      after some entries and taking the rest ends exactly where taking all of
      them ends, if and only if those first entries had not stopped the applier.
      The snapshot has to pass validation (see KvSnapshot.RunStaysValid). */
  lemma SnapshotPlusSuffix(decode: seq<byte> -> Command, head: seq<Entry>, rest: seq<Entry>)
    requires Valid(ImageOf(TakeAll(decode, START, head).state))
    requires Rising(rest, TakeAll(decode, START, head).lastApplied)
    ensures var a := TakeAll(decode, START, head);
            var b := RestoreAt(ImageOf(a.state), a.lastApplied);
            && b.Some?
            && (TakeAll(decode, b.value, rest) == TakeAll(decode, START, head + rest) <==> !a.halted)
  {
    hide Take, Valid;
    var a := TakeAll(decode, START, head);
    TakeAppend(decode, START, head, rest);
    if a.halted {
      HaltedForever(decode, a, rest);
      TakenFurther(decode, a.(halted := false), rest);
    }
  }

  /** The applier's log as a log of commands. */
  function Commands(decode: seq<byte> -> Command, es: seq<Entry>): seq<KvHistory.Logged> {
    if es == [] then []
    else Commands(decode, es[..|es| - 1]) + [KvHistory.Logged(decode(es[|es| - 1].data), es[|es| - 1].index)]
  }

  lemma TakeLast(decode: seq<byte> -> Command, es: seq<Entry>)
    requires es != []
    ensures TakeAll(decode, START, es) == Take(decode, TakeAll(decode, START, es[..|es| - 1]), es[|es| - 1])
  {
    hide Take;
    assert es == es[..|es| - 1] + [es[|es| - 1]];
    TakeAppend(decode, START, es[..|es| - 1], [es[|es| - 1]]);
  }

  /** An applier that was not stopped has run the whole log of commands, so all
      that is proved of logs of commands holds of it. */
  lemma {:induction false} AppliedRun(decode: seq<byte> -> Command, es: seq<Entry>)
    requires !TakeAll(decode, START, es).halted
    ensures TakeAll(decode, START, es).state == KvHistory.Run(Commands(decode, es)).state
  {
    if es != [] {
      TakeLast(decode, es);
      AppliedRun(decode, es[..|es| - 1]);
      var cs := Commands(decode, es);
      assert cs[..|cs| - 1] == Commands(decode, es[..|es| - 1]);
    }
  }

  /** Put together: for every log that never expires the lock under an active
      job, a snapshot taken anywhere along it can be restored, and with the rest
      of the log gives the state of the whole log. */
  lemma ReplayFromAnySnapshot(decode: seq<byte> -> Command, head: seq<Entry>, rest: seq<Entry>)
    requires !TakeAll(decode, START, head).halted && KeepsLeases(Commands(decode, head))
    requires Rising(rest, TakeAll(decode, START, head).lastApplied)
    ensures var a := TakeAll(decode, START, head);
            var b := RestoreAt(ImageOf(a.state), a.lastApplied);
            b.Some? && TakeAll(decode, b.value, rest) == TakeAll(decode, START, head + rest)
  {
    AppliedRun(decode, head);
    RunStaysValid(Commands(decode, head));
    SnapshotPlusSuffix(decode, head, rest);
  }

  class Applier {
    const decode: seq<byte> -> Command
    const store: Store
    var lastApplied: nat
    var halted: bool

    function View(): Applied
      reads this, store
    {
      Applied(store.View(), lastApplied, halted)
    }

    constructor (decode: seq<byte> -> Command)
      ensures this.decode == decode && View() == START && fresh(store)
    {
      this.decode := decode;
      store := new Store();
      lastApplied, halted := 0, false;
    }

    /** Run: entry by entry until one is refused for an unexpected reason. */
    method Run(entries: seq<Entry>)
      modifies this, store
      ensures View() == TakeAll(decode, old(View()), entries)
    {
      hide Apply;
      var i := 0;
      while i < |entries| && !halted
        invariant i <= |entries|
        invariant TakeAll(decode, View(), entries[i..]) == TakeAll(decode, old(View()), entries)
      {
        var entry := entries[i];
        assert entries[i..][1..] == entries[i + 1..];
        var error := store.ApplyCommand(decode(entry.data), entry.index);
        if entry.index > lastApplied {
          lastApplied := entry.index;
        }
        halted := error.Some? && !Expected(error.value);
        i := i + 1;
      }
      if halted {
        HaltedForever(decode, View(), entries[i..]);
      }
    }

    /** Snapshot: the state and the index it stands for, read together. */
    method TakeSnapshot() returns (image: Image, index: nat)
      ensures image == ImageOf(View().state) && index == View().lastApplied
    {
      image := store.TakeSnapshot();
      index := lastApplied;
    }

    method RestoreSnapshot(image: Image, index: nat) returns (ok: bool)
      modifies this, store
      ensures ok == RestoreAt(image, index).Some?
      ensures View() == if ok then RestoreAt(image, index).value else old(View())
    {
      ok := store.RestoreFrom(image);
      if ok {
        lastApplied, halted := index, false;
      }
    }
  }
}
