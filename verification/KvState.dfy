/** The replicated state machine: locks with fencing tokens, fenced values and
    jobs, and what each command does to them (internal/lock/types.go,
    internal/kv/apply.go, store_lock.go, store_fenced.go, jobs_crud.go,
    jobs_lifecycle.go). Fencing tokens are unbounded naturals. */
module KvState {
  import opened Types

  /** A Go string. */
  type Text = seq<byte>

  datatype Lock = Lock(key: Text, owner: Text, token: nat, expiresAt: int, grantIndex: nat)

  datatype Fenced = Fenced(value: seq<byte>, token: nat)

  datatype JobState = Pending | Scheduled | Running | Succeeded | Failed

  datatype Job = Job(
    id: Text,
    payload: seq<byte>,
    state: JobState,
    scheduledAt: int,
    worker: Text,
    token: nat,
    attempt: nat,
    executionId: Text,
    createdIndex: nat)

  datatype State = State(
    data: map<Text, seq<byte>>,
    locks: map<Text, Lock>,
    nextToken: nat,
    fenced: map<Text, Fenced>,
    jobs: map<Text, Job>)

  const EMPTY := State(map[], map[], 0, map[], map[])

  datatype Error =
    | InvalidKey | InvalidOwner | InvalidToken | Unknown | Malformed
    | StaleToken | LockNotFound
    | JobNotFound | InvalidJob | JobExists | NotClaimable | AlreadyClaimed | InvalidJobState | OwnershipLost

  /** The errors that a running applier takes in its stride. */
  predicate Expected(e: Error) {
    !(e.InvalidKey? || e.InvalidOwner? || e.InvalidToken? || e.Unknown? || e.Malformed?)
  }

  /** The commands of the log; `Foreign` is one of unknown type, `Garbage` one that does not decode. */
  datatype Command =
    | Put(key: Text, value: seq<byte>)
    | Delete(key: Text)
    | ReadBarrier
    | LockAcquire(key: Text, owner: Text, expiresAt: int)
    | LockExpire(key: Text, token: nat)
    | FencedPut(key: Text, value: seq<byte>, token: nat)
    | CreateJob(id: Text, payload: seq<byte>, scheduledAt: int)
    | ClaimJob(id: Text, worker: Text, expiresAt: int)
    | ReclaimJob(id: Text, token: nat, at: int)
    | TransitJob(id: Text, worker: Text, executionId: Text, token: nat, kind: Transition, at: int)
    | Foreign
    | Garbage

  datatype Transition = Start | Succeed | Fail

  /** A state and, when the command was refused, why. */
  datatype Outcome = Outcome(state: State, error: Option<Error>)

  function Done(s: State): Outcome {
    Outcome(s, None)
  }

  function Refused(s: State, e: Error): Outcome {
    Outcome(s, Some(e))
  }

  // ---- Locks ----

  function Acquire(s: State, key: Text, owner: Text, expiresAt: int, index: nat): State {
    if key in s.locks then s
    else s.(locks := s.locks[key := Lock(key, owner, s.nextToken + 1, expiresAt, index)], nextToken := s.nextToken + 1)
  }

  function Expire(s: State, key: Text, token: nat): State {
    if key in s.locks && s.locks[key].token == token then s.(locks := s.locks - {key}) else s
  }

  function AcquireLock(s: State, key: Text, owner: Text, expiresAt: int, index: nat): Outcome {
    if key == [] then Refused(s, InvalidKey)
    else if owner == [] then Refused(s, InvalidOwner)
    else Done(Acquire(s, key, owner, expiresAt, index))
  }

  function ExpireLock(s: State, key: Text, token: nat): Outcome {
    if key == [] then Refused(s, InvalidKey)
    else if token == 0 then Refused(s, InvalidToken)
    else Done(Expire(s, key, token))
  }

  function PutFenced(s: State, key: Text, value: seq<byte>, token: nat): Outcome {
    if key == [] then Refused(s, InvalidKey)
    else if token == 0 then Refused(s, StaleToken)
    else if key !in s.locks then Refused(s, LockNotFound)
    else if s.locks[key].token != token then Refused(s, StaleToken)
    else Done(s.(fenced := s.fenced[key := Fenced(value, token)]))
  }

  // ---- Jobs ----

  function AddJob(s: State, job: Job): Outcome {
    if job.id == [] then Refused(s, InvalidJob)
    else if job.id in s.jobs then Refused(s, JobExists)
    else Done(s.(jobs := s.jobs[job.id := job]))
  }

  /** Decimal digits, as "%d" prints them. */
  function Digits(n: nat): Text {
    if n < 10 then [48 + n] else Digits(n / 10) + [48 + n % 10]
  }

  function ExecutionId(id: Text, attempt: nat): Text {
    id + [47] + Digits(attempt)
  }

  /** The attempt counter has 32 bits. */
  function NextAttempt(attempt: nat): nat {
    (attempt + 1) % 0x1_0000_0000
  }

  function Claim(s: State, id: Text, worker: Text, expiresAt: int, index: nat): Outcome {
    if id == [] || worker == [] || expiresAt <= 0 then Refused(s, InvalidJob)
    else if id !in s.jobs then Refused(s, JobNotFound)
    else
      var job := s.jobs[id];
      if job.state.Scheduled? then
        if job.worker == worker then Done(s) else Refused(s, AlreadyClaimed)
      else if !job.state.Pending? then Refused(s, NotClaimable)
      else if id in s.locks then
        if s.locks[id].owner == worker then
          Done(s.(jobs := s.jobs[id := job.(state := Scheduled, worker := worker, token := s.locks[id].token)]))
        else Refused(s, AlreadyClaimed)
      else
        var s' := Acquire(s, id, worker, expiresAt, index);
        var attempt := NextAttempt(job.attempt);
        Done(s'.(jobs := s.jobs[id := job.(state := Scheduled, worker := worker, token := s'.nextToken,
                                           attempt := attempt, executionId := ExecutionId(job.id, attempt))]))
  }

  predicate Active(job: Job) {
    job.state.Scheduled? || job.state.Running?
  }

  predicate Terminal(job: Job) {
    job.state.Succeeded? || job.state.Failed?
  }

  function Reclaim(s: State, id: Text, token: nat, at: int): Outcome {
    if id == [] || token == 0 || at <= 0 then Refused(s, InvalidJob)
    else if id !in s.jobs then Refused(s, JobNotFound)
    else
      var job := s.jobs[id];
      if !Active(job) then Refused(s, InvalidJobState)
      else if job.token != token || id !in s.locks || s.locks[id].token != token || s.locks[id].expiresAt > at then
        Refused(s, OwnershipLost)
      else
        Done(s.(locks := s.locks - {id}, jobs := s.jobs[id := job.(state := Pending, worker := [], token := 0)]))
  }

  /** jobTransitionStates. */
  function Expecting(kind: Transition): JobState {
    if kind.Start? then Scheduled else Running
  }

  function Reaching(kind: Transition): JobState {
    match kind
    case Start => Running
    case Succeed => Succeeded
    case Fail => Failed
  }

  /** validateTransitionOwnership, after the job's state has been checked. */
  predicate Owns(s: State, job: Job, c: Command)
    requires c.TransitJob?
  {
    && job.worker == c.worker && job.executionId == c.executionId && job.token == c.token
    && c.id in s.locks && s.locks[c.id].owner == c.worker && s.locks[c.id].token == c.token
    && s.locks[c.id].expiresAt > c.at
  }

  function Transit(s: State, c: Command): Outcome
    requires c.TransitJob?
  {
    if c.id == [] || c.worker == [] || c.executionId == [] || c.token == 0 || c.at <= 0 then Refused(s, InvalidJob)
    else if c.id !in s.jobs then Refused(s, JobNotFound)
    else
      var job := s.jobs[c.id];
      if job.state != Expecting(c.kind) then Refused(s, InvalidJobState)
      else if !Owns(s, job, c) then Refused(s, OwnershipLost)
      else Done(s.(jobs := s.jobs[c.id := job.(state := Reaching(c.kind))]))
  }

  // ---- Dispatch ----

  /** applyCommand, for the log entry at `index`. */
  function Apply(s: State, c: Command, index: nat): Outcome {
    match c
    case Put(key, value) => Done(s.(data := s.data[key := value]))
    case Delete(key) => Done(s.(data := s.data - {key}))
    case ReadBarrier => Done(s)
    case LockAcquire(key, owner, expiresAt) => AcquireLock(s, key, owner, expiresAt, index)
    case LockExpire(key, token) => ExpireLock(s, key, token)
    case FencedPut(key, value, token) => PutFenced(s, key, value, token)
    case CreateJob(id, payload, scheduledAt) => AddJob(s, Job(id, payload, Pending, scheduledAt, [], 0, 0, [], index))
    case ClaimJob(id, worker, expiresAt) => Claim(s, id, worker, expiresAt, index)
    case ReclaimJob(id, token, at) => Reclaim(s, id, token, at)
    case TransitJob(_, _, _, _, _, _) => Transit(s, c)
    case Foreign => Refused(s, Unknown)
    case Garbage => Refused(s, Malformed)
  }

  /** A refused command changes nothing. */
  lemma RefusedKeeps(s: State, c: Command, index: nat)
    requires Apply(s, c, index).error.Some?
    ensures Apply(s, c, index).state == s
  {
  }

  // ---- What happens to the locks ----

  predicate Fewer(s: State, s': State) {
    s'.nextToken == s.nextToken && forall k | k in s'.locks :: k in s.locks && s'.locks[k] == s.locks[k]
  }

  predicate OneMore(s: State, s': State, l: Lock) {
    && l.key != [] && l.key !in s.locks && l.owner != [] && l.token == s'.nextToken == s.nextToken + 1
    && s'.locks == s.locks[l.key := l]
  }

  /** A command takes locks away, or grants one with the next token. */
  lemma LocksChange(s: State, c: Command, index: nat)
    ensures var s' := Apply(s, c, index).state; Fewer(s, s') || exists l :: OneMore(s, s', l)
  {
    hide Digits, ExecutionId, NextAttempt;
    var s' := Apply(s, c, index).state;
    if s'.nextToken != s.nextToken {
      if c.LockAcquire? {
        assert OneMore(s, s', Lock(c.key, c.owner, s.nextToken + 1, c.expiresAt, index));
      } else {
        assert OneMore(s, s', Lock(c.id, c.worker, s.nextToken + 1, c.expiresAt, index));
      }
    }
  }

  // ---- Execution IDs ----

  lemma {:induction false} DigitsOf(n: nat)
    ensures |Digits(n)| >= 1 && Value(Digits(n)) == n
  {
    if n >= 10 {
      DigitsOf(n / 10);
      assert Digits(n)[..|Digits(n)| - 1] == Digits(n / 10);
    }
  }

  /** What a string of digits stands for. */
  function Value(s: Text): int {
    if s == [] then 0 else 10 * Value(s[..|s| - 1]) + s[|s| - 1] - 48
  }

  /** No two attempts of a job share an execution ID. */
  lemma ExecutionIdsDiffer(id: Text, a: nat, b: nat)
    requires ExecutionId(id, a) == ExecutionId(id, b)
    ensures a == b
  {
    assert ExecutionId(id, a)[|id| + 1..] == Digits(a);
    assert ExecutionId(id, b)[|id| + 1..] == Digits(b);
    DigitsOf(a);
    DigitsOf(b);
  }
}
