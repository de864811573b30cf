/** What each part of the state can become, seen from that part: exactly which
    commands change it and to what. The commands themselves are in KvState. */
module KvRules {
  import opened Types
  import opened KvState

  // ---- Locks ----

  /** An acquisition of `key`, by LOCK_ACQUIRE or by a claim of the job of that name. */
  predicate Asks(s: State, c: Command, key: Text) {
    key != [] &&
    match c
    case LockAcquire(k, owner, _) => k == key && owner != []
    case ClaimJob(id, worker, expiresAt) =>
      id == key && worker != [] && expiresAt > 0 && key in s.jobs && s.jobs[key].state == Pending
    case _ => false
  }

  function Asker(c: Command): Text
    requires c.LockAcquire? || c.ClaimJob?
  {
    if c.LockAcquire? then c.owner else c.worker
  }

  /** A reclaim of the job `id`, under its lock's token and once the lease has ended. */
  predicate Reclaims(s: State, c: Command, id: Text) {
    && c.ReclaimJob? && c.id == id && id != [] && c.token != 0 && c.at > 0
    && id in s.jobs && (s.jobs[id].state == Scheduled || s.jobs[id].state == Running)
    && id in s.locks && s.jobs[id].token == s.locks[id].token == c.token
    && s.locks[id].expiresAt <= c.at
  }

  /** LOCK_EXPIRE under the lock's own token. */
  predicate Expires(s: State, c: Command, key: Text) {
    c.LockExpire? && c.key == key && key != [] && c.token != 0 && key in s.locks && s.locks[key].token == c.token
  }

  /** A free key is locked exactly by an acquisition, under the next token; a held
      one is freed exactly by its expiry or by the reclaim of its job, and is
      otherwise left as it is. */
  lemma LockExactly(s: State, c: Command, index: nat, key: Text)
    ensures var s' := Apply(s, c, index).state;
            if key in s.locks then
              && (key !in s'.locks <==> Expires(s, c, key) || Reclaims(s, c, key))
              && (key in s'.locks ==> s'.locks[key] == s.locks[key])
            else
              && (key in s'.locks <==> Asks(s, c, key))
              && (key in s'.locks ==>
                    && s'.locks[key] == Lock(key, Asker(c), s.nextToken + 1, c.expiresAt, index)
                    && s'.nextToken == s.nextToken + 1)
  {
    hide Digits, NextAttempt;
  }

  // ---- Values ----

  /** A value is written exactly under the token of the key's lock. */
  lemma ValuesExactly(s: State, c: Command, index: nat)
    ensures var s' := Apply(s, c, index).state;
            && s'.fenced == (if c.FencedPut? && c.key != [] && c.token != 0 && c.key in s.locks &&
                                s.locks[c.key].token == c.token
                             then s.fenced[c.key := Fenced(c.value, c.token)] else s.fenced)
            && s'.data == (if c.Put? then s.data[c.key := c.value] else if c.Delete? then s.data - {c.key} else s.data)
  {
    hide Digits, NextAttempt;
  }

  // ---- Jobs ----

  /** A claim that a pending job is given to: its lock is free or the worker's own. */
  predicate Claims(s: State, c: Command, id: Text) {
    && c.ClaimJob? && c.id == id && id != [] && c.worker != [] && c.expiresAt > 0
    && id in s.jobs && s.jobs[id].state == Pending
    && (id in s.locks ==> s.locks[id].owner == c.worker)
  }

  /** A transition by the worker that holds the job, before the lease ends. */
  predicate Transits(s: State, c: Command, id: Text) {
    && c.TransitJob? && c.id == id && id != [] && c.worker != [] && c.executionId != [] && c.token != 0 && c.at > 0
    && id in s.jobs && s.jobs[id].state == (if c.kind == Start then Scheduled else Running)
    && s.jobs[id].worker == c.worker && s.jobs[id].executionId == c.executionId && s.jobs[id].token == c.token
    && id in s.locks && s.locks[id].owner == c.worker && s.locks[id].token == c.token
    && c.at < s.locks[id].expiresAt
  }

  /** The life of a job: which commands move it, and where to. */
  function Moved(s: State, c: Command, id: Text): JobState
    requires id in s.jobs
  {
    if Claims(s, c, id) then Scheduled
    else if Reclaims(s, c, id) then Pending
    else if Transits(s, c, id) then
      match c.kind
      case Start => Running
      case Succeed => Succeeded
      case Fail => Failed
    else s.jobs[id].state
  }

  /** A job is added exactly by CREATE_JOB of a new ID, as a pending one, and never goes away. */
  lemma JobsExactly(s: State, c: Command, index: nat, id: Text)
    ensures var s' := Apply(s, c, index).state;
            && (id in s'.jobs <==> id in s.jobs || (c.CreateJob? && c.id == id && id != []))
            && (id !in s.jobs && id in s'.jobs ==>
                  s'.jobs[id] == Job(id, c.payload, Pending, c.scheduledAt, [], 0, 0, [], index))
  {
    hide Digits, NextAttempt;
  }

  /** Its state moves exactly so. The worker and the token change with a claim and
      a reclaim only, the rest of it with a claim that takes the lock only. */
  lemma JobMovesExactly(s: State, c: Command, index: nat, id: Text)
    requires id in s.jobs
    ensures var s' := Apply(s, c, index).state;
            id in s'.jobs &&
            var job, job' := s.jobs[id], s'.jobs[id];
            && job'.state == Moved(s, c, id)
            && job'.worker == (if Claims(s, c, id) then c.worker else if Reclaims(s, c, id) then [] else job.worker)
            && job'.token == (if Claims(s, c, id) then (if id in s.locks then s.locks[id].token else s.nextToken + 1)
                              else if Reclaims(s, c, id) then 0 else job.token)
            && (!(Claims(s, c, id) && id !in s.locks) ==>
                  job' == job.(state := job'.state, worker := job'.worker, token := job'.token))
  {
    hide Digits, NextAttempt;
  }

  /** A claim that takes the lock counts an attempt, in 32 bits, and names the
      execution after it: the job, a slash and the attempt in digits. */
  lemma ClaimNamesExecution(s: State, c: Command, index: nat, id: Text)
    requires id in s.jobs && Claims(s, c, id) && id !in s.locks
    ensures id in Apply(s, c, index).state.jobs
    ensures var job, job' := s.jobs[id], Apply(s, c, index).state.jobs[id];
            && job'.attempt == (if job.attempt % 0x1_0000_0000 == 0xFFFF_FFFF then 0
                                else job.attempt % 0x1_0000_0000 + 1)
            && |job'.executionId| > |job.id| + 1 && job'.executionId[..|job.id| + 1] == job.id + [47]
            && Value(job'.executionId[|job.id| + 1..]) == job'.attempt
            && job'.payload == job.payload && job'.scheduledAt == job.scheduledAt
  {
    hide Digits, Value;
    var attempt := NextAttempt(s.jobs[id].attempt);
    DigitsOf(attempt);
    assert ExecutionId(s.jobs[id].id, attempt)[|s.jobs[id].id| + 1..] == Digits(attempt);
  }

  /** An active job is given up exactly by a reclaim under its lock's token at or
      past the end of the lease. */
  lemma ReclaimedExactly(s: State, c: Command, index: nat, id: Text)
    requires id in s.jobs && Active(s.jobs[id])
    ensures id in Apply(s, c, index).state.jobs
    ensures Apply(s, c, index).state.jobs[id].state == Pending <==>
            && c.ReclaimJob? && c.id == id && id != [] && c.token != 0 && c.at > 0
            && id in s.locks && s.jobs[id].token == s.locks[id].token == c.token && s.locks[id].expiresAt <= c.at
  {
    JobMovesExactly(s, c, index, id);
  }

  // ---- Refusals ----

  /** Exactly which commands are accepted. */
  lemma AcceptedExactly(s: State, c: Command, index: nat)
    ensures Apply(s, c, index).error == None <==>
            match c
            case Put(_, _) => true
            case Delete(_) => true
            case ReadBarrier => true
            case LockAcquire(key, owner, _) => key != [] && owner != []
            case LockExpire(key, token) => key != [] && token != 0
            case FencedPut(key, _, token) => key != [] && token != 0 && key in s.locks && s.locks[key].token == token
            case CreateJob(id, _, _) => id != [] && id !in s.jobs
            case ClaimJob(id, worker, expiresAt) =>
              Claims(s, c, id) || (id != [] && worker != [] && expiresAt > 0 && id in s.jobs &&
                                   s.jobs[id].state == Scheduled && s.jobs[id].worker == worker)
            case ReclaimJob(id, _, _) => Reclaims(s, c, id)
            case TransitJob(id, _, _, _, _, _) => Transits(s, c, id)
            case Foreign => false
            case Garbage => false
  {
    hide Digits, NextAttempt;
  }

  /** A claim, reclaim or transition of `id` that says all it has to. */
  predicate Complete(c: Command, id: Text) {
    id != [] &&
    match c
    case ClaimJob(k, worker, expiresAt) => k == id && worker != [] && expiresAt > 0
    case ReclaimJob(k, token, at) => k == id && token != 0 && at > 0
    case TransitJob(k, worker, executionId, token, _, at) =>
      k == id && worker != [] && executionId != [] && token != 0 && at > 0
    case _ => false
  }

  /** What each refusal says about the command and the state. */
  predicate Because(s: State, c: Command, e: Error) {
    match e
    case InvalidKey => (c.LockAcquire? || c.LockExpire? || c.FencedPut?) && c.key == []
    case InvalidOwner => c.LockAcquire? && c.key != [] && c.owner == []
    case InvalidToken => c.LockExpire? && c.key != [] && c.token == 0
    case Unknown => c.Foreign?
    case Malformed => c.Garbage?
    case StaleToken =>
      c.FencedPut? && c.key != [] && (c.token == 0 || (c.key in s.locks && s.locks[c.key].token != c.token))
    case LockNotFound => c.FencedPut? && c.key != [] && c.token != 0 && c.key !in s.locks
    case InvalidJob =>
      (c.CreateJob? && c.id == []) || ((c.ClaimJob? || c.ReclaimJob? || c.TransitJob?) && !Complete(c, c.id))
    case JobExists => c.CreateJob? && c.id != [] && c.id in s.jobs
    case JobNotFound => (c.ClaimJob? || c.ReclaimJob? || c.TransitJob?) && Complete(c, c.id) && c.id !in s.jobs
    case NotClaimable =>
      && c.ClaimJob? && Complete(c, c.id) && c.id in s.jobs
      && s.jobs[c.id].state != Pending && s.jobs[c.id].state != Scheduled
    case AlreadyClaimed =>
      && c.ClaimJob? && Complete(c, c.id) && c.id in s.jobs
      && ((s.jobs[c.id].state == Scheduled && s.jobs[c.id].worker != c.worker) ||
          (s.jobs[c.id].state == Pending && c.id in s.locks && s.locks[c.id].owner != c.worker))
    case InvalidJobState =>
      && (c.ReclaimJob? || c.TransitJob?) && Complete(c, c.id) && c.id in s.jobs
      && (if c.ReclaimJob? then s.jobs[c.id].state != Scheduled && s.jobs[c.id].state != Running
          else s.jobs[c.id].state != (if c.kind == Start then Scheduled else Running))
    case OwnershipLost =>
      && (c.ReclaimJob? || c.TransitJob?) && Complete(c, c.id) && c.id in s.jobs
      && (if c.ReclaimJob?
          then (s.jobs[c.id].state == Scheduled || s.jobs[c.id].state == Running) && !Reclaims(s, c, c.id)
          else s.jobs[c.id].state == (if c.kind == Start then Scheduled else Running) && !Transits(s, c, c.id))
  }

  /** Every refusal is given exactly for its own reason. */
  lemma RefusedBecause(s: State, c: Command, index: nat, e: Error)
    ensures Apply(s, c, index).error == Some(e) <==> Because(s, c, e)
  {
    hide Digits, NextAttempt;
  }

  /** A command that no state machine can carry out, whatever its state. */
  predicate Senseless(c: Command) {
    match c
    case LockAcquire(key, owner, _) => key == [] || owner == []
    case LockExpire(key, token) => key == [] || token == 0
    case FencedPut(key, _, _) => key == []
    case Foreign => true
    case Garbage => true
    case _ => false
  }

  /** An applier is stopped exactly by these. It depends on the command alone, so
      that all replicas stop at the same entry. */
  lemma StopsExactly(s: State, c: Command, index: nat)
    ensures (Apply(s, c, index).error.Some? && !Expected(Apply(s, c, index).error.value)) <==> Senseless(c)
  {
    hide Digits, NextAttempt;
  }
}
