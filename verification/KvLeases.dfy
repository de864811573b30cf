/** Leases and results over every log of commands: a job is not taken from its
    worker before the lease ends, its worker does nothing to it after, and it ends
    as its worker said (internal/kv/jobs_lifecycle.go). */
module KvLeases {
  import opened KvState
  import opened KvHistory
  import opened KvRules

  function After(cs: seq<Logged>, i: nat): State
    requires i <= |cs|
  {
    Run(cs[..i]).state
  }

  lemma AfterNext(cs: seq<Logged>, i: nat)
    requires i < |cs|
    ensures After(cs, i + 1) == Apply(After(cs, i), cs[i].command, cs[i].index).state
  {
    hide Apply, Emits;
    assert cs[..i + 1][..i] == cs[..i];
  }

  /** `worker` has the job under `token`, or had it when the job ended. */
  predicate Has(s: State, id: Text, worker: Text, token: nat) {
    id in s.jobs && !s.jobs[id].state.Pending? && s.jobs[id].worker == worker && s.jobs[id].token == token
  }

  /** The command takes the job away, at or past the end of the lease. */
  predicate TakesBack(c: Command, id: Text, token: nat, lease: int) {
    c.ReclaimJob? && c.id == id && c.token == token && lease <= c.at
  }

  /** No later lock of the key is mistaken for the one with the lease. */
  predicate SameLease(s: State, id: Text, lock: Lock) {
    lock.token <= s.nextToken && (id in s.locks && s.locks[id].token == lock.token ==> s.locks[id] == lock)
  }

  lemma LeaseStep(s: State, c: Command, index: nat, id: Text, lock: Lock)
    requires SameLease(s, id, lock)
    ensures SameLease(Apply(s, c, index).state, id, lock)
  {
    hide Apply;
    LockExactly(s, c, index, id);
    LocksChange(s, c, index);
  }

  lemma HasStep(s: State, c: Command, index: nat, id: Text, worker: Text, lock: Lock)
    requires SameLease(s, id, lock) && Has(s, id, worker, lock.token)
    ensures Has(Apply(s, c, index).state, id, worker, lock.token) || TakesBack(c, id, lock.token, lock.expiresAt)
  {
    hide Apply;
    JobMovesExactly(s, c, index, id);
  }

  /** A job that a worker holds under a lease stays with it, until a reclaim at or
      past the end of that lease, for however long the log goes on. */
  lemma {:induction false} TakenOnlyAfterLease(cs: seq<Logged>, i: nat, j: nat, id: Text)
    requires i <= j <= |cs|
    requires id in After(cs, i).jobs && Active(After(cs, i).jobs[id])
    requires id in After(cs, i).locks && After(cs, i).locks[id].token == After(cs, i).jobs[id].token
    ensures var job, lock := After(cs, i).jobs[id], After(cs, i).locks[id];
            && SameLease(After(cs, j), id, lock)
            && (Has(After(cs, j), id, job.worker, job.token) ||
                exists k :: i <= k < j && TakesBack(cs[k].command, id, job.token, lock.expiresAt))
    decreases j - i
  {
    hide Apply, Emits, Run;
    var job, lock := After(cs, i).jobs[id], After(cs, i).locks[id];
    if i == j {
      RunTokens(cs[..i]);
    } else {
      TakenOnlyAfterLease(cs, i, j - 1, id);
      AfterNext(cs, j - 1);
      var s, c := After(cs, j - 1), cs[j - 1];
      LeaseStep(s, c.command, c.index, id, lock);
      if Has(s, id, job.worker, job.token) {
        HasStep(s, c.command, c.index, id, job.worker, lock);
        if TakesBack(c.command, id, job.token, lock.expiresAt) {
          assert i <= j - 1 < j && TakesBack(cs[j - 1].command, id, job.token, lock.expiresAt);
        }
      }
    }
  }

  lemma RunTokens(cs: seq<Logged>)
    ensures TokensOk(Run(cs).state)
  {
    RunKeeps(cs);
  }

  /** A start or a finish is made by the worker that holds the job, under the lock
      of the job, before the lease ends. */
  lemma WithinLease(cs: seq<Logged>, k: nat)
    requires k < |cs|
    requires var e := Emits(After(cs, k), cs[k].command, cs[k].index); e != [] && (e[0].Started? || e[0].Finished?)
    ensures var e, s, c := Emits(After(cs, k), cs[k].command, cs[k].index)[0], After(cs, k), cs[k].command;
            && c.TransitJob? && e.id in s.locks && Has(s, e.id, e.worker, e.token)
            && s.locks[e.id].owner == e.worker && s.locks[e.id].token == e.token && c.at < s.locks[e.id].expiresAt
  {
    hide Run;
    AcceptedExactly(After(cs, k), cs[k].command, cs[k].index);
  }

  // ---- Results ----

  /** The command at `k` ends the job in `state`. */
  predicate EndsAs(cs: seq<Logged>, k: nat, id: Text, state: JobState)
    requires k < |cs|
  {
    && Transits(After(cs, k), cs[k].command, id)
    && ((cs[k].command.kind == Succeed && state == Succeeded) || (cs[k].command.kind == Fail && state == Failed))
  }

  /** A job that has ended did so as its worker reported, and by one command. */
  lemma {:induction false} EndedAsReported(cs: seq<Logged>, j: nat, id: Text)
    requires j <= |cs| && id in After(cs, j).jobs && Terminal(After(cs, j).jobs[id])
    ensures exists k :: 0 <= k < j && EndsAs(cs, k, id, After(cs, j).jobs[id].state)
    decreases j
  {
    hide Apply, Emits, Run;
    if j == 0 {
      NoJobs(cs);
    } else {
      AfterNext(cs, j - 1);
      var s, c := After(cs, j - 1), cs[j - 1];
      JobsExactly(s, c.command, c.index, id);
      if id in s.jobs {
        JobMovesExactly(s, c.command, c.index, id);
        if Terminal(s.jobs[id]) {
          EndedAsReported(cs, j - 1, id);
          var k :| 0 <= k < j - 1 && EndsAs(cs, k, id, s.jobs[id].state);
          assert 0 <= k < j && EndsAs(cs, k, id, After(cs, j).jobs[id].state);
        } else {
          assert EndsAs(cs, j - 1, id, After(cs, j).jobs[id].state);
        }
      }
    }
  }

  lemma NoJobs(cs: seq<Logged>)
    ensures After(cs, 0) == EMPTY
  {
    assert cs[..0] == [];
  }
}
