/** Execution IDs over command sequences: when the starts of a job can be told
    apart by them (internal/kv/jobs_lifecycle.go). */
module KvExecutions {
  import opened KvState
  import opened KvHistory

  /** A claim that takes over a lock the worker already holds. */
  predicate Reuses(s: State, c: Command) {
    && c.ClaimJob? && c.id != [] && c.worker != [] && c.expiresAt > 0
    && c.id in s.jobs && s.jobs[c.id].state.Pending?
    && c.id in s.locks && s.locks[c.id].owner == c.worker
  }

  /** A claim at which the 32-bit attempt counter of the job starts over. */
  predicate Wraps(s: State, c: Command) {
    c.ClaimJob? && c.id in s.jobs && NextAttempt(s.jobs[c.id].attempt) == 0
  }

  /** No claim of the log reuses a lock or wraps a counter. */
  ghost predicate Careful(cs: seq<Logged>) {
    cs != [] ==>
      var s, c := Run(cs[..|cs| - 1]).state, cs[|cs| - 1].command;
      Careful(cs[..|cs| - 1]) && !Reuses(s, c) && !Wraps(s, c)
  }

  /** `x` names an attempt of the job that has been started: a past one while the
      job waits for its next start. */
  predicate Attempted(job: Job, x: Text, a: nat) {
    1 <= a <= job.attempt && x == ExecutionId(job.id, a) && (job.state.Scheduled? ==> a < job.attempt)
  }

  predicate JobOk(id: Text, job: Job) {
    && job.id == id && job.attempt < 0x1_0000_0000
    && (Active(job) ==> job.attempt >= 1 && job.executionId == ExecutionId(id, job.attempt))
  }

  ghost predicate StartOk(s: State, e: Event) {
    e.Started? ==> e.id in s.jobs && exists a: nat :: Attempted(s.jobs[e.id], e.executionId, a)
  }

  /** Two starts of one job have different execution IDs. */
  predicate Apart(e: Event, e': Event) {
    e.Started? && e'.Started? && e.id == e'.id ==> e.executionId != e'.executionId
  }

  ghost predicate Inv(t: Trace) {
    && (forall id | id in t.state.jobs :: JobOk(id, t.state.jobs[id]))
    && (forall i | 0 <= i < |t.events| :: StartOk(t.state, t.events[i]))
    && (forall i, j | 0 <= i < j < |t.events| :: Apart(t.events[i], t.events[j]))
  }

  lemma JobsKept(s: State, c: Command, index: nat, id: Text)
    requires id in s.jobs ==> JobOk(id, s.jobs[id])
    requires !Reuses(s, c) && !Wraps(s, c) && id in Apply(s, c, index).state.jobs
    ensures JobOk(id, Apply(s, c, index).state.jobs[id])
  {
    hide ExecutionId;
  }

  lemma StartKept(s: State, c: Command, index: nat, e: Event)
    requires StartOk(s, e) && e.Started? && JobOk(e.id, s.jobs[e.id]) && !Reuses(s, c) && !Wraps(s, c)
    ensures StartOk(Apply(s, c, index).state, e)
  {
    hide ExecutionId;
    var a: nat :| Attempted(s.jobs[e.id], e.executionId, a);
    var s' := Apply(s, c, index).state;
    assert Attempted(s'.jobs[e.id], e.executionId, a);
  }

  lemma StartNew(s: State, c: Command, index: nat, e: Event)
    requires Emits(s, c, index) == [e] && e.Started? && JobOk(e.id, s.jobs[e.id])
    ensures StartOk(Apply(s, c, index).state, e)
    ensures s.jobs[e.id].state.Scheduled? && e.executionId == ExecutionId(e.id, s.jobs[e.id].attempt)
  {
    hide ExecutionId;
    assert Attempted(Apply(s, c, index).state.jobs[e.id], e.executionId, s.jobs[e.id].attempt);
  }

  lemma StartedIsJob(s: State, c: Command, index: nat, e: Event)
    requires Emits(s, c, index) == [e] && e.Started?
    ensures e.id in s.jobs
  {
  }

  lemma NewApart(s: State, c: Command, index: nat, e: Event, e': Event)
    requires StartOk(s, e) && Emits(s, c, index) == [e']
    requires e'.Started? ==> e'.id in s.jobs && JobOk(e'.id, s.jobs[e'.id])
    ensures Apart(e, e')
  {
    if e.Started? && e'.Started? && e.id == e'.id {
      StartNew(s, c, index, e');
      var a: nat :| Attempted(s.jobs[e.id], e.executionId, a);
      if e.executionId == e'.executionId {
        ExecutionIdsDiffer(e.id, a, s.jobs[e.id].attempt);
      }
    }
  }

  lemma AtMostOne(s: State, c: Command, index: nat)
    ensures |Emits(s, c, index)| <= 1
  {
  }

  lemma StepKeeps(t: Trace, c: Command, index: nat)
    requires Inv(t) && !Reuses(t.state, c) && !Wraps(t.state, c)
    ensures Inv(Trace(Apply(t.state, c, index).state, t.events + Emits(t.state, c, index)))
  {
    hide JobOk, StartOk, Apart, Apply, Emits, Reuses, Wraps;
    var s, h := t.state, t.events;
    var s', e := Apply(s, c, index).state, Emits(s, c, index);
    var h' := h + e;
    AtMostOne(s, c, index);
    assert e != [] ==> e == [e[0]];
    forall id | id in s'.jobs ensures JobOk(id, s'.jobs[id]) {
      JobsKept(s, c, index, id);
    }
    forall i | 0 <= i < |h'| ensures StartOk(s', h'[i]) {
      StartStands(t, c, index, h'[i], i < |h|);
    }
    forall i, j | 0 <= i < j < |h'| ensures Apart(h'[i], h'[j]) {
      if j == |h| {
        if e[0].Started? {
          StartedIsJob(s, c, index, e[0]);
        }
        NewApart(s, c, index, h[i], e[0]);
      }
    }
  }

  lemma StartStands(t: Trace, c: Command, index: nat, e: Event, before: bool)
    requires Inv(t) && !Reuses(t.state, c) && !Wraps(t.state, c)
    requires if before then e in t.events else Emits(t.state, c, index) == [e]
    ensures StartOk(Apply(t.state, c, index).state, e)
  {
    hide JobOk, Apply, Emits, Reuses, Wraps, Apart, Attempted;
    if e.Started? {
      if before {
        StartKept(t.state, c, index, e);
      } else {
        StartedIsJob(t.state, c, index, e);
        StartNew(t.state, c, index, e);
      }
    }
  }

  lemma {:induction false} RunKeeps(cs: seq<Logged>)
    requires Careful(cs)
    ensures Inv(Run(cs))
  {
    if cs != [] {
      hide Inv, Reuses, Wraps;
      RunKeeps(cs[..|cs| - 1]);
      StepKeeps(Run(cs[..|cs| - 1]), cs[|cs| - 1].command, cs[|cs| - 1].index);
    }
  }

  /** As long as no claim reuses a lock and no attempt counter wraps, no two
      starts of a job share an execution ID. */
  lemma DistinctExecutions(cs: seq<Logged>, i: nat, j: nat)
    requires Careful(cs)
    requires var h := Run(cs).events; i < j < |h| && h[i].Started? && h[j].Started? && h[i].id == h[j].id
    ensures Run(cs).events[i].executionId != Run(cs).events[j].executionId
  {
    RunKeeps(cs);
    assert Apart(Run(cs).events[i], Run(cs).events[j]);
  }

  // ---- The reusing claim ----

  lemma RunOneMore(cs: seq<Logged>, c: Logged)
    ensures Run(cs + [c]) == Trace(Apply(Run(cs).state, c.command, c.index).state,
                                   Run(cs).events + Emits(Run(cs).state, c.command, c.index))
  {
    hide Apply, Emits;
    assert (cs + [c])[..|cs|] == cs;
  }

  /** The start that a claim of `c.worker` makes possible. */
  function StartAfter(s: State, c: Command): Command
    requires c.ClaimJob? && c.id in s.jobs && c.id in s.locks
  {
    TransitJob(c.id, c.worker, s.jobs[c.id].executionId, s.locks[c.id].token, Start, 1)
  }

  /** Conversely, a reusing claim of a job whose current execution ID has been
      started lets that ID be started a second time. */
  lemma ReuseRepeats(cs: seq<Logged>, c: Command, index: nat, i: nat)
    requires var t := Run(cs);
             && Reuses(t.state, c) && t.state.locks[c.id].expiresAt > 1
             && i < |t.events| && t.events[i].Started? && t.events[i].id == c.id
             && t.events[i].executionId == t.state.jobs[c.id].executionId != []
    ensures var cs' := cs + [Logged(c, index)] + [Logged(StartAfter(Run(cs).state, c), index + 1)];
            var h := Run(cs').events;
            && |h| == |Run(cs).events| + 1 && h[i] == Run(cs).events[i]
            && h[|h| - 1].Started? && h[|h| - 1].id == h[i].id && h[|h| - 1].executionId == h[i].executionId
  {
    hide Run;
    var t := Run(cs);
    KvHistory.RunKeeps(cs);
    var start := StartAfter(t.state, c);
    RunOneMore(cs, Logged(c, index));
    RunOneMore(cs + [Logged(c, index)], Logged(start, index + 1));
    ReusedStart(t.state, c, index);
  }

  lemma ReusedStart(s: State, c: Command, index: nat)
    requires Reuses(s, c) && s.locks[c.id].token >= 1 && s.locks[c.id].expiresAt > 1 && s.jobs[c.id].executionId != []
    ensures Emits(s, c, index) == []
    ensures Emits(Apply(s, c, index).state, StartAfter(s, c), index + 1) ==
            [Started(c.id, c.worker, s.locks[c.id].token, s.jobs[c.id].executionId)]
  {
  }

  /** A job claimed by a reused lock for the first time has no execution ID, and
      no transition of it can succeed. */
  lemma FirstReuseCannotStart(s: State, c: Command, index: nat, later: Command, index': nat)
    requires Reuses(s, c) && s.jobs[c.id].executionId == [] && later.TransitJob? && later.id == c.id
    ensures Apply(s, c, index).error.None? && Apply(Apply(s, c, index).state, later, index').error.Some?
  {
  }

  // ---- A log in which it happens ----

  const J: Text := [106]
  const W: Text := [119]
  const ID := ExecutionId(J, 1)

  const CREATE := CreateJob(J, [], 0)
  const CLAIM := ClaimJob(J, W, 5)
  const START := TransitJob(J, W, ID, 1, Transition.Start, 1)
  const RECLAIM := ReclaimJob(J, 1, 5)
  const ACQUIRE := LockAcquire(J, W, 9)

  const CREATED := Job(J, [], Pending, 0, [], 0, 0, [], 1)
  const CLAIMED := CREATED.(state := Scheduled, worker := W, token := 1, attempt := 1, executionId := ID)
  const RECLAIMED := CLAIMED.(state := Pending, worker := [], token := 0)

  function Jobs(job: Job, locks: map<Text, Lock>, token: nat): State {
    State(map[], locks, token, map[], map[J := job])
  }

  const FIRST_LOCK := map[J := Lock(J, W, 1, 5, 2)]
  const SECOND_LOCK := map[J := Lock(J, W, 2, 9, 5)]

  lemma Steps()
    ensures Apply(EMPTY, CREATE, 1).state == Jobs(CREATED, map[], 0) && Emits(EMPTY, CREATE, 1) == []
    ensures Apply(Jobs(CREATED, map[], 0), CLAIM, 2).state == Jobs(CLAIMED, FIRST_LOCK, 1)
    ensures Emits(Jobs(CREATED, map[], 0), CLAIM, 2) == [Granted(J, 1)]
  {
    hide Digits;
    assert |ID| >= 1;
  }

  lemma MoreSteps()
    ensures Apply(Jobs(CLAIMED, FIRST_LOCK, 1), START, 3).state == Jobs(CLAIMED.(state := Running), FIRST_LOCK, 1)
    ensures Emits(Jobs(CLAIMED, FIRST_LOCK, 1), START, 3) == [Started(J, W, 1, ID)]
    ensures Apply(Jobs(CLAIMED.(state := Running), FIRST_LOCK, 1), RECLAIM, 4).state == Jobs(RECLAIMED, map[], 1)
    ensures Emits(Jobs(CLAIMED.(state := Running), FIRST_LOCK, 1), RECLAIM, 4) == []
    ensures Apply(Jobs(RECLAIMED, map[], 1), ACQUIRE, 5).state == Jobs(RECLAIMED, SECOND_LOCK, 2)
    ensures Emits(Jobs(RECLAIMED, map[], 1), ACQUIRE, 5) == [Granted(J, 2)]
  {
    hide Digits;
    assert |ID| >= 1;
    assert FIRST_LOCK - {J} == map[];
  }

  /** Create, claim, start, reclaim, acquire the lock, claim with it, start: two
      starts with one execution ID, under different tokens. */
  lemma ExecutionStartsTwice()
    ensures exists cs: seq<Logged>, i: nat, j: nat ::
              && i < j < |Run(cs).events|
              && Run(cs).events[i] == Started(J, W, 1, ID)
              && Run(cs).events[j] == Started(J, W, 2, ID)
  {
    hide Apply, Emits, Run, ExecutionId;
    Steps();
    MoreSteps();
    var c1, c2, c3 := Logged(CREATE, 1), Logged(CLAIM, 2), Logged(START, 3);
    RunEmpty();
    RunOneMore([], c1);
    RunOneMore([] + [c1], c2);
    RunOneMore([] + [c1] + [c2], c3);
    RunOneMore([] + [c1] + [c2] + [c3], Logged(RECLAIM, 4));
    var four := [] + [c1] + [c2] + [c3] + [Logged(RECLAIM, 4)];
    RunOneMore(four, Logged(ACQUIRE, 5));
    var five := four + [Logged(ACQUIRE, 5)];
    assert Run(five) ==
           Trace(Jobs(RECLAIMED, SECOND_LOCK, 2),
                 [] + [] + [Granted(J, 1)] + [Started(J, W, 1, ID)] + [] + [Granted(J, 2)]);
    assert Run(five).events[1] == Started(J, W, 1, ID);
    IdNotEmpty();
    LastStarts(five);
  }

  lemma RunEmpty()
    ensures Run([]) == Trace(EMPTY, [])
  {
  }

  lemma IdNotEmpty()
    ensures ID != []
  {
    DigitsOf(1);
  }

  lemma LastStarts(cs: seq<Logged>)
    requires Run(cs).state == Jobs(RECLAIMED, SECOND_LOCK, 2) && |Run(cs).events| == 3 && ID != []
    requires Run(cs).events[1] == Started(J, W, 1, ID)
    ensures exists cs': seq<Logged>, i: nat, j: nat ::
              && i < j < |Run(cs').events|
              && Run(cs').events[i] == Started(J, W, 1, ID)
              && Run(cs').events[j] == Started(J, W, 2, ID)
  {
    hide Run, ExecutionId;
    var s, claim := Run(cs).state, ClaimJob(J, W, 9);
    assert Reuses(s, claim);
    ReusedStart(s, claim, 6);
    RunOneMore(cs, Logged(claim, 6));
    RunOneMore(cs + [Logged(claim, 6)], Logged(StartAfter(s, claim), 7));
    var cs' := cs + [Logged(claim, 6)] + [Logged(StartAfter(s, claim), 7)];
    assert Run(cs').events == Run(cs).events + [] + [Started(J, W, 2, ID)];
    assert Run(cs').events[1] == Started(J, W, 1, ID) && Run(cs').events[3] == Started(J, W, 2, ID);
  }
}
