/** Fencing and job exclusivity over every sequence of commands. */
module KvHistory {
  import opened Types
  import opened KvState

  datatype Event =
    | Granted(key: Text, token: nat)
    | Wrote(key: Text, token: nat)
    | Started(id: Text, worker: Text, token: nat, executionId: Text)
    | Finished(id: Text, worker: Text, token: nat, executionId: Text)

  /** What an accepted command does that the properties below speak of. */
  function Emits(s: State, c: Command, index: nat): seq<Event> {
    if Apply(s, c, index).error.Some? then []
    else
      match c
      case LockAcquire(key, _, _) => if key in s.locks then [] else [Granted(key, s.nextToken + 1)]
      case ClaimJob(id, _, _) =>
        if id in s.jobs && s.jobs[id].state.Pending? && id !in s.locks then [Granted(id, s.nextToken + 1)] else []
      case FencedPut(key, _, token) => [Wrote(key, token)]
      case TransitJob(id, worker, executionId, token, kind, _) =>
        if kind.Start? then [Started(id, worker, token, executionId)] else [Finished(id, worker, token, executionId)]
      case _ => []
  }

  /** A grant is exactly a token taken from the counter, for a key that had no lock. */
  lemma GrantsAreTokens(s: State, c: Command, index: nat)
    ensures var s', e := Apply(s, c, index).state, Emits(s, c, index);
            && (s'.nextToken != s.nextToken <==> e != [] && e[0].Granted?)
            && (e != [] && e[0].Granted? ==>
                  e[0].token == s'.nextToken == s.nextToken + 1 && e[0].key !in s.locks && e[0].key in s'.locks)
  {
    hide Digits;
  }

  /** A write is exactly a change to a fenced value under the token of the key's lock. */
  lemma WritesAreFenced(s: State, c: Command, index: nat)
    ensures var s', e := Apply(s, c, index).state, Emits(s, c, index);
            if e != [] && e[0].Wrote? then
              && e[0].key in s.locks && s.locks[e[0].key].token == e[0].token
              && s' == s.(fenced := s.fenced[e[0].key := Fenced(c.value, e[0].token)])
            else s'.fenced == s.fenced
  {
    hide Digits;
  }

  /** A start is exactly a job that begins to run, a finish exactly a job that
      reaches a final state; and a final job is never touched again. */
  lemma JobEventsAreChanges(s: State, c: Command, index: nat, id: Text)
    requires id in s.jobs
    ensures id in Apply(s, c, index).state.jobs
    ensures var job, e := Apply(s, c, index).state.jobs[id], Emits(s, c, index);
            && (job.state.Running? && !s.jobs[id].state.Running? <==>
                e == [Started(id, job.worker, job.token, job.executionId)])
            && (Terminal(job) && !Terminal(s.jobs[id]) <==>
                e == [Finished(id, job.worker, job.token, job.executionId)])
            && (Terminal(s.jobs[id]) ==> job == s.jobs[id])
  {
    hide Digits;
  }

  datatype Trace = Trace(state: State, events: seq<Event>)

  /** A command with the index of its log entry. */
  datatype Logged = Logged(command: Command, index: nat)

  /** The state and all events after a log of commands. */
  function Run(cs: seq<Logged>): Trace {
    if cs == [] then Trace(EMPTY, [])
    else
      var t, c := Run(cs[..|cs| - 1]), cs[|cs| - 1];
      Trace(Apply(t.state, c.command, c.index).state, t.events + Emits(t.state, c.command, c.index))
  }

  /** The last start of a job in a history. */
  function LastStart(h: seq<Event>, id: Text): Option<Event> {
    if h == [] then None
    else
      var e := h[|h| - 1];
      if e.Started? && e.id == id then Some(e) else LastStart(h[..|h| - 1], id)
  }

  /** It is what it says: no start of that job comes after it. */
  lemma {:induction false} LastStartIsLast(h: seq<Event>, id: Text)
    requires LastStart(h, id).Some?
    ensures exists i :: 0 <= i < |h| && h[i] == LastStart(h, id).value && h[i].Started? && h[i].id == id &&
              forall j | i < j < |h| :: !(h[j].Started? && h[j].id == id)
    decreases |h|
  {
    var last := |h| - 1;
    if h[last].Started? && h[last].id == id {
      assert h[last] == LastStart(h, id).value;
    } else {
      LastStartIsLast(h[..last], id);
      var i :| 0 <= i < last && h[..last][i] == LastStart(h, id).value && h[..last][i].Started? &&
          h[..last][i].id == id &&
               forall j | i < j < last :: !(h[..last][j].Started? && h[..last][j].id == id);
      assert h[i] == LastStart(h, id).value;
      forall j | i < j < |h| ensures !(h[j].Started? && h[j].id == id) {
        if j < last {
          assert h[..last][j] == h[j];
        }
      }
    }
  }

  // ---- The invariant ----

  predicate TokensOk(s: State) {
    && (forall k | k in s.locks :: 1 <= s.locks[k].token <= s.nextToken)
    && (forall k, l | k in s.locks && l in s.locks && s.locks[k].token == s.locks[l].token :: k == l)
  }

  /** What an event says about the state from then on. */
  predicate EventOk(s: State, e: Event) {
    match e
    case Granted(_, token) => token <= s.nextToken
    case Wrote(key, token) => token <= s.nextToken && (key in s.locks ==> token <= s.locks[key].token)
    case Started(id, _, token, _) =>
      && token <= s.nextToken
      && id in s.jobs
      && forall k | k in s.locks && s.locks[k].token == token :: k == id &&
          (s.jobs[id].state.Running? || Terminal(s.jobs[id]))
    case Finished(id, _, _, _) => id in s.jobs && Terminal(s.jobs[id])
  }

  /** A running job runs under its last start. */
  predicate RunningOk(s: State, h: seq<Event>) {
    forall id | id in s.jobs && s.jobs[id].state.Running? ::
      LastStart(h, id) == Some(Started(id, s.jobs[id].worker, s.jobs[id].token, s.jobs[id].executionId))
  }

  /** An active job's token has been handed out. */
  predicate JobTokensOk(s: State) {
    forall id | id in s.jobs && Active(s.jobs[id]) :: s.jobs[id].token <= s.nextToken
  }

  /** Two events of one history in their order. */
  predicate Ordered(e: Event, later: Event) {
    match e
    case Granted(_, token) => later.Granted? ==> token < later.token
    case Wrote(key, token) => later.Wrote? && later.key == key ==> token <= later.token
    case Started(_, _, token, _) => later.Started? ==> token != later.token
    case Finished(id, _, _, _) => later.Finished? ==> id != later.id
  }

  ghost predicate Inv(t: Trace) {
    && TokensOk(t.state)
    && JobTokensOk(t.state)
    && (forall i | 0 <= i < |t.events| :: EventOk(t.state, t.events[i]))
    && RunningOk(t.state, t.events)
    && (forall i, j | 0 <= i < j < |t.events| :: Ordered(t.events[i], t.events[j]))
    && (forall i | 0 <= i < |t.events| && t.events[i].Finished? :: FinishOk(t.events, i))
  }

  /** A finish repeats worker, token and execution ID of the last start of its job. */
  ghost predicate FinishOk(h: seq<Event>, i: nat)
    requires i < |h| && h[i].Finished?
  {
    LastStart(h[..i], h[i].id) == Some(Started(h[i].id, h[i].worker, h[i].token, h[i].executionId))
  }

  // ---- Every command keeps it ----

  lemma TokensKept(s: State, c: Command, index: nat)
    requires TokensOk(s)
    ensures TokensOk(Apply(s, c, index).state) && s.nextToken <= Apply(s, c, index).state.nextToken
  {
    hide Apply;
    LocksChange(s, c, index);
  }

  lemma JobTokensKept(s: State, c: Command, index: nat)
    requires TokensOk(s) && JobTokensOk(s)
    ensures JobTokensOk(Apply(s, c, index).state)
  {
    hide Digits;
  }

  lemma StartKept(s: State, c: Command, index: nat, e: Event)
    requires TokensOk(s) && EventOk(s, e) && e.Started?
    ensures EventOk(Apply(s, c, index).state, e)
  {
    hide Digits;
  }

  lemma OtherKept(s: State, c: Command, index: nat, e: Event)
    requires TokensOk(s) && EventOk(s, e) && !e.Started?
    ensures EventOk(Apply(s, c, index).state, e)
  {
    hide Digits;
  }

  lemma EventKept(s: State, c: Command, index: nat, e: Event)
    requires TokensOk(s) && EventOk(s, e)
    ensures EventOk(Apply(s, c, index).state, e)
  {
    hide TokensOk, EventOk, Apply;
    if e.Started? {
      StartKept(s, c, index, e);
    } else {
      OtherKept(s, c, index, e);
    }
  }

  /** What an event promises holds right after it, and fits all that came before. */
  lemma EventNew(s: State, c: Command, index: nat)
    requires TokensOk(s) && Emits(s, c, index) != []
    ensures |Emits(s, c, index)| == 1 && EventOk(Apply(s, c, index).state, Emits(s, c, index)[0])
  {
  }

  lemma EventFollows(s: State, c: Command, index: nat, e: Event)
    requires TokensOk(s) && EventOk(s, e) && Emits(s, c, index) != []
    ensures Ordered(e, Emits(s, c, index)[0])
  {
  }

  lemma RunningKept(s: State, c: Command, index: nat, h: seq<Event>)
    requires RunningOk(s, h)
    ensures RunningOk(Apply(s, c, index).state, h + Emits(s, c, index))
  {
    var s', e := Apply(s, c, index).state, Emits(s, c, index);
    assert e == [] ==> h + e == h;
    assert e != [] ==> (h + e)[..|h + e| - 1] == h;
    forall id | id in s'.jobs && s'.jobs[id].state.Running?
      ensures LastStart(h + e, id) == Some(Started(id, s'.jobs[id].worker, s'.jobs[id].token, s'.jobs[id].executionId))
    {
    }
  }

  lemma FinishNew(s: State, c: Command, index: nat, h: seq<Event>)
    requires RunningOk(s, h) && Emits(s, c, index) != [] && Emits(s, c, index)[0].Finished?
    ensures var e := Emits(s, c, index)[0];
            LastStart(h, e.id) == Some(Started(e.id, e.worker, e.token, e.executionId))
  {
  }

  lemma StepKeeps(t: Trace, c: Command, index: nat)
    requires Inv(t)
    ensures Inv(Trace(Apply(t.state, c, index).state, t.events + Emits(t.state, c, index)))
  {
    hide TokensOk, JobTokensOk, EventOk, RunningOk, Ordered, Apply, Emits, LastStart;
    var s, h := t.state, t.events;
    var s', e := Apply(s, c, index).state, Emits(s, c, index);
    var h' := h + e;
    TokensKept(s, c, index);
    JobTokensKept(s, c, index);
    RunningKept(s, c, index, h);
    if e != [] {
      EventNew(s, c, index);
    }
    forall i | 0 <= i < |h'| ensures EventOk(s', h'[i]) {
      if i < |h| {
        EventKept(s, c, index, h[i]);
      }
    }
    forall i, j | 0 <= i < j < |h'| ensures Ordered(h'[i], h'[j]) {
      if j == |h| {
        EventFollows(s, c, index, h[i]);
      }
    }
    forall i | 0 <= i < |h'| && h'[i].Finished? ensures FinishOk(h', i) {
      if i < |h| {
        assert h'[..i] == h[..i];
        assert FinishOk(h, i);
      } else {
        assert h'[..i] == h;
        FinishNew(s, c, index, h);
      }
    }
  }

  lemma {:induction false} RunKeeps(cs: seq<Logged>)
    ensures Inv(Run(cs))
  {
    if cs != [] {
      hide Inv;
      RunKeeps(cs[..|cs| - 1]);
      StepKeeps(Run(cs[..|cs| - 1]), cs[|cs| - 1].command, cs[|cs| - 1].index);
    }
  }

  // ---- The theorems ----

  /** Grant tokens strictly increase, so none is ever issued twice. */
  lemma TokensIncrease(cs: seq<Logged>, i: nat, j: nat)
    requires var h := Run(cs).events; i < j < |h| && h[i].Granted? && h[j].Granted?
    ensures Run(cs).events[i].token < Run(cs).events[j].token
  {
    RunKeeps(cs);
    assert Ordered(Run(cs).events[i], Run(cs).events[j]);
  }

  /** The tokens of accepted fenced writes to one key never decrease. */
  lemma WritesNeverRegress(cs: seq<Logged>, i: nat, j: nat)
    requires var h := Run(cs).events; i < j < |h| && h[i].Wrote? && h[j].Wrote? && h[i].key == h[j].key
    ensures Run(cs).events[i].token <= Run(cs).events[j].token
  {
    RunKeeps(cs);
    assert Ordered(Run(cs).events[i], Run(cs).events[j]);
  }

  /** A token starts at most one execution. */
  lemma OneStartPerToken(cs: seq<Logged>, i: nat, j: nat)
    requires var h := Run(cs).events; i < j < |h| && h[i].Started? && h[j].Started?
    ensures Run(cs).events[i].token != Run(cs).events[j].token
  {
    RunKeeps(cs);
    assert Ordered(Run(cs).events[i], Run(cs).events[j]);
  }

  /** Whoever finishes a job is who last started it: same worker, same token, same execution. */
  lemma FinishMatchesStart(cs: seq<Logged>, i: nat)
    requires i < |Run(cs).events| && Run(cs).events[i].Finished?
    ensures var h := Run(cs).events;
            LastStart(h[..i], h[i].id) == Some(Started(h[i].id, h[i].worker, h[i].token, h[i].executionId))
  {
    RunKeeps(cs);
    assert FinishOk(Run(cs).events, i);
  }

  /** A job is finished at most once. */
  lemma FinishedOnce(cs: seq<Logged>, i: nat, j: nat)
    requires var h := Run(cs).events; i < j < |h| && h[i].Finished? && h[j].Finished?
    ensures Run(cs).events[i].id != Run(cs).events[j].id
  {
    RunKeeps(cs);
    assert Ordered(Run(cs).events[i], Run(cs).events[j]);
  }
}
