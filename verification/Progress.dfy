/** Termination and freedom from deadlock. */
module Progress {
  import opened Basics
  import opened Decoder
  import opened Tables
  import opened HttpRetry
  import opened Replies
  import opened Protocol
  import opened Invariant
  import opened Guarantees

  /** How many more waits a task at this point can go through. */
  function Rank(p: Point): nat {
    match p
    case Finished(_) => 0
    case Listening(a, _, _) => 1 + Base(a)
    case Sending(a, _, _) => 2 + Base(a)
    case Addressing(a, _) => 3 + Base(a)
    case Awaiting(a, _, _) => 4 + Base(a)
    case Posting(a, _, _) => 5 + Base(a)
    case Preparing(a) => 6 + Base(a)
    case NeedSession(a) => 7 + Base(a)
    case NeedInvalidation(_, _) => 8
  }

  function Base(a: Attempt): nat {
    if a.First? then 8 else 0
  }

  /** The timer of a Mercury wait may fire once more as long as the future is open. */
  function Armed(t: Tables, p: Point): nat {
    if (p.Awaiting? || p.Listening?) && p.id in t.futures && t.futures[p.id].Waiting? then 1 else 0
  }

  function Measure(t: Tables, task: Task): nat {
    2 * Rank(task.point) + Armed(t, task.point)
  }

  function TaskWork(t: Tables, tasks: seq<Task>): nat {
    if tasks == [] then 0 else TaskWork(t, tasks[..|tasks| - 1]) + Measure(t, tasks[|tasks| - 1])
  }

  function BlockedCalls(calls: seq<Call>): nat {
    if calls == [] then 0 else BlockedCalls(calls[..|calls| - 1]) + if Blocked(calls[|calls| - 1]) then 1 else 0
  }

  /** A bound on the steps that tasks and calls still have to take. */
  function Total(s: State): nat {
    TaskWork(s.tables, s.tasks) + BlockedCalls(s.calls)
  }

  /** A step by which a task or a call gets on. */
  predicate IsWork(l: Label) {
    l.Resume? || l.Finish?
  }

  // ---------------------------------------------------------------- sums

  lemma {:induction false} TaskWorkMonotone(t: Tables, tasks: seq<Task>, t': Tables, tasks': seq<Task>)
    requires |tasks| == |tasks'|
    requires forall j | 0 <= j < |tasks| :: Measure(t', tasks'[j]) <= Measure(t, tasks[j])
    ensures TaskWork(t', tasks') <= TaskWork(t, tasks)
  {
    if tasks != [] {
      TaskWorkMonotone(t, tasks[..|tasks| - 1], t', tasks'[..|tasks| - 1]);
    }
  }

  lemma {:induction false} TaskWorkDescends(t: Tables, tasks: seq<Task>, t': Tables, tasks': seq<Task>, i: nat)
    requires |tasks| == |tasks'| && i < |tasks|
    requires forall j | 0 <= j < |tasks| :: Measure(t', tasks'[j]) <= Measure(t, tasks[j])
    requires Measure(t', tasks'[i]) < Measure(t, tasks[i])
    ensures TaskWork(t', tasks') < TaskWork(t, tasks)
  {
    if i == |tasks| - 1 {
      TaskWorkMonotone(t, tasks[..|tasks| - 1], t', tasks'[..|tasks| - 1]);
    } else {
      TaskWorkDescends(t, tasks[..|tasks| - 1], t', tasks'[..|tasks| - 1], i);
    }
  }

  lemma {:induction false} BlockedCallsUpdate(calls: seq<Call>, c: nat, call: Call)
    requires c < |calls|
    ensures BlockedCalls(calls[c := call]) ==
            BlockedCalls(calls) - (if Blocked(calls[c]) then 1 else 0) + if Blocked(call) then 1 else 0
  {
    var n := |calls| - 1;
    if c == n {
      assert calls[c := call][..n] == calls[..n];
    } else {
      assert calls[c := call][..n] == calls[..n][c := call];
      BlockedCallsUpdate(calls[..n], c, call);
    }
  }

  // ---------------------------------------------------------------- each step against the bound

  lemma EndExchangeLower(u: State, i: nat, a: Attempt, secret: Result<Bytes>)
    requires i < |u.tasks|
    ensures var s' := EndExchange(u, i, a, secret); Measure(s'.tables, s'.tasks[i]) <= 6 + 2 * Base(a)
  {
    hide Drop;
  }

  lemma EndAttemptLower(cfg: Config, u: State, i: nat, a: Attempt, context: Context, key: Result<Models.Key>)
    requires i < |u.tasks|
    ensures var s' := EndAttempt(cfg, u, i, a, context, key); Measure(s'.tables, s'.tasks[i]) <= 2 * Base(a)
  {
    hide Drop, KmsText.IsSessionError, KmsText.RetryFailure;
  }

  lemma ResumeDescends(lib: Library, cfg: Config, s: State, i: nat, e: Event)
    requires CanResume(cfg, s, i, e)
    ensures var s' := ResumeTask(lib, cfg, s, i, e);
            Measure(s'.tables, s'.tasks[i]) < Measure(s.tables, s.tasks[i])
  {
    hide ResumeTask, Ends, EndAttempt, EndExchange;
    var p, u := s.tasks[i].point, AtEnd(s, i, e);
    ResumeEnds(lib, cfg, s, i, e);
    match Ends(lib, cfg, s, i, e)
    case ExchangeEnds(secret) => EndExchangeLower(u, i, p.attempt, secret);
    case AttemptEnds(key) => EndAttemptLower(cfg, u, i, p.attempt, p.context, key);
    case NoEnd => NoEndDescends(lib, cfg, s, i, e);
  }

  lemma NoEndDescends(lib: Library, cfg: Config, s: State, i: nat, e: Event)
    requires CanResume(cfg, s, i, e) && Ends(lib, cfg, s, i, e).NoEnd?
    ensures var s' := ResumeTask(lib, cfg, s, i, e);
            Measure(s'.tables, s'.tasks[i]) < Measure(s.tables, s.tasks[i])
  {
    hide Inline, ExchangeReply, RetrieveReply, SecretFromPayload, ParseKey, EndAttempt, EndExchange, Drop;
  }

  lemma OthersDoNotRise(lib: Library, cfg: Config, s: State, i: nat, e: Event, j: nat)
    requires CanResume(cfg, s, i, e) && RequestsOk(s) && j < |s.tasks| && j != i
    ensures var s' := ResumeTask(lib, cfg, s, i, e);
            j < |s'.tasks| && Measure(s'.tables, s'.tasks[j]) <= Measure(s.tables, s.tasks[j])
  {
    hide ResumeTask, CanResume;
    ResumeRequests(lib, cfg, s, i, e);
    assert RequestOk(s.tables, s.tasks[j]);
  }

  lemma ResumeWorks(lib: Library, cfg: Config, s: State, i: nat, e: Event)
    requires CanResume(cfg, s, i, e) && RequestsOk(s)
    ensures Total(ResumeTask(lib, cfg, s, i, e)) < Total(s)
  {
    var s' := ResumeTask(lib, cfg, s, i, e);
    ResumeIsOneTask(lib, cfg, s, i, e);
    ResumeDescends(lib, cfg, s, i, e);
    forall j | 0 <= j < |s.tasks| && j != i ensures Measure(s'.tables, s'.tasks[j]) <= Measure(s.tables, s.tasks[j]) {
      OthersDoNotRise(lib, cfg, s, i, e, j);
    }
    TaskWorkDescends(s.tables, s.tasks, s'.tables, s'.tasks, i);
  }

  /** Futures only close, and points stay: the work of the tasks does not grow. */
  lemma FuturesOnlyClose(s: State, s': State)
    requires |s'.tasks| == |s.tasks| && forall j | 0 <= j < |s.tasks| :: s'.tasks[j].point == s.tasks[j].point
    requires forall id | id in s'.tables.futures && s'.tables.futures[id].Waiting? ::
               id in s.tables.futures && s.tables.futures[id].Waiting?
    ensures TaskWork(s'.tables, s'.tasks) <= TaskWork(s.tables, s.tasks)
  {
    TaskWorkMonotone(s.tables, s.tasks, s'.tables, s'.tasks);
  }

  lemma EnterCallAdds(cfg: Config, s: State, uri: string)
    ensures Total(EnterCall(cfg, s, uri)) <= Total(s) + 31
  {
    hide KmsText.ParseKmsUri;
    var s' := EnterCall(cfg, s, uri);
    assert s'.calls[..|s.calls|] == s.calls;
    TaskWorkMonotone(s.tables, s.tasks, s'.tables, s.tasks);
    if |s'.tasks| > |s.tasks| {
      assert s'.tasks[..|s.tasks|] == s.tasks;
    }
  }

  lemma FinishLowers(s: State, c: nat)
    requires CanFinish(s, c)
    ensures Total(FinishCall(s, c)) < Total(s)
  {
    hide Measure, TaskWork;
    FuturesOnlyClose(s, FinishCall(s, c));
    BlockedCallsUpdate(s.calls, c, FinishCall(s, c).calls[c]);
  }

  lemma CancelDoesNotRaise(cfg: Config, s: State, c: nat)
    requires CanCancel(s, c)
    ensures Total(CancelCall(cfg, s, c)) <= Total(s)
  {
    hide Measure, TaskWork;
    FuturesOnlyClose(s, CancelCall(cfg, s, c));
    BlockedCallsUpdate(s.calls, c, CancelCall(cfg, s, c).calls[c]);
  }

  lemma MercuryDoesNotRaise(lib: Library, s: State, batch: seq<string>)
    ensures Total(s.(tables := Process(lib, s.tables, batch))) <= Total(s)
  {
    hide Measure, TaskWork, HandleAll, Has;
    HandleAllGrows(lib, Secret(s.tables), ExchangeKeys(s.tables.pending), s.tables, batch);
    FuturesOnlyClose(s, s.(tables := Process(lib, s.tables, batch)));
  }

  /** Work lowers the bound, a new call raises it by at most 31, and nothing else raises it. */
  lemma StepAgainstBound(lib: Library, cfg: Config, s: State, l: Label)
    requires Inv(lib, cfg, s) && Enabled(cfg, s, l)
    ensures IsWork(l) ==> Total(Step(lib, cfg, s, l)) < Total(s)
    ensures l.GetKey? ==> Total(Step(lib, cfg, s, l)) <= Total(s) + 31
    ensures !IsWork(l) && !l.GetKey? ==> Total(Step(lib, cfg, s, l)) <= Total(s)
  {
    hide ResumeTask, CanResume, EnterCall, FinishCall, CancelCall, Process, Measure, TaskWork, RequestsOk, FuturesOk,
      LockOk, StatsOk, AttemptsOk, CallsOk, CacheOk;
    match l
    case Resume(i, e) => ResumeWorks(lib, cfg, s, i, e);
    case GetKey(uri) => EnterCallAdds(cfg, s, uri);
    case Finish(c) => FinishLowers(s, c);
    case Cancel(c) => CancelDoesNotRaise(cfg, s, c);
    case Mercury(batch) => MercuryDoesNotRaise(lib, s, batch);
    case CacheKey(key) => FuturesOnlyClose(s, s.(tables := Store(s.tables, key)));
    case Tick(now) => FuturesOnlyClose(s, s.(now := now));
  }

  // ---------------------------------------------------------------- bounded work

  function WorkSteps(labels: seq<Label>): nat {
    if labels == [] then 0 else WorkSteps(labels[..|labels| - 1]) + if IsWork(labels[|labels| - 1]) then 1 else 0
  }

  function CallSteps(labels: seq<Label>): nat {
    if labels == [] then 0 else CallSteps(labels[..|labels| - 1]) + if labels[|labels| - 1].GetKey? then 1 else 0
  }

  /**
   In every run, tasks and calls take at most 31 steps for each `get_key` call made, however long the run is and
   whatever else happens in it: no retrieval goes on for ever.
   */
  lemma {:induction false} WorkIsBounded(lib: Library, cfg: Config, states: seq<State>, labels: seq<Label>)
    requires IsRun(lib, cfg, states, labels)
    ensures WorkSteps(labels) + Total(states[|labels|]) <= 31 * CallSteps(labels)
  {
    hide Step, Enabled, Inv, IsWork;
    var n := |labels| - 1;
    if n >= 0 {
      var earlier, done := states[..n + 1], labels[..n];
      forall k | 0 <= k < n ensures IsStep(lib, cfg, earlier[k], done[k], earlier[k + 1]) {
        assert IsStep(lib, cfg, states[k], labels[k], states[k + 1]);
      }
      WorkIsBounded(lib, cfg, earlier, done);
      RunKeeps(lib, cfg, states, labels, n);
      assert IsStep(lib, cfg, states[n], labels[n], states[n + 1]);
      StepAgainstBound(lib, cfg, states[n], labels[n]);
    }
  }

  // ---------------------------------------------------------------- no deadlock

  /** A step that needs nothing from the KMS: HTTP calls fail in transport, and no Mercury message comes. */
  ghost predicate Unaided(l: Label) {
    && IsWork(l)
    && (l.Resume? && l.event.Replied? ==> exists error :: l.event.run == [Failure(error)])
  }

  ghost predicate UnaidedResume(cfg: Config, s: State, h: nat, e: Event) {
    Unaided(Resume(h, e)) && CanResume(cfg, s, h, e)
  }

  /** An unfinished task, or failing that the task that holds the lock it waits for, can be resumed without aid. */
  lemma TaskCanMove(lib: Library, cfg: Config, s: State, i: nat) returns (l: Label)
    requires Inv(lib, cfg, s) && i < |s.tasks| && !s.tasks[i].point.Finished?
    ensures Unaided(l) && Enabled(cfg, s, l)
    ensures s.tasks[i].point.Exchanging() ==> l == Resume(i, Nudge(cfg, s, i))
  {
    hide FuturesOk, StatsOk, AttemptsOk, CallsOk, CacheOk;
    var p := s.tasks[i].point;
    assert RequestOk(s.tables, s.tasks[i]);
    if !s.tasks[i].cancelling && (p.NeedSession? || p.NeedInvalidation?) && s.tables.lock.Some? {
      var h := s.tables.lock.value;
      assert s.tasks[h].point.Exchanging();
      assert RequestOk(s.tables, s.tasks[h]);
      l := Resume(h, Nudge(cfg, s, h));
    } else {
      l := Resume(i, Nudge(cfg, s, i));
    }
  }

  /** What can happen to a task that is not waiting for the lock. */
  function Nudge(cfg: Config, s: State, i: nat): Event
    requires i < |s.tasks|
  {
    var p, t := s.tasks[i].point, s.tables;
    if s.tasks[i].cancelling then if ReplyIn(t, p) && !cfg.prompt then Notified else Unwound(0)
    else if p.NeedSession? || p.NeedInvalidation? then Granted
    else if p.Preparing? || p.Addressing? then Failed("")
    else if p.Posting? || p.Sending? then Replied([Failure("")])
    else if (p.Awaiting? || p.Listening?) && p.id in t.futures && t.futures[p.id].Waiting? then TimerFired
    else if ReplyIn(t, p) then Notified
    else TimedOut
  }

  /**
   In every state of every run with an unfinished call, some task or call can get on, without aid from the KMS. Whoever
   holds the session lock is in an exchange and can itself get on.
   */
  lemma NoDeadlock(lib: Library, cfg: Config, states: seq<State>, labels: seq<Label>, k: nat)
    requires IsRun(lib, cfg, states, labels) && k < |states|
    ensures !Quiet(states[k]) ==> exists l :: Unaided(l) && Enabled(cfg, states[k], l)
    ensures forall h | 0 <= h < |states[k].tasks| && states[k].tables.lock == Some(h) ::
              states[k].tasks[h].point.Exchanging() && exists e :: UnaidedResume(cfg, states[k], h, e)
  {
    hide CanResume, Unaided, Nudge, RequestsOk, FuturesOk, StatsOk, AttemptsOk, CallsOk, CacheOk;
    RunKeeps(lib, cfg, states, labels, k);
    var s := states[k];
    if !Quiet(s) {
      var l := SomeoneCanMove(lib, cfg, s);
    }
    forall h | 0 <= h < |s.tasks| && s.tables.lock == Some(h)
      ensures s.tasks[h].point.Exchanging() && exists e :: UnaidedResume(cfg, s, h, e)
    {
      var l := TaskCanMove(lib, cfg, s, h);
      assert UnaidedResume(cfg, s, h, l.event);
    }
  }

  lemma SomeoneCanMove(lib: Library, cfg: Config, s: State) returns (l: Label)
    requires Inv(lib, cfg, s) && !Quiet(s)
    ensures Unaided(l) && Enabled(cfg, s, l)
  {
    var c :| 0 <= c < |s.calls| && s.calls[c].over.None?;
    assert CallOk(s, s.calls[c]);
    var i := s.calls[c].task.value;
    if s.tasks[i].point.Finished? {
      l := Finish(c);
    } else {
      l := TaskCanMove(lib, cfg, s, i);
    }
  }

  /** A path with a step put in front. */
  lemma Prepend(lib: Library, cfg: Config, s: State, l: Label, states: seq<State>, labels: seq<Label>)
    requires IsPath(lib, cfg, states, labels) && IsStep(lib, cfg, s, l, states[0])
    ensures IsPath(lib, cfg, [s] + states, [l] + labels)
  {
    hide Step, Enabled;
    var states', labels' := [s] + states, [l] + labels;
    forall k | 0 <= k < |labels'| ensures IsStep(lib, cfg, states'[k], labels'[k], states'[k + 1]) {
      if k > 0 {
        assert IsStep(lib, cfg, states[k - 1], labels[k - 1], states[k - 1 + 1]);
      }
    }
  }

  /**
   From any state that keeps the invariant, so from any state of any run, tasks and calls can get on by themselves, with
   no further word from the KMS, until every call is over and nothing is left behind.
   */
  lemma Drain(lib: Library, cfg: Config, s: State) returns (states: seq<State>, labels: seq<Label>)
    requires Inv(lib, cfg, s)
    ensures IsPath(lib, cfg, states, labels) && states[0] == s
    ensures forall k | 0 <= k < |labels| :: Unaided(labels[k])
    ensures |labels| <= Total(s)
    ensures Quiet(states[|labels|]) && QuietTables(states[|labels|])
    decreases Total(s)
  {
    hide Step, Enabled, Inv, Quiet, QuietTables, Total, Unaided;
    if Quiet(s) {
      QuietIsClean(lib, cfg, s);
      states, labels := [s], [];
    } else {
      var l := SomeoneCanMove(lib, cfg, s);
      var next := Step(lib, cfg, s, l);
      StepKeeps(lib, cfg, s, l);
      StepAgainstBound(lib, cfg, s, l);
      var laterStates, laterLabels := Drain(lib, cfg, next);
      Prepend(lib, cfg, s, l, laterStates, laterLabels);
      states, labels := [s] + laterStates, [l] + laterLabels;
    }
  }
}
