/** When calls end in cancellation, and what calls that share a retrieval have in common. */
module Cancellation {
  import opened Basics
  import opened Decoder
  import opened Tables
  import opened Replies
  import opened Protocol
  import opened Invariant
  import opened Guarantees

  /** The step cancels a call that waits for task `i`, which is not finished. */
  ghost predicate Cancels(s: State, l: Label, i: nat) {
    && l.Cancel? && l.call < |s.calls| && BlockedOn(s.calls[l.call], i)
    && i < |s.tasks| && !s.tasks[i].point.Finished?
  }

  /** From state `n + 1` to state `m`, the task never waits for a Mercury reply that is in. */
  ghost predicate NoReply(states: seq<State>, i: nat, n: nat, m: nat) {
    forall q | n < q <= m && q < |states| && i < |states[q].tasks| ::
      !ReplyIn(states[q].tables, states[q].tasks[i].point)
  }

  /** Step `n` cancels task `i`, and in Python 3.11 no reply overtakes that up to state `m`. */
  ghost predicate InTime(cfg: Config, states: seq<State>, labels: seq<Label>, i: nat, n: nat, m: nat) {
    && n < m && n < |labels| && n < |states|
    && Cancels(states[n], labels[n], i)
    && (cfg.prompt || NoReply(states, i, n, m))
  }

  // ---------------------------------------------------------------- one step

  ghost predicate Cancelling(task: Task) {
    task.cancelling || task.point == Finished(CancelledError)
  }

  /** What cancelling a task comes to when it resumes. */
  lemma ResumeCancelling(lib: Library, cfg: Config, s: State, i: nat, e: Event)
    requires CanResume(cfg, s, i, e)
    ensures var task, task' := s.tasks[i], ResumeTask(lib, cfg, s, i, e).tasks[i];
            if !task.cancelling then !Cancelling(task')
            else if ReplyIn(s.tables, task.point) && !cfg.prompt then !Cancelling(task')
            else task'.point == Finished(CancelledError)
  {
    hide Inline, ExchangeReply, RetrieveReply, SecretFromPayload, ParseKey, EndAttempt, EndExchange;
    var p, u := s.tasks[i].point, AtEnd(s, i, e);
    ResumeEnds(lib, cfg, s, i, e);
    match Ends(lib, cfg, s, i, e)
    case ExchangeEnds(secret) => EndExchangeUncancelled(u, i, p.attempt, secret);
    case AttemptEnds(key) => EndAttemptUncancelled(cfg, u, i, p.attempt, p.context, key);
    case NoEnd =>
  }

  lemma EndExchangeUncancelled(u: State, i: nat, a: Attempt, secret: Result<Bytes>)
    requires i < |u.tasks|
    ensures var task' := EndExchange(u, i, a, secret).tasks[i];
            task'.cancelling == u.tasks[i].cancelling && task'.point != Finished(CancelledError)
  {
  }

  lemma EndAttemptUncancelled(cfg: Config, u: State, i: nat, a: Attempt, context: Context, key: Result<Models.Key>)
    requires i < |u.tasks|
    ensures var task' := EndAttempt(cfg, u, i, a, context, key).tasks[i];
            task'.cancelling == u.tasks[i].cancelling && task'.point != Finished(CancelledError)
  {
    hide KmsText.IsSessionError, KmsText.RetryFailure;
  }

  /** Every other step leaves a task alone or cancels it, and a reply that is in stays in. */
  lemma StepOnTask(lib: Library, cfg: Config, s: State, l: Label, i: nat)
    requires Enabled(cfg, s, l) && i < |s.tasks| && !(l.Resume? && l.task == i)
    requires forall c | 0 <= c < |s.calls| :: s.calls[c].over.None? ==> s.calls[c].task.Some?
    ensures var s' := Step(lib, cfg, s, l);
            && i < |s'.tasks|
            && s'.tasks[i] == (if Cancels(s, l, i) then s.tasks[i].(cancelling := true) else s.tasks[i])
            && (ReplyIn(s.tables, s.tasks[i].point) ==> ReplyIn(s'.tables, s'.tasks[i].point))
  {
    hide ResumeTask, CanResume, EnterCall, FinishCall, Process, Store;
    StepDoneStays(lib, cfg, s, l);
    match l
    case Resume(j, e) => ResumeIsOneTask(lib, cfg, s, j, e);
    case GetKey(uri) => EnterCallTasks(cfg, s, uri);
    case Finish(c) => FinishCallTasks(s, c);
    case _ =>
  }

  lemma EnterCallTasks(cfg: Config, s: State, uri: string)
    ensures var s' := EnterCall(cfg, s, uri);
            && |s.tasks| <= |s'.tasks| && s'.tasks[..|s.tasks|] == s.tasks
            && forall i | |s.tasks| <= i < |s'.tasks| :: !Cancelling(s'.tasks[i])
  {
    hide KmsText.ParseKmsUri;
  }

  lemma FinishCallTasks(s: State, c: nat)
    requires CanFinish(s, c)
    ensures FinishCall(s, c).tasks == s.tasks
  {
  }

  lemma NewTasksUncancelled(lib: Library, cfg: Config, s: State, l: Label, i: nat)
    requires Enabled(cfg, s, l) && |s.tasks| <= i < |Step(lib, cfg, s, l).tasks|
    ensures !Cancelling(Step(lib, cfg, s, l).tasks[i])
  {
    hide ResumeTask, CanResume, EnterCall, FinishCall, Process, Store;
    match l
    case Resume(j, e) => ResumeIsOneTask(lib, cfg, s, j, e);
    case GetKey(uri) => EnterCallTasks(cfg, s, uri);
    case Finish(c) => FinishCallTasks(s, c);
    case _ =>
  }

  /** The task can end only in cancellation, as long as no reply intervenes. */
  ghost predicate Committed(task: Task) {
    if task.point.Finished? then task.point == Finished(CancelledError) else task.cancelling
  }

  lemma StepCancelling(lib: Library, cfg: Config, s: State, l: Label, i: nat)
    requires Inv(lib, cfg, s) && Enabled(cfg, s, l) && i < |s.tasks|
    ensures var s' := Step(lib, cfg, s, l);
            && i < |s'.tasks|
            && (Cancelling(s'.tasks[i]) ==> Cancelling(s.tasks[i]) || Cancels(s, l, i))
            && (Cancelling(s'.tasks[i]) && ReplyIn(s.tables, s.tasks[i].point) && !cfg.prompt ==>
                  ReplyIn(s'.tables, s'.tasks[i].point))
            && (Cancels(s, l, i) ==> Committed(s'.tasks[i]))
            && (Committed(s.tasks[i]) && (cfg.prompt || !ReplyIn(s.tables, s.tasks[i].point)) ==>
                  Committed(s'.tasks[i]))
  {
    hide ResumeTask, EnterCall, FinishCall, CancelCall, Process, Store, ReplyIn, RequestsOk, FuturesOk, LockOk, StatsOk,
      AttemptsOk, CacheOk;
    if l.Resume? && l.task == i {
      ResumeIsOneTask(lib, cfg, s, i, l.event);
      ResumeCancelling(lib, cfg, s, i, l.event);
    } else {
      StepOnTask(lib, cfg, s, l, i);
    }
  }

  // ---------------------------------------------------------------- tasks over a run

  /** The task was cancelled at step `n`; in Python 3.11, no reply has overtaken that unless one is in at state `m`. */
  ghost predicate Traced(cfg: Config, states: seq<State>, labels: seq<Label>, i: nat, n: nat, m: nat) {
    && n < m < |states| && n < |labels| && i < |states[m].tasks|
    && Cancels(states[n], labels[n], i)
    && (cfg.prompt || ReplyIn(states[m].tables, states[m].tasks[i].point) || NoReply(states, i, n, m))
  }

  ghost predicate WasCancelled(cfg: Config, states: seq<State>, labels: seq<Label>, i: nat, m: nat) {
    exists n: nat :: Traced(cfg, states, labels, i, n, m)
  }

  lemma {:induction false} CancellingIsTraced(lib: Library, cfg: Config, states: seq<State>, labels: seq<Label>, m: nat,
                                              i: nat)
    requires IsRun(lib, cfg, states, labels) && m < |states| && i < |states[m].tasks|
    requires Cancelling(states[m].tasks[i])
    ensures WasCancelled(cfg, states, labels, i, m)
  {
    hide Step, Enabled, Inv, ReplyIn, Cancels, Cancelling, WasCancelled;
    assert m > 0;
    var before := m - 1;
    var s, l := states[before], labels[before];
    assert IsStep(lib, cfg, s, l, states[before + 1]);
    if i >= |s.tasks| {
      NewTasksUncancelled(lib, cfg, s, l, i);
    } else {
      if Cancelling(s.tasks[i]) {
        CancellingIsTraced(lib, cfg, states, labels, before, i);
      }
      RunKeeps(lib, cfg, states, labels, before);
      TraceStep(lib, cfg, states, labels, before, i);
    }
  }

  lemma TraceStep(lib: Library, cfg: Config, states: seq<State>, labels: seq<Label>, m: nat, i: nat)
    requires m + 1 < |states| && m < |labels| && IsStep(lib, cfg, states[m], labels[m], states[m + 1])
    requires i < |states[m].tasks| && i < |states[m + 1].tasks| && Inv(lib, cfg, states[m])
    requires Cancelling(states[m].tasks[i]) ==> WasCancelled(cfg, states, labels, i, m)
    requires Cancelling(states[m + 1].tasks[i])
    ensures WasCancelled(cfg, states, labels, i, m + 1)
  {
    hide Step, Cancels, Enabled, Inv, ReplyIn, Cancelling, Committed;
    var s, l, next := states[m], labels[m], m + 1;
    StepCancelling(lib, cfg, s, l, i);
    if Cancelling(s.tasks[i]) {
      var n: nat :| Traced(cfg, states, labels, i, n, m);
      assert Traced(cfg, states, labels, i, n, next);
    } else {
      assert Traced(cfg, states, labels, i, m, next);
    }
  }

  /** A task that is cancelled in time is being cancelled from then on, until it ends in cancellation. */
  lemma {:induction false} StaysCancelled(lib: Library, cfg: Config, states: seq<State>, labels: seq<Label>, i: nat,
                                          n: nat, m: nat)
    requires IsRun(lib, cfg, states, labels) && m < |states| && InTime(cfg, states, labels, i, n, m)
    ensures i < |states[m].tasks| && Committed(states[m].tasks[i])
  {
    hide Inv, Step, Enabled, ReplyIn, Committed;
    var before := m - 1;
    var s, l := states[before], labels[before];
    assert IsStep(lib, cfg, s, l, states[before + 1]);
    RunKeeps(lib, cfg, states, labels, before);
    if n < before {
      assert InTime(cfg, states, labels, i, n, before);
      StaysCancelled(lib, cfg, states, labels, i, n, before);
    }
    StepCancelling(lib, cfg, s, l, i);
  }

  /**
   Exactly when a retrieval ends in cancellation: a call that waits for it is cancelled while it is unfinished and, in
   Python 3.11, no reply it waits for is in when it resumes. From Python 3.12 on, the first alone decides.
   */
  lemma CancelledIff(lib: Library, cfg: Config, states: seq<State>, labels: seq<Label>, m: nat, i: nat)
    requires IsRun(lib, cfg, states, labels) && m < |states| && i < |states[m].tasks|
    requires states[m].tasks[i].point.Finished?
    ensures states[m].tasks[i].point.outcome == CancelledError <==>
            exists n: nat :: InTime(cfg, states, labels, i, n, m)
  {
    hide IsRun, Cancels, NoReply;
    if states[m].tasks[i].point.outcome == CancelledError {
      CancellingIsTraced(lib, cfg, states, labels, m, i);
      var n: nat :| Traced(cfg, states, labels, i, n, m);
      assert InTime(cfg, states, labels, i, n, m);
    }
    if n: nat :| InTime(cfg, states, labels, i, n, m) {
      StaysCancelled(lib, cfg, states, labels, i, n, m);
    }
  }

  // ---------------------------------------------------------------- calls over a run

  /** Step `n` cancels call `c` after its retrieval has finished, but before the call has taken the outcome. */
  ghost predicate TooLate(states: seq<State>, labels: seq<Label>, c: nat, n: nat, m: nat) {
    && n < m && n < |labels| && n < |states| && labels[n] == Cancel(c) && CanCancel(states[n], c)
    && states[n].tasks[states[n].calls[c].task.value].point.Finished?
  }

  /** A step leaves a call's task as it is, and cancels the call only by name. */
  lemma StepOnCall(lib: Library, cfg: Config, s: State, l: Label, c: nat)
    requires Enabled(cfg, s, l) && c < |Step(lib, cfg, s, l).calls|
    ensures var call' := Step(lib, cfg, s, l).calls[c];
            if c >= |s.calls| then !call'.mustCancel
            else
              && call'.task == s.calls[c].task
              && (call'.mustCancel <==>
                    s.calls[c].mustCancel
                    || (l == Cancel(c) && s.tasks[s.calls[c].task.value].point.Finished?))
  {
    hide ResumeTask, CanResume, KmsText.ParseKmsUri, Process, Store;
    if l.Resume? {
      ResumeIsOneTask(lib, cfg, s, l.task, l.event);
    }
  }

  lemma {:induction false} MustCancelIff(lib: Library, cfg: Config, states: seq<State>, labels: seq<Label>, m: nat,
                                         c: nat)
    requires IsRun(lib, cfg, states, labels) && m < |states| && c < |states[m].calls|
    ensures states[m].calls[c].mustCancel <==> exists n: nat :: TooLate(states, labels, c, n, m)
  {
    hide Step, ResumeTask, CanResume;
    if m > 0 {
      var before := m - 1;
      var s, l := states[before], labels[before];
      assert IsStep(lib, cfg, s, l, states[before + 1]);
      StepOnCall(lib, cfg, s, l, c);
      if c < |s.calls| {
        MustCancelIff(lib, cfg, states, labels, before, c);
        if n: nat :| TooLate(states, labels, c, n, before) {
          assert TooLate(states, labels, c, n, m);
        }
        assert l == Cancel(c) && s.tasks[s.calls[c].task.value].point.Finished? ==>
                 TooLate(states, labels, c, before, m);
        if n: nat :| TooLate(states, labels, c, n, m) {
          assert n < before ==> TooLate(states, labels, c, n, before);
        }
      } else {
        NotYetCalled(lib, cfg, states, labels, before, m, c);
      }
    }
  }

  /** Calls are never dropped, so a call that is not there yet has never been cancelled. */
  lemma NotYetCalled(lib: Library, cfg: Config, states: seq<State>, labels: seq<Label>, k: nat, m: nat, c: nat)
    requires IsRun(lib, cfg, states, labels) && k < |states| && m == k + 1 && c >= |states[k].calls|
    ensures forall n: nat :: !TooLate(states, labels, c, n, m)
  {
    forall n: nat ensures !TooLate(states, labels, c, n, m) {
      if n <= k {
        CallsGrow(lib, cfg, states, labels, n, k);
      }
    }
  }

  lemma {:induction false} CallsGrow(lib: Library, cfg: Config, states: seq<State>, labels: seq<Label>, n: nat, m: nat)
    requires IsRun(lib, cfg, states, labels) && n <= m < |states|
    ensures |states[n].calls| <= |states[m].calls|
  {
    hide Step, ResumeTask, CanResume;
    if n < m {
      CallsGrow(lib, cfg, states, labels, n, m - 1);
      assert IsStep(lib, cfg, states[m - 1], labels[m - 1], states[m - 1 + 1]);
      StepCalls(lib, cfg, states[m - 1], labels[m - 1]);
    }
  }

  lemma StepCalls(lib: Library, cfg: Config, s: State, l: Label)
    requires Enabled(cfg, s, l)
    ensures |s.calls| <= |Step(lib, cfg, s, l).calls|
  {
    hide ResumeTask, CanResume, KmsText.ParseKmsUri, Process, Store;
    if l.Resume? {
      ResumeIsOneTask(lib, cfg, s, l.task, l.event);
    }
  }

  /** All calls that share a retrieval end as it does, and so alike, but for those cancelled after it had finished. */
  lemma SharedOutcome(lib: Library, cfg: Config, states: seq<State>, labels: seq<Label>, m: nat, c: nat, d: nat)
    requires IsRun(lib, cfg, states, labels) && m < |states| && c < |states[m].calls| && d < |states[m].calls|
    requires states[m].calls[c].over.Some? && states[m].calls[d].over.Some?
    requires states[m].calls[c].task.Some? && states[m].calls[c].task == states[m].calls[d].task
    ensures states[m].calls[c].uri == states[m].calls[d].uri
    ensures (forall n: nat :: !TooLate(states, labels, c, n, m) && !TooLate(states, labels, d, n, m)) ==>
              states[m].calls[c].over == states[m].calls[d].over
    ensures (exists n: nat :: TooLate(states, labels, c, n, m)) ==> states[m].calls[c].over == Some(CancelledError)
  {
    hide IsRun, TooLate, RequestsOk, FuturesOk, LockOk, StatsOk, AttemptsOk, CacheOk;
    RunKeeps(lib, cfg, states, labels, m);
    MustCancelIff(lib, cfg, states, labels, m, c);
    MustCancelIff(lib, cfg, states, labels, m, d);
    assert CallOk(states[m], states[m].calls[c]) && CallOk(states[m], states[m].calls[d]);
  }

  /**
   Exactly when a call ends in cancellation: it was itself cancelled after its retrieval had finished, or a call that
   waits for the same retrieval, be it this one or another, was cancelled in time. So a call nobody cancelled ends
   cancelled exactly when another was cancelled while their retrieval was unfinished and, in Python 3.11, its reply was
   not yet in.
   */
  lemma CallCancelledIff(lib: Library, cfg: Config, states: seq<State>, labels: seq<Label>, m: nat, c: nat)
    requires IsRun(lib, cfg, states, labels) && m < |states| && c < |states[m].calls|
    requires states[m].calls[c].over.Some?
    ensures states[m].calls[c].over == Some(CancelledError) <==>
            || (exists n: nat :: TooLate(states, labels, c, n, m))
            || (states[m].calls[c].task.Some?
                && exists n: nat :: InTime(cfg, states, labels, states[m].calls[c].task.value, n, m))
  {
    hide IsRun, TooLate, InTime, RequestsOk, FuturesOk, LockOk, StatsOk, AttemptsOk, CacheOk;
    RunKeeps(lib, cfg, states, labels, m);
    MustCancelIff(lib, cfg, states, labels, m, c);
    var call := states[m].calls[c];
    assert CallOk(states[m], call);
    if call.task.Some? {
      CancelledIff(lib, cfg, states, labels, m, call.task.value);
    }
  }
}
