/** How retrievals end, over whole runs: with which key or error, and because of which steps. */
module Outcomes {
  import opened Basics
  import opened Models
  import opened Decoder
  import opened Tables
  import opened Replies
  import opened Protocol
  import opened Invariant
  import opened Guarantees
  import opened Attempts

  /** The step ends the exchange of task `i` in this error. */
  ghost predicate ExchangeFails(lib: Library, cfg: Config, s: State, l: Label, i: nat, error: string) {
    && l.Resume? && l.task == i && CanResume(cfg, s, i, l.event)
    && Ends(lib, cfg, s, i, l.event) == ExchangeEnds(Err(error))
  }

  /** The step ends the second attempt of task `i` in this error. */
  ghost predicate SecondFails(lib: Library, cfg: Config, s: State, l: Label, i: nat, error: string) {
    && l.Resume? && l.task == i && CanResume(cfg, s, i, l.event)
    && Retrieving(s.tasks[i].point) && !s.tasks[i].point.attempt.First?
    && Ends(lib, cfg, s, i, l.event) == AttemptEnds(Err(error))
  }

  /** The step ends an attempt of task `i` with this key. */
  ghost predicate AttemptSucceeds(lib: Library, cfg: Config, s: State, l: Label, i: nat, key: Key) {
    && l.Resume? && l.task == i && CanResume(cfg, s, i, l.event)
    && Ends(lib, cfg, s, i, l.event) == AttemptEnds(Ok(key))
  }

  // ---------------------------------------------------------------- one step

  /** The error of the first attempt, at a point past it. */
  function Cause(p: Point): Option<string> {
    if p.NeedInvalidation? then Some(p.error)
    else if p.Finished? || p.attempt.First? then None
    else Some(p.attempt.error)
  }

  lemma ResumeAccounts(lib: Library, cfg: Config, s: State, i: nat, e: Event)
    requires CanResume(cfg, s, i, e)
    ensures var p, p', ends := s.tasks[i].point, ResumeTask(lib, cfg, s, i, e).tasks[i].point, Ends(lib, cfg, s, i, e);
            && (p'.Finished? && p'.outcome.Returned? ==> ends == AttemptEnds(Ok(p'.outcome.key)))
            && (p'.Finished? && p'.outcome.Raised? ==>
                  || ends == ExchangeEnds(Err(p'.outcome.message))
                  || (ends.AttemptEnds? && ends.key.Err? && Retrieving(p) && !p.attempt.First?
                      && p'.outcome.message == BothErrors(p.attempt.error, ends.key.message)))
            && (Cause(p').Some? && Cause(p') != Cause(p) ==>
                  ends == AttemptEnds(Err(Cause(p').value)) && Retrieving(p) && p.attempt.First?)
  {
    hide ResumeTask, Ends, BothErrors, KmsText.IsSessionError;
    match Ends(lib, cfg, s, i, e)
    case ExchangeEnds(_) => ExchangeVerdict(lib, cfg, s, i, e);
    case AttemptEnds(_) => AttemptVerdict(lib, cfg, s, i, e);
    case NoEnd => NoEndAccounts(lib, cfg, s, i, e);
  }

  lemma NoEndAccounts(lib: Library, cfg: Config, s: State, i: nat, e: Event)
    requires CanResume(cfg, s, i, e) && Ends(lib, cfg, s, i, e).NoEnd?
    ensures var p, p' := s.tasks[i].point, ResumeTask(lib, cfg, s, i, e).tasks[i].point;
            if p'.Finished? then p' == Finished(CancelledError) else Cause(p') == Cause(p)
  {
    hide Inline, ExchangeReply, RetrieveReply, SecretFromPayload, ParseKey, EndAttempt, EndExchange;
  }

  // ---------------------------------------------------------------- runs

  /** Attempts of task `i` failed at steps `k` and `n`, the first with `first`, the second with `second`. */
  ghost predicate BothFail(lib: Library, cfg: Config, states: seq<State>, labels: seq<Label>, i: nat, k: nat, n: nat,
                           m: nat, context: Context, first: string, second: string) {
    && k < n < m && n < |labels| && n < |states|
    && FirstFails(lib, cfg, states[k], labels[k], i, context, first)
    && SecondFails(lib, cfg, states[n], labels[n], i, second)
  }

  ghost predicate ExchangeFailed(lib: Library, cfg: Config, states: seq<State>, labels: seq<Label>, i: nat, n: nat,
                                 m: nat, error: string) {
    n < m && n < |labels| && n < |states| && ExchangeFails(lib, cfg, states[n], labels[n], i, error)
  }

  /** Before state `m`, an exchange of the task failed with this error, or both its attempts did, with these errors. */
  ghost predicate Caused(lib: Library, cfg: Config, states: seq<State>, labels: seq<Label>, i: nat, m: nat,
                         message: string) {
    || (exists n: nat :: ExchangeFailed(lib, cfg, states, labels, i, n, m, message))
    || (exists k: nat, n: nat, context, first, second ::
          && BothFail(lib, cfg, states, labels, i, k, n, m, context, first, second)
          && message == BothErrors(first, second))
  }

  ghost predicate FirstFailed(lib: Library, cfg: Config, states: seq<State>, labels: seq<Label>, i: nat, k: nat, m: nat,
                              context: Context, error: string) {
    k < m && k < |labels| && k < |states| && FirstFails(lib, cfg, states[k], labels[k], i, context, error)
  }

  ghost predicate HasFailed(lib: Library, cfg: Config, states: seq<State>, labels: seq<Label>, i: nat, m: nat,
                            error: string) {
    exists k: nat, context :: FirstFailed(lib, cfg, states, labels, i, k, m, context, error)
  }

  ghost predicate SucceededAt(lib: Library, cfg: Config, states: seq<State>, labels: seq<Label>, i: nat, n: nat, m: nat,
                              key: Key) {
    n < m && n < |labels| && n < |states| && AttemptSucceeds(lib, cfg, states[n], labels[n], i, key)
  }

  ghost predicate HasSucceeded(lib: Library, cfg: Config, states: seq<State>, labels: seq<Label>, i: nat, m: nat,
                               key: Key) {
    exists n: nat :: SucceededAt(lib, cfg, states, labels, i, n, m, key)
  }

  /** What the steps so far say about where the task is. */
  ghost predicate Accounted(lib: Library, cfg: Config, states: seq<State>, labels: seq<Label>, i: nat, m: nat,
                            p: Point) {
    && (p.Finished? && p.outcome.Raised? ==> Caused(lib, cfg, states, labels, i, m, p.outcome.message))
    && (p.Finished? && p.outcome.Returned? ==> HasSucceeded(lib, cfg, states, labels, i, m, p.outcome.key))
    && (Cause(p).Some? ==> HasFailed(lib, cfg, states, labels, i, m, Cause(p).value))
  }

  lemma AccountedLater(lib: Library, cfg: Config, states: seq<State>, labels: seq<Label>, i: nat, m: nat, p: Point)
    requires Accounted(lib, cfg, states, labels, i, m, p)
    ensures Accounted(lib, cfg, states, labels, i, m + 1, p)
  {
    hide FirstFails, SecondFails, ExchangeFails, AttemptSucceeds, BothErrors, Cause;
    var next := m + 1;
    if p.Finished? && p.outcome.Raised? {
      CausedLater(lib, cfg, states, labels, i, m, p.outcome.message);
    }
    if p.Finished? && p.outcome.Returned? {
      var n: nat :| SucceededAt(lib, cfg, states, labels, i, n, m, p.outcome.key);
      assert SucceededAt(lib, cfg, states, labels, i, n, next, p.outcome.key);
    }
    if Cause(p).Some? {
      var k: nat, context :| FirstFailed(lib, cfg, states, labels, i, k, m, context, Cause(p).value);
      assert FirstFailed(lib, cfg, states, labels, i, k, next, context, Cause(p).value);
    }
  }

  lemma CausedLater(lib: Library, cfg: Config, states: seq<State>, labels: seq<Label>, i: nat, m: nat, message: string)
    requires Caused(lib, cfg, states, labels, i, m, message)
    ensures Caused(lib, cfg, states, labels, i, m + 1, message)
  {
    hide FirstFails, SecondFails, ExchangeFails, BothErrors;
    var next := m + 1;
    if n: nat :| ExchangeFailed(lib, cfg, states, labels, i, n, m, message) {
      assert ExchangeFailed(lib, cfg, states, labels, i, n, next, message);
    } else {
      var k: nat, n: nat, context, first, second :|
        BothFail(lib, cfg, states, labels, i, k, n, m, context, first, second) && message == BothErrors(first, second);
      assert BothFail(lib, cfg, states, labels, i, k, n, next, context, first, second);
    }
  }

  /** Resuming the task accounts for where it is then. */
  lemma AccountForResume(lib: Library, cfg: Config, states: seq<State>, labels: seq<Label>, i: nat, m: nat)
    requires m < |states| && m < |labels| && i < |states[m].tasks|
    requires labels[m].Resume? && labels[m].task == i && CanResume(cfg, states[m], i, labels[m].event)
    requires Accounted(lib, cfg, states, labels, i, m, states[m].tasks[i].point)
    ensures Accounted(lib, cfg, states, labels, i, m + 1,
                      ResumeTask(lib, cfg, states[m], i, labels[m].event).tasks[i].point)
  {
    var s, l, next := states[m], labels[m], m + 1;
    var p, p' := s.tasks[i].point, ResumeTask(lib, cfg, s, i, l.event).tasks[i].point;
    ResumeAccounts(lib, cfg, s, i, l.event);
    AccountedLater(lib, cfg, states, labels, i, m, p);
    hide ResumeTask, CanResume, Ends, BothErrors;
    if p'.Finished? && p'.outcome.Returned? {
      assert SucceededAt(lib, cfg, states, labels, i, m, next, p'.outcome.key);
    }
    if p'.Finished? && p'.outcome.Raised? {
      RaisedNow(lib, cfg, states, labels, i, m, p'.outcome.message);
    }
    if Cause(p').Some? && Cause(p') != Cause(p) {
      assert FirstFailed(lib, cfg, states, labels, i, m, next, p.context, Cause(p').value);
    }
  }

  lemma RaisedNow(lib: Library, cfg: Config, states: seq<State>, labels: seq<Label>, i: nat, m: nat, message: string)
    requires m < |states| && m < |labels| && i < |states[m].tasks|
    requires labels[m].Resume? && labels[m].task == i && CanResume(cfg, states[m], i, labels[m].event)
    requires var p, ends := states[m].tasks[i].point, Ends(lib, cfg, states[m], i, labels[m].event);
             || ends == ExchangeEnds(Err(message))
             || (ends.AttemptEnds? && ends.key.Err? && Retrieving(p) && !p.attempt.First?
                 && message == BothErrors(p.attempt.error, ends.key.message)
                 && HasFailed(lib, cfg, states, labels, i, m, p.attempt.error))
    ensures Caused(lib, cfg, states, labels, i, m + 1, message)
  {
    hide CanResume, FirstFails, Ends, BothErrors;
    var p, ends, next := states[m].tasks[i].point, Ends(lib, cfg, states[m], i, labels[m].event), m + 1;
    if ends == ExchangeEnds(Err(message)) {
      assert ExchangeFailed(lib, cfg, states, labels, i, m, next, message);
    } else {
      var k: nat, context :| FirstFailed(lib, cfg, states, labels, i, k, m, context, p.attempt.error);
      assert BothFail(lib, cfg, states, labels, i, k, m, next, context, p.attempt.error, ends.key.message);
    }
  }

  lemma {:induction false} TaskIsAccounted(lib: Library, cfg: Config, states: seq<State>, labels: seq<Label>, i: nat,
                                           m: nat)
    requires IsRun(lib, cfg, states, labels) && m < |states| && i < |states[m].tasks|
    ensures Accounted(lib, cfg, states, labels, i, m, states[m].tasks[i].point)
  {
    hide Step, Enabled, Accounted;
    assert m > 0;
    var before := m - 1;
    var s, l := states[before], labels[before];
    assert IsStep(lib, cfg, s, l, states[before + 1]);
    if i >= |s.tasks| {
      NewTaskIsFresh(lib, cfg, s, l, i);
      FreshIsAccounted(lib, cfg, states, labels, i, m);
    } else {
      TaskIsAccounted(lib, cfg, states, labels, i, before);
      OnlyResumeMoves(lib, cfg, s, l, i);
      AccountedLater(lib, cfg, states, labels, i, before, s.tasks[i].point);
      if l.Resume? && l.task == i {
        StepIsResume(lib, cfg, s, l);
        AccountForResume(lib, cfg, states, labels, i, before);
      }
    }
  }

  lemma StepIsResume(lib: Library, cfg: Config, s: State, l: Label)
    requires Enabled(cfg, s, l) && l.Resume?
    ensures CanResume(cfg, s, l.task, l.event) && Step(lib, cfg, s, l) == ResumeTask(lib, cfg, s, l.task, l.event)
  {
    hide CanResume, ResumeTask;
  }

  lemma NewTaskIsFresh(lib: Library, cfg: Config, s: State, l: Label, i: nat)
    requires Enabled(cfg, s, l) && |s.tasks| <= i < |Step(lib, cfg, s, l).tasks|
    ensures Step(lib, cfg, s, l).tasks[i].point == NeedSession(First)
  {
    hide ResumeTask, CanResume, KmsText.ParseKmsUri, Process, Store;
    if l.Resume? {
      ResumeIsOneTask(lib, cfg, s, l.task, l.event);
    }
  }

  lemma FreshIsAccounted(lib: Library, cfg: Config, states: seq<State>, labels: seq<Label>, i: nat, m: nat)
    ensures Accounted(lib, cfg, states, labels, i, m, NeedSession(First))
  {
  }

  // ---------------------------------------------------------------- what has happened stays so

  lemma {:induction false} FinishedStays(lib: Library, cfg: Config, states: seq<State>, labels: seq<Label>, i: nat,
                                         n: nat, m: nat)
    requires IsRun(lib, cfg, states, labels) && n <= m < |states|
    requires i < |states[n].tasks| && states[n].tasks[i].point.Finished?
    ensures i < |states[m].tasks| && states[m].tasks[i].point == states[n].tasks[i].point
  {
    hide Step, Enabled, CanResume, ResumeTask;
    if n < m {
      var before := m - 1;
      FinishedStays(lib, cfg, states, labels, i, n, before);
      assert IsStep(lib, cfg, states[before], labels[before], states[before + 1]);
      OnlyResumeMoves(lib, cfg, states[before], labels[before], i);
      if labels[before].Resume? {
        StepIsResume(lib, cfg, states[before], labels[before]);
        ResumeIsOneTask(lib, cfg, states[before], labels[before].task, labels[before].event);
      }
    }
  }

  lemma {:induction false} SecondStays(lib: Library, cfg: Config, states: seq<State>, labels: seq<Label>, i: nat,
                                       n: nat, m: nat, error: string, context: Context)
    requires IsRun(lib, cfg, states, labels) && n <= m < |states|
    requires i < |states[n].tasks| && InSecond(states[n].tasks[i].point, error, context)
    ensures i < |states[m].tasks|
    ensures var p := states[m].tasks[i].point; p.Finished? || InSecond(p, error, context)
  {
    hide Step, Enabled, CanResume, ResumeTask, InSecond;
    if n < m {
      var before := m - 1;
      SecondStays(lib, cfg, states, labels, i, n, before, error, context);
      assert IsStep(lib, cfg, states[before], labels[before], states[before + 1]);
      OnlyResumeMoves(lib, cfg, states[before], labels[before], i);
      if labels[before].Resume? && labels[before].task == i {
        StepIsResume(lib, cfg, states[before], labels[before]);
        ResumeIsOneTask(lib, cfg, states[before], i, labels[before].event);
        ResumeSecond(lib, cfg, states[before], i, labels[before].event, error, context);
      }
    }
  }

  lemma FailedExchangeRaises(lib: Library, cfg: Config, states: seq<State>, labels: seq<Label>, i: nat, n: nat, m: nat,
                             error: string)
    requires IsRun(lib, cfg, states, labels) && m < |states| && ExchangeFailed(lib, cfg, states, labels, i, n, m, error)
    ensures i < |states[m].tasks| && states[m].tasks[i].point == Finished(Raised(error))
  {
    hide Step, Enabled, CanResume, ResumeTask, Ends;
    assert IsStep(lib, cfg, states[n], labels[n], states[n + 1]);
    StepIsResume(lib, cfg, states[n], labels[n]);
    ResumeIsOneTask(lib, cfg, states[n], i, labels[n].event);
    ExchangeVerdict(lib, cfg, states[n], i, labels[n].event);
    FinishedStays(lib, cfg, states, labels, i, n + 1, m);
  }

  lemma SuccessReturns(lib: Library, cfg: Config, states: seq<State>, labels: seq<Label>, i: nat, n: nat, m: nat,
                       key: Key)
    requires IsRun(lib, cfg, states, labels) && m < |states| && SucceededAt(lib, cfg, states, labels, i, n, m, key)
    ensures i < |states[m].tasks| && states[m].tasks[i].point == Finished(Returned(key))
  {
    hide Step, Enabled, CanResume, ResumeTask, Ends, KmsText.IsSessionError;
    assert IsStep(lib, cfg, states[n], labels[n], states[n + 1]);
    StepIsResume(lib, cfg, states[n], labels[n]);
    ResumeIsOneTask(lib, cfg, states[n], i, labels[n].event);
    AttemptVerdict(lib, cfg, states[n], i, labels[n].event);
    FinishedStays(lib, cfg, states, labels, i, n + 1, m);
  }

  lemma BothFailuresRaise(lib: Library, cfg: Config, states: seq<State>, labels: seq<Label>, i: nat, k: nat, n: nat,
                          m: nat, context: Context, first: string, second: string)
    requires IsRun(lib, cfg, states, labels) && m < |states|
    requires BothFail(lib, cfg, states, labels, i, k, n, m, context, first, second)
    ensures i < |states[m].tasks| && states[m].tasks[i].point == Finished(Raised(BothErrors(first, second)))
  {
    hide Step, Enabled, CanResume, ResumeTask, Ends, KmsText.IsSessionError, BothErrors;
    assert IsStep(lib, cfg, states[k], labels[k], states[k + 1]);
    StepIsResume(lib, cfg, states[k], labels[k]);
    ResumeIsOneTask(lib, cfg, states[k], i, labels[k].event);
    AttemptVerdict(lib, cfg, states[k], i, labels[k].event);
    SecondStays(lib, cfg, states, labels, i, k + 1, n, first, context);
    assert IsStep(lib, cfg, states[n], labels[n], states[n + 1]);
    StepIsResume(lib, cfg, states[n], labels[n]);
    ResumeIsOneTask(lib, cfg, states[n], i, labels[n].event);
    AttemptVerdict(lib, cfg, states[n], i, labels[n].event);
    FinishedStays(lib, cfg, states, labels, i, n + 1, m);
  }

  /**
   Exactly when a retrieval ends in an error: an exchange of it failed with that error; or both its attempts failed, at
   two steps of the run, and the error is made of theirs. So no single failed attempt ends a retrieval.
   */
  lemma RaisedIff(lib: Library, cfg: Config, states: seq<State>, labels: seq<Label>, i: nat, m: nat, message: string)
    requires IsRun(lib, cfg, states, labels) && m < |states| && i < |states[m].tasks|
    ensures states[m].tasks[i].point == Finished(Raised(message)) <==>
            || (exists n: nat :: ExchangeFailed(lib, cfg, states, labels, i, n, m, message))
            || (exists k: nat, n: nat, context, first, second ::
                  && BothFail(lib, cfg, states, labels, i, k, n, m, context, first, second)
                  && message == "retry KMS retrieve failed: " + second + " (original: " + first + ")")
  {
    hide IsRun, ExchangeFailed, BothFail, Cause, HasFailed, HasSucceeded;
    TaskIsAccounted(lib, cfg, states, labels, i, m);
    if n: nat :| ExchangeFailed(lib, cfg, states, labels, i, n, m, message) {
      FailedExchangeRaises(lib, cfg, states, labels, i, n, m, message);
    }
    if k: nat, n: nat, context, first, second :|
        BothFail(lib, cfg, states, labels, i, k, n, m, context, first, second) && message == BothErrors(first, second) {
      BothFailuresRaise(lib, cfg, states, labels, i, k, n, m, context, first, second);
    }
  }

  /** Exactly when a retrieval returns a key: at a step of the run, an attempt of it ended with that key. */
  lemma ReturnedIff(lib: Library, cfg: Config, states: seq<State>, labels: seq<Label>, i: nat, m: nat, key: Key)
    requires IsRun(lib, cfg, states, labels) && m < |states| && i < |states[m].tasks|
    ensures states[m].tasks[i].point == Finished(Returned(key)) <==>
            exists n: nat :: SucceededAt(lib, cfg, states, labels, i, n, m, key)
  {
    hide IsRun, SucceededAt, Cause, HasFailed, Caused;
    TaskIsAccounted(lib, cfg, states, labels, i, m);
    if n: nat :| SucceededAt(lib, cfg, states, labels, i, n, m, key) {
      SuccessReturns(lib, cfg, states, labels, i, n, m, key);
    }
  }
}
