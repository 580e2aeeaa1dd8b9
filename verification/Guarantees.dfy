/** What holds in every run of the protocol, however calls, replies, timers and cancellations interleave. */
module Guarantees {
  import opened Basics
  import opened Decoder
  import opened Tables
  import opened Replies
  import opened Protocol
  import opened Invariant

  // ---------------------------------------------------------------- single flight

  ghost predicate UnderWay(task: Task) {
    !task.point.Finished?
  }

  ghost predicate Succeeded(task: Task) {
    task.point.Finished? && task.point.outcome.Returned?
  }

  /**
   For each URI at most one retrieval is unfinished, and it is the one recorded as in flight. With the cache on, at most
   one retrieval for a URI succeeds in the whole run, and none is begun after it.
   */
  lemma SingleFlight(lib: Library, cfg: Config, states: seq<State>, labels: seq<Label>, k: nat, i: nat, j: nat)
    requires IsRun(lib, cfg, states, labels) && k < |states|
    requires i < |states[k].tasks| && j < |states[k].tasks| && states[k].tasks[i].uri == states[k].tasks[j].uri
    ensures UnderWay(states[k].tasks[i]) && UnderWay(states[k].tasks[j]) ==> i == j
    ensures UnderWay(states[k].tasks[i]) ==>
              var uri := states[k].tasks[i].uri;
              uri in states[k].tables.inflight && states[k].tables.inflight[uri] == i
    ensures cfg.caching && Succeeded(states[k].tasks[i]) ==>
              i == j || !(UnderWay(states[k].tasks[j]) || Succeeded(states[k].tasks[j]))
  {
    RunKeeps(lib, cfg, states, labels, k);
    assert cfg.caching && i < j ==> !(Counts(states[k].tasks[i]) && Counts(states[k].tasks[j]));
    assert cfg.caching && j < i ==> !(Counts(states[k].tasks[j]) && Counts(states[k].tasks[i]));
  }

  // ---------------------------------------------------------------- sessions

  /** At most one exchange runs at a time, and every exchange after the first is paid for by the loss of a session. */
  lemma ExchangesCounted(lib: Library, cfg: Config, states: seq<State>, labels: seq<Label>, k: nat)
    requires IsRun(lib, cfg, states, labels) && k < |states|
    ensures forall i, j | 0 <= i < |states[k].tasks| && 0 <= j < |states[k].tasks|
                          && states[k].tasks[i].point.Exchanging() && states[k].tasks[j].point.Exchanging() :: i == j
    ensures var n := states[k].stats; n.started <= 1 + n.invalidated + n.expired + n.aborted
  {
    RunKeeps(lib, cfg, states, labels, k);
    var s := states[k];
    forall i, j | 0 <= i < |s.tasks| && 0 <= j < |s.tasks|
                  && s.tasks[i].point.Exchanging() && s.tasks[j].point.Exchanging()
      ensures i == j
    {
      assert s.tables.lock == Some(i) && s.tables.lock == Some(j);
    }
  }

  /** The step gives task `i` a context from `_get_or_create_ecdh`. */
  ghost predicate GetsContext(s: State, s': State, i: nat) {
    && i < |s.tasks| && i < |s'.tasks|
    && s'.tasks[i].point.Addressing?
    && (s.tasks[i].point.NeedSession? || s.tasks[i].point.Exchanging())
  }

  /**
   Whenever a task gets a context, reused or new, that context is the active session and is younger than its time to
   live, whatever happened while the task waited for the lock.
   */
  lemma ContextsAreFresh(lib: Library, cfg: Config, states: seq<State>, labels: seq<Label>, k: nat, i: nat)
    requires IsRun(lib, cfg, states, labels) && k < |labels| && GetsContext(states[k], states[k + 1], i)
    ensures var s', context := states[k + 1], states[k + 1].tasks[i].point.context;
            s'.tables.session == Some(context) && 0.0 <= s'.now - context.createdAt < ECDH_TTL_SECONDS
  {
    var s, l := states[k], labels[k];
    RunKeeps(lib, cfg, states, labels, k + 1);
    assert LockOk(states[k + 1]);
    assert IsStep(lib, cfg, s, l, states[k + 1]);
    OnlyResumeMoves(lib, cfg, s, l, i);
    ResumeGetsSession(lib, cfg, s, i, l.event);
  }

  /** Nothing but resuming a task moves it. */
  lemma OnlyResumeMoves(lib: Library, cfg: Config, s: State, l: Label, i: nat)
    requires Enabled(cfg, s, l) && i < |s.tasks|
    ensures i < |Step(lib, cfg, s, l).tasks|
    ensures Step(lib, cfg, s, l).tasks[i].uri == s.tasks[i].uri
    ensures (l.Resume? && l.task == i) || Step(lib, cfg, s, l).tasks[i].point == s.tasks[i].point
  {
    hide ResumeTask, CanResume, KmsText.ParseKmsUri, Process, Store;
    if l.Resume? {
      ResumeIsOneTask(lib, cfg, s, l.task, l.event);
    }
  }

  lemma ResumeGetsSession(lib: Library, cfg: Config, s: State, i: nat, e: Event)
    requires CanResume(cfg, s, i, e)
    requires GetsContext(s, ResumeTask(lib, cfg, s, i, e), i)
    ensures var s' := ResumeTask(lib, cfg, s, i, e);
            && s'.now == s.now
            && s'.tables.session == Some(s'.tasks[i].point.context)
            && s.now - s'.tasks[i].point.context.createdAt < ECDH_TTL_SECONDS
  {
  }

  // ---------------------------------------------------------------- retries

  /**
   A retrieval sends at most two retrieve messages, over at most twice the HTTP requests one call may make, and
   invalidates the session at most once.
   */
  lemma RetriesBounded(lib: Library, cfg: Config, states: seq<State>, labels: seq<Label>, k: nat, i: nat)
    requires IsRun(lib, cfg, states, labels) && k < |states| && i < |states[k].tasks|
    ensures states[k].tasks[i].sent <= 2
    ensures states[k].tasks[i].posts <= 2 * (cfg.maxRetries + 1)
    ensures states[k].tasks[i].invalidations <= 1
  {
    hide IsRun;
    TaskAt(lib, cfg, states, labels, k, i);
    var task, n := states[k].tasks[i], cfg.maxRetries + 1;
    assert task.sent <= 2;
    assert task.sent * n <= 2 * n;
  }

  /** In the first attempt, with this context. */
  ghost predicate InFirst(p: Point, context: Context) {
    Retrieving(p) && p.attempt.First? && p.context == context
  }

  /** Past a first attempt with this context and this error, which decides the kind of the second. */
  ghost predicate InSecond(p: Point, error: string, context: Context) {
    if p.NeedInvalidation? then KmsText.IsSessionError(error) && p.error == error && p.failed == context
    else
      && !p.Finished?
      && p.attempt == if KmsText.IsSessionError(error) then Fresh(error, context) else Same(error, context)
  }

  /** Step `n` ends the first attempt of task `i`, made with this context, in this error. */
  ghost predicate FirstFails(lib: Library, cfg: Config, s: State, l: Label, i: nat, context: Context, error: string) {
    && l.Resume? && l.task == i && CanResume(cfg, s, i, l.event)
    && InFirst(s.tasks[i].point, context)
    && Ends(lib, cfg, s, i, l.event) == AttemptEnds(Err(error))
  }

  lemma ResumeFirst(lib: Library, cfg: Config, s: State, i: nat, e: Event, context: Context)
    requires CanResume(cfg, s, i, e) && InFirst(s.tasks[i].point, context)
    ensures var p' := ResumeTask(lib, cfg, s, i, e).tasks[i].point;
            || p'.Finished? || InFirst(p', context)
            || exists error :: FirstFails(lib, cfg, s, Resume(i, e), i, context, error) && InSecond(p', error, context)
  {
    hide Inline, ExchangeReply, RetrieveReply, SecretFromPayload, ParseKey, EndExchange, KmsText.IsSessionError,
      KmsText.RetryFailure;
    ResumeEnds(lib, cfg, s, i, e);
    match Ends(lib, cfg, s, i, e)
    case AttemptEnds(Err(error)) => assert FirstFails(lib, cfg, s, Resume(i, e), i, context, error);
    case _ =>
  }

  lemma ResumeSecond(lib: Library, cfg: Config, s: State, i: nat, e: Event, error: string, context: Context)
    requires CanResume(cfg, s, i, e) && InSecond(s.tasks[i].point, error, context)
    ensures var p' := ResumeTask(lib, cfg, s, i, e).tasks[i].point;
            p'.Finished? || InSecond(p', error, context)
  {
    hide Inline, ExchangeReply, RetrieveReply, SecretFromPayload, ParseKey, KmsText.IsSessionError,
      KmsText.RetryFailure;
    ResumeEnds(lib, cfg, s, i, e);
  }

  /** The first attempt failed at step `n` with this error, and the second is under way at state `m`. */
  ghost predicate SecondAfter(lib: Library, cfg: Config, states: seq<State>, labels: seq<Label>, k: nat, m: nat, i: nat,
                              context: Context, n: nat, error: string) {
    && k <= n < m < |states| && n < |labels| && i < |states[m].tasks|
    && FirstFails(lib, cfg, states[n], labels[n], i, context, error)
    && InSecond(states[m].tasks[i].point, error, context)
  }

  /** Where a task that was in its first attempt at state `k` may be at state `m`. */
  ghost predicate After(lib: Library, cfg: Config, states: seq<State>, labels: seq<Label>, k: nat, m: nat, i: nat,
                        context: Context) {
    && m < |states| && i < |states[m].tasks|
    && (states[m].tasks[i].point.Finished? || InFirst(states[m].tasks[i].point, context)
        || exists n: nat, error :: SecondAfter(lib, cfg, states, labels, k, m, i, context, n, error))
  }

  lemma {:induction false} StaysAfter(lib: Library, cfg: Config, states: seq<State>, labels: seq<Label>, k: nat, m: nat,
                                      i: nat, context: Context)
    requires IsRun(lib, cfg, states, labels) && k <= m < |states|
    requires i < |states[k].tasks| && InFirst(states[k].tasks[i].point, context)
    ensures After(lib, cfg, states, labels, k, m, i, context)
  {
    hide Enabled, Step, ResumeTask, CanResume, FirstFails, InFirst, InSecond;
    if k < m {
      StaysAfter(lib, cfg, states, labels, k, m - 1, i, context);
      assert IsStep(lib, cfg, states[m - 1], labels[m - 1], states[m - 1 + 1]);
      StepAfter(lib, cfg, states, labels, k, m, i, context);
    }
  }

  lemma StepAfter(lib: Library, cfg: Config, states: seq<State>, labels: seq<Label>, k: nat, m: nat, i: nat,
                  context: Context)
    requires k < m < |states| && m <= |labels| && IsStep(lib, cfg, states[m - 1], labels[m - 1], states[m])
    requires After(lib, cfg, states, labels, k, m - 1, i, context)
    ensures After(lib, cfg, states, labels, k, m, i, context)
  {
    hide ResumeTask, FirstFails, InFirst, InSecond, EnterCall, FinishCall, CancelCall, Process, Store;
    var s, l, before := states[m - 1], labels[m - 1], m - 1;
    OnlyResumeMoves(lib, cfg, s, l, i);
    if l.Resume? && l.task == i {
      if InFirst(s.tasks[i].point, context) {
        ResumeFirst(lib, cfg, s, i, l.event, context);
        if error :| FirstFails(lib, cfg, s, l, i, context, error)
                    && InSecond(states[m].tasks[i].point, error, context) {
          assert SecondAfter(lib, cfg, states, labels, k, m, i, context, before, error);
        }
      } else {
        var n: nat, error :| SecondAfter(lib, cfg, states, labels, k, before, i, context, n, error);
        ResumeSecond(lib, cfg, s, i, l.event, error, context);
        assert InSecond(states[m].tasks[i].point, error, context) ==>
                 SecondAfter(lib, cfg, states, labels, k, m, i, context, n, error);
      }
    } else if n: nat, error :| SecondAfter(lib, cfg, states, labels, k, before, i, context, n, error) {
      assert SecondAfter(lib, cfg, states, labels, k, m, i, context, n, error);
    }
  }

  /** The second attempt of the task uses what the first error calls for. */
  ghost predicate RetriesWith(task: Task, error: string, first: Context)
    requires Retrieving(task.point)
  {
    if KmsText.IsSessionError(error) then
      task.point.attempt == Fresh(error, first) && task.point.context.serial != first.serial && task.invalidations == 1
    else task.point.attempt == Same(error, first) && task.point.context == first && task.invalidations == 0
  }

  /**
   A retrieval whose first attempt uses the context `first`: later in the run it is still in that attempt, or it is in a
   second one because the first failed, at some step in between, with an error that decides what happened next. After a
   session error the session was invalidated, once, and the second attempt never uses the context object `first`. After
   any other error nothing was invalidated and the second attempt uses exactly `first`.
   */
  lemma RetryContext(lib: Library, cfg: Config, states: seq<State>, labels: seq<Label>, k: nat, m: nat, i: nat,
                     first: Context)
    requires IsRun(lib, cfg, states, labels) && k <= m < |states|
    requires i < |states[k].tasks| && InFirst(states[k].tasks[i].point, first)
    ensures i < |states[m].tasks|
    ensures Retrieving(states[m].tasks[i].point) ==>
              || InFirst(states[m].tasks[i].point, first)
              || exists n, error ::
                   && k <= n < m && FirstFails(lib, cfg, states[n], labels[n], i, first, error)
                   && RetriesWith(states[m].tasks[i], error, first)
    ensures states[m].tasks[i].point.NeedInvalidation? ==>
              exists n, error ::
                && k <= n < m && FirstFails(lib, cfg, states[n], labels[n], i, first, error)
                && KmsText.IsSessionError(error)
  {
    hide IsRun, FirstFails, KmsText.IsSessionError;
    StaysAfter(lib, cfg, states, labels, k, m, i, first);
    TaskAt(lib, cfg, states, labels, m, i);
    if n: nat, error :| SecondAfter(lib, cfg, states, labels, k, m, i, first, n, error) {
      assert FirstFails(lib, cfg, states[n], labels[n], i, first, error);
      assert Retrieving(states[m].tasks[i].point) ==> RetriesWith(states[m].tasks[i], error, first);
    }
  }

  lemma TaskAt(lib: Library, cfg: Config, states: seq<State>, labels: seq<Label>, m: nat, i: nat)
    requires IsRun(lib, cfg, states, labels) && m < |states| && i < |states[m].tasks|
    ensures AttemptOk(states[m], states[m].tasks[i]) && PostsOk(cfg, states[m].tasks[i])
  {
    hide IsRun, AttemptOk, PostsOk;
    RunKeeps(lib, cfg, states, labels, m);
  }

  // ---------------------------------------------------------------- correlation

  /**
   Every pending entry belongs to exactly one live attempt, which will be found under its id and private key; and a
   settled future holds a payload that names its own request.
   */
  lemma Correlation(lib: Library, cfg: Config, states: seq<State>, labels: seq<Label>, k: nat)
    requires IsRun(lib, cfg, states, labels) && k < |states|
    ensures forall e | e in states[k].tables.pending ::
              exists i :: 0 <= i < |states[k].tasks| && Owns(states[k].tasks[i], e)
                          && forall j | 0 <= j < |states[k].tasks|
                                        && states[k].tasks[j].point.Request() == Some(e.id) :: j == i
    ensures forall id | id in states[k].tables.futures && states[k].tables.futures[id].Settled? ::
              var parsed := lib.parse(states[k].tables.futures[id].payload);
              parsed.Message? && parsed.message.requestId == id
  {
    RunKeeps(lib, cfg, states, labels, k);
    var s := states[k];
    forall e | e in s.tables.pending
      ensures exists i :: 0 <= i < |s.tasks| && Owns(s.tasks[i], e)
                          && forall j | 0 <= j < |s.tasks| && s.tasks[j].point.Request() == Some(e.id) :: j == i
    {
      var i :| 0 <= i < |s.tasks| && Owns(s.tasks[i], e);
      forall j | 0 <= j < |s.tasks| && s.tasks[j].point.Request() == Some(e.id) ensures j == i {
      }
    }
  }

  ghost predicate DoneStays(t: Tables, t': Tables) {
    forall id | id in t.futures && !t.futures[id].Waiting? :: id in t'.futures && t'.futures[id] == t.futures[id]
  }

  lemma StepDoneStays(lib: Library, cfg: Config, s: State, l: Label)
    requires Enabled(cfg, s, l)
    ensures DoneStays(s.tables, Step(lib, cfg, s, l).tables)
  {
    match l
    case Resume(i, e) => ResumeDoneStays(lib, cfg, s, i, e);
    case Mercury(batch) =>
      HandleAllGrows(lib, Secret(s.tables), ExchangeKeys(s.tables.pending), s.tables, batch);
    case _ =>
  }

  lemma ResumeDoneStays(lib: Library, cfg: Config, s: State, i: nat, e: Event)
    requires CanResume(cfg, s, i, e)
    ensures DoneStays(s.tables, ResumeTask(lib, cfg, s, i, e).tables)
  {
    ResumeRequests(lib, cfg, s, i, e);
  }

  /** Once a request is settled or cancelled, no late, repeated or foreign reply ever changes it. */
  lemma {:induction false} SettledOnce(lib: Library, cfg: Config, states: seq<State>, labels: seq<Label>, k: nat,
                                       m: nat, id: string)
    requires IsRun(lib, cfg, states, labels) && k <= m < |states|
    requires id in states[k].tables.futures && !states[k].tables.futures[id].Waiting?
    ensures id in states[m].tables.futures && states[m].tables.futures[id] == states[k].tables.futures[id]
  {
    if k < m {
      SettledOnce(lib, cfg, states, labels, k, m - 1, id);
      assert IsStep(lib, cfg, states[m - 1], labels[m - 1], states[m - 1 + 1]);
      StepDoneStays(lib, cfg, states[m - 1], labels[m - 1]);
    }
  }

  // ---------------------------------------------------------------- leaks and cancellation

  /** Every in-flight entry has a call waiting for it. */
  lemma InflightIsAwaited(lib: Library, cfg: Config, states: seq<State>, labels: seq<Label>, k: nat, uri: string)
    requires IsRun(lib, cfg, states, labels) && k < |states| && uri in states[k].tables.inflight
    ensures exists c :: 0 <= c < |states[k].calls| && BlockedOn(states[k].calls[c], states[k].tables.inflight[uri])
                        && states[k].calls[c].uri == uri
  {
    RunKeeps(lib, cfg, states, labels, k);
    var s := states[k];
    var c :| 0 <= c < |s.calls| && BlockedOn(s.calls[c], s.tables.inflight[uri]);
    assert CallOk(s, s.calls[c]);
  }

  ghost predicate Quiet(s: State) {
    forall c | 0 <= c < |s.calls| :: s.calls[c].over.Some?
  }

  /**
   When every call is over, whether it succeeded, failed, timed out or was cancelled, nothing is left behind: no task
   runs, no request is pending, no URI is in flight, and the session lock is free.
   */
  lemma NoLeaks(lib: Library, cfg: Config, states: seq<State>, labels: seq<Label>, k: nat)
    requires IsRun(lib, cfg, states, labels) && k < |states| && Quiet(states[k])
    ensures QuietTables(states[k])
  {
    RunKeeps(lib, cfg, states, labels, k);
    QuietIsClean(lib, cfg, states[k]);
  }

  ghost predicate QuietTables(s: State) {
    && s.tables.inflight == map[] && s.tables.pending == [] && s.tables.lock.None?
    && forall i | 0 <= i < |s.tasks| :: s.tasks[i].point.Finished?
  }

  lemma QuietIsClean(lib: Library, cfg: Config, s: State)
    requires Inv(lib, cfg, s) && Quiet(s)
    ensures QuietTables(s)
  {
    assert forall u :: u !in s.tables.inflight;
    forall e ensures e !in s.tables.pending {
    }
    SomeEntry(s.tables.pending);
  }

  lemma SomeEntry(pending: seq<Entry>)
    ensures pending != [] ==> exists e :: e in pending
  {
    if pending != [] {
      assert pending[0] in pending;
    }
  }
}
