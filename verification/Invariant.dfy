/** What every step of the protocol keeps. */
module Invariant {
  import opened Basics
  import opened Models
  import opened Decoder
  import opened Tables
  import opened Replies
  import opened Protocol

  // ---------------------------------------------------------------- requests and futures

  ghost predicate Owns(task: Task, e: Entry) {
    task.point.Request() == Some(e.id) && task.point.RequestKey() == e.privateKey
  }

  ghost predicate RequestOk(t: Tables, task: Task) {
    task.point.Request().Some? ==>
      var id := task.point.Request().value;
      id != "" && id in t.futures && (t.futures[id].Waiting? ==> Has(t.pending, id))
  }

  /** Every pending entry belongs to exactly one live attempt, and no waiting future has lost its entry. */
  ghost predicate RequestsOk(s: State) {
    && (forall i | 0 <= i < |s.tasks| :: RequestOk(s.tables, s.tasks[i]))
    && (forall i, j | 0 <= i < j < |s.tasks| && s.tasks[i].point.Request().Some? ::
          s.tasks[i].point.Request() != s.tasks[j].point.Request())
    && (forall e | e in s.tables.pending :: exists i :: 0 <= i < |s.tasks| && Owns(s.tasks[i], e))
  }

  /** A settled future holds a payload that names its own request. */
  ghost predicate FuturesOk(lib: Library, t: Tables) {
    forall id | id in t.futures && t.futures[id].Settled? ::
      var parsed := lib.parse(t.futures[id].payload);
      parsed.Message? && parsed.message.requestId == id
  }

  // ---------------------------------------------------------------- the session

  /** The lock is held by the one task that is exchanging, and there is no session meanwhile. */
  ghost predicate LockOk(s: State) {
    && (forall i | 0 <= i < |s.tasks| :: s.tasks[i].point.Exchanging() <==> s.tables.lock == Some(i))
    && (s.tables.lock.Some? ==> s.tables.lock.value < |s.tasks| && s.tables.session.None?)
    && (s.tables.session.Some? ==>
          s.tables.session.value.serial < s.serial && s.tables.session.value.createdAt <= s.now)
  }

  /** Each exchange is paid for by an invalidation, an expiration or a failure, except for the current one. */
  ghost predicate StatsOk(s: State) {
    s.stats.started <= s.stats.invalidated + s.stats.expired + s.stats.aborted
                       + if s.tables.session.Some? || s.tables.lock.Some? then 1 else 0
  }

  // ---------------------------------------------------------------- attempts

  /** A second attempt after a session error is not at, and cannot get at, the context that failed. */
  ghost predicate SessionlessOk(s: State, task: Task, a: Attempt) {
    && !a.Same?
    && (a.Fresh? ==> a.failed.serial < s.serial)
    && (a.Fresh? && s.tables.session.Some? ==> s.tables.session.value.serial != a.failed.serial)
    && task.sent <= (if a.First? then 0 else 1)
    && task.invalidations == if a.First? then 0 else 1
  }

  ghost predicate RetrieveOk(s: State, task: Task, a: Attempt, context: Context) {
    && context.serial < s.serial
    && (a.Fresh? ==> context.serial != a.failed.serial)
    && (a.Same? ==> context == a.failed)
    && task.sent <= (if a.First? then 0 else 1) + (if task.point.Addressing? then 0 else 1)
    && task.invalidations == if a.Fresh? then 1 else 0
  }

  ghost predicate AttemptOk(s: State, task: Task) {
    match task.point
    case NeedSession(a) => SessionlessOk(s, task, a)
    case Preparing(a) => SessionlessOk(s, task, a)
    case Posting(a, _, _) => SessionlessOk(s, task, a)
    case Awaiting(a, _, _) => SessionlessOk(s, task, a)
    case NeedInvalidation(_, failed) => failed.serial < s.serial && task.sent <= 1 && task.invalidations == 0
    case Addressing(a, context) => RetrieveOk(s, task, a, context)
    case Sending(a, context, _) => RetrieveOk(s, task, a, context)
    case Listening(a, context, _) => RetrieveOk(s, task, a, context)
    case Finished(_) => task.sent <= 2 && task.invalidations <= 1
  }

  /** The HTTP requests for a task fit its retrieve messages, with room for the one in flight. */
  ghost predicate PostsOk(cfg: Config, task: Task) {
    task.posts + (if task.point.Sending? then cfg.maxRetries + 1 else 0) <= task.sent * (cfg.maxRetries + 1)
  }

  ghost predicate AttemptsOk(cfg: Config, s: State) {
    forall i | 0 <= i < |s.tasks| :: AttemptOk(s, s.tasks[i]) && PostsOk(cfg, s.tasks[i])
  }

  // ---------------------------------------------------------------- calls

  ghost predicate BlockedOn(c: Call, j: nat) {
    Blocked(c) && c.task == Some(j)
  }

  /** Some call is blocked on task `j`. */
  ghost predicate Awaited(calls: seq<Call>, j: nat) {
    exists c :: 0 <= c < |calls| && BlockedOn(calls[c], j)
  }

  ghost predicate CallOk(s: State, c: Call) {
    && (c.task.Some? ==> c.task.value < |s.tasks| && s.tasks[c.task.value].uri == c.uri)
    && (c.over.None? ==> c.task.Some?)
    && (c.mustCancel ==> c.asked && c.task.Some?)
    && (c.over.Some? && c.task.Some? ==> Takes(s, c))
    && (c.over == Some(CancelledError) ==> c.task.Some?)
  }

  /** The call ended as its task did, unless it was itself cancelled after that. */
  ghost predicate Takes(s: State, c: Call)
    requires c.over.Some? && c.task.Some? && c.task.value < |s.tasks|
  {
    && s.tasks[c.task.value].point.Finished?
    && c.over.value == if c.mustCancel then CancelledError else s.tasks[c.task.value].point.outcome
  }

  /**
   Each in-flight entry names a task for its URI that some call waits for; each unfinished task is in flight; each call
   that is over took the outcome of its task.
   */
  ghost predicate CallsOk(s: State) {
    && (forall c | 0 <= c < |s.calls| :: CallOk(s, s.calls[c]))
    && (forall u | u in s.tables.inflight ::
          && s.tables.inflight[u] < |s.tasks|
          && s.tasks[s.tables.inflight[u]].uri == u
          && Awaited(s.calls, s.tables.inflight[u]))
    && (forall i | 0 <= i < |s.tasks| && !s.tasks[i].point.Finished? ::
          s.tasks[i].uri in s.tables.inflight && s.tables.inflight[s.tasks[i].uri] == i)
  }

  // ---------------------------------------------------------------- the cache

  /** The task is under way or has succeeded. */
  ghost predicate Counts(task: Task) {
    !task.point.Finished? || task.point.outcome.Returned?
  }

  /** With the cache on, a URI has at most one task that is under way or has succeeded, ever. */
  ghost predicate CacheOk(cfg: Config, s: State) {
    cfg.caching ==>
      && (forall i | 0 <= i < |s.tasks| && s.tasks[i].point.Finished? && s.tasks[i].point.outcome.Returned? ::
            s.tasks[i].uri in s.tables.cache)
      && (forall i, j | 0 <= i < j < |s.tasks| && s.tasks[i].uri == s.tasks[j].uri ::
            !(Counts(s.tasks[i]) && Counts(s.tasks[j])))
  }

  ghost predicate Inv(lib: Library, cfg: Config, s: State) {
    && RequestsOk(s)
    && FuturesOk(lib, s.tables)
    && LockOk(s)
    && StatsOk(s)
    && AttemptsOk(cfg, s)
    && CallsOk(s)
    && CacheOk(cfg, s)
  }

  // ---------------------------------------------------------------- what resuming one task changes

  /** Only this task, the stores and the history change. */
  ghost predicate OneTask(s: State, s': State, i: nat) {
    && i < |s.tasks| && |s'.tasks| == |s.tasks|
    && s'.tasks == s.tasks[i := s'.tasks[i]]
    && s'.tasks[i].uri == s.tasks[i].uri
    && !s.tasks[i].point.Finished?
    && s'.calls == s.calls
    && s'.now == s.now
    && s'.tables.inflight == s.tables.inflight
    && s.tables.cache.Keys <= s'.tables.cache.Keys
    && s.tables.futures.Keys <= s'.tables.futures.Keys
    && s.serial <= s'.serial
  }

  ghost predicate CancelsFuture(f: map<string, Future>, f': map<string, Future>, id: string) {
    id in f && f[id].Waiting? && f' == f[id := Cancelled]
  }

  ghost predicate KeepsRequest(s: State, s': State, i: nat) {
    && OneTask(s, s', i)
    && s'.tasks[i].point.Request() == s.tasks[i].point.Request()
    && s'.tasks[i].point.RequestKey() == s.tasks[i].point.RequestKey()
    && s'.tables.pending == s.tables.pending
    && (s'.tables.futures == s.tables.futures || exists id :: CancelsFuture(s.tables.futures, s'.tables.futures, id))
  }

  ghost predicate Registers(s: State, s': State, i: nat, id: string) {
    && OneTask(s, s', i)
    && id != "" && id !in s.tables.futures
    && s.tasks[i].point.Request().None?
    && s'.tasks[i].point.Request() == Some(id)
    && s'.tables.pending == s.tables.pending + [Entry(id, s'.tasks[i].point.RequestKey())]
    && s'.tables.futures == s.tables.futures[id := Waiting]
  }

  ghost predicate Releases(s: State, s': State, i: nat) {
    && OneTask(s, s', i)
    && s'.tasks[i].point.Request().None?
    && s'.tables.pending == Unregister(s.tables, s.tasks[i].point.Request()).pending
    && s'.tables.futures == s.tables.futures
  }

  /** Counting posts and swallowing a cancellation leave a task where it is. */
  ghost predicate SamePoint(s: State, u: State, i: nat) {
    && i < |s.tasks| && |u.tasks| == |s.tasks|
    && u == s.(tasks := s.tasks[i := u.tasks[i]])
    && u.tasks[i] == s.tasks[i].(posts := u.tasks[i].posts, cancelling := u.tasks[i].cancelling)
  }

  /** What the event ends, if it ends the task's exchange or its retrieve attempt, and with which result. */
  datatype Ending = NoEnd | ExchangeEnds(secret: Result<Bytes>) | AttemptEnds(key: Result<Key>)

  ghost function Ends(lib: Library, cfg: Config, s: State, i: nat, e: Event): Ending
    requires CanResume(cfg, s, i, e)
  {
    var p := s.tasks[i].point;
    match e
    case Failed(error) => if p.Preparing? then ExchangeEnds(Err(error)) else AttemptEnds(Err(error))
    case TimedOut => if p.Awaiting? then ExchangeEnds(Err(KmsText.TIMEOUT)) else AttemptEnds(Err(KmsText.TIMEOUT))
    case Notified =>
      var payload := s.tables.futures[p.id].payload;
      if p.Awaiting? then ExchangeEnds(SecretFromPayload(lib, payload, p.key)) else AttemptEnds(ParseKey(lib, payload))
    case Replied(run) =>
      var reply := Inline(run[|run| - 1]);
      if reply.None? then NoEnd
      else if p.Posting? then ExchangeEnds(ExchangeReply(lib, reply.value, p.key))
      else AttemptEnds(RetrieveReply(lib, reply.value, p.context))
    case _ => NoEnd
  }

  /** The state in which the event ends what it ends. */
  ghost function AtEnd(s: State, i: nat, e: Event): State
    requires i < |s.tasks|
  {
    if e.Notified? then s.(tasks := s.tasks[i := s.tasks[i].(cancelling := false)])
    else if e.Replied? && s.tasks[i].point.Sending? then CountPosts(s, i, |e.run|)
    else s
  }

  lemma ResumeEnds(lib: Library, cfg: Config, s: State, i: nat, e: Event)
    requires CanResume(cfg, s, i, e)
    ensures SamePoint(s, AtEnd(s, i, e), i)
    ensures var p, s' := s.tasks[i].point, ResumeTask(lib, cfg, s, i, e);
            match Ends(lib, cfg, s, i, e)
            case NoEnd => true
            case ExchangeEnds(secret) =>
              p.Exchanging() && s' == EndExchange(AtEnd(s, i, e), i, p.attempt, secret)
            case AttemptEnds(key) =>
              Retrieving(p) && s' == EndAttempt(cfg, AtEnd(s, i, e), i, p.attempt, p.context, key)
  {
    hide Inline, ExchangeReply, RetrieveReply, SecretFromPayload, ParseKey, EndAttempt, EndExchange;
  }

  ghost predicate Retrieving(p: Point) {
    p.Addressing? || p.Sending? || p.Listening?
  }

  lemma EndExchangeReleases(s: State, u: State, i: nat, a: Attempt, result: Result<Bytes>)
    requires SamePoint(s, u, i) && !s.tasks[i].point.Finished?
    ensures Releases(s, EndExchange(u, i, a, result), i)
  {
  }

  lemma EndAttemptReleases(cfg: Config, s: State, u: State, i: nat, a: Attempt, context: Context, result: Result<Key>)
    requires SamePoint(s, u, i) && !s.tasks[i].point.Finished?
    ensures Releases(s, EndAttempt(cfg, u, i, a, context, result), i)
  {
    hide KmsText.IsSessionError, KmsText.RetryFailure;
  }

  lemma ResumeRequests(lib: Library, cfg: Config, s: State, i: nat, e: Event)
    requires CanResume(cfg, s, i, e)
    ensures var s' := ResumeTask(lib, cfg, s, i, e);
            KeepsRequest(s, s', i) || (exists id :: Registers(s, s', i, id)) || Releases(s, s', i)
  {
    hide ResumeTask, Ends, SamePoint, EndAttempt, EndExchange, KeepsRequest, Registers, Releases;
    var p := s.tasks[i].point;
    ResumeEnds(lib, cfg, s, i, e);
    match Ends(lib, cfg, s, i, e)
    case ExchangeEnds(secret) => EndExchangeReleases(s, AtEnd(s, i, e), i, p.attempt, secret);
    case AttemptEnds(key) => EndAttemptReleases(cfg, s, AtEnd(s, i, e), i, p.attempt, p.context, key);
    case NoEnd => NoEndRequests(lib, cfg, s, i, e);
  }

  lemma NoEndRequests(lib: Library, cfg: Config, s: State, i: nat, e: Event)
    requires CanResume(cfg, s, i, e) && Ends(lib, cfg, s, i, e).NoEnd?
    ensures var s' := ResumeTask(lib, cfg, s, i, e);
            KeepsRequest(s, s', i) || (exists id :: Registers(s, s', i, id)) || Releases(s, s', i)
  {
    hide Inline, ExchangeReply, RetrieveReply, SecretFromPayload, ParseKey, EndAttempt, EndExchange,
      KmsText.IsSessionError, Drop, Has;
    var s' := ResumeTask(lib, cfg, s, i, e);
    match e
    case ExchangeReady(id, key) => assert Registers(s, s', i, id);
    case RetrieveReady(id) => assert Registers(s, s', i, id);
    case TimerFired => assert CancelsFuture(s.tables.futures, s'.tables.futures, s.tasks[i].point.id);
    case _ =>
  }

  lemma ResumeIsOneTask(lib: Library, cfg: Config, s: State, i: nat, e: Event)
    requires CanResume(cfg, s, i, e)
    ensures OneTask(s, ResumeTask(lib, cfg, s, i, e), i)
  {
    ResumeRequests(lib, cfg, s, i, e);
  }

  lemma RegistersKeeps(s: State, s': State, i: nat, id: string)
    requires RequestsOk(s) && Registers(s, s', i, id)
    ensures RequestsOk(s')
  {
    var entry := Entry(id, s'.tasks[i].point.RequestKey());
    forall other ensures Has(s'.tables.pending, other) <==> Has(s.tables.pending, other) || other == id {
      HasIn(s.tables.pending, other);
      HasIn(s'.tables.pending, other);
      assert entry in s'.tables.pending;
    }
    forall e | e in s'.tables.pending ensures exists j :: 0 <= j < |s'.tasks| && Owns(s'.tasks[j], e) {
      if e in s.tables.pending {
        var j :| 0 <= j < |s.tasks| && Owns(s.tasks[j], e);
        assert Owns(s'.tasks[j], e);
      } else {
        assert Owns(s'.tasks[i], e);
      }
    }
    forall j | 0 <= j < |s'.tasks| ensures RequestOk(s'.tables, s'.tasks[j]) {
      assert RequestOk(s.tables, s.tasks[j]);
    }
  }

  lemma ReleasesKeeps(s: State, s': State, i: nat)
    requires RequestsOk(s) && Releases(s, s', i)
    ensures RequestsOk(s')
  {
    var request := s.tasks[i].point.Request();
    forall j | 0 <= j < |s'.tasks| ensures RequestOk(s'.tables, s'.tasks[j]) {
      assert RequestOk(s.tables, s.tasks[j]);
      if j != i && request.Some? && s.tasks[j].point.Request().Some? {
        DropHas(s.tables.pending, request.value, s.tasks[j].point.Request().value);
      }
    }
    forall e | e in s'.tables.pending ensures exists j :: 0 <= j < |s'.tasks| && Owns(s'.tasks[j], e) {
      if request.Some? {
        DropIn(s.tables.pending, request.value, e);
      }
      var j :| 0 <= j < |s.tasks| && Owns(s.tasks[j], e);
      assert Owns(s'.tasks[j], e);
    }
  }

  lemma KeepsRequestKeeps(s: State, s': State, i: nat)
    requires RequestsOk(s) && KeepsRequest(s, s', i)
    ensures RequestsOk(s')
  {
    forall j | 0 <= j < |s'.tasks| ensures RequestOk(s'.tables, s'.tasks[j]) {
      assert RequestOk(s.tables, s.tasks[j]);
    }
    forall e | e in s'.tables.pending ensures exists j :: 0 <= j < |s'.tasks| && Owns(s'.tasks[j], e) {
      var j :| 0 <= j < |s.tasks| && Owns(s.tasks[j], e);
      assert Owns(s'.tasks[j], e);
    }
  }

  lemma ResumeKeepsRequests(lib: Library, cfg: Config, s: State, i: nat, e: Event)
    requires CanResume(cfg, s, i, e) && RequestsOk(s) && FuturesOk(lib, s.tables)
    ensures RequestsOk(ResumeTask(lib, cfg, s, i, e)) && FuturesOk(lib, ResumeTask(lib, cfg, s, i, e).tables)
  {
    hide ResumeTask, CanResume, RequestsOk;
    var s' := ResumeTask(lib, cfg, s, i, e);
    ResumeRequests(lib, cfg, s, i, e);
    if KeepsRequest(s, s', i) {
      KeepsRequestKeeps(s, s', i);
    } else if Releases(s, s', i) {
      ReleasesKeeps(s, s', i);
    } else {
      var id :| Registers(s, s', i, id);
      RegistersKeeps(s, s', i, id);
    }
  }

  // ---------------------------------------------------------------- the session lock under one task

  /** The four things a step does to the lock and the session. */
  ghost predicate LockMove(s: State, s': State, i: nat)
    requires i < |s.tasks| == |s'.tasks|
  {
    var p, p', t, t' := s.tasks[i].point, s'.tasks[i].point, s.tables, s'.tables;
    || (p.Exchanging() == p'.Exchanging() && t'.lock == t.lock && t'.session == t.session && s'.stats == s.stats)
    || (t.lock.None? && !p.Exchanging() && !p'.Exchanging() && t'.lock.None? && t'.session.None?
        && s'.stats == s.stats.(invalidated := s.stats.invalidated + 1))
    || (t.lock.None? && !p.Exchanging() && p'.Exchanging() && t'.lock == Some(i) && t'.session.None?
        && s'.stats == s.stats.(started := s.stats.started + 1,
                                expired := s.stats.expired + if t.session.Some? then 1 else 0))
    || (p.Exchanging() && !p'.Exchanging() && t'.lock.None?
        && (if t'.session == t.session then s'.stats == s.stats.(aborted := s.stats.aborted + 1)
            else t'.session.Some? && t'.session.value.serial == s.serial < s'.serial
                 && t'.session.value.createdAt == s.now && s'.stats == s.stats))
  }

  lemma EndExchangeLock(s: State, u: State, i: nat, a: Attempt, result: Result<Bytes>)
    requires SamePoint(s, u, i) && LockOk(s) && s.tasks[i].point.Exchanging()
    ensures |EndExchange(u, i, a, result).tasks| == |s.tasks| && LockMove(s, EndExchange(u, i, a, result), i)
  {
    hide Drop;
    assert s.tables.lock == Some(i);
  }

  lemma EndAttemptLock(cfg: Config, s: State, u: State, i: nat, a: Attempt, context: Context, result: Result<Key>)
    requires SamePoint(s, u, i) && Retrieving(s.tasks[i].point)
    ensures var s' := EndAttempt(cfg, u, i, a, context, result); |s'.tasks| == |s.tasks| && LockMove(s, s', i)
  {
    hide Drop, KmsText.IsSessionError, KmsText.RetryFailure;
  }

  lemma ResumeLock(lib: Library, cfg: Config, s: State, i: nat, e: Event)
    requires CanResume(cfg, s, i, e) && LockOk(s)
    ensures OneTask(s, ResumeTask(lib, cfg, s, i, e), i)
    ensures LockMove(s, ResumeTask(lib, cfg, s, i, e), i)
  {
    hide ResumeTask, Ends, SamePoint, EndAttempt, EndExchange, LockMove, LockOk;
    var p := s.tasks[i].point;
    ResumeIsOneTask(lib, cfg, s, i, e);
    ResumeEnds(lib, cfg, s, i, e);
    match Ends(lib, cfg, s, i, e)
    case ExchangeEnds(secret) => EndExchangeLock(s, AtEnd(s, i, e), i, p.attempt, secret);
    case AttemptEnds(key) => EndAttemptLock(cfg, s, AtEnd(s, i, e), i, p.attempt, p.context, key);
    case NoEnd => NoEndLock(lib, cfg, s, i, e);
  }

  lemma NoEndLock(lib: Library, cfg: Config, s: State, i: nat, e: Event)
    requires CanResume(cfg, s, i, e) && LockOk(s) && Ends(lib, cfg, s, i, e).NoEnd?
    requires |ResumeTask(lib, cfg, s, i, e).tasks| == |s.tasks|
    ensures LockMove(s, ResumeTask(lib, cfg, s, i, e), i)
  {
    hide Inline, ExchangeReply, RetrieveReply, SecretFromPayload, ParseKey, EndAttempt, EndExchange, Drop;
    assert s.tasks[i].point.Exchanging() <==> s.tables.lock == Some(i);
  }

  lemma ResumeKeepsLock(lib: Library, cfg: Config, s: State, i: nat, e: Event)
    requires CanResume(cfg, s, i, e) && LockOk(s) && StatsOk(s)
    ensures LockOk(ResumeTask(lib, cfg, s, i, e)) && StatsOk(ResumeTask(lib, cfg, s, i, e))
  {
    var s' := ResumeTask(lib, cfg, s, i, e);
    ResumeLock(lib, cfg, s, i, e);
    ResumeIsOneTask(lib, cfg, s, i, e);
    assert s.tasks[i].point.Exchanging() <==> s.tables.lock == Some(i);
    forall j | 0 <= j < |s'.tasks| ensures s'.tasks[j].point.Exchanging() <==> s'.tables.lock == Some(j) {
      assert s.tasks[j].point.Exchanging() <==> s.tables.lock == Some(j);
    }
  }

  // ---------------------------------------------------------------- attempts under one task

  /** How the store of sessions moves: it stays, empties, or gets a context with a new serial number. */
  ghost predicate SessionMove(s: State, s': State) {
    && s.serial <= s'.serial
    && (s'.tables.session == s.tables.session || s'.tables.session.None?
        || (s'.tables.session.value.serial == s.serial < s'.serial))
  }

  lemma OtherAttempts(s: State, s': State, task: Task)
    requires AttemptOk(s, task) && SessionMove(s, s')
    ensures AttemptOk(s', task)
  {
  }

  lemma ResumeMovesSession(lib: Library, cfg: Config, s: State, i: nat, e: Event)
    requires CanResume(cfg, s, i, e)
    ensures SessionMove(s, ResumeTask(lib, cfg, s, i, e))
  {
  }

  lemma EndExchangeAttempt(s: State, u: State, i: nat, a: Attempt, result: Result<Bytes>)
    requires SamePoint(s, u, i) && SessionlessOk(s, s.tasks[i], a)
    ensures AttemptOk(EndExchange(u, i, a, result), EndExchange(u, i, a, result).tasks[i])
  {
  }

  lemma EndAttemptAttempt(cfg: Config, s: State, u: State, i: nat, a: Attempt, context: Context, result: Result<Key>)
    requires SamePoint(s, u, i) && RetrieveOk(s, s.tasks[i], a, context)
    ensures AttemptOk(EndAttempt(cfg, u, i, a, context, result), EndAttempt(cfg, u, i, a, context, result).tasks[i])
  {
  }

  lemma GrantedAttempt(s: State, i: nat)
    requires i < |s.tasks| && s.tables.lock.None? && AttemptOk(s, s.tasks[i])
    requires s.tables.session.Some? ==> s.tables.session.value.serial < s.serial
    ensures s.tasks[i].point.NeedSession? ==>
              var s' := EnterSession(s, i, s.tasks[i].point.attempt);
              AttemptOk(s', s'.tasks[i])
    ensures s.tasks[i].point.NeedInvalidation? ==>
              var s' := EnterInvalidation(s, i, s.tasks[i].point.error, s.tasks[i].point.failed);
              AttemptOk(s', s'.tasks[i])
  {
  }

  lemma ResumeKeepsOwnAttempt(lib: Library, cfg: Config, s: State, i: nat, e: Event)
    requires CanResume(cfg, s, i, e) && AttemptOk(s, s.tasks[i])
    requires s.tables.session.Some? ==> s.tables.session.value.serial < s.serial
    ensures AttemptOk(ResumeTask(lib, cfg, s, i, e), ResumeTask(lib, cfg, s, i, e).tasks[i])
  {
    hide ResumeTask, Ends, SamePoint, EndAttempt, EndExchange;
    var p := s.tasks[i].point;
    ResumeEnds(lib, cfg, s, i, e);
    match Ends(lib, cfg, s, i, e)
    case ExchangeEnds(secret) => EndExchangeAttempt(s, AtEnd(s, i, e), i, p.attempt, secret);
    case AttemptEnds(key) => EndAttemptAttempt(cfg, s, AtEnd(s, i, e), i, p.attempt, p.context, key);
    case NoEnd => NoEndAttempt(lib, cfg, s, i, e);
  }

  lemma NoEndAttempt(lib: Library, cfg: Config, s: State, i: nat, e: Event)
    requires CanResume(cfg, s, i, e) && AttemptOk(s, s.tasks[i]) && Ends(lib, cfg, s, i, e).NoEnd?
    requires s.tables.session.Some? ==> s.tables.session.value.serial < s.serial
    ensures AttemptOk(ResumeTask(lib, cfg, s, i, e), ResumeTask(lib, cfg, s, i, e).tasks[i])
  {
    hide Inline, ExchangeReply, RetrieveReply, SecretFromPayload, ParseKey, EndAttempt, EndExchange;
    if e.Granted? {
      GrantedAttempt(s, i);
    }
  }

  lemma ResumeKeepsPosts(lib: Library, cfg: Config, s: State, i: nat, e: Event)
    requires CanResume(cfg, s, i, e) && PostsOk(cfg, s.tasks[i])
    ensures PostsOk(cfg, ResumeTask(lib, cfg, s, i, e).tasks[i])
  {
    hide Inline, ExchangeReply, RetrieveReply, SecretFromPayload, ParseKey, KmsText.IsSessionError,
      KmsText.RetryFailure;
    var task, n := s.tasks[i], cfg.maxRetries + 1;
    assert (task.sent + 1) * n == task.sent * n + n;
  }

  lemma ResumeKeepsAttempts(lib: Library, cfg: Config, s: State, i: nat, e: Event)
    requires CanResume(cfg, s, i, e) && LockOk(s) && AttemptsOk(cfg, s)
    ensures AttemptsOk(cfg, ResumeTask(lib, cfg, s, i, e))
  {
    var s' := ResumeTask(lib, cfg, s, i, e);
    ResumeIsOneTask(lib, cfg, s, i, e);
    ResumeMovesSession(lib, cfg, s, i, e);
    ResumeKeepsOwnAttempt(lib, cfg, s, i, e);
    ResumeKeepsPosts(lib, cfg, s, i, e);
    forall j | 0 <= j < |s'.tasks| ensures AttemptOk(s', s'.tasks[j]) && PostsOk(cfg, s'.tasks[j]) {
      if j != i {
        OtherAttempts(s, s', s.tasks[j]);
      }
    }
  }

  // ---------------------------------------------------------------- calls and cache under one task

  lemma OneTaskKeepsCalls(s: State, s': State, i: nat)
    requires CallsOk(s) && OneTask(s, s', i)
    ensures CallsOk(s')
  {
    forall c | 0 <= c < |s'.calls| ensures CallOk(s', s'.calls[c]) {
      assert CallOk(s, s.calls[c]);
    }
  }

  lemma ResumeKeepsCache(lib: Library, cfg: Config, s: State, i: nat, e: Event)
    requires CanResume(cfg, s, i, e) && CacheOk(cfg, s)
    ensures CacheOk(cfg, ResumeTask(lib, cfg, s, i, e))
  {
    var s' := ResumeTask(lib, cfg, s, i, e);
    ResumeIsOneTask(lib, cfg, s, i, e);
    ResumeCaches(lib, cfg, s, i, e);
    if cfg.caching {
      forall j, k | 0 <= j < k < |s'.tasks| && s'.tasks[j].uri == s'.tasks[k].uri
        ensures !(Counts(s'.tasks[j]) && Counts(s'.tasks[k]))
      {
        assert !(Counts(s.tasks[j]) && Counts(s.tasks[k]));
      }
    }
  }

  ghost predicate Succeeds(task: Task) {
    task.point.Finished? && task.point.outcome.Returned?
  }

  /** With the cache on, a task that succeeds leaves its key under its URI; otherwise the cache stays. */
  ghost predicate Caches(cfg: Config, s: State, s': State, i: nat) {
    && i < |s.tasks| && i < |s'.tasks|
    && s'.tables.cache == if cfg.caching && Succeeds(s'.tasks[i])
                          then s.tables.cache[s.tasks[i].uri := s'.tasks[i].point.outcome.key] else s.tables.cache
  }

  lemma EndAttemptCaches(cfg: Config, s: State, u: State, i: nat, a: Attempt, context: Context, result: Result<Key>)
    requires SamePoint(s, u, i)
    ensures Caches(cfg, s, EndAttempt(cfg, u, i, a, context, result), i)
  {
    hide KmsText.IsSessionError, KmsText.RetryFailure, Drop;
  }

  lemma EndExchangeCaches(cfg: Config, s: State, u: State, i: nat, a: Attempt, result: Result<Bytes>)
    requires SamePoint(s, u, i)
    ensures Caches(cfg, s, EndExchange(u, i, a, result), i)
  {
    hide Drop;
  }

  lemma ResumeCaches(lib: Library, cfg: Config, s: State, i: nat, e: Event)
    requires CanResume(cfg, s, i, e)
    ensures Caches(cfg, s, ResumeTask(lib, cfg, s, i, e), i)
  {
    hide ResumeTask, Ends, SamePoint, EndAttempt, EndExchange, Caches;
    var p := s.tasks[i].point;
    ResumeEnds(lib, cfg, s, i, e);
    match Ends(lib, cfg, s, i, e)
    case ExchangeEnds(secret) => EndExchangeCaches(cfg, s, AtEnd(s, i, e), i, p.attempt, secret);
    case AttemptEnds(key) => EndAttemptCaches(cfg, s, AtEnd(s, i, e), i, p.attempt, p.context, key);
    case NoEnd => NoEndCaches(lib, cfg, s, i, e);
  }

  lemma NoEndCaches(lib: Library, cfg: Config, s: State, i: nat, e: Event)
    requires CanResume(cfg, s, i, e) && Ends(lib, cfg, s, i, e).NoEnd?
    ensures Caches(cfg, s, ResumeTask(lib, cfg, s, i, e), i)
  {
    hide Inline, ExchangeReply, RetrieveReply, SecretFromPayload, ParseKey, EndAttempt, EndExchange;
  }

  lemma ResumeKeeps(lib: Library, cfg: Config, s: State, i: nat, e: Event)
    requires CanResume(cfg, s, i, e) && Inv(lib, cfg, s)
    ensures Inv(lib, cfg, ResumeTask(lib, cfg, s, i, e))
  {
    hide ResumeTask, CanResume, RequestsOk, FuturesOk, LockOk, StatsOk, AttemptsOk, CallsOk, CacheOk;
    ResumeKeepsRequests(lib, cfg, s, i, e);
    ResumeKeepsLock(lib, cfg, s, i, e);
    ResumeKeepsAttempts(lib, cfg, s, i, e);
    ResumeIsOneTask(lib, cfg, s, i, e);
    OneTaskKeepsCalls(s, ResumeTask(lib, cfg, s, i, e), i);
    ResumeKeepsCache(lib, cfg, s, i, e);
  }

  // ---------------------------------------------------------------- the other steps

  /** Tasks, stores and history are untouched, except perhaps for the in-flight table. */
  ghost predicate OnlyCalls(s: State, s': State) {
    && s' == s.(calls := s'.calls, tables := s.tables.(inflight := s'.tables.inflight))
    && |s.calls| <= |s'.calls|
  }

  lemma OnlyCallsKeeps(lib: Library, cfg: Config, s: State, s': State)
    requires Inv(lib, cfg, s) && OnlyCalls(s, s') && CallsOk(s')
    ensures Inv(lib, cfg, s')
  {
    forall i | 0 <= i < |s'.tasks| ensures AttemptOk(s', s'.tasks[i]) && PostsOk(cfg, s'.tasks[i]) {
      OtherAttempts(s, s', s.tasks[i]);
    }
    forall i | 0 <= i < |s'.tasks| ensures RequestOk(s'.tables, s'.tasks[i]) {
      assert RequestOk(s.tables, s.tasks[i]);
    }
  }

  lemma AppendCall(calls: seq<Call>, call: Call, j: nat)
    ensures Awaited(calls + [call], j) <==> Awaited(calls, j) || BlockedOn(call, j)
  {
    var more := calls + [call];
    assert more[|calls|] == call;
    if Awaited(calls, j) {
      var c :| 0 <= c < |calls| && BlockedOn(calls[c], j);
      assert BlockedOn(more[c], j);
    }
  }

  /** Updating one call leaves what is known through the others. */
  lemma UpdateCall(calls: seq<Call>, c: nat, call: Call, j: nat)
    requires c < |calls| && call.task == calls[c].task
    requires call.over == calls[c].over || call.task != Some(j)
    ensures Awaited(calls, j) <==> Awaited(calls[c := call], j)
  {
    var other := calls[c := call];
    if Awaited(calls, j) {
      var d :| 0 <= d < |calls| && BlockedOn(calls[d], j);
      assert BlockedOn(other[d], j);
    }
  }

  /** A call that is over at once, or that joins a task; it may clear the entry of a task that is finished. */
  lemma AddCall(s: State, s': State, call: Call)
    requires CallsOk(s) && OnlyCalls(s, s') && s'.calls == s.calls + [call]
    requires call.task.Some? ==> call.task.value < |s.tasks| && s.tasks[call.task.value].uri == call.uri
    requires call.over.None? ==> call.task.Some?
    requires !call.mustCancel
    requires call.over.Some? && call.task.Some? ==> Takes(s, call)
    requires call.over == Some(CancelledError) ==> call.task.Some?
    requires s'.tables.inflight == s.tables.inflight
             || (call.uri in s.tables.inflight && s.tasks[s.tables.inflight[call.uri]].point.Finished?
                 && s'.tables.inflight == s.tables.inflight - {call.uri})
    ensures CallsOk(s')
  {
    forall j: nat ensures Awaited(s.calls, j) ==> Awaited(s'.calls, j) {
      AppendCall(s.calls, call, j);
    }
    forall c | 0 <= c < |s'.calls| ensures CallOk(s', s'.calls[c]) {
      if c < |s.calls| {
        assert CallOk(s, s.calls[c]);
      }
    }
  }

  ghost predicate Idle(s: State, uri: string) {
    uri !in s.tables.inflight
  }

  /** A call that begins a retrieval: its URI has no task under way and, with the cache on, none that succeeded. */
  lemma NewTask(lib: Library, cfg: Config, s: State, uri: string)
    requires Inv(lib, cfg, s) && Idle(s, uri) && (cfg.caching ==> uri !in s.tables.cache)
    ensures var task := Task(uri, NeedSession(First), false, 0, 0, 0);
            Inv(lib, cfg, s.(calls := s.calls + [Call(uri, Some(|s.tasks|), false, false, None)],
                             tasks := s.tasks + [task],
                             tables := s.tables.(inflight := s.tables.inflight[uri := |s.tasks|])))
  {
    hide RequestsOk, CallsOk, CacheOk;
    var n := |s.tasks|;
    var task, call := Task(uri, NeedSession(First), false, 0, 0, 0), Call(uri, Some(n), false, false, None);
    var s' := s.(calls := s.calls + [call], tasks := s.tasks + [task],
                 tables := s.tables.(inflight := s.tables.inflight[uri := n]));
    NewTaskRequests(s, s', task);
    NewTaskCalls(s, s', uri);
    NewTaskCache(cfg, s, s', uri);
    forall i | 0 <= i < |s'.tasks| ensures AttemptOk(s', s'.tasks[i]) && PostsOk(cfg, s'.tasks[i]) {
      if i < n {
        OtherAttempts(s, s', s.tasks[i]);
      }
    }
  }

  lemma NewTaskCache(cfg: Config, s: State, s': State, uri: string)
    requires CacheOk(cfg, s) && CallsOk(s) && Idle(s, uri) && (cfg.caching ==> uri !in s.tables.cache)
    requires s'.tasks == s.tasks + [Task(uri, NeedSession(First), false, 0, 0, 0)]
    requires s'.tables.cache == s.tables.cache
    ensures CacheOk(cfg, s')
  {
    assert forall i | 0 <= i < |s.tasks| :: s'.tasks[i] == s.tasks[i];
    if cfg.caching {
      assert forall i | 0 <= i < |s.tasks| && s.tasks[i].uri == uri :: !Counts(s.tasks[i]);
    }
  }

  lemma NewTaskRequests(s: State, s': State, task: Task)
    requires RequestsOk(s) && s'.tasks == s.tasks + [task] && task.point.Request().None?
    requires s'.tables == s.tables.(inflight := s'.tables.inflight)
    ensures RequestsOk(s')
  {
    forall i | 0 <= i < |s'.tasks| ensures RequestOk(s'.tables, s'.tasks[i]) {
      if i < |s.tasks| {
        assert RequestOk(s.tables, s.tasks[i]);
      }
    }
    forall e | e in s'.tables.pending ensures exists i :: 0 <= i < |s'.tasks| && Owns(s'.tasks[i], e) {
      var i :| 0 <= i < |s.tasks| && Owns(s.tasks[i], e);
      assert Owns(s'.tasks[i], e);
    }
  }

  lemma NewTaskCalls(s: State, s': State, uri: string)
    requires CallsOk(s) && Idle(s, uri)
    requires s'.tasks == s.tasks + [Task(uri, NeedSession(First), false, 0, 0, 0)]
    requires s'.calls == s.calls + [Call(uri, Some(|s.tasks|), false, false, None)]
    requires s'.tables.inflight == s.tables.inflight[uri := |s.tasks|]
    ensures CallsOk(s')
  {
    hide Awaited;
    var n := |s.tasks|;
    forall j: nat ensures Awaited(s'.calls, j) <==> Awaited(s.calls, j) || j == n {
      AppendCall(s.calls, Call(uri, Some(n), false, false, None), j);
    }
    forall c | 0 <= c < |s'.calls| ensures CallOk(s', s'.calls[c]) {
      if c < |s.calls| {
        assert CallOk(s, s.calls[c]);
      }
    }
  }

  lemma EnterCallKeeps(lib: Library, cfg: Config, s: State, uri: string)
    requires Inv(lib, cfg, s)
    ensures Inv(lib, cfg, EnterCall(cfg, s, uri))
  {
    hide RequestsOk, AttemptsOk, FuturesOk, LockOk, StatsOk, CacheOk, Awaited;
    var s', t := EnterCall(cfg, s, uri), s.tables;
    if |s'.tasks| == |s.tasks| {
      AddCall(s, s', s'.calls[|s.calls|]);
      OnlyCallsKeeps(lib, cfg, s, s');
    } else {
      NewTask(lib, cfg, s, uri);
    }
  }

  lemma FinishCallKeeps(lib: Library, cfg: Config, s: State, c: nat)
    requires Inv(lib, cfg, s) && CanFinish(s, c)
    ensures Inv(lib, cfg, FinishCall(s, c))
  {
    hide RequestsOk, AttemptsOk, CacheOk, FuturesOk, LockOk, StatsOk, Awaited;
    var s', call := FinishCall(s, c), s.calls[c];
    var task := call.task.value;
    assert CallOk(s, call);
    forall j: nat | j != task ensures Awaited(s.calls, j) <==> Awaited(s'.calls, j) {
      UpdateCall(s.calls, c, s'.calls[c], j);
    }
    forall d | 0 <= d < |s'.calls| ensures CallOk(s', s'.calls[d]) {
      assert CallOk(s, s.calls[d]);
    }
    OnlyCallsKeeps(lib, cfg, s, s');
  }

  lemma CancelCallKeeps(lib: Library, cfg: Config, s: State, c: nat)
    requires Inv(lib, cfg, s) && CanCancel(s, c)
    ensures Inv(lib, cfg, CancelCall(cfg, s, c))
  {
    var s', j := CancelCall(cfg, s, c), s.calls[c].task.value;
    forall i: nat ensures Awaited(s.calls, i) <==> Awaited(s'.calls, i) {
      UpdateCall(s.calls, c, s'.calls[c], i);
    }
    CancelledCalls(s, s', c, j);
    if s.tasks[j].point.Finished? {
      OnlyCallsKeeps(lib, cfg, s, s');
    } else {
      assert s'.tables == s.tables || CancelsFuture(s.tables.futures, s'.tables.futures, s.tasks[j].point.id);
      MarkTaskKeeps(lib, cfg, s, s', j);
    }
  }

  lemma CancelledCalls(s: State, s': State, c: nat, j: nat)
    requires CallsOk(s) && CanCancel(s, c) && j == s.calls[c].task.value
    requires |s'.calls| == |s.calls| && s'.calls == s.calls[c := s'.calls[c]]
    requires s'.calls[c] in {s.calls[c].(asked := true), s.calls[c].(asked := true, mustCancel := true)}
    requires s'.tasks in {s.tasks, s.tasks[j := s.tasks[j].(cancelling := true)]}
    requires s'.tables.inflight == s.tables.inflight
    requires forall i: nat :: Awaited(s.calls, i) <==> Awaited(s'.calls, i)
    ensures CallsOk(s')
  {
    forall d | 0 <= d < |s'.calls| ensures CallOk(s', s'.calls[d]) {
      assert CallOk(s, s.calls[d]);
    }
  }

  /** Only a task's cancellation mark, the calls, and perhaps one future differ. */
  ghost predicate Marks(s: State, s': State, j: nat) {
    && j < |s.tasks| && !s.tasks[j].point.Finished?
    && s' == s.(calls := s'.calls, tasks := s.tasks[j := s.tasks[j].(cancelling := true)], tables := s'.tables)
    && s'.tables == s.tables.(futures := s'.tables.futures)
    && (s'.tables.futures == s.tables.futures || exists id :: CancelsFuture(s.tables.futures, s'.tables.futures, id))
  }

  lemma MarkRequests(s: State, s': State, j: nat)
    requires RequestsOk(s) && Marks(s, s', j)
    ensures RequestsOk(s')
  {
    assert forall i | 0 <= i < |s.tasks| :: s'.tasks[i].point == s.tasks[i].point;
    forall i | 0 <= i < |s'.tasks| ensures RequestOk(s'.tables, s'.tasks[i]) {
      assert RequestOk(s.tables, s.tasks[i]);
    }
    forall e | e in s'.tables.pending ensures exists i :: 0 <= i < |s'.tasks| && Owns(s'.tasks[i], e) {
      var i :| 0 <= i < |s.tasks| && Owns(s.tasks[i], e);
      assert Owns(s'.tasks[i], e);
    }
  }

  lemma MarkCache(cfg: Config, s: State, s': State, j: nat)
    requires CacheOk(cfg, s) && Marks(s, s', j)
    ensures CacheOk(cfg, s')
  {
    if cfg.caching {
      forall a, b | 0 <= a < b < |s'.tasks| && s'.tasks[a].uri == s'.tasks[b].uri
        ensures !(Counts(s'.tasks[a]) && Counts(s'.tasks[b]))
      {
        assert !(Counts(s.tasks[a]) && Counts(s.tasks[b]));
      }
    }
  }

  lemma MarkAttempts(cfg: Config, s: State, s': State, j: nat)
    requires AttemptsOk(cfg, s) && Marks(s, s', j)
    ensures AttemptsOk(cfg, s')
  {
    forall i | 0 <= i < |s'.tasks| ensures AttemptOk(s', s'.tasks[i]) && PostsOk(cfg, s'.tasks[i]) {
      OtherAttempts(s, s', s.tasks[i]);
    }
  }

  /** Marking an unfinished task for cancellation, which may cancel the future it waits for. */
  lemma MarkTaskKeeps(lib: Library, cfg: Config, s: State, s': State, j: nat)
    requires Inv(lib, cfg, s) && CallsOk(s') && Marks(s, s', j)
    ensures Inv(lib, cfg, s')
  {
    hide RequestsOk, CallsOk, CacheOk, AttemptsOk;
    MarkRequests(s, s', j);
    MarkCache(cfg, s, s', j);
    MarkAttempts(cfg, s, s', j);
    assert FuturesOk(lib, s'.tables);
    forall i | 0 <= i < |s'.tasks| ensures s'.tasks[i].point.Exchanging() <==> s'.tables.lock == Some(i) {
      assert s.tasks[i].point.Exchanging() <==> s.tables.lock == Some(i);
    }
  }

  // ---------------------------------------------------------------- stores that change from outside

  lemma {:induction false} HandleAllKeepsFutures(lib: Library, secret: Option<Bytes>, keys: seq<PrivateKey>, t: Tables,
                                                 batch: seq<string>)
    requires FuturesOk(lib, t)
    ensures FuturesOk(lib, HandleAll(lib, secret, keys, t, batch))
    decreases batch
  {
    if batch != [] {
      OneEffect(lib, secret, keys, t, batch[0]);
      HandleAllKeepsFutures(lib, secret, keys, Handle(lib, secret, keys, t, batch[0]), batch[1..]);
    }
  }

  /** Only the cache and the pending requests and futures change, and these as a batch changes them. */
  lemma GrowsKeeps(lib: Library, cfg: Config, s: State, t: Tables)
    requires Inv(lib, cfg, s) && Grows(s.tables, t) && FuturesOk(lib, t)
    ensures Inv(lib, cfg, s.(tables := t))
  {
    var s' := s.(tables := t);
    forall i | 0 <= i < |s'.tasks| ensures AttemptOk(s', s'.tasks[i]) && PostsOk(cfg, s'.tasks[i]) {
      OtherAttempts(s, s', s.tasks[i]);
    }
    forall i | 0 <= i < |s'.tasks| ensures RequestOk(s'.tables, s'.tasks[i]) {
      assert RequestOk(s.tables, s.tasks[i]);
    }
    assert CallsOk(s') by {
      forall c | 0 <= c < |s'.calls| ensures CallOk(s', s'.calls[c]) {
        assert CallOk(s, s.calls[c]);
      }
    }
  }

  lemma MercuryKeeps(lib: Library, cfg: Config, s: State, batch: seq<string>)
    requires Inv(lib, cfg, s)
    ensures Inv(lib, cfg, s.(tables := Process(lib, s.tables, batch)))
  {
    HandleAllGrows(lib, Secret(s.tables), ExchangeKeys(s.tables.pending), s.tables, batch);
    HandleAllKeepsFutures(lib, Secret(s.tables), ExchangeKeys(s.tables.pending), s.tables, batch);
    GrowsKeeps(lib, cfg, s, Process(lib, s.tables, batch));
  }

  lemma CacheKeyKeeps(lib: Library, cfg: Config, s: State, key: Key)
    requires Inv(lib, cfg, s)
    ensures Inv(lib, cfg, s.(tables := Store(s.tables, key)))
  {
    HasInAll(s.tables.pending);
    GrowsKeeps(lib, cfg, s, Store(s.tables, key));
  }

  lemma TickKeeps(lib: Library, cfg: Config, s: State, now: real)
    requires Inv(lib, cfg, s) && now >= s.now
    ensures Inv(lib, cfg, s.(now := now))
  {
    var s' := s.(now := now);
    forall i | 0 <= i < |s'.tasks| ensures AttemptOk(s', s'.tasks[i]) && PostsOk(cfg, s'.tasks[i]) {
      OtherAttempts(s, s', s.tasks[i]);
    }
    assert CallsOk(s') by {
      forall c | 0 <= c < |s'.calls| ensures CallOk(s', s'.calls[c]) {
        assert CallOk(s, s.calls[c]);
      }
    }
  }

  /** Every step keeps the invariant. */
  lemma StepKeeps(lib: Library, cfg: Config, s: State, l: Label)
    requires Inv(lib, cfg, s) && Enabled(cfg, s, l)
    ensures Inv(lib, cfg, Step(lib, cfg, s, l))
  {
    hide Inv, ResumeTask, EnterCall, FinishCall, CancelCall, CanResume, Store, Process;
    match l
    case Resume(i, e) => ResumeKeeps(lib, cfg, s, i, e);
    case GetKey(uri) => EnterCallKeeps(lib, cfg, s, uri);
    case Finish(c) => FinishCallKeeps(lib, cfg, s, c);
    case Cancel(c) => CancelCallKeeps(lib, cfg, s, c);
    case CacheKey(key) => CacheKeyKeeps(lib, cfg, s, key);
    case Mercury(batch) => MercuryKeeps(lib, cfg, s, batch);
    case Tick(now) => TickKeeps(lib, cfg, s, now);
  }

  lemma InitialKeeps(lib: Library, cfg: Config)
    ensures Inv(lib, cfg, INITIAL)
  {
  }

  /** The invariant holds in every state of every run. */
  lemma {:induction false} RunKeeps(lib: Library, cfg: Config, states: seq<State>, labels: seq<Label>, k: nat)
    requires IsRun(lib, cfg, states, labels) && k < |states|
    ensures Inv(lib, cfg, states[k])
  {
    hide Inv, Enabled, Step;
    if k == 0 {
      InitialKeeps(lib, cfg);
    } else {
      RunKeeps(lib, cfg, states, labels, k - 1);
      assert IsStep(lib, cfg, states[k - 1], labels[k - 1], states[k - 1 + 1]);
      StepKeeps(lib, cfg, states[k - 1], labels[k - 1]);
    }
  }
}
