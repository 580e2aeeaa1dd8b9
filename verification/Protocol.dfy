/**
 The key-retrieval protocol as a step machine. A step is one stretch of code between two points where the event loop
 can switch tasks, or an act of the outside world: an HTTP call coming back, a batch of Mercury messages, a timer, a
 cancellation, the clock. Any number of calls and retrieval tasks are under way at once.
 */
module Protocol {
  import opened Basics
  import opened Models
  import opened KmsText
  import opened Decoder
  import opened Tables
  import opened HttpRetry
  import opened Replies

  /**
   `prompt` says how a wait for a Mercury reply is cancelled. If set (Python 3.12 and later), its future is cancelled
   at once, and the wait then ends in cancellation. If not (3.11), that is decided when the wait resumes: a reply that
   is in by then is taken, and the cancellation is swallowed.
   */
  datatype Config = Config(caching: bool, maxRetries: nat, prompt: bool)

  const ECDH_TTL_SECONDS := 3600.0

  /** How a call or a task ends. */
  datatype Outcome = Returned(key: Key) | Raised(message: string) | CancelledError

  /** The first attempt; the second after a session error; the second after any other error. */
  datatype Attempt = First | Fresh(error: string, failed: Context) | Same(error: string, failed: Context)

  /** Where a retrieval task is suspended. */
  datatype Point =
    // in _get_or_create_ecdh: before it has the session lock
    | NeedSession(attempt: Attempt)
    // in _invalidate_ecdh: before it has the session lock
    | NeedInvalidation(error: string, failed: Context)
    // in _perform_ecdh_exchange, holding the lock: identity and KMS information; the POST; the Mercury reply
    | Preparing(attempt: Attempt)
    | Posting(attempt: Attempt, id: string, key: PrivateKey)
    | Awaiting(attempt: Attempt, id: string, key: PrivateKey)
    // in _do_kms_retrieve, holding a context: identity; the POST; the Mercury reply
    | Addressing(attempt: Attempt, context: Context)
    | Sending(attempt: Attempt, context: Context, id: string)
    | Listening(attempt: Attempt, context: Context, id: string)
    | Finished(outcome: Outcome)
  {
    predicate Exchanging() {
      Preparing? || Posting? || Awaiting?
    }

    /** The request registered for this point. */
    function Request(): Option<string> {
      if Posting? || Awaiting? || Sending? || Listening? then Some(id) else None
    }

    function RequestKey(): Option<PrivateKey> {
      if Posting? || Awaiting? then Some(key) else None
    }
  }

  /** A retrieval task. The counters are its history: retrieve messages, HTTP requests for them, invalidations. */
  datatype Task = Task(uri: string, point: Point, cancelling: bool, sent: nat, posts: nat, invalidations: nat)

  /**
   A `get_key` call. `task` is the retrieval it joined, if it got that far; `asked` says that it was cancelled, and
   `mustCancel` that this came too late to reach the task.
   */
  datatype Call = Call(uri: string, task: Option<nat>, asked: bool, mustCancel: bool, over: Option<Outcome>)

  /** History of the session: exchanges begun, invalidations, expirations, exchanges failed or cancelled. */
  datatype Stats = Stats(started: nat, invalidated: nat, expired: nat, aborted: nat)

  datatype State = State(tables: Tables, tasks: seq<Task>, calls: seq<Call>, now: real, serial: nat, stats: Stats)

  const INITIAL := State(EMPTY, [], [], 0.0, 0, Stats(0, 0, 0, 0))

  /** What resumes a retrieval task. */
  datatype Event =
    | Granted
    | ExchangeReady(id: string, key: PrivateKey)
    | RetrieveReady(id: string)
    | Failed(error: string)
    | Replied(run: seq<Reply<Content>>)
    | Notified
    | TimerFired
    | TimedOut
    | Unwound(attempts: nat)

  datatype Label =
    | Resume(task: nat, event: Event)
    | GetKey(uri: string)
    | Finish(call: nat)
    | Cancel(call: nat)
    | CacheKey(key: Key)
    | Mercury(batch: seq<string>)
    | Tick(now: real)

  // ---------------------------------------------------------------- tasks

  function SetPoint(s: State, i: nat, p: Point): State
    requires i < |s.tasks|
  {
    s.(tasks := s.tasks[i := s.tasks[i].(point := p)])
  }

  function Register(t: Tables, id: string, key: Option<PrivateKey>): Tables {
    t.(pending := t.pending + [Entry(id, key)], futures := t.futures[id := Waiting])
  }

  function Unregister(t: Tables, id: Option<string>): Tables {
    if id.Some? then t.(pending := Drop(t.pending, id.value)) else t
  }

  /** The context `_get_or_create_ecdh` reuses, if it may. */
  function Reusable(t: Tables, now: real): Option<Context> {
    if t.session.Some? && now - t.session.value.createdAt < ECDH_TTL_SECONDS then t.session else None
  }

  /** The lock is granted to `_get_or_create_ecdh`: reuse the session, or drop it and begin an exchange. */
  function EnterSession(s: State, i: nat, a: Attempt): State
    requires i < |s.tasks|
  {
    match Reusable(s.tables, s.now)
    case Some(context) => SetPoint(s, i, Addressing(a, context))
    case None =>
      SetPoint(s, i, Preparing(a)).(
      tables := s.tables.(session := None, lock := Some(i)),
      stats := s.stats.(started := s.stats.started + 1,
                        expired := s.stats.expired + if s.tables.session.Some? then 1 else 0))
  }

  /** The exchange ends: its request is unregistered and the lock released, with a new session or with an error. */
  function EndExchange(s: State, i: nat, a: Attempt, result: Result<Bytes>): State
    requires i < |s.tasks|
  {
    var t := Unregister(s.tables, s.tasks[i].point.Request()).(lock := None);
    match result
    case Ok(secret) =>
      var context := Context(s.serial, secret, s.now);
      SetPoint(s, i, Addressing(a, context)).(tables := t.(session := Some(context)), serial := s.serial + 1)
    case Err(error) =>
      SetPoint(s, i, Finished(Raised(error))).(tables := t, stats := s.stats.(aborted := s.stats.aborted + 1))
  }

  /** The lock is granted to `_invalidate_ecdh`, which clears the session and releases it. */
  function EnterInvalidation(s: State, i: nat, error: string, failed: Context): State
    requires i < |s.tasks|
  {
    s.(tasks := s.tasks[i := s.tasks[i].(point := NeedSession(Fresh(error, failed)),
                                         invalidations := s.tasks[i].invalidations + 1)],
    tables := s.tables.(session := None),
    stats := s.stats.(invalidated := s.stats.invalidated + 1))
  }

  /** What follows the end of a retrieve attempt in `_retrieve_key_via_ecdh` and `_retrieve_and_cache_key`. */
  function Continuation(a: Attempt, context: Context, result: Result<Key>): Point {
    match result
    case Ok(key) => Finished(Returned(key))
    case Err(error) =>
      if a.First? then
        if IsSessionError(error) then NeedInvalidation(error, context) else Addressing(Same(error, context), context)
      else Finished(Raised(RetryFailure(error, a.error)))
  }

  function EndAttempt(cfg: Config, s: State, i: nat, a: Attempt, context: Context, result: Result<Key>): State
    requires i < |s.tasks|
  {
    var t := Unregister(s.tables, s.tasks[i].point.Request());
    SetPoint(s, i, Continuation(a, context, result)).(
    tables := if result.Ok? && cfg.caching then t.(cache := t.cache[s.tasks[i].uri := result.value]) else t)
  }

  function CountPosts(s: State, i: nat, n: nat): State
    requires i < |s.tasks|
  {
    s.(tasks := s.tasks[i := s.tasks[i].(posts := s.tasks[i].posts + n)])
  }

  /** The result of a 200 reply, or `None` when the reply is to come over Mercury: an empty list counts as such. */
  function Inline(reply: Reply<Content>): Option<Result<seq<string>>> {
    match KmsMessages(reply)
    case Err(error) => Some(Err(error))
    case Ok(None) => None
    case Ok(Some(jwes)) => if jwes == [] then None else Some(Ok(jwes))
  }

  function ExchangeReply(lib: Library, reply: Result<seq<string>>, key: PrivateKey): Result<Bytes> {
    match reply
    case Err(error) => Err(error)
    case Ok(jwes) => SecretFromJwes(lib, jwes, key)
  }

  function RetrieveReply(lib: Library, reply: Result<seq<string>>, context: Context): Result<Key> {
    match reply
    case Err(error) => Err(error)
    case Ok(jwes) => KeyFromJwes(lib, jwes, context.secret)
  }

  /** The task waits for a Mercury reply, and the reply is in. */
  predicate ReplyIn(t: Tables, p: Point) {
    (p.Awaiting? || p.Listening?) && p.id in t.futures && t.futures[p.id].Settled?
  }

  /**
   Whether the event can resume the task. A task being cancelled only unwinds, except that `wait_for` of Python 3.11
   takes a reply that is in: that swallows the cancellation, and a timer that fires too late has no effect either.
   */
  ghost predicate CanResume(cfg: Config, s: State, i: nat, e: Event) {
    && i < |s.tasks|
    && var p, t := s.tasks[i].point, s.tables;
    && match e
       case Granted => t.lock.None? && (p.NeedSession? || p.NeedInvalidation?) && !s.tasks[i].cancelling
       case ExchangeReady(id, key) => p.Preparing? && id != "" && id !in t.futures && !s.tasks[i].cancelling
       case RetrieveReady(id) => p.Addressing? && id != "" && id !in t.futures && !s.tasks[i].cancelling
       case Failed(_) => (p.Preparing? || p.Addressing?) && !s.tasks[i].cancelling
       case Replied(run) => (p.Posting? || p.Sending?) && Exchanged(cfg.maxRetries, run) && !s.tasks[i].cancelling
       case Notified => ReplyIn(t, p) && (s.tasks[i].cancelling ==> !cfg.prompt)
       case TimerFired =>
         (p.Awaiting? || p.Listening?) && p.id in t.futures && t.futures[p.id].Waiting? && !s.tasks[i].cancelling
       case TimedOut =>
         && (p.Awaiting? || p.Listening?) && p.id in t.futures && !t.futures[p.id].Waiting? && !s.tasks[i].cancelling
         && (ReplyIn(t, p) ==> cfg.prompt)
       case Unwound(attempts) =>
         && !p.Finished? && s.tasks[i].cancelling && (ReplyIn(t, p) ==> cfg.prompt)
         && attempts <= if p.Sending? then cfg.maxRetries + 1 else 0
  }

  ghost function ResumeTask(lib: Library, cfg: Config, s: State, i: nat, e: Event): State
    requires CanResume(cfg, s, i, e)
  {
    var p, t := s.tasks[i].point, s.tables;
    match e
    case Granted =>
      if p.NeedSession? then EnterSession(s, i, p.attempt) else EnterInvalidation(s, i, p.error, p.failed)
    case ExchangeReady(id, key) =>
      SetPoint(s, i, Posting(p.attempt, id, key)).(tables := Register(t, id, Some(key)))
    case RetrieveReady(id) =>
      var task := s.tasks[i].(point := Sending(p.attempt, p.context, id), sent := s.tasks[i].sent + 1);
      s.(tasks := s.tasks[i := task], tables := Register(t, id, None))
    case Failed(error) =>
      if p.Preparing? then EndExchange(s, i, p.attempt, Err(error))
      else EndAttempt(cfg, s, i, p.attempt, p.context, Err(error))
    case Replied(run) =>
      var reply := Inline(run[|run| - 1]);
      if p.Posting? then
        if reply.None? then SetPoint(s, i, Awaiting(p.attempt, p.id, p.key))
        else EndExchange(s, i, p.attempt, ExchangeReply(lib, reply.value, p.key))
      else
        var u := CountPosts(s, i, |run|);
        if reply.None? then SetPoint(u, i, Listening(p.attempt, p.context, p.id))
        else EndAttempt(cfg, u, i, p.attempt, p.context, RetrieveReply(lib, reply.value, p.context))
    case Notified =>
      var u := s.(tasks := s.tasks[i := s.tasks[i].(cancelling := false)]);
      if p.Awaiting? then EndExchange(u, i, p.attempt, SecretFromPayload(lib, t.futures[p.id].payload, p.key))
      else EndAttempt(cfg, u, i, p.attempt, p.context, ParseKey(lib, t.futures[p.id].payload))
    case TimerFired => s.(tables := t.(futures := t.futures[p.id := Cancelled]))
    case TimedOut =>
      if p.Awaiting? then EndExchange(s, i, p.attempt, Err(TIMEOUT))
      else EndAttempt(cfg, s, i, p.attempt, p.context, Err(TIMEOUT))
    case Unwound(attempts) =>
      var u := CountPosts(s, i, attempts);
      SetPoint(u, i, Finished(CancelledError)).(
      tables := Unregister(t, p.Request()).(lock := if p.Exchanging() then None else t.lock),
      stats := s.stats.(aborted := s.stats.aborted + if p.Exchanging() then 1 else 0))
  }

  // ---------------------------------------------------------------- calls

  function EndCall(uri: string, outcome: Outcome): Call {
    Call(uri, None, false, false, Some(outcome))
  }

  /** `get_key` up to its first wait, or to its end when it has nothing to wait for. */
  function EnterCall(cfg: Config, s: State, uri: string): State {
    var t := s.tables;
    if cfg.caching && uri in t.cache then s.(calls := s.calls + [EndCall(uri, Returned(t.cache[uri]))])
    else
      match ParseKmsUri(uri)
      case Err(error) => s.(calls := s.calls + [EndCall(uri, Raised(error))])
      case Ok(_) =>
        if uri in t.inflight && t.inflight[uri] < |s.tasks| then
          var j := t.inflight[uri];
          if s.tasks[j].point.Finished? then
            s.(calls := s.calls + [Call(uri, Some(j), false, false, Some(s.tasks[j].point.outcome))],
            tables := t.(inflight := t.inflight - {uri}))
          else s.(calls := s.calls + [Call(uri, Some(j), false, false, None)])
        else
          s.(calls := s.calls + [Call(uri, Some(|s.tasks|), false, false, None)],
          tasks := s.tasks + [Task(uri, NeedSession(First), false, 0, 0, 0)],
          tables := t.(inflight := t.inflight[uri := |s.tasks|]))
  }

  /** The `finally` clause of `get_key`. */
  function ClearInflight(t: Tables, uri: string, j: nat): Tables {
    if uri in t.inflight && t.inflight[uri] == j then t.(inflight := t.inflight - {uri}) else t
  }

  predicate Blocked(c: Call) {
    c.over.None? && c.task.Some?
  }

  /** The call's task is finished: the call takes its outcome, unless a late cancellation is due. */
  predicate CanFinish(s: State, c: nat) {
    && c < |s.calls| && Blocked(s.calls[c])
    && s.calls[c].task.value < |s.tasks|
    && s.tasks[s.calls[c].task.value].point.Finished?
  }

  function FinishCall(s: State, c: nat): State
    requires CanFinish(s, c)
  {
    var call := s.calls[c];
    var j := call.task.value;
    var outcome := if call.mustCancel then CancelledError else s.tasks[j].point.outcome;
    s.(calls := s.calls[c := call.(over := Some(outcome))], tables := ClearInflight(s.tables, call.uri, j))
  }

  predicate CanCancel(s: State, c: nat) {
    c < |s.calls| && Blocked(s.calls[c]) && s.calls[c].task.value < |s.tasks|
  }

  /**
   Cancelling a blocked call cancels the task it shares, unless that is finished: then it comes too late to reach it and
   is due when the call resumes.
   */
  function CancelCall(cfg: Config, s: State, c: nat): State
    requires CanCancel(s, c)
  {
    var j := s.calls[c].task.value;
    var p, futures := s.tasks[j].point, s.tables.futures;
    if p.Finished? then s.(calls := s.calls[c := s.calls[c].(asked := true, mustCancel := true)])
    else
      s.(calls := s.calls[c := s.calls[c].(asked := true)],
      tasks := s.tasks[j := s.tasks[j].(cancelling := true)],
      tables := if cfg.prompt && (p.Awaiting? || p.Listening?) && p.id in futures && futures[p.id].Waiting?
                then s.tables.(futures := futures[p.id := Cancelled]) else s.tables)
  }

  // ---------------------------------------------------------------- the machine

  /** A batch of Mercury messages comes in. */
  function AfterBatch(lib: Library, s: State, batch: seq<string>): State {
    s.(tables := Process(lib, s.tables, batch))
  }

  ghost predicate Enabled(cfg: Config, s: State, l: Label) {
    match l
    case Resume(i, e) => CanResume(cfg, s, i, e)
    case GetKey(_) => true
    case Finish(c) => CanFinish(s, c)
    case Cancel(c) => CanCancel(s, c)
    case CacheKey(_) => true
    case Mercury(_) => true
    case Tick(now) => now >= s.now
  }

  ghost function Step(lib: Library, cfg: Config, s: State, l: Label): State
    requires Enabled(cfg, s, l)
  {
    match l
    case Resume(i, e) => ResumeTask(lib, cfg, s, i, e)
    case GetKey(uri) => EnterCall(cfg, s, uri)
    case Finish(c) => FinishCall(s, c)
    case Cancel(c) => CancelCall(cfg, s, c)
    case CacheKey(key) => s.(tables := Store(s.tables, key))
    case Mercury(batch) => AfterBatch(lib, s, batch)
    case Tick(now) => s.(now := now)
  }

  ghost predicate IsStep(lib: Library, cfg: Config, s: State, l: Label, s': State) {
    Enabled(cfg, s, l) && s' == Step(lib, cfg, s, l)
  }

  /** The states between the labels. */
  ghost predicate IsPath(lib: Library, cfg: Config, states: seq<State>, labels: seq<Label>) {
    && |states| == |labels| + 1
    && forall k | 0 <= k < |labels| :: IsStep(lib, cfg, states[k], labels[k], states[k + 1])
  }

  /** A path that starts from the empty client. */
  ghost predicate IsRun(lib: Library, cfg: Config, states: seq<State>, labels: seq<Label>) {
    IsPath(lib, cfg, states, labels) && states[0] == INITIAL
  }
}
