/** When sessions are reused, replaced and given up, and what the books of the machine count. */
module Sessions {
  import opened Basics
  import opened Models
  import opened Text
  import opened Decoder
  import opened Tables
  import opened HttpRetry
  import opened Replies
  import opened Protocol
  import opened Invariant
  import opened Attempts
  import opened Deliveries

  // ---------------------------------------------------------------- reuse

  /** The task has just got the session lock in order to get a context. */
  ghost predicate AsksForSession(cfg: Config, s: State, i: nat) {
    CanResume(cfg, s, i, Granted) && s.tasks[i].point.NeedSession?
  }

  /** There is a session, and it is less than an hour old. */
  predicate Live(s: State) {
    s.tables.session.Some? && s.now - s.tables.session.value.createdAt < 3600.0
  }

  /** A live session is always reused, and nothing else changes; any other is replaced by an exchange under the lock. */
  lemma LiveSessionIsReused(lib: Library, cfg: Config, s: State, i: nat)
    requires AsksForSession(cfg, s, i)
    ensures var p, s' := s.tasks[i].point, ResumeTask(lib, cfg, s, i, Granted);
            if Live(s) then
              && s'.tasks[i].point == Addressing(p.attempt, s.tables.session.value)
              && s'.tables == s.tables && s'.stats == s.stats
            else
              && s'.tasks[i].point == Preparing(p.attempt)
              && s'.tables == s.tables.(session := None, lock := Some(i))
  {
  }

  // ---------------------------------------------------------------- the books

  /** The step begins an exchange: a task gets the lock for a session, and there is no live one. */
  ghost predicate BeginsExchange(cfg: Config, s: State, l: Label) {
    l.Resume? && l.event.Granted? && AsksForSession(cfg, s, l.task) && !Live(s)
  }

  /** The step ends an exchange without a session: in an error, or by cancellation. */
  ghost predicate AbortsExchange(lib: Library, cfg: Config, s: State, l: Label) {
    && l.Resume? && CanResume(cfg, s, l.task, l.event) && s.tasks[l.task].point.Exchanging()
    && (l.event.Unwound? || exists error :: Ends(lib, cfg, s, l.task, l.event) == ExchangeEnds(Err(error)))
  }

  /** The step invalidates the session on behalf of a task. */
  ghost predicate Invalidates(cfg: Config, s: State, l: Label) {
    l.Resume? && l.event.Granted? && CanResume(cfg, s, l.task, Granted) && s.tasks[l.task].point.NeedInvalidation?
  }

  function One(b: bool): nat {
    if b then 1 else 0
  }

  /**
   The counters of sessions count what they say: exchanges begun, and never while there is a live session; sessions
   given up because their hour was over; invalidations; exchanges that failed or were cancelled.
   */
  lemma BooksAreKept(lib: Library, cfg: Config, s: State, l: Label)
    requires Enabled(cfg, s, l)
    ensures var n, n' := s.stats, Step(lib, cfg, s, l).stats;
            && n'.started == n.started + One(BeginsExchange(cfg, s, l))
            && n'.expired == n.expired + One(BeginsExchange(cfg, s, l) && s.tables.session.Some?)
            && n'.invalidated == n.invalidated + One(Invalidates(cfg, s, l))
            && n'.aborted == n.aborted + One(AbortsExchange(lib, cfg, s, l))
  {
    hide ResumeTask, CanResume, EnterCall, FinishCall, CancelCall, Process, Store, Ends, Live;
    match l
    case Resume(i, e) => ResumeBooks(lib, cfg, s, i, e);
    case GetKey(uri) => CallBooks(cfg, s, uri);
    case Finish(c) => FinishBooks(s, c);
    case Cancel(c) => CancelBooks(cfg, s, c);
    case _ =>
  }

  lemma CallBooks(cfg: Config, s: State, uri: string)
    ensures EnterCall(cfg, s, uri).stats == s.stats
  {
    hide KmsText.ParseKmsUri;
  }

  lemma FinishBooks(s: State, c: nat)
    requires CanFinish(s, c)
    ensures FinishCall(s, c).stats == s.stats
  {
  }

  lemma CancelBooks(cfg: Config, s: State, c: nat)
    requires CanCancel(s, c)
    ensures CancelCall(cfg, s, c).stats == s.stats
  {
  }

  lemma ResumeBooks(lib: Library, cfg: Config, s: State, i: nat, e: Event)
    requires CanResume(cfg, s, i, e)
    ensures var n, n', l := s.stats, ResumeTask(lib, cfg, s, i, e).stats, Resume(i, e);
            && n'.started == n.started + One(BeginsExchange(cfg, s, l))
            && n'.expired == n.expired + One(BeginsExchange(cfg, s, l) && s.tables.session.Some?)
            && n'.invalidated == n.invalidated + One(Invalidates(cfg, s, l))
            && n'.aborted == n.aborted + One(AbortsExchange(lib, cfg, s, l))
  {
    hide Inline, ExchangeReply, RetrieveReply, SecretFromPayload, ParseKey, EndAttempt;
    ResumeEnds(lib, cfg, s, i, e);
    var p := s.tasks[i].point;
    match Ends(lib, cfg, s, i, e)
    case AttemptEnds(key) => EndAttemptBooks(cfg, AtEnd(s, i, e), i, p.attempt, p.context, key);
    case _ =>
  }

  lemma EndAttemptBooks(cfg: Config, u: State, i: nat, a: Attempt, context: Context, key: Result<Key>)
    requires i < |u.tasks|
    ensures EndAttempt(cfg, u, i, a, context, key).stats == u.stats
  {
  }

  /** The same over a run: an exchange is begun only where there is no session or its hour is over. */
  lemma ExchangesAreNeeded(lib: Library, cfg: Config, states: seq<State>, labels: seq<Label>, k: nat)
    requires IsRun(lib, cfg, states, labels) && k < |labels|
    ensures var s, s' := states[k], states[k + 1];
            && (s'.stats.started > s.stats.started ==>
                  s.tables.session.None? || s.now - s.tables.session.value.createdAt >= 3600.0)
            && (s'.stats.expired > s.stats.expired ==>
                  s.tables.session.Some? && s.now - s.tables.session.value.createdAt >= 3600.0)
  {
    hide Step, Enabled, AsksForSession, AbortsExchange, Invalidates;
    assert IsStep(lib, cfg, states[k], labels[k], states[k + 1]);
    BooksAreKept(lib, cfg, states[k], labels[k]);
  }

  /** The counters of a retrieval count its retrieve messages, the HTTP requests for them, and its invalidations. */
  lemma CountersAreKept(lib: Library, cfg: Config, s: State, i: nat, e: Event)
    requires CanResume(cfg, s, i, e)
    ensures var task, task' := s.tasks[i], ResumeTask(lib, cfg, s, i, e).tasks[i];
            && task'.sent == task.sent + One(e.RetrieveReady?)
            && task'.invalidations == task.invalidations + One(Invalidates(cfg, s, Resume(i, e)))
            && task'.posts == task.posts + (if e.Replied? && task.point.Sending? then |e.run|
                                            else if e.Unwound? then e.attempts else 0)
  {
    hide Inline, ExchangeReply, RetrieveReply, SecretFromPayload, ParseKey, EndAttempt, EndExchange;
    ResumeEnds(lib, cfg, s, i, e);
    var p, u := s.tasks[i].point, AtEnd(s, i, e);
    match Ends(lib, cfg, s, i, e)
    case ExchangeEnds(secret) => EndExchangeCounters(u, i, p.attempt, secret);
    case AttemptEnds(key) => EndAttemptCounters(cfg, u, i, p.attempt, p.context, key);
    case NoEnd =>
  }

  lemma EndExchangeCounters(u: State, i: nat, a: Attempt, secret: Result<Bytes>)
    requires i < |u.tasks|
    ensures EndExchange(u, i, a, secret).tasks[i] ==
            u.tasks[i].(point := EndExchange(u, i, a, secret).tasks[i].point)
  {
  }

  lemma EndAttemptCounters(cfg: Config, u: State, i: nat, a: Attempt, context: Context, key: Result<Key>)
    requires i < |u.tasks|
    ensures EndAttempt(cfg, u, i, a, context, key).tasks[i] ==
            u.tasks[i].(point := EndAttempt(cfg, u, i, a, context, key).tasks[i].point)
  {
  }

  // ---------------------------------------------------------------- an exchange over Mercury

  /** The payload is a KMS message for this request that agrees on the secret with the private key. */
  ghost predicate Agrees(lib: Library, payload: Bytes, id: string, key: PrivateKey, secret: Bytes) {
    && lib.parse(payload).Message? && lib.parse(payload).message.requestId == id
    && exists jwk, point ::
         OffersPoint(lib.parse(payload).message, jwk) && ReadsPoint(lib, jwk, point)
         && lib.agree(point, key) == Some(secret)
  }

  ghost predicate WaitsForExchange(cfg: Config, t: Tables, task: Task) {
    && task.point.Awaiting? && task.point.id in t.futures && t.futures[task.point.id].Waiting?
    && (task.cancelling ==> !cfg.prompt)
  }

  /** No message of this beginning of a batch names the task's request or makes the batch end. */
  ghost predicate Passes(lib: Library, t: Tables, before: seq<string>, task: Task) {
    && (forall h | 0 <= h < |before| ::
          Some(Addressee(lib, Secret(t), ExchangeKeys(t.pending), before[h])) != task.point.Request())
    && !AnyRaises(lib, Secret(t), ExchangeKeys(t.pending), before)
  }

  /**
   The reply to an exchange comes over Mercury, encrypted to its key: wherever it stands in the batch, if no earlier
   message of the batch names the request or makes the batch end, the retrieval gets a new session with the agreed
   secret.
   */
  lemma ExchangeReplyOpensSession(lib: Library, cfg: Config, s: State, i: nat, before: seq<string>, raw: string,
                                  after: seq<string>, plaintext: Bytes, secret: Bytes)
    requires RequestsOk(s) && LockOk(s)
    requires i < |s.tasks| && WaitsForExchange(cfg, s.tables, s.tasks[i]) && Passes(lib, s.tables, before, s.tasks[i])
    requires Count(raw, '.') == 4 && lib.decryptEcdh(raw, s.tasks[i].point.key) == Some(plaintext)
    requires Agrees(lib, plaintext, s.tasks[i].point.id, s.tasks[i].point.key, secret)
    ensures var s1 := AfterBatch(lib, s, before + [raw] + after);
            && CanResume(cfg, s1, i, Notified)
            && var s2, context := ResumeTask(lib, cfg, s1, i, Notified), Context(s.serial, secret, s.now);
            && s2.tasks[i].point == Addressing(s.tasks[i].point.attempt, context)
            && s2.tables.session == Some(context) && s2.tables.lock == None
  {
    hide ResumeTask, HandleAll, Has, Addressee, ExchangeKeys, RequestsOk, LockOk;
    var p, m := s.tasks[i].point, lib.parse(plaintext).message;
    var s1 := AfterBatch(lib, s, before + [raw] + after);
    OnlyKeyOfExchange(lib, cfg, s, i, raw, plaintext);
    var x: nat :| OpensWith(lib, s.tables.pending, x, raw, plaintext);
    ExchangeDelivery(lib, s.tables, before, raw, after, x, plaintext, m);
    assert CanResume(cfg, s1, i, Notified);
    SecretIsAgreed(lib, plaintext, p.id, p.key, secret);
    ExchangeVerdict(lib, cfg, s1, i, Notified);
  }

  lemma SecretIsAgreed(lib: Library, payload: Bytes, id: string, key: PrivateKey, secret: Bytes)
    requires Agrees(lib, payload, id, key, secret)
    ensures SecretFromPayload(lib, payload, key) == Ok(secret)
  {
    hide SharedSecret;
    SharedSecretIff(lib, lib.parse(payload).message, key, secret);
  }

  /** Among the pending requests only the one exchange has a key. */
  lemma OnlyKeyOfExchange(lib: Library, cfg: Config, s: State, i: nat, raw: string, plaintext: Bytes)
    requires RequestsOk(s) && LockOk(s) && i < |s.tasks| && s.tasks[i].point.Awaiting?
    requires s.tables.futures[s.tasks[i].point.id].Waiting?
    requires lib.decryptEcdh(raw, s.tasks[i].point.key) == Some(plaintext)
    ensures Has(s.tables.pending, s.tasks[i].point.id) && s.tasks[i].point.id != "" && s.tables.session.None?
    ensures exists x: nat :: OpensWith(lib, s.tables.pending, x, raw, plaintext)
  {
    var pending, p := s.tables.pending, s.tasks[i].point;
    assert RequestOk(s.tables, s.tasks[i]);
    assert s.tables.lock == Some(i);
    forall e | e in pending && e.privateKey.Some? ensures e.privateKey == Some(p.key) {
      var j :| 0 <= j < |s.tasks| && Owns(s.tasks[j], e);
      assert s.tables.lock == Some(j);
    }
    var y :| 0 <= y < |pending| && pending[y].id == p.id;
    assert pending[y] in pending;
    var j :| 0 <= j < |s.tasks| && Owns(s.tasks[j], pending[y]);
    assert j == i;
    var x := FirstWithKey(pending, y);
    assert OpensWith(lib, pending, x, raw, plaintext);
  }

  lemma FirstWithKey(pending: seq<Entry>, y: nat) returns (x: nat)
    requires y < |pending| && pending[y].privateKey.Some?
    ensures x <= y && pending[x].privateKey.Some? && forall h | 0 <= h < x :: pending[h].privateKey.None?
  {
    if h :| 0 <= h < y && pending[h].privateKey.Some? {
      x := FirstWithKey(pending, h);
    } else {
      x := y;
    }
  }

  // ---------------------------------------------------------------- a retrieve over Mercury

  /** The payload is a successful KMS message for this request, and the key is its single, or else first listed, one. */
  ghost predicate Gives(lib: Library, payload: Bytes, id: string, key: Key) {
    && lib.parse(payload).Message? && lib.parse(payload).message.requestId == id
    && lib.parse(payload).message.IsSuccess()
    && var m := lib.parse(payload).message;
    if m.key.Some? then m.key.value == key else |m.keys| > 0 && m.keys[0] == key
  }

  /**
   The asynchronous transport from end to end: a retrieve whose POST is answered 202, and for which a batch then brings
   a reply under the active session, returns the key of that reply.
   */
  lemma DeferredThenDelivered(lib: Library, cfg: Config, s: State, i: nat, run: seq<Reply<Content>>,
                              before: seq<string>, raw: string, after: seq<string>, plaintext: Bytes, key: Key)
    requires CanResume(cfg, s, i, Replied(run)) && s.tasks[i].point.Sending?
    requires run[|run| - 1].Answer? && run[|run| - 1].response.status == 202
    requires RequestOk(s.tables, s.tasks[i]) && s.tables.futures[s.tasks[i].point.id].Waiting?
    requires Unwraps(lib, s.tables, raw, plaintext) && Gives(lib, plaintext, s.tasks[i].point.id, key)
    requires Passes(lib, s.tables, before, s.tasks[i])
    ensures var s1 := ResumeTask(lib, cfg, s, i, Replied(run));
            var s2 := AfterBatch(lib, s1, before + [raw] + after);
            && CanResume(cfg, s2, i, Notified)
            && var s3 := ResumeTask(lib, cfg, s2, i, Notified);
            && s3.tasks[i].point == Finished(Returned(key))
            && (cfg.caching ==> s.tasks[i].uri in s3.tables.cache && s3.tables.cache[s.tasks[i].uri] == key)
  {
    var s1 := ResumeTask(lib, cfg, s, i, Replied(run));
    DeferredReply(lib, cfg, s, i, run);
    ResumeIsOneTask(lib, cfg, s, i, Replied(run));
    StaysUncancelled(lib, cfg, s, i, run);
    DeliveredReturns(lib, cfg, s1, i, before, raw, after, plaintext, key);
  }

  lemma StaysUncancelled(lib: Library, cfg: Config, s: State, i: nat, run: seq<Reply<Content>>)
    requires CanResume(cfg, s, i, Replied(run)) && Defers(run[|run| - 1])
    ensures !ResumeTask(lib, cfg, s, i, Replied(run)).tasks[i].cancelling
  {
    hide EndAttempt, EndExchange;
  }

  lemma DeliveredReturns(lib: Library, cfg: Config, s: State, i: nat, before: seq<string>, raw: string,
                         after: seq<string>, plaintext: Bytes, key: Key)
    requires i < |s.tasks| && s.tasks[i].point.Listening? && (s.tasks[i].cancelling ==> !cfg.prompt)
    requires RequestOk(s.tables, s.tasks[i]) && s.tables.futures[s.tasks[i].point.id].Waiting?
    requires Unwraps(lib, s.tables, raw, plaintext) && Gives(lib, plaintext, s.tasks[i].point.id, key)
    requires Passes(lib, s.tables, before, s.tasks[i])
    ensures var s1 := AfterBatch(lib, s, before + [raw] + after);
            && CanResume(cfg, s1, i, Notified)
            && var s2 := ResumeTask(lib, cfg, s1, i, Notified);
            && s2.tasks[i].point == Finished(Returned(key))
            && (cfg.caching ==> s.tasks[i].uri in s2.tables.cache && s2.tables.cache[s.tasks[i].uri] == key)
  {
    hide ResumeTask, Has, HandleAll, Models.KMSMessage.IsSuccess;
    var s1 := AfterBatch(lib, s, before + [raw] + after);
    Delivery(lib, s.tables, before, raw, after, plaintext, lib.parse(plaintext).message);
    assert CanResume(cfg, s1, i, Notified);
    assert Hands(lib, s1, i, Notified, plaintext);
    PayloadDecides(lib, cfg, s1, i, Notified, plaintext);
    AttemptVerdict(lib, cfg, s1, i, Notified);
    ResumeCaches(lib, cfg, s1, i, Notified);
  }
}
