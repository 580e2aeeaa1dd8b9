/** Runs that show what the protocol does not promise. */
module Scenarios {
  import opened Basics
  import opened Models
  import opened KmsText
  import opened Decoder
  import opened Tables
  import opened HttpRetry
  import opened Replies
  import opened Protocol
  import opened Invariant
  import opened Attempts
  import opened Cancellation
  import opened Sessions
  import opened Text

  lemma Extend(lib: Library, cfg: Config, states: seq<State>, labels: seq<Label>, l: Label)
    requires IsRun(lib, cfg, states, labels) && Enabled(cfg, states[|labels|], l)
    ensures IsRun(lib, cfg, states + [Step(lib, cfg, states[|labels|], l)], labels + [l])
  {
    hide Step, Enabled;
    var states', labels' := states + [Step(lib, cfg, states[|labels|], l)], labels + [l];
    forall k | 0 <= k < |labels'| ensures IsStep(lib, cfg, states'[k], labels'[k], states'[k + 1]) {
      if k < |labels| {
        assert IsStep(lib, cfg, states[k], labels[k], states[k + 1]);
      }
    }
  }

  /** A run that ends in the given state. */
  ghost predicate Reaches(lib: Library, cfg: Config, s: State) {
    exists states, labels :: EndsIn(lib, cfg, states, labels, s)
  }

  ghost predicate EndsIn(lib: Library, cfg: Config, states: seq<State>, labels: seq<Label>, s: State) {
    IsRun(lib, cfg, states, labels) && states[|labels|] == s
  }

  lemma Start(lib: Library, cfg: Config)
    ensures Reaches(lib, cfg, INITIAL)
  {
    assert EndsIn(lib, cfg, [INITIAL], [], INITIAL);
  }

  lemma Then(lib: Library, cfg: Config, s: State, l: Label)
    requires Reaches(lib, cfg, s) && Enabled(cfg, s, l)
    ensures Reaches(lib, cfg, Step(lib, cfg, s, l))
  {
    hide Step, Enabled;
    var states, labels :| EndsIn(lib, cfg, states, labels, s);
    Extend(lib, cfg, states, labels, l);
    assert EndsIn(lib, cfg, states + [Step(lib, cfg, s, l)], labels + [l], Step(lib, cfg, s, l));
  }

  /**
   Cancelling one `get_key` call can end another call, for the same URI, that nobody cancelled: the two share a task.
   */
  lemma CancellationIsShared(lib: Library, cfg: Config, uri: string) returns (s: State)
    requires ParseKmsUri(uri).Ok?
    ensures Reaches(lib, cfg, s)
    ensures |s.calls| == 2 && s.calls[1].uri == uri && !s.calls[1].asked && s.calls[1].over == Some(CancelledError)
  {
    hide Reaches, ParseKmsUri;
    var s1 := TwoCalls(lib, cfg, uri);
    Then(lib, cfg, s1, Cancel(0));
    var s2 := CancelCall(cfg, s1, 0);
    assert s2.tasks[0].cancelling && s2.calls[1] == s1.calls[1];
    Then(lib, cfg, s2, Resume(0, Unwound(0)));
    var s3 := ResumeTask(lib, cfg, s2, 0, Unwound(0));
    assert s3.tasks[0].point == Finished(CancelledError) && s3.calls == s2.calls;
    Then(lib, cfg, s3, Finish(1));
    s := FinishCall(s3, 1);
  }

  lemma TwoCalls(lib: Library, cfg: Config, uri: string) returns (s: State)
    requires ParseKmsUri(uri).Ok?
    ensures Reaches(lib, cfg, s)
    ensures s.calls == [Call(uri, Some(0), false, false, None), Call(uri, Some(0), false, false, None)]
    ensures s.tasks == [Task(uri, NeedSession(First), false, 0, 0, 0)]
  {
    hide Reaches, ParseKmsUri;
    Start(lib, cfg);
    Then(lib, cfg, INITIAL, GetKey(uri));
    var s1 := EnterCall(cfg, INITIAL, uri);
    Then(lib, cfg, s1, GetKey(uri));
    s := EnterCall(cfg, s1, uri);
  }

  /** A 200 reply with these messages. */
  function Ok200(jwes: seq<string>): seq<Reply<Content>> {
    [Answer(Response(200, None, Content("", Jwes(jwes))))]
  }

  /**
   A retrieval for one URI can return any key, whatever URI the key itself names: the two are never compared. This is so
   for every library, given an answer from which an exchange agrees on a secret, and an answer that grants the key under
   that secret.
   */
  lemma AnyKeyCanBeReturned(lib: Library, cfg: Config, uri: string, privateKey: PrivateKey, agreement: seq<string>,
                            secret: Bytes, answer: seq<string>, key: Key) returns (s: State)
    requires ParseKmsUri(uri).Ok?
    requires SecretFromJwes(lib, agreement, privateKey) == Ok(secret)
    requires KeyFromJwes(lib, answer, secret) == Ok(key)
    ensures Reaches(lib, cfg, s)
    ensures |s.calls| == 1 && s.calls[0].uri == uri && s.calls[0].over == Some(Returned(key))
  {
    var s1 := BeginExchange(lib, cfg, uri, privateKey);
    var s2 := EndWithSecret(lib, cfg, uri, privateKey, agreement, secret, s1);
    s := RetrieveOnce(lib, cfg, uri, secret, answer, key, s2);
  }

  lemma InlineAnswer(jwes: seq<string>)
    ensures |Ok200(jwes)| == 1 && Exchanged(0, Ok200(jwes)) && !Retried(Ok200(jwes)[0])
    ensures jwes != [] ==> Inline(Ok200(jwes)[0]) == Some(Ok(jwes))
  {
  }

  /** One call, for this URI, that waits for one task, at this point. */
  ghost predicate OneCall(s: State, uri: string, p: Point) {
    && s.calls == [Call(uri, Some(0), false, false, None)]
    && |s.tasks| == 1 && s.tasks[0].uri == uri && s.tasks[0].point == p && !s.tasks[0].cancelling
    && "b" !in s.tables.futures
  }

  lemma BeginExchange(lib: Library, cfg: Config, uri: string, key: PrivateKey) returns (s: State)
    requires ParseKmsUri(uri).Ok?
    ensures Reaches(lib, cfg, s) && OneCall(s, uri, Posting(First, "a", key))
    ensures "a" in s.tables.futures && s.tables.futures["a"].Waiting?
  {
    hide Reaches, ParseKmsUri;
    Start(lib, cfg);
    Then(lib, cfg, INITIAL, GetKey(uri));
    var s1 := EnterCall(cfg, INITIAL, uri);
    Then(lib, cfg, s1, Resume(0, Granted));
    var s2 := ResumeTask(lib, cfg, s1, 0, Granted);
    Then(lib, cfg, s2, Resume(0, ExchangeReady("a", key)));
    s := ResumeTask(lib, cfg, s2, 0, ExchangeReady("a", key));
  }

  lemma EndWithSecret(lib: Library, cfg: Config, uri: string, key: PrivateKey, jwes: seq<string>, secret: Bytes,
                      s0: State) returns (s: State)
    requires Reaches(lib, cfg, s0) && OneCall(s0, uri, Posting(First, "a", key))
    requires SecretFromJwes(lib, jwes, key) == Ok(secret)
    ensures Reaches(lib, cfg, s) && OneCall(s, uri, Addressing(First, Context(s0.serial, secret, s0.now)))
  {
    hide Reaches;
    InlineAnswer(jwes);
    assert jwes != [];
    hide Inline, Ok200, SecretFromJwes, Drop;
    Then(lib, cfg, s0, Resume(0, Replied(Ok200(jwes))));
    s := ResumeTask(lib, cfg, s0, 0, Replied(Ok200(jwes)));
  }

  lemma RetrieveOnce(lib: Library, cfg: Config, uri: string, secret: Bytes, jwes: seq<string>, key: Key, s0: State)
    returns (s: State)
    requires Reaches(lib, cfg, s0) && |s0.tasks| == 1 && s0.tasks[0].point.Addressing?
    requires OneCall(s0, uri, s0.tasks[0].point) && s0.tasks[0].point.attempt.First?
    requires s0.tasks[0].point.context.secret == secret && KeyFromJwes(lib, jwes, secret) == Ok(key)
    ensures Reaches(lib, cfg, s)
    ensures |s.calls| == 1 && s.calls[0].uri == uri && s.calls[0].over == Some(Returned(key))
  {
    hide Reaches;
    InlineAnswer(jwes);
    assert jwes != [];
    hide Inline, Ok200, KeyFromJwes, Drop;
    Then(lib, cfg, s0, Resume(0, RetrieveReady("b")));
    var s1 := ResumeTask(lib, cfg, s0, 0, RetrieveReady("b"));
    Then(lib, cfg, s1, Resume(0, Replied(Ok200(jwes))));
    var s2 := ResumeTask(lib, cfg, s1, 0, Replied(Ok200(jwes)));
    s := FinishOnly(lib, cfg, s2, uri, key);
  }

  // ---------------------------------------------------------------- everything over Mercury

  /** A POST answered 202. */
  function Accepted(): seq<Reply<Content>> {
    [Answer(Response(202, None, Content("", Jwes([]))))]
  }

  /**
   The whole protocol with every answer over Mercury: for every KMS URI, every private key and secret, and every library
   with a message that agrees on the secret with that key and one that gives a key under that secret, there is a run
   that exchanges, retrieves, and returns that key.
   */
  lemma KeyOverMercury(lib: Library, cfg: Config, uri: string, privateKey: PrivateKey, raw1: string, payload1: Bytes,
                       secret: Bytes, raw2: string, payload2: Bytes, key: Key) returns (s: State)
    requires ParseKmsUri(uri).Ok?
    requires Count(raw1, '.') == 4 && lib.decryptEcdh(raw1, privateKey) == Some(payload1)
    requires Agrees(lib, payload1, "a", privateKey, secret)
    requires Count(raw2, '.') == 4 && lib.unwrap(raw2, secret) == Some(payload2)
    requires Gives(lib, payload2, "b", key)
    ensures Reaches(lib, cfg, s)
    ensures |s.calls| == 1 && s.calls[0].uri == uri && s.calls[0].over == Some(Returned(key))
  {
    hide Reaches, ParseKmsUri, Agrees, Gives, Count;
    var s1 := BeginExchange(lib, cfg, uri, privateKey);
    var s2 := Defer(lib, cfg, uri, s1);
    var s3, context := ExchangeOverMercury(lib, cfg, uri, privateKey, raw1, payload1, secret, s2);
    var s4 := BeginRetrieve(lib, cfg, uri, context, s3);
    s := RetrieveOverMercury(lib, cfg, uri, context, raw2, payload2, key, s4);
  }

  /** Resuming the one task, if not in order to end it by cancellation, leaves the call as it is. */
  lemma ResumeOneCall(lib: Library, cfg: Config, s: State, uri: string, e: Event)
    requires |s.tasks| == 1 && OneCall(s, uri, s.tasks[0].point) && CanResume(cfg, s, 0, e)
    ensures var s' := ResumeTask(lib, cfg, s, 0, e);
            && |s'.tasks| == 1 && s'.calls == s.calls && s'.tasks[0].uri == uri && !s'.tasks[0].cancelling
  {
    hide ResumeTask, CanResume;
    ResumeIsOneTask(lib, cfg, s, 0, e);
    ResumeCancelling(lib, cfg, s, 0, e);
  }

  lemma ThenResume(lib: Library, cfg: Config, s: State, e: Event)
    requires Reaches(lib, cfg, s) && CanResume(cfg, s, 0, e)
    ensures Reaches(lib, cfg, ResumeTask(lib, cfg, s, 0, e))
  {
    hide Reaches, CanResume, ResumeTask;
    Then(lib, cfg, s, Resume(0, e));
  }

  lemma ReachedKeeps(lib: Library, cfg: Config, s: State)
    requires Reaches(lib, cfg, s)
    ensures Inv(lib, cfg, s)
  {
    hide Inv, IsRun;
    var states, labels :| EndsIn(lib, cfg, states, labels, s);
    RunLength(lib, cfg, states, labels);
    RunKeeps(lib, cfg, states, labels, |labels|);
  }

  lemma RunLength(lib: Library, cfg: Config, states: seq<State>, labels: seq<Label>)
    requires IsRun(lib, cfg, states, labels)
    ensures |states| == |labels| + 1
  {
    hide IsStep;
  }

  /** The POST of the one task is answered 202. */
  lemma Defer(lib: Library, cfg: Config, uri: string, s0: State) returns (s: State)
    requires Reaches(lib, cfg, s0) && |s0.tasks| == 1 && OneCall(s0, uri, s0.tasks[0].point)
    requires s0.tasks[0].point.Posting?
    ensures Reaches(lib, cfg, s) && s.tables == s0.tables
    ensures var p := s0.tasks[0].point; OneCall(s, uri, Awaiting(p.attempt, p.id, p.key))
  {
    hide Reaches;
    assert CanResume(cfg, s0, 0, Replied(Accepted()));
    s := ResumeTask(lib, cfg, s0, 0, Replied(Accepted()));
    hide ResumeTask, CanResume;
    ThenResume(lib, cfg, s0, Replied(Accepted()));
    DeferredReply(lib, cfg, s0, 0, Accepted());
    ResumeOneCall(lib, cfg, s0, uri, Replied(Accepted()));
  }

  lemma BatchOfOne(lib: Library, cfg: Config, s: State, uri: string, raw: string)
    requires Reaches(lib, cfg, s) && |s.tasks| == 1 && OneCall(s, uri, s.tasks[0].point)
    ensures var s' := AfterBatch(lib, s, [] + [raw] + []);
            && Reaches(lib, cfg, s') && OneCall(s', uri, s.tasks[0].point)
            && s'.now == s.now && s'.serial == s.serial
  {
    hide Reaches, HandleAll, Has;
    Then(lib, cfg, s, Mercury([] + [raw] + []));
    HandleAllGrows(lib, Secret(s.tables), ExchangeKeys(s.tables.pending), s.tables, [] + [raw] + []);
  }

  lemma ExchangeOverMercury(lib: Library, cfg: Config, uri: string, key: PrivateKey, raw: string, payload: Bytes,
                            secret: Bytes, s0: State) returns (s: State, context: Context)
    requires Reaches(lib, cfg, s0) && OneCall(s0, uri, Awaiting(First, "a", key))
    requires "a" in s0.tables.futures && s0.tables.futures["a"].Waiting?
    requires Count(raw, '.') == 4 && lib.decryptEcdh(raw, key) == Some(payload)
    requires Agrees(lib, payload, "a", key, secret)
    ensures Reaches(lib, cfg, s) && OneCall(s, uri, Addressing(First, context))
    ensures context.secret == secret && s.tables.session == Some(context)
  {
    ReachedKeeps(lib, cfg, s0);
    hide Reaches, ResumeTask, Agrees, Count, HandleAll, RequestsOk, LockOk, FuturesOk, StatsOk, AttemptsOk, CallsOk,
      CacheOk;
    ExchangeReplyOpensSession(lib, cfg, s0, 0, [], raw, [], payload, secret);
    BatchOfOne(lib, cfg, s0, uri, raw);
    var s1 := AfterBatch(lib, s0, [] + [raw] + []);
    hide Step;
    context, s := Context(s0.serial, secret, s0.now), ResumeTask(lib, cfg, s1, 0, Notified);
    ThenResume(lib, cfg, s1, Notified);
    ResumeOneCall(lib, cfg, s1, uri, Notified);
    NotifiedKeepsFutures(lib, cfg, s1, 0);
  }

  lemma NotifiedKeepsFutures(lib: Library, cfg: Config, s: State, i: nat)
    requires CanResume(cfg, s, i, Notified)
    ensures ResumeTask(lib, cfg, s, i, Notified).tables.futures == s.tables.futures
  {
    hide SecretFromPayload, ParseKey, KmsText.IsSessionError;
  }

  lemma BeginRetrieve(lib: Library, cfg: Config, uri: string, context: Context, s0: State) returns (s: State)
    requires Reaches(lib, cfg, s0) && OneCall(s0, uri, Addressing(First, context)) && s0.tables.session == Some(context)
    ensures Reaches(lib, cfg, s) && s.calls == s0.calls && s.tables.session == Some(context)
    ensures |s.tasks| == 1 && s.tasks[0].uri == uri && !s.tasks[0].cancelling
    ensures s.tasks[0].point == Sending(First, context, "b")
    ensures "b" in s.tables.futures && s.tables.futures["b"].Waiting?
  {
    hide Reaches;
    ThenResume(lib, cfg, s0, RetrieveReady("b"));
    s := ResumeTask(lib, cfg, s0, 0, RetrieveReady("b"));
  }

  lemma RetrieveOverMercury(lib: Library, cfg: Config, uri: string, context: Context, raw: string, payload: Bytes,
                            key: Key, s0: State) returns (s: State)
    requires Reaches(lib, cfg, s0) && s0.tables.session == Some(context)
    requires s0.calls == [Call(uri, Some(0), false, false, None)]
    requires |s0.tasks| == 1 && s0.tasks[0].uri == uri && !s0.tasks[0].cancelling
    requires s0.tasks[0].point == Sending(First, context, "b")
    requires "b" in s0.tables.futures && s0.tables.futures["b"].Waiting?
    requires Count(raw, '.') == 4 && lib.unwrap(raw, context.secret) == Some(payload) && Gives(lib, payload, "b", key)
    ensures Reaches(lib, cfg, s)
    ensures |s.calls| == 1 && s.calls[0].uri == uri && s.calls[0].over == Some(Returned(key))
  {
    hide Reaches, Gives, Count, Process, ResumeTask, Inv;
    ReachedKeeps(lib, cfg, s0);
    RequestOfTask(lib, cfg, s0);
    assert CanResume(cfg, s0, 0, Replied(Accepted()));
    DeferredThenDelivered(lib, cfg, s0, 0, Accepted(), [], raw, [], payload, key);
    var s1 := ResumeTask(lib, cfg, s0, 0, Replied(Accepted()));
    ThenResume(lib, cfg, s0, Replied(Accepted()));
    ResumeIsOneTask(lib, cfg, s0, 0, Replied(Accepted()));
    hide CanResume;
    Then(lib, cfg, s1, Mercury([] + [raw] + []));
    var s2 := AfterBatch(lib, s1, [] + [raw] + []);
    ThenResume(lib, cfg, s2, Notified);
    ResumeIsOneTask(lib, cfg, s2, 0, Notified);
    s := FinishOnly(lib, cfg, ResumeTask(lib, cfg, s2, 0, Notified), uri, key);
  }

  lemma RequestOfTask(lib: Library, cfg: Config, s: State)
    requires Inv(lib, cfg, s) && |s.tasks| > 0
    ensures RequestOk(s.tables, s.tasks[0])
  {
  }

  lemma FinishOnly(lib: Library, cfg: Config, s0: State, uri: string, key: Key) returns (s: State)
    requires Reaches(lib, cfg, s0) && s0.calls == [Call(uri, Some(0), false, false, None)]
    requires |s0.tasks| == 1 && s0.tasks[0].point == Finished(Returned(key))
    ensures Reaches(lib, cfg, s)
    ensures |s.calls| == 1 && s.calls[0].uri == uri && s.calls[0].over == Some(Returned(key))
  {
    hide Reaches;
    Then(lib, cfg, s0, Finish(0));
    s := FinishCall(s0, 0);
  }
}
