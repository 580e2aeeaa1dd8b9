/**
 The encryption client as an object: each method is one uninterrupted stretch of its code, updates the client's tables
 in place, and is proved to take the step of the protocol that stands for it.
 */
module EncryptionClient {
  import opened Basics
  import opened Models
  import opened Text
  import opened KmsText
  import opened Decoder
  import opened Tables
  import opened HttpRetry
  import opened Replies
  import opened Protocol
  import opened Invariant

  class EncryptionClient {
    const disableKeyCache: bool
    const maxRetries: nat
    const prompt: bool

    // the client's tables
    var keyCache: map<string, Key>
    var inflightKeys: map<string, nat>
    var pendingRequests: seq<Entry>
    var ecdhContext: Option<Context>
    var ecdhLock: Option<nat>

    // the event loop's side: futures, retrieval tasks, get_key calls, the clock and the next context's serial number
    var futures: map<string, Future>
    var tasks: seq<Task>
    var calls: seq<Call>
    var now: real
    var serial: nat

    // history
    ghost var stats: Stats

    function Cfg(): Config {
      Config(!disableKeyCache, maxRetries, prompt)
    }

    ghost function Stores(): Tables
      reads this
    {
      Tables(keyCache, inflightKeys, pendingRequests, futures, ecdhContext, ecdhLock)
    }

    ghost function View(): State
      reads this
    {
      State(Stores(), tasks, calls, now, serial, stats)
    }

    constructor (disableKeyCache: bool, maxRetries: nat, prompt: bool)
      ensures View() == INITIAL
      ensures Cfg() == Config(!disableKeyCache, maxRetries, prompt)
    {
      this.disableKeyCache, this.maxRetries, this.prompt := disableKeyCache, maxRetries, prompt;
      keyCache, inflightKeys, pendingRequests, ecdhContext, ecdhLock := map[], map[], [], None, None;
      futures, tasks, calls, now, serial := map[], [], [], 0.0, 0;
      stats := Stats(0, 0, 0, 0);
    }

    // ---------------------------------------------------------------- get_key and the cache

    /** `get_key` up to `await task`. */
    method GetKey(uri: string)
      modifies this
      ensures View() == old(EnterCall(Cfg(), View(), uri))
    {
      if !disableKeyCache {
        if uri in keyCache {
          calls := calls + [EndCall(uri, Returned(keyCache[uri]))];
          return;
        }
      }
      var parsed := ParseKmsUri(uri);
      if parsed.Err? {
        calls := calls + [EndCall(uri, Raised(parsed.message))];
        return;
      }
      if uri !in inflightKeys || inflightKeys[uri] >= |tasks| {
        inflightKeys := inflightKeys[uri := |tasks|];
        calls := calls + [Call(uri, Some(|tasks|), false, false, None)];
        tasks := tasks + [Task(uri, NeedSession(First), false, 0, 0, 0)];
        return;
      }
      var task := inflightKeys[uri];
      if tasks[task].point.Finished? {
        calls := calls + [Call(uri, Some(task), false, false, Some(tasks[task].point.outcome))];
        inflightKeys := inflightKeys - {uri};
      } else {
        calls := calls + [Call(uri, Some(task), false, false, None)];
      }
    }

    /** `get_key` from the end of its task on: the `finally` clause, and the outcome. */
    method FinishGetKey(c: nat)
      requires CanFinish(View(), c)
      modifies this
      ensures View() == old(FinishCall(View(), c))
    {
      var call := calls[c];
      var task := call.task.value;
      if call.uri in inflightKeys && inflightKeys[call.uri] == task {
        inflightKeys := inflightKeys - {call.uri};
      }
      var outcome := if call.mustCancel then CancelledError else tasks[task].point.outcome;
      calls := calls[c := call.(over := Some(outcome))];
    }

    /** `cache_key` */
    method CacheKey(key: Option<Key>)
      modifies this`keyCache
      ensures Stores() == if key.None? then old(Stores()) else Store(old(Stores()), key.value)
    {
      if key.None? || key.value.uri == "" {
        return;
      }
      keyCache := keyCache[key.value.uri := key.value];
    }

    // ---------------------------------------------------------------- Mercury batches

    /** The body of the batch loop up to the plaintext: envelope, decryption, bare JSON. */
    static method RecoverPlaintext(lib: Library, context: Option<Context>, keys: seq<PrivateKey>, raw: string)
      returns (plaintext: Option<Bytes>)
      ensures plaintext == Recover(lib, if context.Some? then Some(context.value.secret) else None, keys, raw)
    {
      plaintext := None;
      var message := raw;
      if Count(message, '.') == 2 {
        var payload := MiddlePayload(message);
        if StartsWithBrace(payload) {
          plaintext := Some(payload);
        } else if payload != [] {
          message := lib.fromUtf8(payload);
        }
      }
      if plaintext.None? && Count(message, '.') == 4 {
        if context.Some? {
          plaintext := lib.unwrap(message, context.value.secret);
        }
        if plaintext.None? {
          plaintext := TryKeys(lib, message, keys);
        }
      }
      if plaintext.None? && "{" <= message {
        plaintext := Some(lib.toUtf8(message));
      }
    }

    /** The loop over the keys of the pending exchanges. */
    static method TryKeys(lib: Library, message: string, keys: seq<PrivateKey>) returns (plaintext: Option<Bytes>)
      ensures plaintext == FirstDecrypt(lib, message, keys)
    {
      plaintext := None;
      var k := 0;
      while k < |keys|
        invariant 0 <= k <= |keys|
        invariant FirstDecrypt(lib, message, keys) == FirstDecrypt(lib, message, keys[k..])
      {
        plaintext := lib.decryptEcdh(message, keys[k]);
        if plaintext.Some? {
          return;
        }
        k := k + 1;
      }
      plaintext := None;
    }

    /** The rest of the loop's body: settle the pending request, or else cache the keys. */
    method DispatchMessage(plaintext: Bytes, m: KMSMessage)
      modifies this`pendingRequests, this`futures, this`keyCache
      ensures Stores() == Dispatch(old(Stores()), plaintext, m)
    {
      hide Has, Drop, StoreAll;
      if m.requestId != "" {
        var pending := Has(pendingRequests, m.requestId);
        pendingRequests := Pop(pendingRequests, m.requestId);
        if pending && m.requestId in futures && futures[m.requestId].Waiting? {
          futures := futures[m.requestId := Settled(plaintext)];
          return;
        }
      }
      CacheKeys(m.AllKeys());
    }

    method CacheKeys(keys: seq<Key>)
      modifies this`keyCache
      ensures Stores() == StoreAll(old(Stores()), keys)
    {
      for k := 0 to |keys|
        invariant Stores() == old(Stores()).(cache := keyCache)
        invariant StoreAll(old(Stores()), keys) == StoreAll(Stores(), keys[k..])
      {
        CacheKey(Some(keys[k]));
        assert keys[k..][1..] == keys[k + 1..];
      }
    }

    /** `dict.pop(id, None)` */
    static function Pop(pending: seq<Entry>, id: string): (rest: seq<Entry>)
      ensures rest == if Has(pending, id) then Drop(pending, id) else pending
    {
      if Has(pending, id) then Drop(pending, id) else pending
    }

    /** `process_kms_messages`, and the exception it ends in, if it does. */
    method ProcessKmsMessages(lib: Library, jweStrings: seq<string>) returns (raised: Option<string>)
      modifies this`pendingRequests, this`futures, this`keyCache
      ensures Stores() == Process(lib, old(Stores()), jweStrings)
      ensures raised.Some? <==>
              AnyRaises(lib, Secret(old(Stores())), ExchangeKeys(old(pendingRequests)), jweStrings)
    {
      hide Recover, Dispatch, ExchangeKeys;
      var context, keys := ecdhContext, ExchangeKeys(pendingRequests);
      ghost var secret := Secret(Stores());
      for n := 0 to |jweStrings|
        invariant Stores() == HandleAll(lib, secret, keys, old(Stores()), jweStrings[..n])
        invariant !AnyRaises(lib, secret, keys, jweStrings[..n])
      {
        ghost var before := Stores();
        OneMessage(lib, secret, keys, old(Stores()), jweStrings, n);
        if jweStrings[n] != "" {
          var plaintext := RecoverPlaintext(lib, context, keys, jweStrings[n]);
          if plaintext.Some? {
            match lib.parse(plaintext.value)
            case Message(m) => DispatchMessage(plaintext.value, m);
            case Malformed(error) => return Some(error);
            case NotJson(_) =>
            case NotObject =>
          }
        }
        assert Stores() == Handle(lib, secret, keys, before, jweStrings[n]);
      }
      assert jweStrings[..|jweStrings|] == jweStrings;
      raised := None;
    }

    /** How the fold goes on at message `n`. */
    static lemma OneMessage(lib: Library, secret: Option<Bytes>, keys: seq<PrivateKey>, t: Tables, batch: seq<string>,
                            n: nat)
      requires n < |batch| && !AnyRaises(lib, secret, keys, batch[..n])
      ensures var u := HandleAll(lib, secret, keys, t, batch[..n]);
              if Raises(lib, secret, keys, batch[n]) then
                AnyRaises(lib, secret, keys, batch) && HandleAll(lib, secret, keys, t, batch) == u
              else
                && !AnyRaises(lib, secret, keys, batch[..n + 1])
                && HandleAll(lib, secret, keys, t, batch[..n + 1]) == Handle(lib, secret, keys, u, batch[n])
    {
      hide Raises, Handle;
      var u := HandleAll(lib, secret, keys, t, batch[..n]);
      assert batch[..n + 1] == batch[..n] + [batch[n]];
      assert batch == batch[..n] + batch[n..];
      HandleAllAppend(lib, secret, keys, t, batch[..n], [batch[n]]);
      HandleAllAppend(lib, secret, keys, t, batch[..n], batch[n..]);
      HandleOne(lib, secret, keys, u, batch[n]);
      var prefix := batch[..n + 1];
      forall i | 0 <= i < n ensures !Raises(lib, secret, keys, prefix[i]) {
        assert prefix[i] == batch[..n][i];
      }
    }

    // ---------------------------------------------------------------- sessions

    /** `_get_or_create_ecdh` once it has the lock, up to the first wait of the exchange if it needs one. */
    method GetOrCreateEcdh(i: nat)
      requires CanResume(Cfg(), View(), i, Granted) && tasks[i].point.NeedSession?
      modifies this
      ensures View() == old(EnterSession(View(), i, tasks[i].point.attempt))
    {
      var attempt := tasks[i].point.attempt;
      if ecdhContext.Some? {
        if now - ecdhContext.value.createdAt < ECDH_TTL_SECONDS {
          tasks := tasks[i := tasks[i].(point := Addressing(attempt, ecdhContext.value))];
          return;
        }
        ecdhContext := None;
        stats := stats.(expired := stats.expired + 1);
      }
      ecdhLock := Some(i);
      stats := stats.(started := stats.started + 1);
      tasks := tasks[i := tasks[i].(point := Preparing(attempt))];
    }

    /** `_invalidate_ecdh` once it has the lock. */
    method InvalidateEcdh(i: nat)
      requires CanResume(Cfg(), View(), i, Granted) && tasks[i].point.NeedInvalidation?
      modifies this
      ensures View() == old(EnterInvalidation(View(), i, tasks[i].point.error, tasks[i].point.failed))
    {
      ecdhContext := None;
      stats := stats.(invalidated := stats.invalidated + 1);
      var task := tasks[i];
      tasks := tasks[i := task.(point := NeedSession(Fresh(task.point.error, task.point.failed)),
                                invalidations := task.invalidations + 1)];
    }

    /** The end of `_perform_ecdh_exchange`: its `finally` clause, the new context, the release of the lock. */
    method FinishExchange(i: nat, result: Result<Bytes>)
      requires i < |tasks| && tasks[i].point.Exchanging()
      modifies this
      ensures View() == old(EndExchange(View(), i, tasks[i].point.attempt, result))
    {
      hide Drop, CanResume, ResumeTask, Inv;
      var p := tasks[i].point;
      UnregisterPendingRequest(p.Request());
      ecdhLock := None;
      match result {
        case Ok(secret) =>
          var context := Context(serial, secret, now);
          serial := serial + 1;
          ecdhContext := Some(context);
          tasks := tasks[i := tasks[i].(point := Addressing(p.attempt, context))];
        case Err(error) =>
          stats := stats.(aborted := stats.aborted + 1);
          tasks := tasks[i := tasks[i].(point := Finished(Raised(error)))];
      }
    }

    // ---------------------------------------------------------------- requests

    /** `_register_pending_request` */
    method RegisterPendingRequest(id: string, key: Option<PrivateKey>)
      requires id !in futures
      modifies this`pendingRequests, this`futures
      ensures Stores() == Register(old(Stores()), id, key)
    {
      futures := futures[id := Waiting];
      pendingRequests := pendingRequests + [Entry(id, key)];
    }

    /** `_unregister_pending_request`, where a request was registered. */
    method UnregisterPendingRequest(id: Option<string>)
      modifies this`pendingRequests
      ensures Stores() == Unregister(old(Stores()), id)
    {
      if id.Some? {
        pendingRequests := Drop(pendingRequests, id.value);
      }
    }

    /** `_send_ecdh_request` up to its POST. */
    method SendEcdhRequest(i: nat, id: string, key: PrivateKey)
      requires CanResume(Cfg(), View(), i, ExchangeReady(id, key))
      modifies this
      ensures forall lib :: View() == old(ResumeTask(lib, Cfg(), View(), i, ExchangeReady(id, key)))
    {
      RegisterPendingRequest(id, Some(key));
      tasks := tasks[i := tasks[i].(point := Posting(tasks[i].point.attempt, id, key))];
    }

    /** `_do_kms_retrieve` up to its POST. */
    method SendRetrieve(i: nat, id: string)
      requires CanResume(Cfg(), View(), i, RetrieveReady(id))
      modifies this
      ensures forall lib :: View() == old(ResumeTask(lib, Cfg(), View(), i, RetrieveReady(id)))
    {
      RegisterPendingRequest(id, None);
      var p := tasks[i].point;
      tasks := tasks[i := tasks[i].(point := Sending(p.attempt, p.context, id), sent := tasks[i].sent + 1)];
    }

    /** `_process_key_response_jwes`: the first reply that opens decides. */
    static method ProcessKeyResponseJwes(lib: Library, jwes: seq<string>, context: Context) returns (key: Result<Key>)
      ensures key == KeyFromJwes(lib, jwes, context.secret)
    {
      var k := 0;
      while k < |jwes|
        invariant 0 <= k <= |jwes|
        invariant FirstUnwrapped(lib, jwes, context.secret) == FirstUnwrapped(lib, jwes[k..], context.secret)
      {
        var payload := lib.unwrap(jwes[k], context.secret);
        if payload.Some? {
          return ParseKey(lib, payload.value);
        }
        k := k + 1;
      }
      return Err(NO_KEY_IN_JWES);
    }

    /** `decrypt_ecdh_response`: the first reply that decrypts to a JSON object. */
    static method DecryptEcdhResponse(lib: Library, jwes: seq<string>, key: PrivateKey) returns (m: Result<KMSMessage>)
      ensures m == EcdhResponse(lib, jwes, key)
    {
      var k := 0;
      while k < |jwes|
        invariant 0 <= k <= |jwes|
        invariant EcdhResponse(lib, jwes, key) == EcdhResponse(lib, jwes[k..], key)
      {
        var plaintext := lib.decryptEcdh(jwes[k], key);
        if plaintext.Some? {
          match lib.parse(plaintext.value) {
            case Message(parsed) => return Ok(parsed);
            case Malformed(error) => return Err(error);
            case NotJson(_) =>
            case NotObject =>
          }
        }
        k := k + 1;
      }
      return Err("failed to decrypt ECDH response from KMS");
    }

    /** The end of a retrieve attempt: its `finally` clause, the cache, and the choice of what comes next. */
    method FinishRetrieve(i: nat, result: Result<Key>)
      requires i < |tasks| && (tasks[i].point.Addressing? || tasks[i].point.Sending? || tasks[i].point.Listening?)
      modifies this
      ensures View() == old(EndAttempt(Cfg(), View(), i, tasks[i].point.attempt, tasks[i].point.context, result))
    {
      var task := tasks[i];
      var attempt, context := task.point.attempt, task.point.context;
      UnregisterPendingRequest(task.point.Request());
      var next: Point;
      if result.Ok? {
        if !disableKeyCache {
          keyCache := keyCache[task.uri := result.value];
        }
        next := Finished(Returned(result.value));
      } else if !attempt.First? {
        next := Finished(Raised(RetryFailure(result.message, attempt.error)));
      } else if IsSessionError(result.message) {
        next := NeedInvalidation(result.message, context);
      } else {
        next := Addressing(Same(result.message, context), context);
      }
      tasks := tasks[i := task.(point := next)];
    }

    // ---------------------------------------------------------------- what resumes a task

    /** The POST of a task comes back: its reply decides now, or the task waits for Mercury. */
    method ReceiveReply(lib: Library, i: nat, run: seq<Reply<Content>>)
      requires CanResume(Cfg(), View(), i, Replied(run))
      modifies this
      ensures View() == old(ResumeTask(lib, Cfg(), View(), i, Replied(run)))
    {
      hide EndExchange, EndAttempt, FirstUnwrapped, EcdhResponse, SharedSecret;
      var p := tasks[i].point;
      if p.Sending? {
        tasks := tasks[i := tasks[i].(posts := tasks[i].posts + |run|)];
      }
      var messages := KmsMessages(run[|run| - 1]);
      if messages.Ok? && (messages.value.None? || messages.value.value == []) {
        var next := if p.Posting? then Awaiting(p.attempt, p.id, p.key) else Listening(p.attempt, p.context, p.id);
        tasks := tasks[i := tasks[i].(point := next)];
      } else if p.Posting? {
        var secret: Result<Bytes>;
        if messages.Ok? {
          var m := DecryptEcdhResponse(lib, messages.value.value, p.key);
          secret := if m.Ok? then SharedSecret(lib, m.value, p.key) else Err(m.message);
        } else {
          secret := Err(messages.message);
        }
        FinishExchange(i, secret);
      } else {
        var key: Result<Key>;
        if messages.Ok? {
          key := ProcessKeyResponseJwes(lib, messages.value.value, p.context);
        } else {
          key := Err(messages.message);
        }
        FinishRetrieve(i, key);
      }
    }

    /** The future of a task is settled, and the task takes its payload. */
    method ReceivePayload(lib: Library, i: nat)
      requires CanResume(Cfg(), View(), i, Notified)
      modifies this
      ensures View() == old(ResumeTask(lib, Cfg(), View(), i, Notified))
    {
      var p := tasks[i].point;
      tasks := tasks[i := tasks[i].(cancelling := false)];
      if p.Awaiting? {
        FinishExchange(i, SecretFromPayload(lib, futures[p.id].payload, p.key));
      } else {
        FinishRetrieve(i, ParseKey(lib, futures[p.id].payload));
      }
    }

    /** A task ends in `CancelledError`, through its `finally` clauses. */
    method Unwind(i: nat, attempts: nat)
      requires CanResume(Cfg(), View(), i, Unwound(attempts))
      modifies this
      ensures forall lib :: View() == old(ResumeTask(lib, Cfg(), View(), i, Unwound(attempts)))
    {
      hide EndExchange, EndAttempt, Drop, Inline, EnterSession, EnterInvalidation;
      var p := tasks[i].point;
      UnregisterPendingRequest(p.Request());
      if p.Exchanging() {
        ecdhLock := None;
        stats := stats.(aborted := stats.aborted + 1);
      }
      tasks := tasks[i := tasks[i].(point := Finished(CancelledError), posts := tasks[i].posts + attempts)];
    }

    method ResumeOne(lib: Library, i: nat, e: Event)
      requires CanResume(Cfg(), View(), i, e)
      modifies this
      ensures View() == old(ResumeTask(lib, Cfg(), View(), i, e))
    {
      var p := tasks[i].point;
      match e
      case Granted =>
        if p.NeedSession? {
          GetOrCreateEcdh(i);
        } else {
          InvalidateEcdh(i);
        }
      case ExchangeReady(id, key) => SendEcdhRequest(i, id, key);
      case RetrieveReady(id) => SendRetrieve(i, id);
      case Failed(error) =>
        if p.Preparing? {
          FinishExchange(i, Err(error));
        } else {
          FinishRetrieve(i, Err(error));
        }
      case Replied(run) => ReceiveReply(lib, i, run);
      case Notified => ReceivePayload(lib, i);
      case TimerFired => futures := futures[p.id := Cancelled];
      case TimedOut =>
        if p.Awaiting? {
          FinishExchange(i, Err(TIMEOUT));
        } else {
          FinishRetrieve(i, Err(TIMEOUT));
        }
      case Unwound(attempts) => Unwind(i, attempts);
    }

    /** The caller of a blocked `get_key` cancels it. */
    method CancelGetKey(c: nat)
      requires CanCancel(View(), c)
      modifies this
      ensures View() == old(CancelCall(Cfg(), View(), c))
    {
      var j := calls[c].task.value;
      var p := tasks[j].point;
      if p.Finished? {
        calls := calls[c := calls[c].(asked := true, mustCancel := true)];
        return;
      }
      calls := calls[c := calls[c].(asked := true)];
      tasks := tasks[j := tasks[j].(cancelling := true)];
      if prompt && (p.Awaiting? || p.Listening?) && p.id in futures && futures[p.id].Waiting? {
        futures := futures[p.id := Cancelled];
      }
    }

    /** The event loop runs one step on the object: it is the step of the protocol, and keeps the invariant. */
    method Perform(lib: Library, l: Label)
      requires Enabled(Cfg(), View(), l) && Inv(lib, Cfg(), View())
      modifies this
      ensures View() == old(Step(lib, Cfg(), View(), l)) && Inv(lib, Cfg(), View())
    {
      hide Inv, ResumeTask, EnterCall, FinishCall, CancelCall, CanResume, Process;
      StepKeeps(lib, Cfg(), View(), l);
      match l
      case Resume(i, e) => ResumeOne(lib, i, e);
      case GetKey(uri) => GetKey(uri);
      case Finish(c) => FinishGetKey(c);
      case Cancel(c) => CancelGetKey(c);
      case CacheKey(key) => CacheKey(Some(key));
      case Mercury(batch) => var _ := ProcessKmsMessages(lib, batch);
      case Tick(later) => now := later;
    }
  }
}
