/** What a `get_key` call does at once, and what calls have to do with cache and in-flight table over whole runs. */
module Calls {
  import opened Basics
  import opened Models
  import opened Decoder
  import opened Tables
  import opened Protocol
  import opened Invariant

  /** A KMS URI names a domain and a path. */
  ghost predicate IsKmsUri(uri: string) {
    exists domain, path :: JoinsTo(domain, path, uri)
  }

  ghost predicate JoinsTo(domain: string, path: string, uri: string) {
    uri == "kms://" + (domain + ['/'] + path) && domain != "" && '/' !in domain && path != ""
  }

  lemma KmsUriIff(uri: string)
    ensures IsKmsUri(uri) <==> KmsText.ParseKmsUri(uri).Ok?
    ensures !IsKmsUri(uri) ==>
              KmsText.ParseKmsUri(uri) ==
              if "kms://" <= uri then Err("invalid KMS URI format (invalid structure): " + uri)
              else Err("invalid KMS URI format (missing prefix): " + uri)
  {
    if KmsText.ParseKmsUri(uri).Ok? {
      var (domain, path) := KmsText.ParseKmsUri(uri).value;
      KmsText.ParseKmsUriIff(uri, domain, path);
      assert JoinsTo(domain, path, uri);
    }
    if domain, path :| JoinsTo(domain, path, uri) {
      KmsText.ParseKmsUriIff(uri, domain, path);
    }
  }

  /** The key that a call for this URI gets without any retrieval. */
  function Cached(cfg: Config, s: State, uri: string): Option<Key> {
    if cfg.caching && uri in s.tables.cache then Some(s.tables.cache[uri]) else None
  }

  /**
   A call whose key is cached, with the cache on, ends with that key at once; else one for something that is no KMS URI
   ends in an error that says so. Neither touches tables or retrievals.
   */
  lemma CallEndsAtOnce(cfg: Config, s: State, uri: string)
    requires Cached(cfg, s, uri).Some? || !IsKmsUri(uri)
    ensures EnterCall(cfg, s, uri) ==
            s.(calls := s.calls + [Call(uri, None, false, false, Some(
                                     if Cached(cfg, s, uri).Some? then Returned(Cached(cfg, s, uri).value)
                                     else if "kms://" <= uri then
                                       Raised("invalid KMS URI format (invalid structure): " + uri)
                                     else Raised("invalid KMS URI format (missing prefix): " + uri)))])
  {
    KmsUriIff(uri);
    hide KmsText.ParseKmsUri, IsKmsUri;
  }

  /** The state after a call joins retrieval `j`. */
  function Joined(s: State, uri: string, j: nat): State {
    s.(calls := s.calls + [Call(uri, Some(j), false, false, None)])
  }

  /**
   Any other call joins the retrieval in flight for its URI, or begins one if there is none. A retrieval that has
   finished ends the call at once, as it ended, and is no longer in flight.
   */
  lemma CallJoinsOrBegins(lib: Library, cfg: Config, s: State, uri: string)
    requires Inv(lib, cfg, s) && Cached(cfg, s, uri).None? && IsKmsUri(uri)
    ensures var s', inflight := EnterCall(cfg, s, uri), s.tables.inflight;
            if uri !in inflight then
              s' == Joined(s, uri, |s.tasks|).(tasks := s.tasks + [Task(uri, NeedSession(First), false, 0, 0, 0)],
                                               tables := s.tables.(inflight := inflight[uri := |s.tasks|]))
            else
              && inflight[uri] < |s.tasks|
              && if s.tasks[inflight[uri]].point.Finished? then
                s' == Joined(s, uri, inflight[uri]).(
                calls := s.calls + [Call(uri, Some(inflight[uri]), false, false,
                                         Some(s.tasks[inflight[uri]].point.outcome))],
                tables := s.tables.(inflight := inflight - {uri}))
              else s' == Joined(s, uri, inflight[uri])
  {
    hide RequestsOk, FuturesOk, LockOk, StatsOk, AttemptsOk, CacheOk, Awaited;
    KmsUriIff(uri);
    hide KmsText.ParseKmsUri, IsKmsUri;
  }

  // ---------------------------------------------------------------- runs

  /** Retrievals are for KMS URIs only. */
  ghost predicate UrisOk(s: State) {
    forall i | 0 <= i < |s.tasks| :: IsKmsUri(s.tasks[i].uri)
  }

  /** A call that took the outcome of a retrieval leaves it no longer in flight, so that no later call joins it. */
  ghost predicate TakenOk(s: State) {
    forall c | 0 <= c < |s.calls| && s.calls[c].over.Some? && s.calls[c].task.Some?
               && s.calls[c].uri in s.tables.inflight ::
      s.tables.inflight[s.calls[c].uri] != s.calls[c].task.value
  }

  /** With the cache off, a call gets a key only from a retrieval. */
  ghost predicate UncachedOk(cfg: Config, s: State) {
    !cfg.caching ==>
      forall c | 0 <= c < |s.calls| && s.calls[c].over.Some? && s.calls[c].over.value.Returned? :: s.calls[c].task.Some?
  }

  ghost predicate CallsKept(cfg: Config, s: State) {
    UrisOk(s) && TakenOk(s) && UncachedOk(cfg, s)
  }

  lemma StepKeepsCalls(lib: Library, cfg: Config, s: State, l: Label)
    requires Inv(lib, cfg, s) && Enabled(cfg, s, l) && CallsKept(cfg, s)
    ensures CallsKept(cfg, Step(lib, cfg, s, l))
  {
    hide ResumeTask, CanResume, EnterCall, FinishCall, CancelCall, Process, Store, IsKmsUri,
      RequestsOk, FuturesOk, LockOk, StatsOk, AttemptsOk, CacheOk, Awaited;
    match l
    case Resume(i, e) => ResumeIsOneTask(lib, cfg, s, i, e);
    case GetKey(uri) => EnterKeepsCalls(lib, cfg, s, uri);
    case Finish(c) => FinishKeepsCalls(cfg, s, c);
    case Cancel(c) => CancelKeepsCalls(cfg, s, c);
    case Mercury(batch) => MercuryKeepsCalls(lib, cfg, s, batch);
    case CacheKey(key) => StoreKeepsCalls(cfg, s, key);
    case Tick(now) =>
  }

  lemma MercuryKeepsCalls(lib: Library, cfg: Config, s: State, batch: seq<string>)
    requires CallsKept(cfg, s)
    ensures CallsKept(cfg, s.(tables := Process(lib, s.tables, batch)))
  {
    hide HandleAll, Has, IsKmsUri;
    HandleAllGrows(lib, Secret(s.tables), ExchangeKeys(s.tables.pending), s.tables, batch);
  }

  lemma StoreKeepsCalls(cfg: Config, s: State, key: Key)
    requires CallsKept(cfg, s)
    ensures CallsKept(cfg, s.(tables := Store(s.tables, key)))
  {
  }

  lemma CancelKeepsCalls(cfg: Config, s: State, c: nat)
    requires CanCancel(s, c) && CallsKept(cfg, s)
    ensures CallsKept(cfg, CancelCall(cfg, s, c))
  {
    hide IsKmsUri;
  }

  lemma FinishKeepsCalls(cfg: Config, s: State, c: nat)
    requires CanFinish(s, c) && CallsKept(cfg, s)
    ensures CallsKept(cfg, FinishCall(s, c))
  {
    hide IsKmsUri;
  }

  lemma EnterKeepsCalls(lib: Library, cfg: Config, s: State, uri: string)
    requires Inv(lib, cfg, s) && CallsKept(cfg, s)
    ensures CallsKept(cfg, EnterCall(cfg, s, uri))
  {
    hide RequestsOk, FuturesOk, LockOk, StatsOk, AttemptsOk, CacheOk, Awaited, IsKmsUri, EnterCall, KmsText.ParseKmsUri;
    if Cached(cfg, s, uri).Some? || !IsKmsUri(uri) {
      CallEndsAtOnce(cfg, s, uri);
    } else {
      CallJoinsOrBegins(lib, cfg, s, uri);
      JoinKeepsCalls(cfg, s, EnterCall(cfg, s, uri), uri);
    }
  }

  lemma JoinKeepsCalls(cfg: Config, s: State, s': State, uri: string)
    requires CallsOk(s) && CallsKept(cfg, s) && IsKmsUri(uri)
    requires |s'.calls| == |s.calls| + 1 && s'.calls[..|s.calls|] == s.calls
    requires var call := s'.calls[|s.calls|];
             call.uri == uri && call.task.Some? && (call.over.Some? ==> uri !in s'.tables.inflight)
    requires s'.tasks == s.tasks || s'.tasks == s.tasks + [Task(uri, NeedSession(First), false, 0, 0, 0)]
    requires || s'.tables.inflight == s.tables.inflight || s'.tables.inflight == s.tables.inflight - {uri}
             || s'.tables.inflight == s.tables.inflight[uri := |s.tasks|]
    ensures CallsKept(cfg, s')
  {
    hide IsKmsUri, Awaited;
    assert forall c | 0 <= c < |s.calls| :: s'.calls[c] == s'.calls[..|s.calls|][c];
    forall c | 0 <= c < |s.calls| && s.calls[c].task.Some? ensures s.calls[c].task.value < |s.tasks| {
      assert CallOk(s, s.calls[c]);
    }
  }

  lemma {:induction false} RunKeepsCalls(lib: Library, cfg: Config, states: seq<State>, labels: seq<Label>, k: nat)
    requires IsRun(lib, cfg, states, labels) && k < |states|
    ensures CallsKept(cfg, states[k])
  {
    if k > 0 {
      hide Inv, Enabled, Step, CallsKept;
      var before := k - 1;
      RunKeepsCalls(lib, cfg, states, labels, before);
      RunKeeps(lib, cfg, states, labels, before);
      assert IsStep(lib, cfg, states[before], labels[before], states[before + 1]);
      StepKeepsCalls(lib, cfg, states[before], labels[before]);
    }
  }

  /**
   Over a run: with the cache off, a call returns only a key that the retrieval it joined returned, however many keys
   the cache holds; retrievals are for KMS URIs only; and once a call has taken the outcome of a retrieval, no later
   call can join that retrieval.
   */
  lemma CallsAndCache(lib: Library, cfg: Config, states: seq<State>, labels: seq<Label>, k: nat, c: nat)
    requires IsRun(lib, cfg, states, labels) && k < |states| && c < |states[k].calls|
    ensures var s, call := states[k], states[k].calls[c];
            && (!cfg.caching && call.over.Some? && call.over.value.Returned? ==>
                  && call.task.Some? && call.task.value < |s.tasks|
                  && s.tasks[call.task.value].point == Finished(call.over.value))
            && (call.task.Some? ==> call.task.value < |s.tasks| && IsKmsUri(call.uri))
            && (call.over.Some? && call.task.Some? && call.uri in s.tables.inflight ==>
                  s.tables.inflight[call.uri] != call.task.value)
  {
    hide IsRun, IsKmsUri, RequestsOk, FuturesOk, LockOk, StatsOk, AttemptsOk, CacheOk, Awaited;
    RunKeeps(lib, cfg, states, labels, k);
    RunKeepsCalls(lib, cfg, states, labels, k);
    assert CallOk(states[k], states[k].calls[c]);
  }

  // ---------------------------------------------------------------- cancelling

  /**
   Cancelling a call reaches the retrieval it waits for, or, if that is finished, only the call. If the retrieval waits
   for a Mercury reply, then from Python 3.12 on its future is cancelled at once, so that a later reply no longer
   settles it; in 3.11 it is left open until the wait resumes.
   */
  lemma CancelReachesFuture(cfg: Config, s: State, c: nat)
    requires CanCancel(s, c)
    ensures var j, s' := s.calls[c].task.value, CancelCall(cfg, s, c);
            var p, futures, futures' := s.tasks[j].point, s.tables.futures, s'.tables.futures;
            && s'.calls[c].asked && |s'.tasks| == |s.tasks|
            && if p.Finished? then s'.calls[c].mustCancel && s'.tasks == s.tasks && s'.tables == s.tables
               else
                 && s'.calls[c].mustCancel == s.calls[c].mustCancel && s'.tasks[j].cancelling
                 && futures' == if cfg.prompt && (p.Awaiting? || p.Listening?)
                                   && p.id in futures && futures[p.id] == Waiting
                                then futures[p.id := Cancelled] else futures
  {
  }
}
