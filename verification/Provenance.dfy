/** Where the keys that `get_key` returns come from. */
module Provenance {
  import opened Basics
  import opened Models
  import opened Decoder
  import opened Tables
  import opened HttpRetry
  import opened Replies
  import opened Protocol
  import opened Invariant
  import opened Attempts

  /** The payload is a successful KMS reply, and this is the key it is read for. */
  ghost predicate Grants(lib: Library, payload: Bytes, key: Key) {
    var parsed := lib.parse(payload);
    parsed.Message? && parsed.message.IsSuccess() && parsed.message.FirstKey() == Some(key)
  }

  /** The HTTP reply to a retrieve for `uri` carried the key: the first message its session opens grants it. */
  ghost predicate RepliedWith(lib: Library, s: State, l: Label, uri: string, key: Key) {
    && l.Resume? && l.event.Replied? && |l.event.run| > 0
    && l.task < |s.tasks| && s.tasks[l.task].uri == uri && s.tasks[l.task].point.Sending?
    && var reply, secret := KmsMessages(l.event.run[|l.event.run| - 1]), s.tasks[l.task].point.context.secret;
    && reply.Ok? && reply.value.Some?
    && exists j: nat ::
         OpensFirst(lib, reply.value.value, secret, j)
         && Grants(lib, lib.unwrap(reply.value.value[j], secret).value, key)
  }

  ghost function ReadIn(lib: Library, s: State, raw: string): Option<(Bytes, KMSMessage)> {
    Read(lib, Secret(s.tables), ExchangeKeys(s.tables.pending), raw)
  }

  /** A Mercury message named the request of a live retrieve for `uri`, and grants the key. */
  ghost predicate DeliveredWith(lib: Library, s: State, l: Label, uri: string, key: Key) {
    && l.Mercury?
    && exists i, j ::
         0 <= i < |s.tasks| && 0 <= j < |l.batch| && Answers(lib, s, i, l.batch[j], key) && s.tasks[i].uri == uri
  }

  ghost predicate Answers(lib: Library, s: State, i: nat, raw: string, key: Key)
    requires i < |s.tasks|
  {
    && var read, p := ReadIn(lib, s, raw), s.tasks[i].point;
    && (p.Sending? || p.Listening?)
    && read.Some? && read.value.1.requestId == p.id
    && Grants(lib, read.value.0, key)
  }

  /** The key was stored under its own URI: by `cache_key`, or out of a Mercury message. */
  ghost predicate StoredAs(lib: Library, s: State, l: Label, uri: string, key: Key) {
    && key.uri == uri && uri != ""
    && (l == CacheKey(key) || (l.Mercury? && exists j :: 0 <= j < |l.batch| && Carries(lib, s, l.batch[j], key)))
  }

  ghost predicate Carries(lib: Library, s: State, raw: string, key: Key) {
    ReadIn(lib, s, raw).Some? && key in ReadIn(lib, s, raw).value.1.AllKeys()
  }

  /** The step is a source of this key for this URI. */
  ghost predicate Provides(lib: Library, s: State, l: Label, uri: string, key: Key) {
    RepliedWith(lib, s, l, uri, key) || DeliveredWith(lib, s, l, uri, key) || StoredAs(lib, s, l, uri, key)
  }

  /** Every key at hand is a pair of the set with the URI it is at hand for. */
  ghost predicate Known(lib: Library, s: State, sources: iset<(string, Key)>) {
    && (forall u | u in s.tables.cache :: (u, s.tables.cache[u]) in sources)
    && (forall i | 0 <= i < |s.tasks| :: TaskKnown(lib, s.tables, s.tasks[i], sources))
    && (forall c | 0 <= c < |s.calls| && s.calls[c].over.Some? && s.calls[c].over.value.Returned? ::
          (s.calls[c].uri, s.calls[c].over.value.key) in sources)
  }

  ghost predicate TaskKnown(lib: Library, t: Tables, task: Task, sources: iset<(string, Key)>) {
    && (task.point.Finished? && task.point.outcome.Returned? ==> (task.uri, task.point.outcome.key) in sources)
    && ((task.point.Sending? || task.point.Listening?)
        && task.point.id in t.futures && t.futures[task.point.id].Settled? ==>
          forall key | Grants(lib, t.futures[task.point.id].payload, key) :: (task.uri, key) in sources)
  }

  ghost function Sources(lib: Library, s: State, l: Label): iset<(string, Key)> {
    iset uri, key | Provides(lib, s, l, uri, key) :: (uri, key)
  }

  // ---------------------------------------------------------------- resuming a task

  lemma ParseGrants(lib: Library, payload: Bytes, key: Key)
    ensures ParseKey(lib, payload) == Ok(key) <==> Grants(lib, payload, key)
  {
  }

  lemma ReplyGrants(lib: Library, jwes: seq<string>, secret: Bytes, key: Key)
    requires KeyFromJwes(lib, jwes, secret) == Ok(key)
    ensures exists j: nat :: OpensFirst(lib, jwes, secret, j) && Grants(lib, lib.unwrap(jwes[j], secret).value, key)
  {
    FirstOpened(lib, jwes, secret);
    ParseGrants(lib, FirstUnwrapped(lib, jwes, secret).value, key);
  }

  /** A task returns a key only from its own reply, or from the payload its future was settled with. */
  lemma ResumeReturns(lib: Library, cfg: Config, s: State, i: nat, e: Event, key: Key)
    requires CanResume(cfg, s, i, e)
    requires ResumeTask(lib, cfg, s, i, e).tasks[i].point == Finished(Returned(key))
    ensures RepliedWith(lib, s, Resume(i, e), s.tasks[i].uri, key)
            || (e.Notified? && s.tasks[i].point.Listening?
                && Grants(lib, s.tables.futures[s.tasks[i].point.id].payload, key))
  {
    var p := s.tasks[i].point;
    ReturnsAtEnd(lib, cfg, s, i, e, key);
    hide ResumeTask, SecretFromPayload, ExchangeReply, EndAttempt, EndExchange, Grants, FirstUnwrapped, KmsMessages;
    match e
    case Replied(run) =>
      var reply := KmsMessages(run[|run| - 1]);
      assert p.Sending? && reply.Ok? && reply.value.Some?;
      ReplyGrants(lib, reply.value.value, p.context.secret, key);
    case Notified => ParseGrants(lib, s.tables.futures[p.id].payload, key);
    case _ =>
  }

  lemma ReturnsAtEnd(lib: Library, cfg: Config, s: State, i: nat, e: Event, key: Key)
    requires CanResume(cfg, s, i, e)
    requires ResumeTask(lib, cfg, s, i, e).tasks[i].point == Finished(Returned(key))
    ensures Ends(lib, cfg, s, i, e) == AttemptEnds(Ok(key))
  {
    hide Inline, ExchangeReply, RetrieveReply, SecretFromPayload, ParseKey, KmsText.IsSessionError,
      KmsText.RetryFailure;
    ResumeEnds(lib, cfg, s, i, e);
  }

  lemma ResumeKnown(lib: Library, cfg: Config, s: State, i: nat, e: Event, known: iset<(string, Key)>)
    requires CanResume(cfg, s, i, e) && RequestsOk(s) && Known(lib, s, known)
    ensures Known(lib, ResumeTask(lib, cfg, s, i, e), known + Sources(lib, s, Resume(i, e)))
  {
    hide ResumeTask, CanResume, Provides, TaskKnown, RequestsOk, KeepsRequest, Registers, Releases;
    var s', more := ResumeTask(lib, cfg, s, i, e), known + Sources(lib, s, Resume(i, e));
    ResumeIsOneTask(lib, cfg, s, i, e);
    ResumeCaches(lib, cfg, s, i, e);
    ResumedKnown(lib, cfg, s, i, e, known);
    if Succeeds(s'.tasks[i]) {
      SucceededKnown(lib, s', i, more);
    }
    forall j | 0 <= j < |s'.tasks| ensures TaskKnown(lib, s'.tables, s'.tasks[j], more) {
      if j != i {
        OtherKnown(lib, cfg, s, i, e, j, known);
      }
    }
  }

  lemma SucceededKnown(lib: Library, s: State, i: nat, known: iset<(string, Key)>)
    requires i < |s.tasks| && Succeeds(s.tasks[i]) && TaskKnown(lib, s.tables, s.tasks[i], known)
    ensures (s.tasks[i].uri, s.tasks[i].point.outcome.key) in known
  {
  }

  lemma ReturnedKnown(lib: Library, cfg: Config, s: State, i: nat, e: Event, key: Key, known: iset<(string, Key)>)
    requires CanResume(cfg, s, i, e) && TaskKnown(lib, s.tables, s.tasks[i], known)
    requires ResumeTask(lib, cfg, s, i, e).tasks[i].point == Finished(Returned(key))
    ensures (s.tasks[i].uri, key) in known + Sources(lib, s, Resume(i, e))
  {
    hide ResumeTask, Grants, RepliedWith, DeliveredWith, StoredAs;
    ResumeReturns(lib, cfg, s, i, e, key);
  }

  /** The task that is resumed. */
  lemma ResumedKnown(lib: Library, cfg: Config, s: State, i: nat, e: Event, known: iset<(string, Key)>)
    requires CanResume(cfg, s, i, e) && TaskKnown(lib, s.tables, s.tasks[i], known)
    ensures var s' := ResumeTask(lib, cfg, s, i, e);
            TaskKnown(lib, s'.tables, s'.tasks[i], known + Sources(lib, s, Resume(i, e)))
  {
    hide ResumeTask, CanResume, Grants, RepliedWith, DeliveredWith, StoredAs;
    var s', more := ResumeTask(lib, cfg, s, i, e), known + Sources(lib, s, Resume(i, e));
    ResumeRequests(lib, cfg, s, i, e);
    if Succeeds(s'.tasks[i]) {
      var key := s'.tasks[i].point.outcome.key;
      ReturnedKnown(lib, cfg, s, i, e, key, known);
    }
    ResumeWaits(lib, cfg, s, i, e);
  }

  /** A task that waits for a retrieve reply and is resumed either keeps its request or made a new one. */
  lemma ResumeWaits(lib: Library, cfg: Config, s: State, i: nat, e: Event)
    requires CanResume(cfg, s, i, e)
    ensures var p, s' := s.tasks[i].point, ResumeTask(lib, cfg, s, i, e);
            var p' := s'.tasks[i].point;
            p'.Sending? || p'.Listening? ==>
              || (p'.Sending? && p'.id in s'.tables.futures && s'.tables.futures[p'.id].Waiting?)
              || ((p.Sending? || p.Listening?) && p'.id == p.id)
  {
    hide Inline, ExchangeReply, RetrieveReply, SecretFromPayload, ParseKey, KmsText.IsSessionError,
      KmsText.RetryFailure;
    ResumeEnds(lib, cfg, s, i, e);
  }

  /** A task other than the one that is resumed. */
  lemma OtherKnown(lib: Library, cfg: Config, s: State, i: nat, e: Event, j: nat, known: iset<(string, Key)>)
    requires CanResume(cfg, s, i, e) && RequestsOk(s) && j < |s.tasks| && j != i
    requires TaskKnown(lib, s.tables, s.tasks[j], known)
    ensures var s' := ResumeTask(lib, cfg, s, i, e);
            && j < |s'.tasks|
            && TaskKnown(lib, s'.tables, s'.tasks[j], known + Sources(lib, s, Resume(i, e)))
  {
    hide ResumeTask, CanResume, Grants, Provides;
    ResumeRequests(lib, cfg, s, i, e);
    assert RequestOk(s.tables, s.tasks[j]);
  }

  // ---------------------------------------------------------------- a batch

  /** A settled future or a cached key that is new after a batch comes from one of its messages. */
  lemma {:induction false} BatchSources(lib: Library, secret: Option<Bytes>, keys: seq<PrivateKey>, t: Tables,
                                        batch: seq<string>)
    ensures var u := HandleAll(lib, secret, keys, t, batch);
            && (forall id | id in u.futures && u.futures[id].Settled? ::
                  (id in t.futures && t.futures[id] == u.futures[id])
                  || exists j :: 0 <= j < |batch| && Settler(lib, secret, keys, batch[j], id, u.futures[id].payload))
            && (forall uri | uri in u.cache ::
                  (uri in t.cache && t.cache[uri] == u.cache[uri])
                  || (u.cache[uri].uri == uri && uri != ""
                      && exists j :: 0 <= j < |batch| && Carrier(lib, secret, keys, batch[j], u.cache[uri])))
    decreases batch
  {
    hide Handle, Raises, Settler, Carrier;
    if batch != [] && !Raises(lib, secret, keys, batch[0]) {
      var v := Handle(lib, secret, keys, t, batch[0]);
      var u := HandleAll(lib, secret, keys, v, batch[1..]);
      BatchSources(lib, secret, keys, v, batch[1..]);
      MessageSources(lib, secret, keys, t, batch[0]);
      forall id | id in u.futures && u.futures[id].Settled? && !(id in t.futures && t.futures[id] == u.futures[id])
        ensures exists j :: 0 <= j < |batch| && Settler(lib, secret, keys, batch[j], id, u.futures[id].payload)
      {
        if id in v.futures && v.futures[id] == u.futures[id] {
          assert Settler(lib, secret, keys, batch[0], id, u.futures[id].payload);
        } else {
          var j :| 0 <= j < |batch[1..]| && Settler(lib, secret, keys, batch[1..][j], id, u.futures[id].payload);
          assert batch[j + 1] == batch[1..][j];
        }
      }
      forall uri | uri in u.cache && !(uri in t.cache && t.cache[uri] == u.cache[uri])
        ensures exists j :: 0 <= j < |batch| && Carrier(lib, secret, keys, batch[j], u.cache[uri])
      {
        if uri in v.cache && v.cache[uri] == u.cache[uri] {
          assert Carrier(lib, secret, keys, batch[0], u.cache[uri]);
        } else {
          var j :| 0 <= j < |batch[1..]| && Carrier(lib, secret, keys, batch[1..][j], u.cache[uri]);
          assert batch[j + 1] == batch[1..][j];
        }
      }
    }
  }

  ghost predicate Settler(lib: Library, secret: Option<Bytes>, keys: seq<PrivateKey>, raw: string, id: string,
                          payload: Bytes) {
    var read := Read(lib, secret, keys, raw);
    read.Some? && read.value.0 == payload && read.value.1.requestId == id
  }

  ghost predicate Carrier(lib: Library, secret: Option<Bytes>, keys: seq<PrivateKey>, raw: string, key: Key) {
    var read := Read(lib, secret, keys, raw);
    read.Some? && key in read.value.1.AllKeys()
  }

  lemma MessageSources(lib: Library, secret: Option<Bytes>, keys: seq<PrivateKey>, t: Tables, raw: string)
    ensures var v := Handle(lib, secret, keys, t, raw);
            && (forall id | id in v.futures && v.futures[id].Settled? ::
                  (id in t.futures && t.futures[id] == v.futures[id])
                  || Settler(lib, secret, keys, raw, id, v.futures[id].payload))
            && (forall uri | uri in v.cache ::
                  (uri in t.cache && t.cache[uri] == v.cache[uri])
                  || (v.cache[uri].uri == uri && uri != "" && Carrier(lib, secret, keys, raw, v.cache[uri])))
  {
    match Read(lib, secret, keys, raw)
    case None =>
    case Some((plaintext, m)) =>
      StoreAllChanges(t, m.AllKeys());
      StoreAllChanges(t.(pending := Drop(t.pending, m.requestId)), m.AllKeys());
      NothingUnderEmpty(t, m.AllKeys());
      NothingUnderEmpty(t.(pending := Drop(t.pending, m.requestId)), m.AllKeys());
  }

  lemma {:induction false} NothingUnderEmpty(t: Tables, keys: seq<Key>)
    ensures "" in StoreAll(t, keys).cache ==> "" in t.cache && t.cache[""] == StoreAll(t, keys).cache[""]
    decreases keys
  {
    if keys != [] {
      NothingUnderEmpty(Store(t, keys[0]), keys[1..]);
    }
  }

  lemma MercuryKnown(lib: Library, cfg: Config, s: State, batch: seq<string>, known: iset<(string, Key)>)
    requires Known(lib, s, known)
    ensures Known(lib, s.(tables := Process(lib, s.tables, batch)), known + Sources(lib, s, Mercury(batch)))
  {
    var l, t := Mercury(batch), Process(lib, s.tables, batch);
    var more := known + Sources(lib, s, l);
    BatchSources(lib, Secret(s.tables), ExchangeKeys(s.tables.pending), s.tables, batch);
    forall u | u in t.cache ensures (u, t.cache[u]) in more {
      if !(u in s.tables.cache && s.tables.cache[u] == t.cache[u]) {
        var j :| 0 <= j < |batch|
                 && Carrier(lib, Secret(s.tables), ExchangeKeys(s.tables.pending), batch[j], t.cache[u]);
        assert Carries(lib, s, batch[j], t.cache[u]);
        assert StoredAs(lib, s, l, u, t.cache[u]);
      }
    }
    forall i | 0 <= i < |s.tasks| ensures TaskKnown(lib, t, s.tasks[i], more) {
      TaskDelivered(lib, s, batch, i, known);
    }
  }

  lemma TaskDelivered(lib: Library, s: State, batch: seq<string>, i: nat, known: iset<(string, Key)>)
    requires i < |s.tasks| && TaskKnown(lib, s.tables, s.tasks[i], known)
    ensures TaskKnown(lib, Process(lib, s.tables, batch), s.tasks[i], known + Sources(lib, s, Mercury(batch)))
  {
    var t, l, p, task := Process(lib, s.tables, batch), Mercury(batch), s.tasks[i].point, s.tasks[i];
    BatchSources(lib, Secret(s.tables), ExchangeKeys(s.tables.pending), s.tables, batch);
    if (p.Sending? || p.Listening?) && p.id in t.futures && t.futures[p.id].Settled?
       && !(p.id in s.tables.futures && s.tables.futures[p.id] == t.futures[p.id]) {
      var payload := t.futures[p.id].payload;
      var j :| 0 <= j < |batch|
               && Settler(lib, Secret(s.tables), ExchangeKeys(s.tables.pending), batch[j], p.id, payload);
      forall key | Grants(lib, payload, key) ensures (task.uri, key) in Sources(lib, s, l) {
        assert Answers(lib, s, i, l.batch[j], key);
        assert DeliveredWith(lib, s, l, task.uri, key);
      }
    }
  }

  // ---------------------------------------------------------------- whole runs

  lemma StepKnown(lib: Library, cfg: Config, s: State, l: Label, known: iset<(string, Key)>)
    requires Inv(lib, cfg, s) && Enabled(cfg, s, l) && Known(lib, s, known)
    ensures Known(lib, Step(lib, cfg, s, l), known + Sources(lib, s, l))
  {
    hide ResumeTask, CanResume, EnterCall, CancelCall, FinishCall, Process, Store, Known, Sources, RequestsOk,
      FuturesOk, LockOk, StatsOk, AttemptsOk, CallsOk, CacheOk;
    match l
    case Resume(i, e) => ResumeKnown(lib, cfg, s, i, e, known);
    case Mercury(batch) => MercuryKnown(lib, cfg, s, batch, known);
    case CacheKey(key) => CacheKeyKnown(lib, s, key, known);
    case GetKey(uri) => GetKeyKnown(lib, cfg, s, uri, known);
    case Finish(c) => FinishKnown(lib, s, c, known);
    case Cancel(c) => CancelKnown(lib, cfg, s, c, known);
    case Tick(now) => TickKnown(lib, s, now, known);
  }

  lemma CancelKnown(lib: Library, cfg: Config, s: State, c: nat, known: iset<(string, Key)>)
    requires CanCancel(s, c) && Known(lib, s, known)
    ensures Known(lib, CancelCall(cfg, s, c), known + Sources(lib, s, Cancel(c)))
  {
    OthersKnown(lib, s, CancelCall(cfg, s, c), known, known + Sources(lib, s, Cancel(c)));
  }

  lemma TickKnown(lib: Library, s: State, now: real, known: iset<(string, Key)>)
    requires Known(lib, s, known)
    ensures Known(lib, s.(now := now), known + Sources(lib, s, Tick(now)))
  {
    OthersKnown(lib, s, s.(now := now), known, known + Sources(lib, s, Tick(now)));
  }

  lemma CacheKeyKnown(lib: Library, s: State, key: Key, known: iset<(string, Key)>)
    requires Known(lib, s, known)
    ensures Known(lib, s.(tables := Store(s.tables, key)), known + Sources(lib, s, CacheKey(key)))
  {
    assert key.uri != "" ==> StoredAs(lib, s, CacheKey(key), key.uri, key);
    OthersKnown(lib, s, s.(tables := Store(s.tables, key)), known, known + Sources(lib, s, CacheKey(key)));
  }

  /** A call that is over at once with a key took it from the cache, or from the finished task it joined. */
  lemma NewCall(cfg: Config, s: State, uri: string)
    ensures var s' := EnterCall(cfg, s, uri);
            && |s'.calls| == |s.calls| + 1 && s'.calls[..|s.calls|] == s.calls
            && s'.tables.cache == s.tables.cache
            && var call := s'.calls[|s.calls|];
            && call.uri == uri
            && (call.over.Some? && call.over.value.Returned? ==>
                  || (uri in s.tables.cache && s.tables.cache[uri] == call.over.value.key)
                  || (uri in s.tables.inflight && s.tables.inflight[uri] < |s.tasks|
                      && s.tasks[s.tables.inflight[uri]].point == Finished(Returned(call.over.value.key))))
  {
    hide KmsText.ParseKmsUri;
  }

  lemma GetKeyKnown(lib: Library, cfg: Config, s: State, uri: string, known: iset<(string, Key)>)
    requires CallsOk(s) && Known(lib, s, known)
    ensures Known(lib, EnterCall(cfg, s, uri), known + Sources(lib, s, GetKey(uri)))
  {
    hide KmsText.ParseKmsUri, Sources, Grants, Awaited;
    var s', more := EnterCall(cfg, s, uri), known + Sources(lib, s, GetKey(uri));
    OthersKnown(lib, s, s', known, more);
    NewCall(cfg, s, uri);
    forall c | 0 <= c < |s'.calls| && s'.calls[c].over.Some? && s'.calls[c].over.value.Returned?
      ensures (s'.calls[c].uri, s'.calls[c].over.value.key) in more
    {
      if c < |s.calls| {
        assert s'.calls[..|s.calls|][c] == s.calls[c];
      } else if uri in s.tables.inflight {
        var j := s.tables.inflight[uri];
        assert s.tasks[j].uri == uri && TaskKnown(lib, s.tables, s.tasks[j], known);
      }
    }
  }

  lemma FinishKnown(lib: Library, s: State, c: nat, known: iset<(string, Key)>)
    requires CallsOk(s) && CanFinish(s, c) && Known(lib, s, known)
    ensures Known(lib, FinishCall(s, c), known + Sources(lib, s, Finish(c)))
  {
    var j := s.calls[c].task.value;
    OthersKnown(lib, s, FinishCall(s, c), known, known + Sources(lib, s, Finish(c)));
    assert CallOk(s, s.calls[c]);
    assert TaskKnown(lib, s.tables, s.tasks[j], known);
  }

  /** Steps that neither end a task nor settle a future keep what is known of tasks. */
  lemma OthersKnown(lib: Library, s: State, s': State, known: iset<(string, Key)>, more: iset<(string, Key)>)
    requires Known(lib, s, known) && known <= more
    requires |s.tasks| <= |s'.tasks|
    requires forall i | 0 <= i < |s.tasks| :: s'.tasks[i] == s.tasks[i].(cancelling := s'.tasks[i].cancelling)
    requires forall i | |s.tasks| <= i < |s'.tasks| :: s'.tasks[i].point == NeedSession(First)
    requires forall id | id in s'.tables.futures && s'.tables.futures[id].Settled? ::
               id in s.tables.futures && s.tables.futures[id] == s'.tables.futures[id]
    ensures forall i | 0 <= i < |s'.tasks| :: TaskKnown(lib, s'.tables, s'.tasks[i], more)
  {
    forall i | 0 <= i < |s'.tasks| ensures TaskKnown(lib, s'.tables, s'.tasks[i], more) {
      if i < |s.tasks| {
        assert TaskKnown(lib, s.tables, s.tasks[i], known);
      }
    }
  }

  /** The sources among the first `k` steps. */
  ghost function SourcesBefore(lib: Library, states: seq<State>, labels: seq<Label>, k: nat): iset<(string, Key)>
    requires k <= |labels| && k < |states|
  {
    if k == 0 then iset{} else SourcesBefore(lib, states, labels, k - 1) + Sources(lib, states[k - 1], labels[k - 1])
  }

  ghost predicate KnownAt(lib: Library, states: seq<State>, labels: seq<Label>, k: nat) {
    k <= |labels| && k < |states| && Known(lib, states[k], SourcesBefore(lib, states, labels, k))
  }

  lemma {:induction false} RunKnown(lib: Library, cfg: Config, states: seq<State>, labels: seq<Label>, k: nat)
    requires IsRun(lib, cfg, states, labels) && k < |states|
    ensures KnownAt(lib, states, labels, k)
  {
    hide Step, Enabled, TaskKnown, Sources;
    if k > 0 {
      RunKnown(lib, cfg, states, labels, k - 1);
      KnownNext(lib, cfg, states, labels, k);
    }
  }

  lemma KnownNext(lib: Library, cfg: Config, states: seq<State>, labels: seq<Label>, k: nat)
    requires IsRun(lib, cfg, states, labels) && 0 < k < |states| && KnownAt(lib, states, labels, k - 1)
    ensures KnownAt(lib, states, labels, k)
  {
    hide Step, Enabled, Inv, Known, Sources;
    RunKeeps(lib, cfg, states, labels, k - 1);
    assert IsStep(lib, cfg, states[k - 1], labels[k - 1], states[k - 1 + 1]);
    StepKnown(lib, cfg, states[k - 1], labels[k - 1], SourcesBefore(lib, states, labels, k - 1));
  }

  lemma {:induction false} SourceStep(lib: Library, states: seq<State>, labels: seq<Label>, k: nat, uri: string,
                                      key: Key)
    requires k <= |labels| && k < |states| && (uri, key) in SourcesBefore(lib, states, labels, k)
    ensures exists n :: 0 <= n < k && Provides(lib, states[n], labels[n], uri, key)
  {
    hide Provides;
    if (uri, key) in SourcesBefore(lib, states, labels, k - 1) {
      SourceStep(lib, states, labels, k - 1, uri, key);
    } else {
      assert Provides(lib, states[k - 1], labels[k - 1], uri, key);
    }
  }

  /**
   A key that a `get_key(uri)` call returns came, at some earlier step of the run, from a successful HTTP reply to a
   retrieve for `uri`, or from a Mercury message that named a live retrieve for `uri`; or it was stored under `uri`
   because that is the key's own URI.
   */
  lemma KeyProvenance(lib: Library, cfg: Config, states: seq<State>, labels: seq<Label>, k: nat, c: nat)
    requires IsRun(lib, cfg, states, labels) && k < |states| && c < |states[k].calls|
    requires states[k].calls[c].over.Some? && states[k].calls[c].over.value.Returned?
    ensures exists n :: 0 <= n < k
              && Provides(lib, states[n], labels[n], states[k].calls[c].uri, states[k].calls[c].over.value.key)
  {
    RunKnown(lib, cfg, states, labels, k);
    SourceStep(lib, states, labels, k, states[k].calls[c].uri, states[k].calls[c].over.value.key);
  }

  /**
   Delivery seen from a call: when a batch brings, anywhere in it, a reply wrapped under the active session that names
   the request a retrieval listens for and grants a key, the retrieval can resume and returns just that key, whichever
   attempt it is in; with the cache on, the key is then cached under the requested URI.
   */
  lemma DeliveredKeyIsReturned(lib: Library, cfg: Config, s: State, i: nat, before: seq<string>, raw: string,
                               after: seq<string>, plaintext: Bytes, key: Key)
    requires i < |s.tasks| && s.tasks[i].point.Listening? && (s.tasks[i].cancelling ==> !cfg.prompt)
    requires IsAnswered(lib, s, s.tasks[i], before, raw, plaintext) && Grants(lib, plaintext, key)
    ensures var s1 := AfterBatch(lib, s, before + [raw] + after);
            && CanResume(cfg, s1, i, Notified)
            && var s2 := ResumeTask(lib, cfg, s1, i, Notified);
            && s2.tasks[i].point == Finished(Returned(key))
            && (cfg.caching ==> s.tasks[i].uri in s2.tables.cache && s2.tables.cache[s.tasks[i].uri] == key)
  {
    hide ResumeTask, Has, HandleAll;
    var s1 := AfterBatch(lib, s, before + [raw] + after);
    AnswerSettles(lib, s, i, before, raw, after, plaintext);
    SettledKeyIsReturned(lib, cfg, s1, i, plaintext, key);
  }

  /**
   The same when the Mercury reply overtakes the reply to the POST: once that comes, a 202 or a 200 without messages,
   the retrieval goes on at once and returns the key.
   */
  lemma OvertakingKeyIsReturned(lib: Library, cfg: Config, s: State, i: nat, before: seq<string>, raw: string,
                                after: seq<string>, plaintext: Bytes, key: Key, run: seq<Reply<Content>>)
    requires i < |s.tasks| && s.tasks[i].point.Sending? && !s.tasks[i].cancelling
    requires IsAnswered(lib, s, s.tasks[i], before, raw, plaintext) && Grants(lib, plaintext, key)
    requires Exchanged(cfg.maxRetries, run) && Defers(run[|run| - 1])
    ensures var s1 := AfterBatch(lib, s, before + [raw] + after);
            && CanResume(cfg, s1, i, Replied(run))
            && var s2 := ResumeTask(lib, cfg, s1, i, Replied(run));
            && CanResume(cfg, s2, i, Notified)
            && var s3 := ResumeTask(lib, cfg, s2, i, Notified);
            && s3.tasks[i].point == Finished(Returned(key))
            && (cfg.caching ==> s.tasks[i].uri in s3.tables.cache && s3.tables.cache[s.tasks[i].uri] == key)
  {
    hide Has, HandleAll, EndAttempt, EndExchange, Grants;
    var s1 := AfterBatch(lib, s, before + [raw] + after);
    AnswerSettles(lib, s, i, before, raw, after, plaintext);
    var s2 := ResumeTask(lib, cfg, s1, i, Replied(run));
    DeferredReply(lib, cfg, s1, i, run);
    SettledKeyIsReturned(lib, cfg, s2, i, plaintext, key);
  }

  /**
   The raw message is wrapped under the active session and names the request that the retrieval is waiting for, and no
   message before it in the batch names that request or makes the batch end.
   */
  ghost predicate IsAnswered(lib: Library, s: State, task: Task, before: seq<string>, raw: string, plaintext: Bytes) {
    && RequestOk(s.tables, task)
    && (task.point.Sending? || task.point.Listening?)
    && task.point.id in s.tables.futures && s.tables.futures[task.point.id].Waiting?
    && s.tables.session.Some? && Text.Count(raw, '.') == 4
    && lib.unwrap(raw, s.tables.session.value.secret) == Some(plaintext)
    && lib.parse(plaintext).Message? && lib.parse(plaintext).message.requestId == task.point.id
    && (forall h | 0 <= h < |before| ::
          Addressee(lib, Secret(s.tables), ExchangeKeys(s.tables.pending), before[h]) != task.point.id)
    && !AnyRaises(lib, Secret(s.tables), ExchangeKeys(s.tables.pending), before)
  }

  lemma AnswerSettles(lib: Library, s: State, i: nat, before: seq<string>, raw: string, after: seq<string>,
                      plaintext: Bytes)
    requires i < |s.tasks| && IsAnswered(lib, s, s.tasks[i], before, raw, plaintext)
    ensures var t, id := Process(lib, s.tables, before + [raw] + after), s.tasks[i].point.id;
            id in t.futures && t.futures[id] == Settled(plaintext)
  {
    hide Has, HandleAll;
    Delivery(lib, s.tables, before, raw, after, plaintext, lib.parse(plaintext).message);
  }

  lemma SettledKeyIsReturned(lib: Library, cfg: Config, s: State, i: nat, plaintext: Bytes, key: Key)
    requires i < |s.tasks| && s.tasks[i].point.Listening? && s.tasks[i].point.id in s.tables.futures
    requires s.tasks[i].cancelling ==> !cfg.prompt
    requires s.tables.futures[s.tasks[i].point.id] == Settled(plaintext) && Grants(lib, plaintext, key)
    ensures CanResume(cfg, s, i, Notified)
    ensures var s' := ResumeTask(lib, cfg, s, i, Notified);
            && s'.tasks[i].point == Finished(Returned(key))
            && (cfg.caching ==> s.tasks[i].uri in s'.tables.cache && s'.tables.cache[s.tasks[i].uri] == key)
  {
    hide Drop, SecretFromPayload, KmsText.IsSessionError;
    ParseGrants(lib, plaintext, key);
  }
}
