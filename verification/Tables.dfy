/** The tables of the encryption client, and what a batch of Mercury messages does to them. */
module Tables {
  import opened Basics
  import opened Models
  import opened Text
  import opened Decoder

  /** An asyncio future: at most one payload ever, or cancelled. Futures are named by the request they belong to. */
  datatype Future = Waiting | Settled(payload: Bytes) | Cancelled

  /** A `PendingKMSRequest`; exchanges carry their private key. */
  datatype Entry = Entry(id: string, privateKey: Option<PrivateKey>)

  /** An `ECDHContext`; the serial number is the identity of the object. */
  datatype Context = Context(serial: nat, secret: Bytes, createdAt: real)

  /** `pending` is a dictionary in insertion order. `lock` is the task that holds the session lock. */
  datatype Tables = Tables(
    cache: map<string, Key>,
    inflight: map<string, nat>,
    pending: seq<Entry>,
    futures: map<string, Future>,
    session: Option<Context>,
    lock: Option<nat>)

  const EMPTY := Tables(map[], map[], [], map[], None, None)

  // ---------------------------------------------------------------- the pending dictionary

  predicate Has(pending: seq<Entry>, id: string) {
    exists i | 0 <= i < |pending| :: pending[i].id == id
  }

  /** `pop(id, None)` */
  function Drop(pending: seq<Entry>, id: string): seq<Entry> {
    if pending == [] then []
    else if pending[0].id == id then Drop(pending[1..], id)
    else [pending[0]] + Drop(pending[1..], id)
  }

  lemma {:induction false} DropIn(pending: seq<Entry>, id: string, e: Entry)
    ensures e in Drop(pending, id) <==> e in pending && e.id != id
  {
    if pending != [] {
      DropIn(pending[1..], id, e);
      assert pending == [pending[0]] + pending[1..];
    }
  }

  lemma {:induction false} DropAbsent(pending: seq<Entry>, id: string)
    requires !Has(pending, id)
    ensures Drop(pending, id) == pending
  {
    if pending != [] {
      assert pending[0].id != id;
      assert forall i | 0 <= i < |pending[1..]| :: pending[1..][i] == pending[i + 1];
      DropAbsent(pending[1..], id);
    }
  }

  lemma HasIn(pending: seq<Entry>, id: string)
    ensures Has(pending, id) <==> exists e :: e in pending && e.id == id
  {
    if Has(pending, id) {
      var i :| 0 <= i < |pending| && pending[i].id == id;
      assert pending[i] in pending;
    }
  }

  lemma DropHas(pending: seq<Entry>, id: string, other: string)
    ensures Has(Drop(pending, id), other) <==> Has(pending, other) && other != id
  {
    HasIn(pending, other);
    HasIn(Drop(pending, id), other);
    forall e ensures e in Drop(pending, id) <==> e in pending && e.id != id {
      DropIn(pending, id, e);
    }
  }

  /** The private keys of the pending exchanges, oldest first. */
  function ExchangeKeys(pending: seq<Entry>): seq<PrivateKey> {
    if pending == [] then []
    else (if pending[0].privateKey.Some? then [pending[0].privateKey.value] else []) + ExchangeKeys(pending[1..])
  }

  lemma {:induction false} NoExchangeKeys(pending: seq<Entry>)
    ensures ExchangeKeys(pending) == [] <==> forall e | e in pending :: e.privateKey.None?
  {
    if pending != [] {
      NoExchangeKeys(pending[1..]);
      assert pending == [pending[0]] + pending[1..];
    }
  }

  // ---------------------------------------------------------------- the batch loop

  /** `cache_key` */
  function Store(t: Tables, key: Key): Tables {
    if key.uri == "" then t else t.(cache := t.cache[key.uri := key])
  }

  function StoreAll(t: Tables, keys: seq<Key>): Tables
    decreases keys
  {
    if keys == [] then t else StoreAll(Store(t, keys[0]), keys[1..])
  }

  /** A decoded message settles the waiting request it names; failing that, its keys go to the cache. */
  function Dispatch(t: Tables, plaintext: Bytes, m: KMSMessage): Tables {
    if m.requestId != "" && Has(t.pending, m.requestId) then
      var popped := t.(pending := Drop(t.pending, m.requestId));
      if m.requestId in t.futures && t.futures[m.requestId].Waiting? then
        popped.(futures := t.futures[m.requestId := Settled(plaintext)])
      else StoreAll(popped, m.AllKeys())
    else StoreAll(t, m.AllKeys())
  }

  /** The plaintext and message a raw string stands for, or `None` where the loop skips it. */
  function Read(lib: Library, secret: Option<Bytes>, keys: seq<PrivateKey>, raw: string): Option<(Bytes, KMSMessage)> {
    if raw == "" then None
    else
      match Recover(lib, secret, keys, raw)
      case None => None
      case Some(plaintext) =>
        match lib.parse(plaintext)
        case Message(m) => Some((plaintext, m))
        case _ => None
  }

  /** Reading the raw string raises, which ends the batch: only `JSONDecodeError` is caught. */
  predicate Raises(lib: Library, secret: Option<Bytes>, keys: seq<PrivateKey>, raw: string) {
    raw != "" && Recover(lib, secret, keys, raw).Some? && lib.parse(Recover(lib, secret, keys, raw).value).Malformed?
  }

  predicate AnyRaises(lib: Library, secret: Option<Bytes>, keys: seq<PrivateKey>, batch: seq<string>) {
    exists i | 0 <= i < |batch| :: Raises(lib, secret, keys, batch[i])
  }

  function Handle(lib: Library, secret: Option<Bytes>, keys: seq<PrivateKey>, t: Tables, raw: string): Tables {
    match Read(lib, secret, keys, raw)
    case None => t
    case Some((plaintext, m)) => Dispatch(t, plaintext, m)
  }

  function HandleAll(lib: Library, secret: Option<Bytes>, keys: seq<PrivateKey>, t: Tables, batch: seq<string>): Tables
    decreases batch
  {
    if batch == [] || Raises(lib, secret, keys, batch[0]) then t
    else HandleAll(lib, secret, keys, Handle(lib, secret, keys, t, batch[0]), batch[1..])
  }

  function Secret(t: Tables): Option<Bytes> {
    if t.session.Some? then Some(t.session.value.secret) else None
  }

  /** `process_kms_messages`: session and exchange keys are read once, then the messages are handled in turn. */
  function Process(lib: Library, t: Tables, batch: seq<string>): Tables {
    HandleAll(lib, Secret(t), ExchangeKeys(t.pending), t, batch)
  }

  /** A batch ends where a message raises. */
  lemma {:induction false} HandleAllAppend(lib: Library, secret: Option<Bytes>, keys: seq<PrivateKey>, t: Tables,
                                           a: seq<string>, b: seq<string>)
    ensures HandleAll(lib, secret, keys, t, a + b) ==
            if AnyRaises(lib, secret, keys, a) then HandleAll(lib, secret, keys, t, a)
            else HandleAll(lib, secret, keys, HandleAll(lib, secret, keys, t, a), b)
    decreases a
  {
    if a == [] {
      assert a + b == b;
    } else {
      assert (a + b)[1..] == a[1..] + b;
      if !Raises(lib, secret, keys, a[0]) {
        HandleAllAppend(lib, secret, keys, Handle(lib, secret, keys, t, a[0]), a[1..], b);
        RaisesLater(lib, secret, keys, a);
      }
    }
  }

  lemma RaisesLater(lib: Library, secret: Option<Bytes>, keys: seq<PrivateKey>, batch: seq<string>)
    requires batch != [] && !Raises(lib, secret, keys, batch[0])
    ensures AnyRaises(lib, secret, keys, batch) <==> AnyRaises(lib, secret, keys, batch[1..])
  {
    hide Raises;
    if AnyRaises(lib, secret, keys, batch) {
      var i :| 0 <= i < |batch| && Raises(lib, secret, keys, batch[i]);
      assert batch[1..][i - 1] == batch[i];
    }
    if AnyRaises(lib, secret, keys, batch[1..]) {
      var i :| 0 <= i < |batch[1..]| && Raises(lib, secret, keys, batch[1..][i]);
      assert batch[i + 1] == batch[1..][i];
    }
  }

  lemma HandleOne(lib: Library, secret: Option<Bytes>, keys: seq<PrivateKey>, t: Tables, raw: string)
    ensures HandleAll(lib, secret, keys, t, [raw]) == Handle(lib, secret, keys, t, raw)
  {
  }

  // ---------------------------------------------------------------- what a message can change

  lemma {:induction false} StoreAllChanges(t: Tables, keys: seq<Key>)
    ensures StoreAll(t, keys) == t.(cache := StoreAll(t, keys).cache)
    ensures t.cache.Keys <= StoreAll(t, keys).cache.Keys
    ensures forall u | u in StoreAll(t, keys).cache ::
              (u in t.cache && t.cache[u] == StoreAll(t, keys).cache[u])
              || (StoreAll(t, keys).cache[u] in keys && StoreAll(t, keys).cache[u].uri == u)
    ensures forall k | k in keys && k.uri != "" :: k.uri in StoreAll(t, keys).cache
    decreases keys
  {
    if keys != [] {
      StoreAllChanges(Store(t, keys[0]), keys[1..]);
      assert keys == [keys[0]] + keys[1..];
    }
  }

  /** The possible effects of one message. */
  datatype Effect = Nothing | Settles(id: string, payload: Bytes) | Caches(keys: seq<Key>)

  ghost predicate HasEffect(t: Tables, u: Tables, e: Effect) {
    match e
    case Nothing => u == t
    case Settles(id, payload) =>
      && Has(t.pending, id)
      && id in t.futures && t.futures[id] == Waiting
      && u == t.(pending := Drop(t.pending, id), futures := t.futures[id := Settled(payload)])
    case Caches(keys) =>
      && u == t.(cache := u.cache, pending := u.pending)
      && u.cache == StoreAll(t, keys).cache
      && (u.pending == t.pending || exists id :: u.pending == Drop(t.pending, id))
  }

  /** The only effect a message can have, by what it reads as. */
  function EffectOf(lib: Library, secret: Option<Bytes>, keys: seq<PrivateKey>, t: Tables, raw: string): Effect {
    match Read(lib, secret, keys, raw)
    case None => Nothing
    case Some((plaintext, m)) =>
      if m.requestId != "" && Has(t.pending, m.requestId) && m.requestId in t.futures && t.futures[m.requestId].Waiting?
      then Settles(m.requestId, plaintext)
      else Caches(m.AllKeys())
  }

  /**
   Every message is skipped, settles one waiting request, or goes to the cache step, and never two of these: settling
   leaves the cache alone, and caching leaves every future alone.
   */
  lemma OneEffect(lib: Library, secret: Option<Bytes>, keys: seq<PrivateKey>, t: Tables, raw: string)
    ensures HasEffect(t, Handle(lib, secret, keys, t, raw), EffectOf(lib, secret, keys, t, raw))
    ensures Handle(lib, secret, keys, t, raw).futures != t.futures <==> EffectOf(lib, secret, keys, t, raw).Settles?
    ensures Handle(lib, secret, keys, t, raw).cache != t.cache ==> EffectOf(lib, secret, keys, t, raw).Caches?
  {
    match Read(lib, secret, keys, raw)
    case None =>
    case Some((plaintext, m)) =>
      StoreAllChanges(t, m.AllKeys());
      var popped := t.(pending := Drop(t.pending, m.requestId));
      StoreAllChanges(popped, m.AllKeys());
      StoreAllSameCache(t, popped, m.AllKeys());
  }

  lemma {:induction false} StoreAllSameCache(t: Tables, u: Tables, keys: seq<Key>)
    requires t.cache == u.cache
    ensures StoreAll(t, keys).cache == StoreAll(u, keys).cache
    decreases keys
  {
    if keys != [] {
      StoreAllSameCache(Store(t, keys[0]), Store(u, keys[0]), keys[1..]);
    }
  }

  /** One message leaves sessions, in-flight tasks and the lock alone, and never touches a future that is done. */
  ghost predicate Grows(t: Tables, u: Tables) {
    && u == t.(cache := u.cache, pending := u.pending, futures := u.futures)
    && u.futures.Keys == t.futures.Keys
    && (forall id | id in t.futures && !t.futures[id].Waiting? :: u.futures[id] == t.futures[id])
    && (forall id | id in t.futures && Has(t.pending, id) && !Has(u.pending, id) ::
          !u.futures[id].Waiting?)
    && (forall id | id in t.futures && !Has(t.pending, id) :: u.futures[id] == t.futures[id])
    && (forall e | e in u.pending :: e in t.pending)
    && (forall id | id in t.futures && u.futures[id] != t.futures[id] :: !Has(u.pending, id) && u.futures[id].Settled?)
    && t.cache.Keys <= u.cache.Keys
  }

  lemma HandleGrows(lib: Library, secret: Option<Bytes>, keys: seq<PrivateKey>, t: Tables, raw: string)
    ensures Grows(t, Handle(lib, secret, keys, t, raw))
  {
    hide Read, Has, Drop, StoreAll;
    match Read(lib, secret, keys, raw)
    case None =>
      HasInAll(t.pending);
    case Some((plaintext, m)) =>
      var popped := t.(pending := Drop(t.pending, m.requestId));
      StoreAllChanges(t, m.AllKeys());
      StoreAllChanges(popped, m.AllKeys());
      forall id ensures Has(popped.pending, id) <==> Has(t.pending, id) && id != m.requestId {
        DropHas(t.pending, m.requestId, id);
      }
      forall e | e in popped.pending ensures e in t.pending {
        DropIn(t.pending, m.requestId, e);
      }
  }

  lemma HasInAll(pending: seq<Entry>)
    ensures forall e | e in pending :: Has(pending, e.id)
  {
    forall e | e in pending ensures Has(pending, e.id) {
      HasIn(pending, e.id);
    }
  }

  lemma {:induction false} HandleAllGrows(lib: Library, secret: Option<Bytes>, keys: seq<PrivateKey>, t: Tables,
                                          batch: seq<string>)
    ensures Grows(t, HandleAll(lib, secret, keys, t, batch))
    decreases batch
  {
    if batch == [] || Raises(lib, secret, keys, batch[0]) {
      HasInAll(t.pending);
    } else {
      var u := Handle(lib, secret, keys, t, batch[0]);
      HandleGrows(lib, secret, keys, t, batch[0]);
      HandleAllGrows(lib, secret, keys, u, batch[1..]);
      GrowsTransitive(t, u, HandleAll(lib, secret, keys, t, batch));
    }
  }

  lemma GrowsTransitive(t: Tables, u: Tables, v: Tables)
    requires Grows(t, u) && Grows(u, v)
    ensures Grows(t, v)
  {
    forall id ensures Has(u.pending, id) ==> Has(t.pending, id) {
      HasIn(u.pending, id);
      HasIn(t.pending, id);
    }
    forall id ensures Has(v.pending, id) ==> Has(u.pending, id) {
      HasIn(v.pending, id);
      HasIn(u.pending, id);
    }
  }

  // ---------------------------------------------------------------- delivery

  /** The request a raw message answers, or the empty string. */
  function Addressee(lib: Library, secret: Option<Bytes>, keys: seq<PrivateKey>, raw: string): string {
    match Read(lib, secret, keys, raw)
    case None => ""
    case Some((_, m)) => m.requestId
  }

  lemma {:induction false} StrangersPass(lib: Library, secret: Option<Bytes>, keys: seq<PrivateKey>, t: Tables,
                                         batch: seq<string>, id: string)
    requires forall i | 0 <= i < |batch| :: Addressee(lib, secret, keys, batch[i]) != id
    ensures var u := HandleAll(lib, secret, keys, t, batch);
            && (Has(u.pending, id) <==> Has(t.pending, id))
            && (id in t.futures ==> id in u.futures && u.futures[id] == t.futures[id])
    decreases batch
  {
    hide Read, Raises, Has, Drop, StoreAll;
    if batch != [] && !Raises(lib, secret, keys, batch[0]) {
      var u := Handle(lib, secret, keys, t, batch[0]);
      assert Addressee(lib, secret, keys, batch[0]) != id;
      match Read(lib, secret, keys, batch[0]) {
        case None =>
        case Some((plaintext, m)) =>
          StoreAllChanges(t, m.AllKeys());
          StoreAllChanges(t.(pending := Drop(t.pending, m.requestId)), m.AllKeys());
          DropHas(t.pending, m.requestId, id);
      }
      StrangersPass(lib, secret, keys, u, batch[1..], id);
    }
  }

  /**
   A reply wrapped under the active session that names a waiting request settles it with its plaintext, wherever it
   stands in the batch and whatever undecodable messages stand around it, as long as no earlier message of the batch
   names that request: exactly when no earlier message makes the batch end. In that case the request goes on waiting.
   */
  lemma Delivery(lib: Library, t: Tables, before: seq<string>, raw: string, after: seq<string>, plaintext: Bytes,
                 m: KMSMessage)
    requires t.session.Some?
    requires Count(raw, '.') == 4 && lib.unwrap(raw, t.session.value.secret) == Some(plaintext)
    requires lib.parse(plaintext) == Message(m) && m.requestId != ""
    requires Has(t.pending, m.requestId) && m.requestId in t.futures && t.futures[m.requestId] == Waiting
    requires forall i | 0 <= i < |before| ::
               Addressee(lib, Secret(t), ExchangeKeys(t.pending), before[i]) != m.requestId
    ensures var u := Process(lib, t, before + [raw] + after);
            && m.requestId in u.futures
            && if AnyRaises(lib, Secret(t), ExchangeKeys(t.pending), before) then
                 u.futures[m.requestId] == Waiting && Has(u.pending, m.requestId)
               else u.futures[m.requestId] == Settled(plaintext) && !Has(u.pending, m.requestId)
  {
    ReadDelivery(lib, t, before, raw, after, plaintext, m);
  }

  lemma ReadDelivery(lib: Library, t: Tables, before: seq<string>, raw: string, after: seq<string>, plaintext: Bytes,
                     m: KMSMessage)
    requires Read(lib, Secret(t), ExchangeKeys(t.pending), raw) == Some((plaintext, m)) && m.requestId != ""
    requires Has(t.pending, m.requestId) && m.requestId in t.futures && t.futures[m.requestId] == Waiting
    requires forall i | 0 <= i < |before| ::
               Addressee(lib, Secret(t), ExchangeKeys(t.pending), before[i]) != m.requestId
    ensures var u := Process(lib, t, before + [raw] + after);
            && m.requestId in u.futures
            && if AnyRaises(lib, Secret(t), ExchangeKeys(t.pending), before) then
                 u.futures[m.requestId] == Waiting && Has(u.pending, m.requestId)
               else u.futures[m.requestId] == Settled(plaintext) && !Has(u.pending, m.requestId)
  {
    hide Read, Raises, Has, Drop, StoreAll, Addressee;
    var secret, keys, id := Secret(t), ExchangeKeys(t.pending), m.requestId;
    var u := HandleAll(lib, secret, keys, t, before);
    StrangersPass(lib, secret, keys, t, before, id);
    HandleAllAppend(lib, secret, keys, t, before, [raw] + after);
    assert before + [raw] + after == before + ([raw] + after);
    if !AnyRaises(lib, secret, keys, before) {
      SettledHere(lib, secret, keys, u, raw, after, plaintext, m);
    }
  }

  /** The message settles its request, and the rest of the batch leaves that alone. */
  lemma SettledHere(lib: Library, secret: Option<Bytes>, keys: seq<PrivateKey>, u: Tables, raw: string,
                    after: seq<string>, plaintext: Bytes, m: KMSMessage)
    requires Read(lib, secret, keys, raw) == Some((plaintext, m)) && m.requestId != ""
    requires Has(u.pending, m.requestId) && m.requestId in u.futures && u.futures[m.requestId] == Waiting
    ensures var w := HandleAll(lib, secret, keys, u, [raw] + after);
            m.requestId in w.futures && w.futures[m.requestId] == Settled(plaintext) && !Has(w.pending, m.requestId)
  {
    var id, v := m.requestId, Handle(lib, secret, keys, u, raw);
    DropHas(u.pending, id, id);
    assert v.futures[id] == Settled(plaintext) && !Has(v.pending, id);
    assert ([raw] + after)[1..] == after;
    var w := HandleAll(lib, secret, keys, v, after);
    HandleAllGrows(lib, secret, keys, v, after);
    HasIn(w.pending, id);
    HasIn(v.pending, id);
  }

  // ---------------------------------------------------------------- splitting a batch

  /**
   With no exchange pending, how messages are grouped into batches makes no difference, but for a message that raises:
   it costs the rest of its own batch, and nothing of the next.
   */
  lemma SplitBatch(lib: Library, t: Tables, a: seq<string>, b: seq<string>)
    requires forall e | e in t.pending :: e.privateKey.None?
    ensures Process(lib, t, a + b) ==
            if AnyRaises(lib, Secret(t), [], a) then Process(lib, t, a) else Process(lib, Process(lib, t, a), b)
  {
    var keys, u := ExchangeKeys(t.pending), Process(lib, t, a);
    NoExchangeKeys(t.pending);
    HandleAllAppend(lib, Secret(t), keys, t, a, b);
    HandleAllGrows(lib, Secret(t), keys, t, a);
    NoExchangeKeys(u.pending);
  }

  /**
   With an exchange pending the grouping does matter. Let `a` name the exchange, and `b` be a message that is read with
   the private key of the exchange but not without it. Together they have the effects of both; in two batches, `b` is
   lost, so that a new key it carries is missing from the cache.
   */
  lemma SplitMatters(lib: Library, t: Tables, id: string, a: string, b: string, reply: (Bytes, KMSMessage),
                     other: (Bytes, KMSMessage))
    requires id != "" && Has(t.pending, id) && id in t.futures && t.futures[id].Waiting?
    requires Read(lib, Secret(t), ExchangeKeys(t.pending), a) == Some(reply) && reply.1.requestId == id
    requires Read(lib, Secret(t), ExchangeKeys(t.pending), b) == Some(other)
    requires Read(lib, Secret(t), ExchangeKeys(Drop(t.pending, id)), b) == None
    ensures var settled := t.(pending := Drop(t.pending, id), futures := t.futures[id := Settled(reply.0)]);
            && Process(lib, t, [a] + [b]) == Dispatch(settled, other.0, other.1)
            && Process(lib, Process(lib, t, [a]), [b]) == settled
    ensures other.1.requestId == "" ==>
              forall key | key in other.1.AllKeys() && key.uri != "" && key.uri !in t.cache ::
                key.uri in Process(lib, t, [a] + [b]).cache && key.uri !in Process(lib, Process(lib, t, [a]), [b]).cache
  {
    var secret, keys := Secret(t), ExchangeKeys(t.pending);
    var settled := t.(pending := Drop(t.pending, id), futures := t.futures[id := Settled(reply.0)]);
    HandleAllAppend(lib, secret, keys, t, [a], [b]);
    HandleOne(lib, secret, keys, t, a);
    HandleOne(lib, secret, keys, settled, b);
    HandleOne(lib, Secret(settled), ExchangeKeys(settled.pending), settled, b);
    StoreAllChanges(settled, other.1.AllKeys());
  }
}
