/** What becomes of one message of a Mercury batch, told by what its plaintext holds. */
module Deliveries {
  import opened Basics
  import opened Models
  import opened Text
  import opened Decoder
  import opened Tables

  // ---------------------------------------------------------------- messages that are skipped, or end the batch

  /** The message is wrapped under the active session. */
  ghost predicate Unwraps(lib: Library, t: Tables, raw: string, plaintext: Bytes) {
    && t.session.Some? && Count(raw, '.') == 4
    && lib.unwrap(raw, t.session.value.secret) == Some(plaintext)
  }

  /** A message under the active session that is malformed costs the batch all that follows it. */
  lemma MalformedEndsBatch(lib: Library, t: Tables, before: seq<string>, raw: string, after: seq<string>,
                           plaintext: Bytes)
    requires Unwraps(lib, t, raw, plaintext) && lib.parse(plaintext).Malformed?
    ensures Process(lib, t, before + [raw] + after) == Process(lib, t, before)
  {
    var secret, keys := Secret(t), ExchangeKeys(t.pending);
    assert before + [raw] + after == before + ([raw] + after);
    HandleAllAppend(lib, secret, keys, t, before, [raw] + after);
  }

  /** An empty message, or one under the active session that is no JSON object, leaves no trace. */
  lemma NoObjectLeavesNoTrace(lib: Library, t: Tables, before: seq<string>, raw: string, after: seq<string>,
                              plaintext: Bytes)
    requires raw == "" || (Unwraps(lib, t, raw, plaintext)
                           && (lib.parse(plaintext).NotJson? || lib.parse(plaintext).NotObject?))
    ensures Process(lib, t, before + [raw] + after) == Process(lib, t, before + after)
  {
    SkippedLeavesNoTrace(lib, t, before, raw, after);
  }

  lemma SkippedLeavesNoTrace(lib: Library, t: Tables, before: seq<string>, raw: string, after: seq<string>)
    requires Read(lib, Secret(t), ExchangeKeys(t.pending), raw) == None
    requires !Raises(lib, Secret(t), ExchangeKeys(t.pending), raw)
    ensures Process(lib, t, before + [raw] + after) == Process(lib, t, before + after)
  {
    hide Read, Raises;
    var secret, keys := Secret(t), ExchangeKeys(t.pending);
    assert before + [raw] + after == before + ([raw] + after);
    HandleAllAppend(lib, secret, keys, t, before, [raw] + after);
    HandleAllAppend(lib, secret, keys, t, before, after);
    assert ([raw] + after)[1..] == after;
  }

  /** A text without dots is skipped unless it starts with a brace, and is then taken as it is. */
  lemma BareText(lib: Library, secret: Option<Bytes>, keys: seq<PrivateKey>, raw: string)
    requires '.' !in raw
    ensures Recover(lib, secret, keys, raw) == if "{" <= raw then Some(lib.toUtf8(raw)) else None
  {
    CountZero(raw, '.');
  }

  // ---------------------------------------------------------------- exchanges

  /** The key of pending entry `x` decrypts the message, and no older one does. */
  ghost predicate OpensWith(lib: Library, pending: seq<Entry>, x: nat, raw: string, plaintext: Bytes) {
    && x < |pending| && pending[x].privateKey.Some?
    && lib.decryptEcdh(raw, pending[x].privateKey.value) == Some(plaintext)
    && forall y | 0 <= y < x && pending[y].privateKey.Some? :: lib.decryptEcdh(raw, pending[y].privateKey.value).None?
  }

  lemma {:induction false} OldestKeyOpens(lib: Library, pending: seq<Entry>, x: nat, raw: string, plaintext: Bytes)
    requires OpensWith(lib, pending, x, raw, plaintext)
    ensures FirstDecrypt(lib, raw, ExchangeKeys(pending)) == Some(plaintext)
  {
    if x > 0 {
      var rest := pending[1..];
      assert forall y | 0 <= y < |rest| :: rest[y] == pending[y + 1];
      OldestKeyOpens(lib, rest, x - 1, raw, plaintext);
    }
    var keys, later := ExchangeKeys(pending), ExchangeKeys(pending[1..]);
    if pending[0].privateKey.Some? {
      assert keys[0] == pending[0].privateKey.value && keys[1..] == later;
    } else {
      assert keys == later;
    }
  }

  /**
   A reply that the active session, if there is one, does not open, but the key of a pending exchange does, settles the
   waiting request it names, wherever it stands in the batch, if no earlier message of the batch names that request:
   exactly when none of them makes the batch end.
   */
  lemma ExchangeDelivery(lib: Library, t: Tables, before: seq<string>, raw: string, after: seq<string>, x: nat,
                         plaintext: Bytes, m: KMSMessage)
    requires Count(raw, '.') == 4 && (t.session.Some? ==> lib.unwrap(raw, t.session.value.secret) == None)
    requires OpensWith(lib, t.pending, x, raw, plaintext)
    requires lib.parse(plaintext) == Message(m) && m.requestId != ""
    requires Has(t.pending, m.requestId) && m.requestId in t.futures && t.futures[m.requestId] == Waiting
    requires forall i | 0 <= i < |before| ::
               Addressee(lib, Secret(t), ExchangeKeys(t.pending), before[i]) != m.requestId
    ensures var u := Process(lib, t, before + [raw] + after);
            && m.requestId in u.futures
            && if AnyRaises(lib, Secret(t), ExchangeKeys(t.pending), before) then
                 u.futures[m.requestId] == Waiting && Has(u.pending, m.requestId)
               else u.futures[m.requestId] == Settled(plaintext) && !Has(u.pending, m.requestId)
  {
    OldestKeyOpens(lib, t.pending, x, raw, plaintext);
    ReadDelivery(lib, t, before, raw, after, plaintext, m);
  }

  // ---------------------------------------------------------------- keys that come unasked

  /** The message offers the key, as its single key or in its list. */
  ghost predicate Offers(m: KMSMessage, key: Key) {
    m.key == Some(key) || key in m.keys
  }

  /** The key is the last one offered for its URI, in the order single key, then list. */
  ghost predicate LastOffer(m: KMSMessage, key: Key) {
    || (exists j :: 0 <= j < |m.keys| && LastAt(m.keys, j, key))
    || (m.key == Some(key) && forall h | 0 <= h < |m.keys| :: m.keys[h].uri != key.uri)
  }

  ghost predicate LastAt(keys: seq<Key>, j: nat, key: Key) {
    j < |keys| && keys[j] == key && forall h | j < h < |keys| :: keys[h].uri != key.uri
  }

  lemma {:induction false} StoreAllLast(t: Tables, keys: seq<Key>, j: nat, key: Key)
    requires LastAt(keys, j, key) && key.uri != ""
    ensures key.uri in StoreAll(t, keys).cache && StoreAll(t, keys).cache[key.uri] == key
    decreases keys
  {
    var rest := keys[1..];
    assert forall h | 0 <= h < |rest| :: rest[h] == keys[h + 1];
    if j == 0 {
      StoreAllOther(Store(t, key), rest, key.uri);
    } else {
      StoreAllLast(Store(t, keys[0]), rest, j - 1, key);
    }
  }

  lemma {:induction false} StoreAllOther(t: Tables, keys: seq<Key>, uri: string)
    requires forall h | 0 <= h < |keys| :: keys[h].uri != uri
    ensures uri in StoreAll(t, keys).cache <==> uri in t.cache
    ensures uri in t.cache ==> StoreAll(t, keys).cache[uri] == t.cache[uri]
    decreases keys
  {
    if keys != [] {
      StoreAllOther(Store(t, keys[0]), keys[1..], uri);
    }
  }

  lemma {:induction false} SomeLast(keys: seq<Key>, uri: string) returns (j: nat)
    requires exists h :: 0 <= h < |keys| && keys[h].uri == uri
    ensures j < |keys| && keys[j].uri == uri && LastAt(keys, j, keys[j])
  {
    j := |keys| - 1;
    if keys[j].uri != uri {
      var front := keys[..j];
      var h :| 0 <= h < |keys| && keys[h].uri == uri;
      assert front[h] == keys[h];
      j := SomeLast(front, uri);
    }
  }

  /** The keys of a message in the order in which they are offered. */
  lemma OfferOrder(m: KMSMessage, j: nat)
    requires j < |m.AllKeys()| && LastAt(m.AllKeys(), j, m.AllKeys()[j])
    ensures LastOffer(m, m.AllKeys()[j])
  {
    if m.key.Some? {
      LastOfBoth(m, m.key.value, m.AllKeys(), j);
    } else {
      assert m.AllKeys() == m.keys;
    }
  }

  lemma LastOfBoth(m: KMSMessage, single: Key, all: seq<Key>, j: nat)
    requires m.key == Some(single) && all == [single] + m.keys && j < |all| && LastAt(all, j, all[j])
    ensures LastOffer(m, all[j])
  {
    if j > 0 {
      forall h | j - 1 < h < |m.keys| ensures m.keys[h].uri != all[j].uri {
        assert all[h + 1] == m.keys[h];
      }
      assert LastAt(m.keys, j - 1, all[j]);
    } else {
      forall h | 0 <= h < |m.keys| ensures m.keys[h].uri != all[j].uri {
        assert all[h + 1] == m.keys[h];
      }
    }
  }

  /** No waiting request claims the message. */
  ghost predicate Unclaimed(t: Tables, m: KMSMessage) {
    m.requestId == "" || !Has(t.pending, m.requestId) || m.requestId !in t.futures || !t.futures[m.requestId].Waiting?
  }

  lemma DispatchCaches(t: Tables, plaintext: Bytes, m: KMSMessage)
    requires Unclaimed(t, m)
    ensures var u := Dispatch(t, plaintext, m);
            forall key | Offers(m, key) && key.uri != "" :: key.uri in u.cache && LastOffer(m, u.cache[key.uri])
  {
    var u, all := Dispatch(t, plaintext, m), m.AllKeys();
    var popped := t.(pending := Drop(t.pending, m.requestId));
    forall key | Offers(m, key) && key.uri != "" ensures key.uri in u.cache && LastOffer(m, u.cache[key.uri]) {
      assert key in all;
      var j := SomeLast(all, key.uri);
      StoreAllLast(t, all, j, all[j]);
      StoreAllLast(popped, all, j, all[j]);
      OfferOrder(m, j);
    }
  }

  /** The message carries a key for this URI. */
  ghost predicate Rewrites(lib: Library, secret: Option<Bytes>, keys: seq<PrivateKey>, raw: string, uri: string) {
    var read := Read(lib, secret, keys, raw);
    read.Some? && exists key :: Offers(read.value.1, key) && key.uri == uri
  }

  lemma {:induction false} CacheStays(lib: Library, secret: Option<Bytes>, keys: seq<PrivateKey>, t: Tables,
                                      batch: seq<string>, uri: string)
    requires forall i | 0 <= i < |batch| :: !Rewrites(lib, secret, keys, batch[i], uri)
    requires uri in t.cache
    ensures var u := HandleAll(lib, secret, keys, t, batch); uri in u.cache && u.cache[uri] == t.cache[uri]
    decreases batch
  {
    hide Raises, Has, Drop;
    if batch != [] && !Raises(lib, secret, keys, batch[0]) {
      assert !Rewrites(lib, secret, keys, batch[0], uri);
      HandleKeeps(lib, secret, keys, t, batch[0], uri);
      CacheStays(lib, secret, keys, Handle(lib, secret, keys, t, batch[0]), batch[1..], uri);
    }
  }

  lemma HandleKeeps(lib: Library, secret: Option<Bytes>, keys: seq<PrivateKey>, t: Tables, raw: string, uri: string)
    requires !Rewrites(lib, secret, keys, raw, uri) && uri in t.cache
    ensures var u := Handle(lib, secret, keys, t, raw); uri in u.cache && u.cache[uri] == t.cache[uri]
  {
    hide Has, Drop;
    var read := Read(lib, secret, keys, raw);
    if read.Some? {
      var m := read.value.1;
      var all := m.AllKeys();
      forall h | 0 <= h < |all| ensures all[h].uri != uri {
        assert Offers(m, all[h]);
      }
      hide Read;
      StoreAllOther(t, all, uri);
      StoreAllOther(t.(pending := Drop(t.pending, m.requestId)), all, uri);
    }
  }

  /**
   A message under the active session that no waiting request claims brings every key it offers into the cache, under
   the key's URI and, of several for one URI, the last in the order single key, then list: wherever the message stands
   in the batch, if no earlier one makes the batch end and no later one carries a key for that URI.
   */
  lemma OfferedKeysAreCached(lib: Library, t: Tables, before: seq<string>, raw: string, after: seq<string>,
                             plaintext: Bytes, m: KMSMessage, key: Key)
    requires Unwraps(lib, t, raw, plaintext) && lib.parse(plaintext) == Message(m)
    requires Unclaimed(t, m) && Offers(m, key) && key.uri != ""
    requires !AnyRaises(lib, Secret(t), ExchangeKeys(t.pending), before)
    requires forall i | 0 <= i < |after| :: !Rewrites(lib, Secret(t), ExchangeKeys(t.pending), after[i], key.uri)
    ensures var u := Process(lib, t, before + [raw] + after);
            key.uri in u.cache && LastOffer(m, u.cache[key.uri])
  {
    var secret, keys := Secret(t), ExchangeKeys(t.pending);
    assert Read(lib, secret, keys, raw) == Some((plaintext, m)) && !Raises(lib, secret, keys, raw);
    hide Read, Raises, Has, Drop, StoreAll;
    var u := HandleAll(lib, secret, keys, t, before);
    assert before + [raw] + after == before + ([raw] + after);
    HandleAllAppend(lib, secret, keys, t, before, [raw] + after);
    assert ([raw] + after)[1..] == after;
    StaysUnclaimed(lib, secret, keys, t, before, m);
    DispatchCaches(u, plaintext, m);
    CacheStays(lib, secret, keys, Dispatch(u, plaintext, m), after, key.uri);
  }

  lemma StaysUnclaimed(lib: Library, secret: Option<Bytes>, keys: seq<PrivateKey>, t: Tables, batch: seq<string>,
                       m: KMSMessage)
    requires Unclaimed(t, m)
    ensures Unclaimed(HandleAll(lib, secret, keys, t, batch), m)
  {
    hide HandleAll;
    HandleAllGrows(lib, secret, keys, t, batch);
    HasIn(t.pending, m.requestId);
    HasIn(HandleAll(lib, secret, keys, t, batch).pending, m.requestId);
  }

  /** Whatever it does besides, a message that names a request takes its entry off the pending table. */
  lemma NamedIsTaken(lib: Library, t: Tables, before: seq<string>, raw: string, after: seq<string>, plaintext: Bytes,
                     m: KMSMessage)
    requires Unwraps(lib, t, raw, plaintext) && lib.parse(plaintext) == Message(m) && m.requestId != ""
    requires !AnyRaises(lib, Secret(t), ExchangeKeys(t.pending), before)
    ensures !Has(Process(lib, t, before + [raw] + after).pending, m.requestId)
  {
    var secret, keys := Secret(t), ExchangeKeys(t.pending);
    assert Read(lib, secret, keys, raw) == Some((plaintext, m)) && !Raises(lib, secret, keys, raw);
    hide Read, Raises, Has, Drop, StoreAll;
    var u := HandleAll(lib, secret, keys, t, before);
    assert before + [raw] + after == before + ([raw] + after);
    HandleAllAppend(lib, secret, keys, t, before, [raw] + after);
    assert ([raw] + after)[1..] == after;
    TakesEntry(u, plaintext, m);
    var v := Dispatch(u, plaintext, m);
    HandleAllGrows(lib, secret, keys, v, after);
    HasIn(v.pending, m.requestId);
    HasIn(HandleAll(lib, secret, keys, v, after).pending, m.requestId);
  }

  lemma TakesEntry(t: Tables, plaintext: Bytes, m: KMSMessage)
    requires m.requestId != ""
    ensures !Has(Dispatch(t, plaintext, m).pending, m.requestId)
  {
    hide Has, Drop;
    DropHas(t.pending, m.requestId, m.requestId);
    StoreAllChanges(t, m.AllKeys());
    StoreAllChanges(t.(pending := Drop(t.pending, m.requestId)), m.AllKeys());
  }
}
