# Verified model of the Webex KMS SDK

This project models the key-retrieval protocol of the SDK's encryption client and proves what it guarantees under every
interleaving of `get_key` calls, HTTP replies, Mercury batches, timeouts, cancellations and clock readings. Around it
stand the codecs the protocol relies on, the HTTP retry loop it is carried by, and the connection handling of the
Mercury client.

`dafny verify dfyconfig.toml` checks everything.

## How the model is built

- `Protocol.dfy` is the protocol as a step machine. A step is one stretch of client code between two points where the
  event loop can switch coroutines; the other steps are acts of the outside world. The four tables of the client (key
  cache, in-flight retrievals, pending requests, session with its lock) are shared by any number of retrievals and
  calls. The three locks held over await-free code never suspend, so they need no steps of their own; only the session
  lock is held across waits.
- `EncryptionClient.dfy` is the client as an object whose methods update those tables in place. Each method is proved
  to be the step that stands for its code, and `Perform` shows that the object, driven by an event loop, is the machine.
- `Invariant.dfy` proves what every step keeps; `Guarantees.dfy`, `Outcomes.dfy`, `Cancellation.dfy`, `Calls.dfy`,
  `Progress.dfy` and `Provenance.dfy` draw the properties of whole runs from it. `Attempts.dfy` and `Sessions.dfy` say
  what each reply, error and session leads to. `Scenarios.dfy` holds runs that show what can happen, and what the
  protocol does not promise.
- `Decoder.dfy` and `Tables.dfy` are the Mercury batch: from a raw string to a plaintext, and from a plaintext to its
  effect on the tables; `Deliveries.dfy` says what becomes of a message by what it holds. `Replies.dfy` reads the replies
  to the client's own requests.
- `Base64Url.dfy`, `Integers.dfy`, `KmsText.dfy`, `Models.dfy` are the codecs, URIs, error classes and message data.
- `HttpRetry.dfy` and `Mercury.dfy` are the two loops with delays, and the reconnect scheduling.

Calls into other libraries (JWE, ECDH with HKDF, the curve check, JSON, UTF-8, the printing of a status) are one
parameter of type `Library`. Every result holds for all its values; the few that need a law, such as UTF-8 being the
identity on ASCII, state it as a `requires`. Request ids are fresh, as random ids are: a step that registers one
requires an id no future has had. Futures are named by the request they were created for. The clock does not go back.

Cancellation follows asyncio: cancelling a blocked `get_key` cancels the retrieval it shares, and the call ends when
that retrieval does. The supported Python versions differ in `wait_for`: 3.11 decides when the wait resumes, and takes a
reply that is in by then, so that the cancellation is swallowed; later versions pass it on to the future at once, and
the retrieval ends cancelled. `Config.prompt` chooses between the two, and every result holds for both.

Three facts are weaker than one might expect.

- "A call nobody cancelled ends uncancelled" is false (`Scenarios.CancellationIsShared`): it shares its retrieval with
  calls that may be. `Cancellation.CallCancelledIff` gives the exact condition.
- The URI of a retrieved key is never compared with the requested one, so `get_key` can return a key that names another
  URI (`Scenarios.AnyKeyCanBeReturned`).
- How Mercury messages are grouped into batches can matter. `Tables.SplitBatch`, `Tables.SplitMatters` and
  `Tables.Delivery` say when: a batch reads the exchange keys once, and a message that raises ends its batch, since only
  `JSONDecodeError` is caught.

The `hide` statements in proofs only keep the solver from unfolding definitions a proof does not need.

## Model

| member | source | states |
|---|---|---|
| Guarantees.SingleFlight | src/webex_kms_sdk/encryption.py:104-135 | in every state of every run at most one retrieval per URI is unfinished and it is the recorded one; with the cache on, at most one per URI ever succeeds, and none is begun or under way beside it |
| Guarantees.ExchangesCounted | src/webex_kms_sdk/encryption.py:436-466 | at most one key exchange runs at a time; exchanges started never exceed 1 + invalidations + expirations + failed or cancelled exchanges |
| Guarantees.ContextsAreFresh | src/webex_kms_sdk/encryption.py:441-457 | a context handed out, reused or new, is the active session and younger than the hour it may live, whatever other retrievals did while the lock was awaited |
| Sessions.LiveSessionIsReused | src/webex_kms_sdk/encryption.py:441-456 | a session less than an hour old is always handed out, and nothing else changes; any other is replaced by an exchange under the lock |
| Sessions.ExchangesAreNeeded | src/webex_kms_sdk/encryption.py:441-456 | over a run, an exchange is begun only where there is no session or its hour is over, and a session expires only in the latter case |
| Sessions.BooksAreKept | src/webex_kms_sdk/encryption.py:441-466 | the machine counts as begun, expired, invalidated and failed exactly the exchanges and sessions that are |
| Sessions.CountersAreKept | src/webex_kms_sdk/encryption.py:411-421 | a retrieval counts exactly its retrieve messages, the HTTP requests for them and its invalidations |
| Guarantees.RetriesBounded | src/webex_kms_sdk/encryption.py:327-362 | a retrieval sends at most two retrieve messages over at most 2(max_retries+1) HTTP requests and invalidates at most once |
| Guarantees.RetryContext | src/webex_kms_sdk/encryption.py:337-362 | over a run, a second attempt follows only a step that ended the first in an error; after a session error the session was invalidated once and the first attempt's context object is never used again; after any other error nothing was invalidated and just that context is used |
| Attempts.AttemptVerdict | src/webex_kms_sdk/encryption.py:337-362 | a first failure is never raised, but leads to an invalidation if it is a session error and to a second attempt with the same context if not; a second failure raises both errors |
| Attempts.ExchangeVerdict | src/webex_kms_sdk/encryption.py:441-456 | an exchange ends with the lock free, and with a session of the agreed secret and the current time or with its own error |
| Outcomes.RaisedIff | src/webex_kms_sdk/encryption.py:337-362 | over a run, exactly when a retrieval raises an error: an exchange of it failed with that error, or both its attempts failed, at two steps, and the message is made of theirs |
| Outcomes.ReturnedIff | src/webex_kms_sdk/encryption.py:327-362 | over a run, exactly when a retrieval returns a key: an attempt of it ended with that key |
| Attempts.ExchangePayloadDecides | src/webex_kms_sdk/encryption.py:577-585 | what the Mercury reply to an exchange comes to, by what it parses to |
| Attempts.RefusalInvalidates | src/webex_kms_sdk/encryption.py:338-352 | a first attempt refused by HTTP status or by KMS status always leads to a fresh session |
| Attempts.SilenceRetries | src/webex_kms_sdk/encryption.py:354-362 | a first attempt without an answer in time, or with none that opens, is an object or carries a key, is repeated at once with the same context |
| Attempts.LoopResumes | src/webex_kms_sdk/core.py:109-154 | whatever the HTTP loop returns, after any number of retries, the retrieval goes on with it |
| Attempts.DeferredReply | src/webex_kms_sdk/encryption.py:674-676 | after a 202, or a 200 without messages, retrieve and exchange wait for Mercury under the same request |
| Attempts.FailedReply | src/webex_kms_sdk/encryption.py:677-683 | any other status but 200, a lost reply and an unreadable one end the attempt or exchange in the error that names them |
| Attempts.ExchangeAnswered | src/webex_kms_sdk/encryption.py:564-571 | a 200 with messages ends the exchange at once, in what its deciding reply comes to |
| Attempts.PayloadDecides | src/webex_kms_sdk/encryption.py:752-782 | what a payload comes to, inline or over Mercury, by its members: the single key, else the first listed one, or which error |
| Guarantees.Correlation | src/webex_kms_sdk/encryption.py:373-434 | every pending entry belongs to exactly one live attempt; a settled future holds a payload naming its own request |
| Guarantees.SettledOnce | src/webex_kms_sdk/encryption.py:240-248 | once a future is done, nothing later in the run changes it |
| Guarantees.InflightIsAwaited | src/webex_kms_sdk/encryption.py:115-135 | every in-flight entry has a call for its URI that waits for it |
| Guarantees.NoLeaks | src/webex_kms_sdk/encryption.py:124-135 | when every call is over, however it ended, no retrieval runs, nothing is in flight or pending, and the session lock is free |
| Cancellation.CancelledIff | src/webex_kms_sdk/encryption.py:421-428 | exactly when a retrieval ends in cancellation: a call waiting for it is cancelled while it is unfinished and, in Python 3.11, no Mercury reply it waits for is in when it resumes |
| Cancellation.CallCancelledIff | src/webex_kms_sdk/encryption.py:124-125 | exactly when a call ends in cancellation: it was itself cancelled after its retrieval had finished, or a call that shares the retrieval was cancelled in time |
| Cancellation.SharedOutcome | src/webex_kms_sdk/encryption.py:115-125 | all calls that joined one retrieval name the same URI and end alike, but for one cancelled after the retrieval had finished, which ends cancelled |
| Calls.CallEndsAtOnce | src/webex_kms_sdk/encryption.py:104-114 | a call for a cached key, with the cache on, ends with it; a call for no KMS URI ends in an error that says so; neither touches anything else |
| Calls.CallJoinsOrBegins | src/webex_kms_sdk/encryption.py:115-125 | any other call joins the retrieval in flight for its URI, or begins one if there is none |
| Calls.CallsAndCache | src/webex_kms_sdk/encryption.py:104-135 | over a run, a key is returned with the cache off only from the retrieval the call joined; retrievals are for KMS URIs only; one whose outcome a call has taken is never joined again |
| Calls.CancelReachesFuture | src/webex_kms_sdk/encryption.py:421-427 | what cancelling a call does to the retrieval it waits for, and to the future that waits for a Mercury reply |
| Scenarios.CancellationIsShared | src/webex_kms_sdk/encryption.py:115-125 | a run in which a call nobody cancelled ends cancelled |
| Scenarios.AnyKeyCanBeReturned | src/webex_kms_sdk/encryption.py:769-781 | with every library, for every URI and every key some reply grants, there is a run in which `get_key` of that URI returns that key |
| Scenarios.KeyOverMercury | src/webex_kms_sdk/encryption.py:115-589 | with every library, a run in which exchange and retrieve are both answered over Mercury returns the key that the KMS gives |
| Progress.StepAgainstBound | src/webex_kms_sdk/encryption.py:327-362 | each step of a retrieval or call lowers a bound, a new call raises it by at most 31, nothing else raises it |
| Progress.WorkIsBounded | src/webex_kms_sdk/encryption.py:97-135 | in every run retrievals and calls take at most 31 steps for each call made |
| Progress.NoDeadlock | src/webex_kms_sdk/encryption.py:441-457 | with a call unfinished, some retrieval or call can get on without any word from the KMS; whoever holds the session lock is in an exchange and can itself get on |
| Progress.Drain | src/webex_kms_sdk/encryption.py:552-589 | from every reachable state the client can run to a state with every call over and all tables clean, with all HTTP calls failing and no Mercury message |
| Provenance.KeyProvenance | src/webex_kms_sdk/encryption.py:298-313 | a key returned for a URI came, earlier in the run, from a successful reply to a retrieve for that URI, or from a Mercury message naming a live retrieve for it, or was stored under it as the key's own URI |
| Provenance.DeliveredKeyIsReturned | src/webex_kms_sdk/encryption.py:421-428 | a reply under the active session that names the awaited request makes that retrieval return the key it grants, wherever it stands in the batch |
| Provenance.OvertakingKeyIsReturned | src/webex_kms_sdk/encryption.py:411-428 | the same for a reply that comes before the POST is answered, once the answer is a 202 or a 200 without messages |
| Replies.FirstOpened | src/webex_kms_sdk/encryption.py:740-750 | among inline replies the first that the secret opens is the one read, and none is read only if none opens |
| Replies.FirstDecides | src/webex_kms_sdk/encryption.py:984-1000 | the reply to an exchange is the first that decrypts to a JSON object; what it parses to is the result, and without one the exchange fails |
| Replies.SharedSecretFails | src/webex_kms_sdk/encryption.py:1013-1021 | a reply without an EC key, or with one of another curve, fails the exchange in an error that says so |
| Replies.SharedSecretIff | src/webex_kms_sdk/encryption.py:1003-1041 | the secret is what the private key agrees with the P-256 point of that reply, looked for under its key first, and nothing else is |
| Invariant.StepKeeps | src/webex_kms_sdk/encryption.py:97-589 | every step keeps the whole invariant: requests and futures, lock and session, attempts, calls, cache |
| Invariant.RunKeeps | src/webex_kms_sdk/encryption.py:61-80 | the invariant holds in every state of every run from the empty client |
| EncryptionClient.EncryptionClient.constructor | src/webex_kms_sdk/encryption.py:69-78 | a new client is the initial state |
| EncryptionClient.EncryptionClient.GetKey | src/webex_kms_sdk/encryption.py:97-125 | the whole new state: cache hit, refused URI, joined retrieval (finished or not) or new retrieval |
| EncryptionClient.EncryptionClient.CancelGetKey | src/webex_kms_sdk/encryption.py:124-125 | cancelling one caller cancels the shared retrieval it awaits, or only the caller when the retrieval is already over |
| EncryptionClient.EncryptionClient.FinishGetKey | src/webex_kms_sdk/encryption.py:124-135 | the call takes its retrieval's outcome, or a late cancellation, and clears the in-flight entry only if it is its own |
| EncryptionClient.EncryptionClient.CacheKey | src/webex_kms_sdk/encryption.py:137-147 | a key is stored under its own URI, unless there is no key or no URI |
| EncryptionClient.EncryptionClient.ProcessKmsMessages | src/webex_kms_sdk/encryption.py:149-254 | the loop refines the fold over the batch, with session and exchange keys read once, and raises exactly if a message of the batch does |
| EncryptionClient.EncryptionClient.RecoverPlaintext | src/webex_kms_sdk/encryption.py:171-226 | the branches over envelope, session, exchange keys and bare JSON compute the decoder's plaintext |
| EncryptionClient.EncryptionClient.TryKeys | src/webex_kms_sdk/encryption.py:204-217 | the loop finds the first exchange key that decrypts |
| EncryptionClient.EncryptionClient.DispatchMessage | src/webex_kms_sdk/encryption.py:239-254 | the named pending request is popped and settled if still waiting; otherwise the keys are cached in order |
| EncryptionClient.EncryptionClient.GetOrCreateEcdh | src/webex_kms_sdk/encryption.py:436-456 | reuse within the time to live, else expiry and the start of an exchange that holds the lock |
| EncryptionClient.EncryptionClient.InvalidateEcdh | src/webex_kms_sdk/encryption.py:459-466 | the session is cleared and the retrieval goes for a new one |
| EncryptionClient.EncryptionClient.FinishExchange | src/webex_kms_sdk/encryption.py:492-506 | unregistering, release of the lock, and either a new context stamped with the clock or the error |
| EncryptionClient.EncryptionClient.RegisterPendingRequest | src/webex_kms_sdk/encryption.py:694-714 | a new open future and a pending entry with the exchange key, if any |
| EncryptionClient.EncryptionClient.UnregisterPendingRequest | src/webex_kms_sdk/encryption.py:716-726 | the entry is gone, all others stay in order |
| EncryptionClient.EncryptionClient.SendEcdhRequest | src/webex_kms_sdk/encryption.py:531-563 | the step up to the POST of an exchange |
| EncryptionClient.EncryptionClient.SendRetrieve | src/webex_kms_sdk/encryption.py:373-411 | the step up to the POST of a retrieve |
| EncryptionClient.EncryptionClient.ReceiveReply | src/webex_kms_sdk/encryption.py:411-421 | a refused, inline, empty or deferred reply, for a retrieve and for an exchange |
| EncryptionClient.EncryptionClient.ReceivePayload | src/webex_kms_sdk/encryption.py:427-428 | the settled payload decides the attempt or the exchange |
| EncryptionClient.EncryptionClient.FinishRetrieve | src/webex_kms_sdk/encryption.py:338-362 | unregistering, caching under the requested URI, and the choice between end, invalidation and same-context retry |
| EncryptionClient.EncryptionClient.Unwind | src/webex_kms_sdk/encryption.py:429-434 | a cancelled retrieval unregisters its request and releases the lock if it held it |
| EncryptionClient.EncryptionClient.ProcessKeyResponseJwes | src/webex_kms_sdk/encryption.py:728-750 | the loop refines "read the first reply that opens" |
| EncryptionClient.EncryptionClient.DecryptEcdhResponse | src/webex_kms_sdk/encryption.py:974-1000 | the loop refines "take the first reply that decrypts to a JSON object" |
| EncryptionClient.EncryptionClient.Perform | src/webex_kms_sdk/encryption.py:97-589 | the object takes every step of the machine and keeps the invariant |
| Tables.Delivery | src/webex_kms_sdk/encryption.py:160-248 | a reply under the active session naming a waiting request, where no earlier message of the batch names that request, settles it with its plaintext exactly if no earlier message raises; else the request goes on waiting |
| Deliveries.ExchangeDelivery | src/webex_kms_sdk/encryption.py:204-248 | a reply that only the key of a pending exchange opens settles the request it names, wherever in the batch, if no earlier message names it: exactly if none raises |
| Sessions.ExchangeReplyOpensSession | src/webex_kms_sdk/encryption.py:204-248 | such a reply gives the retrieval that waits for it a new session with the agreed secret |
| Sessions.DeferredThenDelivered | src/webex_kms_sdk/encryption.py:421-428 | a retrieve whose POST is answered 202 returns the key that a later batch brings for it |
| Deliveries.OfferedKeysAreCached | src/webex_kms_sdk/encryption.py:250-254 | a message that no waiting request claims brings every key it offers into the cache, the last one for each URI in the order single key, then list |
| Deliveries.NamedIsTaken | src/webex_kms_sdk/encryption.py:240-247 | a message that names a request takes its entry off the pending table, whether it settles it or not |
| Deliveries.MalformedEndsBatch | src/webex_kms_sdk/encryption.py:229-237 | a malformed message costs its batch all that follows, and nothing before |
| Deliveries.NoObjectLeavesNoTrace | src/webex_kms_sdk/encryption.py:167-236 | a message that is empty or no JSON object might as well not be there |
| Deliveries.BareText | src/webex_kms_sdk/encryption.py:219-226 | a text without dots is taken as it is if it starts with a brace, and skipped if not |
| Tables.OneEffect | src/webex_kms_sdk/encryption.py:224-254 | every message is skipped, settles one waiting request, or goes to the cache step; never two of these |
| Tables.HandleAllGrows | src/webex_kms_sdk/encryption.py:167-254 | a batch never touches session, lock, in-flight table or a done future, and a waiting future loses its entry only by being settled |
| Tables.SplitBatch | src/webex_kms_sdk/encryption.py:160-167 | with no exchange pending, processing a batch equals processing its parts in turn, except that a message that raises ends its own batch |
| Tables.SplitMatters | src/webex_kms_sdk/encryption.py:160-165 | with an exchange pending, a message only its private key opens has its effect when it shares the batch with the reply to the exchange, and is lost, with the new keys it carries, in the next batch |
| Decoder.EnvelopeOfJson | src/webex_kms_sdk/encryption.py:174-187 | a three-part envelope around JSON text yields that text |
| Decoder.EnvelopeOfMessage | src/webex_kms_sdk/encryption.py:174-222 | a three-part envelope around an encrypted message has the outcome of the bare message |
| Decoder.RawJson | src/webex_kms_sdk/encryption.py:180-222 | exactly when raw JSON is taken as it is, by the number of its dots and what its middle part decodes and decrypts to |
| Decoder.UndecodableMiddle | src/webex_kms_sdk/encryption.py:180-187 | with two dots and a middle part that is empty or does not decode, the text itself is taken, or skipped if it is no JSON |
| Decoder.RawJsonMistaken | src/webex_kms_sdk/encryption.py:180-187 | a JSON text with two dots that is taken for an envelope, whatever keys are held |
| Base64Url.RoundTrip | src/webex_kms_sdk/encryption.py:1171-1190 | decoding undoes encoding for all octet strings, the recomputed padding is what was stripped, padded and unpadded decode alike |
| Base64Url.SymbolsOfTable | src/webex_kms_sdk/encryption.py:1171-1190 | symbols are those of table 2 of RFC 4648 in its order; decoding also takes table 1, and no other character |
| Base64Url.GroupIsBigEndian | src/webex_kms_sdk/encryption.py:1171-1179 | three octets and their four symbols are the same number |
| Base64Url.DecodeLenient | src/webex_kms_sdk/encryption.py:1182-1190 | both spellings decode alike; symbols decode exactly if no single one is left over; what is not ASCII never does |
| Base64Url.PaddingRules | src/webex_kms_sdk/encryption.py:1182-1190 | padding ends the value where it completes a group, and is skipped elsewhere |
| Base64Url.ScanSkips | src/webex_kms_sdk/encryption.py:1182-1190 | a character outside the alphabet is skipped |
| Base64Url.EncodeShape | src/webex_kms_sdk/encryption.py:1171-1179 | the encoding uses only the alphabet, has the length of section 5 of RFC 4648, and lacks just the padding |
| Base64Url.DecodeShrinks | src/webex_kms_sdk/models.py:12-22 | no value decodes to more octets than it has characters |
| Integers.IntRoundTrip | src/webex_kms_sdk/encryption.py:1193-1201 | the integer is read back, its octets are the unique shortest, zero is one zero octet |
| Integers.ByteLengthMinimal | src/webex_kms_sdk/encryption.py:1199-1201 | the width chosen is the least positive one that fits |
| Integers.PadKeepsValue | src/webex_kms_sdk/encryption.py:1204-1213 | 32 octets, same value modulo 2^256 |
| Integers.PublicKeyRoundTrip | src/webex_kms_sdk/encryption.py:1044-1071 | a P-256 key survives the trip through its JWK; each coordinate takes 43 symbols |
| Integers.CoordinateRoundTrip | src/webex_kms_sdk/encryption.py:1055-1056 | a coordinate takes 32 octets whatever its size and is read back |
| Integers.PrimeOfP256 | src/webex_kms_sdk/encryption.py:1044-1071 | coordinates are below 2^256 - 2^224 + 2^192 + 2^96 - 1 |
| KmsText.ParseKmsUriIff | src/webex_kms_sdk/encryption.py:796-811 | the accepted URIs and their parts, both directions |
| Text.DigitsReadBack | src/webex_kms_sdk/encryption.py:677-683 | the status in a refusal is its decimal form |
| KmsText.RefusalIsSessionError | src/webex_kms_sdk/encryption.py:1159-1168 | every refusal by HTTP or KMS status is a session error, whatever code and text |
| KmsText.SilenceIsNoSessionError | src/webex_kms_sdk/encryption.py:1159-1168 | timeouts, replies that are no object and replies without a key are not |
| KmsText.SessionErrorIff | src/webex_kms_sdk/encryption.py:1159-1168 | a session error is an error whose text contains one of four markers |
| KmsText.UuidIff | src/webex_kms_sdk/encryption.py:26-26 | the UUID pattern, group by group |
| KmsText.DecodeWebexIdIdempotent | src/webex_kms_sdk/encryption.py:887-904 | decoding twice is decoding once; a changed value is a UUID |
| KmsText.DecodeWebexIdOfName | src/webex_kms_sdk/encryption.py:896-904 | the encoded resource name of a UUID decodes to that UUID |
| Models.SuccessIff | src/webex_kms_sdk/models.py:327-339 | the successful statuses by value, in every JSON spelling |
| HttpRetry.RequestUrl | src/webex_kms_sdk/core.py:109-154 | against any sequence of replies: the result is the first that is not retried or the one at attempt `max_retries`, its index plus one requests are sent, and the delays between them |
| HttpRetry.ExchangedUnique | src/webex_kms_sdk/core.py:110-139 | that number of requests is determined by the replies |
| HttpRetry.TotalSleep | src/webex_kms_sdk/core.py:178-209 | with no positive Retry-After, k retries sleep base * (2^k - 1) in all |
| HttpRetry.DelayIs | src/webex_kms_sdk/core.py:178-209 | the retried statuses by number, and the delay after each of them, Retry-After included |
| Mercury.ConnectWithBackoff | src/webex_kms_sdk/mercury.py:241-281 | the outcome, the number of attempts and each delay, against any sequence of attempts |
| Mercury.BackoffClosedForm | src/webex_kms_sdk/mercury.py:242-272 | delay k is min(reset * 2^k, max), but for the first, which is never cut |
| Mercury.BackoffMonotoneIff | src/webex_kms_sdk/mercury.py:242-272 | delays never decrease exactly when reset does not exceed max |
| Mercury.TotalBackoff | src/webex_kms_sdk/mercury.py:249-272 | n delays take at most n * max |
| Mercury.ReconnectsCounted | src/webex_kms_sdk/mercury.py:526-552 | reconnects begun never exceed publications of the connected state, only the last can be unfinished, and the client knows whether it was ever connected |
| Mercury.FailureReconnects | src/webex_kms_sdk/mercury.py:526-552 | a failure leaves a reconnect under way exactly if one was, or the connection was up and not closing; it begins one only if none was |
| Mercury.EndsOfConnections | src/webex_kms_sdk/mercury.py:120-131 | after a disconnect that takes effect nothing is up or under way and the client can connect again; after the reader has ended, a late failure begins no reconnect |
| Mercury.MercuryClient.HandleConnectionError | src/webex_kms_sdk/mercury.py:526-541 | the whole new state after a failure; reconnects stay covered by publications |
| Mercury.MercuryClient.StartReconnectTask | src/webex_kms_sdk/mercury.py:543-552 | a new reconnect only if none is unfinished |
| Mercury.MercuryClient.ReaderFails | src/webex_kms_sdk/mercury.py:419-424 | the reader's failure path and its final clause are one failure |
| Mercury.MercuryClient.Perform | src/webex_kms_sdk/mercury.py:526-576 | the object, driven through any sequence of events, is the machine of the reconnect results, and keeps at most one unfinished reconnect and no more reconnects than publications |
| Mercury.DisconnectStopsIff | src/webex_kms_sdk/mercury.py:120-131 | a disconnect during a reconnect keeps every later failure from beginning another, until the next connect, exactly if the client is connected, connecting or closing; in the gap before a scheduled reconnect runs it is ignored |
| Mercury.ConnectReopens | src/webex_kms_sdk/mercury.py:80-89 | after an accepted connect, whatever happens but a disconnect, a failure of an established connection is followed by a reconnect |
| Mercury.ConnectIsExclusive | src/webex_kms_sdk/mercury.py:80-89 | while a connect or reconnect is under way a further connect changes nothing, and a disconnect takes effect |

## Left out

- The cryptography itself, JSON and UTF-8: library calls, represented by the `Library` parameter.
- How `KMSMessage.from_dict` reads each member: a plaintext parses to "not JSON", "not an object", "malformed" (any other exception) or a well-typed message.
- Text with lone surrogates, which UTF-8 cannot encode: a string is a sequence of Unicode scalar values.
- What outgoing requests contain (client id, credential, destination cluster, headers): the protocol never reads it back.
- The fairness of `asyncio.Lock`: waiters are granted the session lock in any order, so every result holds for each order.
- Cancellation of a retrieval by anyone but its callers, such as the shutdown of an event loop.
- A wall clock that is set back: the clock is assumed not to go back, which the age of a context depends on.
- Rounding in delays and times: they are exact reals; a Retry-After or a KMS status of infinity or "not a number" does not occur.
- `_perform_ecdh_exchange` reads identity and KMS information in two requests; they are one wait, ending in success or in any error.
- `Key` and `JWK` carry only the members the protocol reads; serialization to dictionaries is left out.
- RSA key parsing and wrapping: straight-line use of the integer codec.
- `kms_cluster_from_domain` and `get_cluster_from_domain`: short branch tables.
- Authentication frames, event dispatch and URL building of the Mercury client: transport and routing.
- The full connect and disconnect machine of the Mercury client: publication does not check that a disconnect came in between, so a client can come up connected after it.
- `DeviceClient`, `ConversationClient`, `ThreadedWebexClient`: plumbing around the modelled core.
