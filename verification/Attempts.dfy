/** What each end of an exchange or of a retrieve attempt leads to, and what each reply is the end of. */
module Attempts {
  import opened Basics
  import opened Models
  import opened Text
  import opened Decoder
  import opened Tables
  import opened HttpRetry
  import opened Replies
  import opened Protocol
  import opened Invariant

  // ---------------------------------------------------------------- what an end leads to

  /** What a failed second attempt raises: both errors. */
  function BothErrors(first: string, second: string): string {
    "retry KMS retrieve failed: " + second + " (original: " + first + ")"
  }

  /**
   When a retrieve attempt ends: a key is returned; the first error is never raised, but leads to an invalidation if it
   is a session error and to a second attempt with the same context if not; the second error is raised, with the first.
   */
  lemma AttemptVerdict(lib: Library, cfg: Config, s: State, i: nat, e: Event)
    requires CanResume(cfg, s, i, e) && Ends(lib, cfg, s, i, e).AttemptEnds?
    ensures var p, p' := s.tasks[i].point, ResumeTask(lib, cfg, s, i, e).tasks[i].point;
            && Retrieving(p)
            && match Ends(lib, cfg, s, i, e).key
               case Ok(key) => p' == Finished(Returned(key))
               case Err(error) =>
                 if !p.attempt.First? then p' == Finished(Raised(BothErrors(p.attempt.error, error)))
                 else if KmsText.IsSessionError(error) then p' == NeedInvalidation(error, p.context)
                 else p' == Addressing(Same(error, p.context), p.context)
  {
    hide ResumeTask, Ends, KmsText.IsSessionError;
    ResumeEnds(lib, cfg, s, i, e);
  }

  /** When an exchange ends, the session lock is free; there is a session with the secret, or the error is raised. */
  lemma ExchangeVerdict(lib: Library, cfg: Config, s: State, i: nat, e: Event)
    requires CanResume(cfg, s, i, e) && Ends(lib, cfg, s, i, e).ExchangeEnds?
    ensures var p, s' := s.tasks[i].point, ResumeTask(lib, cfg, s, i, e);
            && p.Exchanging() && s'.tables.lock == None
            && match Ends(lib, cfg, s, i, e).secret
               case Ok(secret) =>
                 var context := Context(s.serial, secret, s.now);
                 s'.tasks[i].point == Addressing(p.attempt, context) && s'.tables.session == Some(context)
               case Err(error) =>
                 s'.tasks[i].point == Finished(Raised(error)) && s'.tables.session == s.tables.session
  {
    hide ResumeTask, Ends;
    ResumeEnds(lib, cfg, s, i, e);
  }

  // ---------------------------------------------------------------- what a reply to a POST is the end of

  /** Whatever the HTTP loop comes to against a server, the task that made the request resumes with it. */
  lemma LoopResumes(cfg: Config, s: State, i: nat, server: seq<Reply<Content>>, sent: nat)
    requires i < |s.tasks| && (s.tasks[i].point.Posting? || s.tasks[i].point.Sending?) && !s.tasks[i].cancelling
    requires 1 <= sent <= cfg.maxRetries + 1 && sent <= |server|
    requires forall h | 0 <= h < sent - 1 :: Retried(server[h])
    requires sent - 1 == cfg.maxRetries || !Retried(server[sent - 1])
    ensures CanResume(cfg, s, i, Replied(server[..sent]))
  {
    assert Exchanged(cfg.maxRetries, server[..sent]);
  }

  /** The reply says that the KMS will answer over Mercury: a 202, or a 200 without messages. */
  ghost predicate Defers(reply: Reply<Content>) {
    && reply.Answer?
    && (reply.response.status == 202
        || (reply.response.status == 200 && reply.response.content.body == Jwes([])))
  }

  /** After a deferring reply the task waits for Mercury, with the same request, and the tables are as before. */
  lemma DeferredReply(lib: Library, cfg: Config, s: State, i: nat, run: seq<Reply<Content>>)
    requires CanResume(cfg, s, i, Replied(run)) && Defers(run[|run| - 1])
    ensures var p, s' := s.tasks[i].point, ResumeTask(lib, cfg, s, i, Replied(run));
            && s'.tables == s.tables && s'.stats == s.stats
            && s'.tasks[i].point == if p.Posting? then Awaiting(p.attempt, p.id, p.key)
                                    else Listening(p.attempt, p.context, p.id)
  {
    hide EndAttempt, EndExchange;
  }

  /** The refusal of a request, as it is raised. */
  function Refusal(status: int, text: string): string {
    "KMS request failed with status " + Decimal(status) + ": " + text
  }

  /** The error that a reply is, whatever it replies to: a refusal by status, or a failure to get or read a reply. */
  ghost function ReplyError(reply: Reply<Content>): Option<string> {
    match reply
    case Failure(error) => Some(error)
    case Answer(response) =>
      if response.status != 200 && response.status != 202 then Some(Refusal(response.status, response.content.text))
      else if response.status == 200 && response.content.body.Unreadable? then Some(response.content.body.error)
      else None
  }

  /** Such a reply ends the exchange or attempt in that error. */
  lemma FailedReply(lib: Library, cfg: Config, s: State, i: nat, run: seq<Reply<Content>>)
    requires CanResume(cfg, s, i, Replied(run)) && ReplyError(run[|run| - 1]).Some?
    ensures var error := ReplyError(run[|run| - 1]).value;
            Ends(lib, cfg, s, i, Replied(run)) ==
            if s.tasks[i].point.Posting? then ExchangeEnds(Err(error)) else AttemptEnds(Err(error))
  {
    hide Decimal;
    var reply := run[|run| - 1];
    if reply.Answer? {
      SameRefusal(reply.response.status, reply.response.content.text);
      hide Refusal, KmsText.HttpFailure;
    }
  }

  lemma SameRefusal(status: int, text: string)
    ensures Refusal(status, text) == KmsText.HttpFailure(status, text)
  {
    hide Decimal;
    var d := Decimal(status);
    assert "KMS request failed with status " == "KMS request " + "failed with status" + " ";
    assert "KMS request " + "failed with status" + " " + d + ": " + text ==
           "KMS request " + "failed with status" + (" " + d + ": " + text);
  }

  /** The reply carries these messages. */
  ghost predicate Carries200(reply: Reply<Content>, jwes: seq<string>) {
    reply.Answer? && reply.response.status == 200 && reply.response.content.body == Jwes(jwes) && jwes != []
  }

  /** A 200 with messages ends the exchange at once, in the result of the first that is not passed over. */
  lemma ExchangeAnswered(lib: Library, cfg: Config, s: State, i: nat, run: seq<Reply<Content>>, jwes: seq<string>,
                         j: nat)
    requires CanResume(cfg, s, i, Replied(run)) && s.tasks[i].point.Posting? && Carries200(run[|run| - 1], jwes)
    requires Decides(lib, jwes, s.tasks[i].point.key, j)
    ensures var key := s.tasks[i].point.key;
            match lib.parse(lib.decryptEcdh(jwes[j], key).value)
            case Message(m) => Ends(lib, cfg, s, i, Replied(run)) == ExchangeEnds(SharedSecret(lib, m, key))
            case Malformed(error) => Ends(lib, cfg, s, i, Replied(run)) == ExchangeEnds(Err(error))
            case _ => false
  {
    hide SharedSecret;
    FirstDecides(lib, jwes, s.tasks[i].point.key);
    hide EcdhResponse;
  }

  /** The event hands the attempt of task `i` this payload: a settled future, or the first inline message that opens. */
  ghost predicate Hands(lib: Library, s: State, i: nat, e: Event, payload: Bytes) {
    && i < |s.tasks|
    && var p := s.tasks[i].point;
    || (e.Notified? && p.Listening? && p.id in s.tables.futures && s.tables.futures[p.id] == Settled(payload))
    || (e.Replied? && p.Sending? && |e.run| > 0
        && exists jwes, j: nat ::
             Carries200(e.run[|e.run| - 1], jwes) && OpensFirst(lib, jwes, p.context.secret, j)
             && lib.unwrap(jwes[j], p.context.secret) == Some(payload))
  }

  /** What the attempt makes of its payload, told by what it parses to. */
  lemma PayloadDecides(lib: Library, cfg: Config, s: State, i: nat, e: Event, payload: Bytes)
    requires CanResume(cfg, s, i, e) && Hands(lib, s, i, e, payload)
    ensures Ends(lib, cfg, s, i, e) ==
            AttemptEnds(match lib.parse(payload)
                        case NotJson(error) => Err(error)
                        case Malformed(error) => Err(error)
                        case NotObject => Err("KMS response payload is not an object")
                        case Message(m) =>
                          if !m.IsSuccess() then Err("KMS request failed with status: " + lib.show(m.status))
                          else if m.key.Some? then Ok(m.key.value)
                          else if m.keys != [] then Ok(m.keys[0])
                          else Err("no key found in KMS response"))
  {
    HandedIsParsed(lib, cfg, s, i, e, payload);
    hide Ends, Hands;
    if lib.parse(payload).Message? {
      SameKmsRefusal(lib.show(lib.parse(payload).message.status));
      hide KmsText.KmsFailure;
    }
  }

  lemma SameKmsRefusal(shown: string)
    ensures KmsText.KmsFailure(shown) == "KMS request failed with status: " + shown
  {
    assert "KMS request " + "failed with status" + ": " == "KMS request failed with status: ";
    assert "KMS request " + "failed with status" + (": " + shown) ==
           "KMS request " + "failed with status" + ": " + shown;
  }

  lemma HandedIsParsed(lib: Library, cfg: Config, s: State, i: nat, e: Event, payload: Bytes)
    requires CanResume(cfg, s, i, e) && Hands(lib, s, i, e, payload)
    ensures Ends(lib, cfg, s, i, e) == AttemptEnds(ParseKey(lib, payload))
  {
    hide ParseKey, SecretFromPayload, ExchangeReply;
    var p := s.tasks[i].point;
    if e.Replied? {
      var jwes, j: nat :| Carries200(e.run[|e.run| - 1], jwes) && OpensFirst(lib, jwes, p.context.secret, j)
                          && lib.unwrap(jwes[j], p.context.secret) == Some(payload);
      FirstOpened(lib, jwes, p.context.secret);
      hide FirstUnwrapped;
    }
  }

  /** What an exchange makes of its Mercury reply. */
  lemma ExchangePayloadDecides(lib: Library, cfg: Config, s: State, i: nat)
    requires CanResume(cfg, s, i, Notified) && s.tasks[i].point.Awaiting?
    ensures var p, payload := s.tasks[i].point, s.tables.futures[s.tasks[i].point.id].payload;
            Ends(lib, cfg, s, i, Notified) ==
            ExchangeEnds(match lib.parse(payload)
                         case NotJson(error) => Err(error)
                         case Malformed(error) => Err(error)
                         case NotObject => Err("ECDH response payload is not an object")
                         case Message(m) => SharedSecret(lib, m, p.key))
  {
    hide SharedSecret, ParseKey;
  }

  // ---------------------------------------------------------------- refusals and silence

  /** The event refuses the attempt: by HTTP status, or by the status of the KMS message in its payload. */
  ghost predicate Refuses(lib: Library, s: State, i: nat, e: Event) {
    && i < |s.tasks|
    && ((e.Replied? && s.tasks[i].point.Sending? && |e.run| > 0
         && var last := e.run[|e.run| - 1];
         last.Answer? && last.response.status != 200 && last.response.status != 202)
        || exists payload ::
             Hands(lib, s, i, e, payload) && lib.parse(payload).Message? && !lib.parse(payload).message.IsSuccess())
  }

  /** A refusal of the first attempt always leads to a fresh session, and only then to a second attempt. */
  lemma RefusalInvalidates(lib: Library, cfg: Config, s: State, i: nat, e: Event)
    requires CanResume(cfg, s, i, e) && Refuses(lib, s, i, e) && s.tasks[i].point.attempt.First?
    ensures var p' := ResumeTask(lib, cfg, s, i, e).tasks[i].point;
            p'.NeedInvalidation? && p'.failed == s.tasks[i].point.context
  {
    hide ResumeTask, Ends, KmsText.IsSessionError;
    if payload :| Hands(lib, s, i, e, payload) && lib.parse(payload).Message?
                  && !lib.parse(payload).message.IsSuccess() {
      RefusedByKms(lib, cfg, s, i, e, payload);
    } else {
      RefusedByStatus(lib, cfg, s, i, e.run);
    }
    AttemptVerdict(lib, cfg, s, i, e);
  }

  lemma RefusedByKms(lib: Library, cfg: Config, s: State, i: nat, e: Event, payload: Bytes)
    requires CanResume(cfg, s, i, e) && Hands(lib, s, i, e, payload)
    requires lib.parse(payload).Message? && !lib.parse(payload).message.IsSuccess()
    ensures exists error :: Ends(lib, cfg, s, i, e) == AttemptEnds(Err(error)) && KmsText.IsSessionError(error)
  {
    hide Ends, Hands, KmsText.IsSessionError;
    var shown := lib.show(lib.parse(payload).message.status);
    PayloadDecides(lib, cfg, s, i, e, payload);
    SameKmsRefusal(shown);
    KmsText.RefusalIsSessionError(0, "", shown);
  }

  lemma RefusedByStatus(lib: Library, cfg: Config, s: State, i: nat, run: seq<Reply<Content>>)
    requires CanResume(cfg, s, i, Replied(run)) && s.tasks[i].point.Sending?
    requires var last := run[|run| - 1]; last.Answer? && last.response.status != 200 && last.response.status != 202
    ensures exists error ::
              Ends(lib, cfg, s, i, Replied(run)) == AttemptEnds(Err(error)) && KmsText.IsSessionError(error)
  {
    hide Ends, KmsText.IsSessionError, Refusal, KmsText.HttpFailure;
    var response := run[|run| - 1].response;
    FailedReply(lib, cfg, s, i, run);
    SameRefusal(response.status, response.content.text);
    KmsText.RefusalIsSessionError(response.status, response.content.text, "");
  }

  /** No Mercury reply came in time. */
  ghost predicate Unanswered(s: State, i: nat, e: Event) {
    i < |s.tasks| && e.TimedOut? && s.tasks[i].point.Listening?
  }

  /** The session opens none of the inline messages. */
  ghost predicate NoneOpens(lib: Library, s: State, i: nat, e: Event) {
    && i < |s.tasks| && e.Replied? && s.tasks[i].point.Sending? && |e.run| > 0
    && exists jwes :: Carries200(e.run[|e.run| - 1], jwes) && StayClosed(lib, jwes, s.tasks[i].point.context.secret)
  }

  ghost predicate StayClosed(lib: Library, jwes: seq<string>, secret: Bytes) {
    forall j | 0 <= j < |jwes| :: lib.unwrap(jwes[j], secret).None?
  }

  ghost predicate IsKeyless(m: KMSMessage) {
    m.IsSuccess() && m.key.None? && m.keys == []
  }

  /** The error of an attempt that got no answer, or none it could use, if the event leaves it so. */
  ghost predicate LeavesSilent(lib: Library, s: State, i: nat, e: Event, error: string) {
    || (Unanswered(s, i, e) && error == "")
    || (NoneOpens(lib, s, i, e) && error == "no key found in KMS response JWEs")
    || (exists payload ::
          Hands(lib, s, i, e, payload) && lib.parse(payload).NotObject?
          && error == "KMS response payload is not an object")
    || (exists payload ::
          Hands(lib, s, i, e, payload) && lib.parse(payload).Message? && IsKeyless(lib.parse(payload).message)
          && error == "no key found in KMS response")
  }

  /** Where the KMS stays silent, or gives no key, the first attempt is repeated at once with the same context. */
  lemma SilenceRetries(lib: Library, cfg: Config, s: State, i: nat, e: Event, error: string)
    requires CanResume(cfg, s, i, e) && LeavesSilent(lib, s, i, e, error) && s.tasks[i].point.attempt.First?
    ensures var context := s.tasks[i].point.context;
            ResumeTask(lib, cfg, s, i, e).tasks[i].point == Addressing(Same(error, context), context)
  {
    hide ResumeTask, Ends, KmsText.IsSessionError;
    SilenceEnds(lib, cfg, s, i, e, error);
    KmsText.SilenceIsNoSessionError();
    AttemptVerdict(lib, cfg, s, i, e);
  }

  lemma SilenceEnds(lib: Library, cfg: Config, s: State, i: nat, e: Event, error: string)
    requires CanResume(cfg, s, i, e) && LeavesSilent(lib, s, i, e, error)
    ensures Ends(lib, cfg, s, i, e) == AttemptEnds(Err(error))
    ensures error in {KmsText.TIMEOUT, KmsText.NO_KEY_IN_JWES, KmsText.NO_KEY, KmsText.NOT_AN_OBJECT}
  {
    hide CanResume, Ends, Hands, NoneOpens;
    if Unanswered(s, i, e) && error == "" {
      UnansweredEnds(lib, cfg, s, i, e);
    } else if NoneOpens(lib, s, i, e) && error == "no key found in KMS response JWEs" {
      NoneOpensEnds(lib, cfg, s, i, e);
    } else if payload :| Hands(lib, s, i, e, payload) && lib.parse(payload).NotObject?
                         && error == "KMS response payload is not an object" {
      PayloadDecides(lib, cfg, s, i, e, payload);
    } else {
      var payload :| Hands(lib, s, i, e, payload) && lib.parse(payload).Message?
                     && IsKeyless(lib.parse(payload).message);
      PayloadDecides(lib, cfg, s, i, e, payload);
    }
  }

  lemma UnansweredEnds(lib: Library, cfg: Config, s: State, i: nat, e: Event)
    requires CanResume(cfg, s, i, e) && Unanswered(s, i, e)
    ensures Ends(lib, cfg, s, i, e) == AttemptEnds(Err(""))
  {
  }

  lemma NoneOpensEnds(lib: Library, cfg: Config, s: State, i: nat, e: Event)
    requires CanResume(cfg, s, i, e) && NoneOpens(lib, s, i, e)
    ensures Ends(lib, cfg, s, i, e) == AttemptEnds(Err("no key found in KMS response JWEs"))
  {
    hide ParseKey, SecretFromPayload, ExchangeReply, FirstUnwrapped;
    var secret := s.tasks[i].point.context.secret;
    var jwes :| Carries200(e.run[|e.run| - 1], jwes) && StayClosed(lib, jwes, secret);
    NoneUnwrapped(lib, jwes, secret);
  }

  lemma NoneUnwrapped(lib: Library, jwes: seq<string>, secret: Bytes)
    requires StayClosed(lib, jwes, secret)
    ensures FirstUnwrapped(lib, jwes, secret) == None
  {
    FirstOpened(lib, jwes, secret);
  }
}
