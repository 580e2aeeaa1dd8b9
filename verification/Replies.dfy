/** What the client makes of the replies to its two kinds of request. */
module Replies {
  import opened Basics
  import opened Models
  import opened KmsText
  import opened Decoder
  import opened HttpRetry

  /** The body of a 200 reply: its `kmsMessages`, or the exception that reading it raises. */
  datatype Body = Unreadable(error: string) | Jwes(messages: seq<string>)

  datatype Content = Content(text: string, body: Body)

  /** `_send_kms_message`: `None` when the reply is to come over Mercury. */
  function KmsMessages(reply: Reply<Content>): Result<Option<seq<string>>> {
    match reply
    case Failure(error) => Err(error)
    case Answer(response) =>
      if response.status == 202 then Ok(None)
      else if response.status != 200 then Err(HttpFailure(response.status, response.content.text))
      else
        match response.content.body
        case Unreadable(error) => Err(error)
        case Jwes(messages) => Ok(Some(messages))
  }

  /** The first of the messages the secret opens. */
  function FirstUnwrapped(lib: Library, jwes: seq<string>, secret: Bytes): Option<Bytes> {
    if jwes == [] then None
    else if lib.unwrap(jwes[0], secret).Some? then lib.unwrap(jwes[0], secret)
    else FirstUnwrapped(lib, jwes[1..], secret)
  }

  /** The secret opens message `j` and none before it. */
  ghost predicate OpensFirst(lib: Library, jwes: seq<string>, secret: Bytes, j: nat) {
    && j < |jwes| && lib.unwrap(jwes[j], secret).Some?
    && forall h | 0 <= h < j :: lib.unwrap(jwes[h], secret).None?
  }

  lemma {:induction false} FirstOpened(lib: Library, jwes: seq<string>, secret: Bytes)
    ensures FirstUnwrapped(lib, jwes, secret).Some? ==>
              exists j: nat ::
                OpensFirst(lib, jwes, secret, j) && lib.unwrap(jwes[j], secret) == FirstUnwrapped(lib, jwes, secret)
    ensures FirstUnwrapped(lib, jwes, secret).None? ==> forall j | 0 <= j < |jwes| :: lib.unwrap(jwes[j], secret).None?
  {
    if jwes != [] {
      if lib.unwrap(jwes[0], secret).Some? {
        assert OpensFirst(lib, jwes, secret, 0);
      } else {
        FirstOpened(lib, jwes[1..], secret);
        if FirstUnwrapped(lib, jwes[1..], secret).Some? {
          var j: nat :| OpensFirst(lib, jwes[1..], secret, j)
                   && lib.unwrap(jwes[1..][j], secret) == FirstUnwrapped(lib, jwes[1..], secret);
          forall h | 0 <= h < j + 1 ensures lib.unwrap(jwes[h], secret).None? {
            if h > 0 {
              assert jwes[h] == jwes[1..][h - 1];
            }
          }
          assert jwes[j + 1] == jwes[1..][j];
          assert OpensFirst(lib, jwes, secret, j + 1);
        }
      }
    }
  }

  /** `_parse_key_from_payload` */
  function ParseKey(lib: Library, payload: Bytes): Result<Key> {
    match lib.parse(payload)
    case NotJson(error) => Err(error)
    case NotObject => Err(NOT_AN_OBJECT)
    case Malformed(error) => Err(error)
    case Message(m) =>
      if !m.IsSuccess() then Err(KmsFailure(lib.show(m.status)))
      else
        match m.FirstKey()
        case None => Err(NO_KEY)
        case Some(key) => Ok(key)
  }

  /** `_process_key_response_jwes` */
  function KeyFromJwes(lib: Library, jwes: seq<string>, secret: Bytes): Result<Key> {
    match FirstUnwrapped(lib, jwes, secret)
    case None => Err(NO_KEY_IN_JWES)
    case Some(payload) => ParseKey(lib, payload)
  }

  /** `decrypt_ecdh_response` */
  function EcdhResponse(lib: Library, jwes: seq<string>, key: PrivateKey): Result<KMSMessage> {
    if jwes == [] then Err("failed to decrypt ECDH response from KMS")
    else
      match lib.decryptEcdh(jwes[0], key)
      case None => EcdhResponse(lib, jwes[1..], key)
      case Some(plaintext) =>
        match lib.parse(plaintext)
        case Message(m) => Ok(m)
        case Malformed(error) => Err(error)
        case _ => EcdhResponse(lib, jwes[1..], key)
  }

  /** The reply does not decrypt, or not to a JSON object. */
  ghost predicate PassedOver(lib: Library, jwe: string, key: PrivateKey) {
    match lib.decryptEcdh(jwe, key)
    case None => true
    case Some(plaintext) => lib.parse(plaintext).NotJson? || lib.parse(plaintext).NotObject?
  }

  ghost predicate Decides(lib: Library, jwes: seq<string>, key: PrivateKey, j: nat) {
    && j < |jwes| && !PassedOver(lib, jwes[j], key)
    && forall h | 0 <= h < j :: PassedOver(lib, jwes[h], key)
  }

  /** The reply to an exchange is the first that is not passed over: its message, or the exception it raises. */
  lemma {:induction false} FirstDecides(lib: Library, jwes: seq<string>, key: PrivateKey)
    ensures forall j: nat | Decides(lib, jwes, key, j) ::
              match lib.parse(lib.decryptEcdh(jwes[j], key).value)
              case Message(m) => EcdhResponse(lib, jwes, key) == Ok(m)
              case Malformed(error) => EcdhResponse(lib, jwes, key) == Err(error)
              case _ => false
    ensures (forall j | 0 <= j < |jwes| :: PassedOver(lib, jwes[j], key)) ==>
              EcdhResponse(lib, jwes, key) == Err("failed to decrypt ECDH response from KMS")
  {
    if jwes != [] {
      var rest := jwes[1..];
      FirstDecides(lib, rest, key);
      if PassedOver(lib, jwes[0], key) {
        assert EcdhResponse(lib, jwes, key) == EcdhResponse(lib, rest, key);
        forall j: nat | Decides(lib, jwes, key, j) ensures j > 0 && Decides(lib, rest, key, j - 1) {
          assert forall h | 0 <= h < |rest| :: rest[h] == jwes[h + 1];
        }
        assert forall h | 0 <= h < |rest| :: rest[h] == jwes[h + 1];
      }
    }
  }

  /** `extract_server_ec_key` */
  function ServerKey(m: KMSMessage): Option<JWK> {
    if m.key.Some? && m.key.value.jwk.kty == "EC" then Some(m.key.value.jwk)
    else if m.jwk.Some? && m.jwk.value.kty == "EC" then m.jwk
    else None
  }

  /** `derive_shared_secret` */
  function SharedSecret(lib: Library, m: KMSMessage, key: PrivateKey): Result<Bytes> {
    match ServerKey(m)
    case None => Err("KMS ECDH response missing EC public key")
    case Some(jwk) =>
      match Integers.JwkToEcPublicKey(jwk, lib.onCurve)
      case Err(error) => Err(error)
      case Ok(point) =>
        match lib.agree(point, key)
        case None => Err("Error computing shared key.")
        case Some(secret) => Ok(secret)
  }

  /** The EC key of the reply: that of its key if that is one, else the one it carries itself. */
  ghost predicate OffersPoint(m: KMSMessage, jwk: JWK) {
    if m.key.Some? && m.key.value.jwk.kty == "EC" then jwk == m.key.value.jwk else m.jwk == Some(jwk) && jwk.kty == "EC"
  }

  ghost predicate ReadsPoint(lib: Library, jwk: JWK, point: Integers.PublicKey) {
    && jwk.kty == "EC" && jwk.crv == "P-256"
    && Base64Url.Decode(jwk.x).Some? && Integers.FromBytes(Base64Url.Decode(jwk.x).value) == point.x
    && Base64Url.Decode(jwk.y).Some? && Integers.FromBytes(Base64Url.Decode(jwk.y).value) == point.y
    && lib.onCurve(point.x, point.y)
  }

  /** The shared secret is what the private key agrees with the P-256 point of the reply, and nothing else. */
  lemma SharedSecretIff(lib: Library, m: KMSMessage, key: PrivateKey, secret: Bytes)
    ensures SharedSecret(lib, m, key) == Ok(secret) <==>
            exists jwk, point ::
              OffersPoint(m, jwk) && ReadsPoint(lib, jwk, point) && lib.agree(point, key) == Some(secret)
  {
    if SharedSecret(lib, m, key) == Ok(secret) {
      var jwk := ServerKey(m).value;
      var point := Integers.JwkToEcPublicKey(jwk, lib.onCurve).value;
      assert OffersPoint(m, jwk) && ReadsPoint(lib, jwk, point);
    }
    if jwk, point :| OffersPoint(m, jwk) && ReadsPoint(lib, jwk, point) && lib.agree(point, key) == Some(secret) {
      assert ServerKey(m) == Some(jwk);
      assert Integers.JwkToEcPublicKey(jwk, lib.onCurve) == Ok(point);
    }
  }

  /** Without such a point, the error says what is missing. */
  lemma SharedSecretFails(lib: Library, m: KMSMessage, key: PrivateKey)
    ensures (forall jwk :: !OffersPoint(m, jwk)) ==>
              SharedSecret(lib, m, key) == Err("KMS ECDH response missing EC public key")
    ensures forall jwk | OffersPoint(m, jwk) && jwk.crv != "P-256" ::
              SharedSecret(lib, m, key) == Err("unsupported key type/curve: EC/" + jwk.crv)
    ensures forall jwk, point | OffersPoint(m, jwk) && ReadsPoint(lib, jwk, point) && lib.agree(point, key).None? ::
              SharedSecret(lib, m, key) == Err("Error computing shared key.")
  {
    if ServerKey(m).Some? {
      assert OffersPoint(m, ServerKey(m).value);
      assert "unsupported key type/curve: " + "EC" + "/" == "unsupported key type/curve: EC/";
    }
    forall jwk, point | OffersPoint(m, jwk) && ReadsPoint(lib, jwk, point) && lib.agree(point, key).None?
      ensures SharedSecret(lib, m, key) == Err("Error computing shared key.")
    {
      assert Integers.JwkToEcPublicKey(jwk, lib.onCurve) == Ok(point);
    }
  }

  function SecretFromJwes(lib: Library, jwes: seq<string>, key: PrivateKey): Result<Bytes> {
    match EcdhResponse(lib, jwes, key)
    case Err(error) => Err(error)
    case Ok(m) => SharedSecret(lib, m, key)
  }

  function SecretFromPayload(lib: Library, payload: Bytes, key: PrivateKey): Result<Bytes> {
    match lib.parse(payload)
    case NotJson(error) => Err(error)
    case NotObject => Err("ECDH response payload is not an object")
    case Malformed(error) => Err(error)
    case Message(m) => SharedSecret(lib, m, key)
  }
}
