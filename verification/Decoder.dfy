/**
 How one raw Mercury message becomes a plaintext: the plaintext envelope, the encrypted compact form (section 7.1 of
 RFC 7516) and bare JSON. The libraries the SDK calls are a parameter; results hold for every value of it.
 */
module Decoder {
  import opened Basics
  import opened Text
  import opened Models
  import Base64Url
  import Integers

  /** A client key pair, by identity. */
  type PrivateKey = nat

  /** The calls into other libraries; `None` stands for an exception. */
  datatype Library = Library(
    unwrap: (string, Bytes) -> Option<Bytes>,
    decryptEcdh: (string, PrivateKey) -> Option<Bytes>,
    agree: (Integers.PublicKey, PrivateKey) -> Option<Bytes>,
    onCurve: (nat, nat) -> bool,
    parse: Bytes -> Parsed,
    fromUtf8: Bytes -> string,
    toUtf8: string -> Bytes,
    show: Status -> string)

  /** What is true of UTF-8 on ASCII: each octet is its character. */
  ghost predicate AsciiTransparent(lib: Library) {
    && (forall s: string | Base64Url.IsAscii(s) :: lib.fromUtf8(AsciiBytes(s)) == s)
    && (forall s: string | Base64Url.IsAscii(s) :: lib.toUtf8(s) == AsciiBytes(s))
  }

  /** What is true of UTF-8 on every text: it is read back, and no text has more characters than octets. */
  ghost predicate Utf8Faithful(lib: Library) {
    && (forall s :: lib.fromUtf8(lib.toUtf8(s)) == s)
    && (forall data :: |lib.fromUtf8(data)| <= |data|)
  }

  const LEFT_BRACE: byte := 0x7b
  const RIGHT_BRACE: byte := 0x7d

  predicate StartsWithBrace(data: Bytes) {
    |data| > 0 && data[0] == LEFT_BRACE
  }

  /** The octets between the first two dots, decoded; nothing when they are not base64url. */
  function MiddlePayload(raw: string): Bytes {
    match Base64Url.Decode(Before(After(raw, '.'), '.')) case None => [] case Some(data) => data
  }

  datatype Opened = Plain(data: Bytes) | Sealed(text: string)

  /** The envelope step: with exactly two dots, the middle part may hold a JSON payload or another message. */
  function Open(lib: Library, raw: string): Opened {
    if Count(raw, '.') != 2 then Sealed(raw)
    else
      var payload := MiddlePayload(raw);
      if StartsWithBrace(payload) then Plain(payload)
      else if payload != [] then Sealed(lib.fromUtf8(payload))
      else Sealed(raw)
  }

  /** The first of the keys that decrypts the message. */
  function FirstDecrypt(lib: Library, text: string, keys: seq<PrivateKey>): Option<Bytes> {
    if keys == [] then None
    else
      match lib.decryptEcdh(text, keys[0])
      case Some(data) => Some(data)
      case None => FirstDecrypt(lib, text, keys[1..])
  }

  /** The active session is tried first, then the keys of the pending exchanges. */
  function Decrypt(lib: Library, secret: Option<Bytes>, keys: seq<PrivateKey>, text: string): Option<Bytes> {
    if Count(text, '.') != 4 then None
    else if secret.Some? && lib.unwrap(text, secret.value).Some? then lib.unwrap(text, secret.value)
    else FirstDecrypt(lib, text, keys)
  }

  /** A sealed text is decrypted, or, failing that, taken as JSON when it starts with a brace. */
  function Unseal(lib: Library, secret: Option<Bytes>, keys: seq<PrivateKey>, text: string): Option<Bytes> {
    match Decrypt(lib, secret, keys, text)
    case Some(data) => Some(data)
    case None => if "{" <= text then Some(lib.toUtf8(text)) else None
  }

  /** The plaintext of one raw message, or `None` when the batch loop skips it as undecryptable. */
  function Recover(lib: Library, secret: Option<Bytes>, keys: seq<PrivateKey>, raw: string): Option<Bytes> {
    match Open(lib, raw)
    case Plain(data) => Some(data)
    case Sealed(text) => Unseal(lib, secret, keys, text)
  }

  // ---------------------------------------------------------------- envelopes

  /** A three-part compact serialization (section 7.1 of RFC 7515) with the given payload. */
  function Envelope(header: string, payload: Bytes, signature: string): string {
    header + ['.'] + (Base64Url.Encode(payload) + ['.'] + signature)
  }

  lemma OpenEnvelope(lib: Library, header: string, payload: Bytes, signature: string)
    requires '.' !in header && '.' !in signature
    ensures Count(Envelope(header, payload, signature), '.') == 2
    ensures payload != [] ==>
              Open(lib, Envelope(header, payload, signature)) ==
              if StartsWithBrace(payload) then Plain(payload) else Sealed(lib.fromUtf8(payload))
  {
    var middle := Base64Url.Encode(payload);
    Base64Url.EncodeShape(payload);
    Base64Url.AlphabetIsAscii(middle);
    Base64Url.RoundTrip(payload);
    var rest := middle + ['.'] + signature;
    SplitAt(header, '.', rest);
    SplitAt(middle, '.', signature);
    CountZero(header, '.');
    CountZero(middle, '.');
    CountZero(signature, '.');
    CountAppend(middle, ['.'], '.');
    CountAppend(middle + ['.'], signature, '.');
    CountAppend(header, ['.'], '.');
    CountAppend(header + ['.'], rest, '.');
  }

  /** An envelope around JSON text that starts with a brace decodes to that text, whatever keys are at hand. */
  lemma EnvelopeOfJson(lib: Library, secret: Option<Bytes>, keys: seq<PrivateKey>, header: string, payload: Bytes,
                       signature: string)
    requires '.' !in header && '.' !in signature
    requires StartsWithBrace(payload)
    ensures Recover(lib, secret, keys, Envelope(header, payload, signature)) == Some(payload)
  {
    OpenEnvelope(lib, header, payload, signature);
  }

  /**
   An envelope around an ASCII message, such as an encrypted compact serialization, has the outcome of the bare
   message, except that an envelope inside an envelope stays closed.
   */
  lemma EnvelopeOfMessage(lib: Library, secret: Option<Bytes>, keys: seq<PrivateKey>, header: string, text: string,
                          signature: string)
    requires AsciiTransparent(lib)
    requires '.' !in header && '.' !in signature
    requires Base64Url.IsAscii(text) && text != "" && !("{" <= text)
    ensures Recover(lib, secret, keys, Envelope(header, AsciiBytes(text), signature)) == Unseal(lib, secret, keys, text)
    ensures Count(text, '.') != 2 ==>
              var wrapped := Envelope(header, AsciiBytes(text), signature);
              Recover(lib, secret, keys, wrapped) == Recover(lib, secret, keys, text)
  {
    OpenEnvelope(lib, header, AsciiBytes(text), signature);
    assert AsciiBytes(text)[0] == text[0] as int;
    assert text[0] != '{';
  }

  /**
   Raw JSON passes for what it is, by the number of its dots: always with neither two nor four; with four, unless it
   decrypts to something else; with two, exactly when its middle part decodes to nothing, or to a message whose
   decryption happens to be the raw text itself.
   */
  ghost predicate FaceValue(lib: Library, secret: Option<Bytes>, keys: seq<PrivateKey>, raw: string) {
    var dots, payload := Count(raw, '.'), MiddlePayload(raw);
    if dots == 4 then
      Decrypt(lib, secret, keys, raw).None? || Decrypt(lib, secret, keys, raw) == Some(lib.toUtf8(raw))
    else if dots == 2 then
      payload == [] || (!StartsWithBrace(payload)
                        && Decrypt(lib, secret, keys, lib.fromUtf8(payload)) == Some(lib.toUtf8(raw)))
    else true
  }

  /** Where raw JSON does not pass for what it is, it is mistaken for an envelope and its own text is lost. */
  lemma RawJson(lib: Library, secret: Option<Bytes>, keys: seq<PrivateKey>, raw: string)
    requires Utf8Faithful(lib)
    requires "{" <= raw
    ensures Recover(lib, secret, keys, raw) == Some(lib.toUtf8(raw)) <==> FaceValue(lib, secret, keys, raw)
  {
    MiddleIsShorter(raw);
    ShorterDiffers(lib, raw, MiddlePayload(raw));
    RawJsonCases(lib, secret, keys, raw);
  }

  lemma RawJsonCases(lib: Library, secret: Option<Bytes>, keys: seq<PrivateKey>, raw: string)
    requires "{" <= raw
    requires MiddlePayload(raw) != lib.toUtf8(raw) && lib.toUtf8(lib.fromUtf8(MiddlePayload(raw))) != lib.toUtf8(raw)
    ensures Recover(lib, secret, keys, raw) == Some(lib.toUtf8(raw)) <==> FaceValue(lib, secret, keys, raw)
  {
    hide Count, MiddlePayload, FirstDecrypt;
  }

  lemma ShorterDiffers(lib: Library, raw: string, payload: Bytes)
    requires Utf8Faithful(lib) && |payload| < |raw|
    ensures payload != lib.toUtf8(raw)
    ensures lib.toUtf8(lib.fromUtf8(payload)) != lib.toUtf8(raw)
  {
    var text := lib.fromUtf8(payload);
    assert lib.fromUtf8(lib.toUtf8(raw)) == raw;
    assert lib.fromUtf8(lib.toUtf8(text)) == text && |text| <= |payload|;
  }

  /** A JSON text that is mistaken for an envelope, whatever the libraries and keys: it comes out as "{}". */
  lemma RawJsonMistaken(lib: Library, secret: Option<Bytes>, keys: seq<PrivateKey>)
    ensures Recover(lib, secret, keys, "{\"method\":\"x.e30.x\"}") == Some([LEFT_BRACE, RIGHT_BRACE])
  {
    var payload: Bytes := [LEFT_BRACE, RIGHT_BRACE];
    assert Base64Url.Encode(payload) == "e30" by {
      Base64Url.EncodeUnfold(payload);
    }
    assert "{\"method\":\"x.e30.x\"}" == Envelope("{\"method\":\"x", payload, "x\"}");
    EnvelopeOfJson(lib, secret, keys, "{\"method\":\"x", payload, "x\"}");
  }

  /** With two dots and a middle part that is not base64url, or empty, the text is only what it is itself. */
  lemma UndecodableMiddle(lib: Library, secret: Option<Bytes>, keys: seq<PrivateKey>, a: string, b: string, c: string)
    requires '.' !in a && '.' !in b && '.' !in c
    requires Base64Url.Decode(b) == None || Base64Url.Decode(b) == Some([])
    ensures var raw := a + ['.'] + (b + ['.'] + c);
            Recover(lib, secret, keys, raw) == if "{" <= raw then Some(lib.toUtf8(raw)) else None
  {
    var rest := b + ['.'] + c;
    SplitAt(a, '.', rest);
    SplitAt(b, '.', c);
    CountZero(a, '.');
    CountZero(b, '.');
    CountZero(c, '.');
    CountAppend(b, ['.'], '.');
    CountAppend(b + ['.'], c, '.');
    CountAppend(a, ['.'], '.');
    CountAppend(a + ['.'], rest, '.');
  }

  lemma MiddleIsShorter(raw: string)
    ensures raw != "" ==> |MiddlePayload(raw)| < |raw|
  {
    Base64Url.DecodeShrinks(Before(After(raw, '.'), '.'));
  }
}
