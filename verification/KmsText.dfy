/** KMS URIs, Webex identifiers, and the classification of failures by their message. */
module KmsText {
  import opened Basics
  import opened Text
  import Base64Url

  const KMS_URI_PREFIX := "kms://"

  /** `parse_kms_uri` */
  function ParseKmsUri(uri: string): Result<(string, string)> {
    if !(KMS_URI_PREFIX <= uri) then Err("invalid KMS URI format (missing prefix): " + uri)
    else
      var rest := uri[|KMS_URI_PREFIX|..];
      if '/' !in rest || Before(rest, '/') == "" || After(rest, '/') == "" then
        Err("invalid KMS URI format (invalid structure): " + uri)
      else Ok((Before(rest, '/'), After(rest, '/')))
  }

  /** The accepted URIs are exactly `kms://domain/path` with both parts non-empty, cut at the first slash. */
  lemma ParseKmsUriIff(uri: string, domain: string, path: string)
    ensures ParseKmsUri(uri) == Ok((domain, path)) <==>
            uri == KMS_URI_PREFIX + (domain + ['/'] + path) && domain != "" && '/' !in domain && path != ""
  {
    if ParseKmsUri(uri) == Ok((domain, path)) {
      ParsedIsJoined(uri, domain, path);
    }
    if uri == KMS_URI_PREFIX + (domain + ['/'] + path) && '/' !in domain {
      assert uri[|KMS_URI_PREFIX|..] == domain + ['/'] + path;
      SplitAt(domain, '/', path);
    }
  }

  lemma ParsedIsJoined(uri: string, domain: string, path: string)
    requires ParseKmsUri(uri) == Ok((domain, path))
    ensures uri == KMS_URI_PREFIX + (domain + ['/'] + path)
  {
    var rest := uri[|KMS_URI_PREFIX|..];
    assert rest == Before(rest, '/') + ['/'] + After(rest, '/');
    assert uri == KMS_URI_PREFIX + rest;
  }

  // ---------------------------------------------------------------- session errors

  const SESSION_MARKERS: seq<string> := ["status 400", "status 403", "error decrypting", "failed with status"]

  /** `_is_ecdh_session_error` */
  predicate IsSessionError(message: string) {
    exists m | m in SESSION_MARKERS :: Contains(message, m)
  }

  /** The four session markers, word for word. */
  lemma SessionErrorIff(message: string)
    ensures IsSessionError(message) <==>
            || Contains(message, "status 400") || Contains(message, "status 403")
            || Contains(message, "error decrypting") || Contains(message, "failed with status")
  {
    hide Contains;
    assert SESSION_MARKERS[0] == "status 400" && SESSION_MARKERS[1] == "status 403";
    assert SESSION_MARKERS[2] == "error decrypting" && SESSION_MARKERS[3] == "failed with status";
  }

  /** A reply of the messages endpoint with any status but 200 and 202. */
  function HttpFailure(status: int, text: string): string {
    "KMS request " + "failed with status" + (" " + Decimal(status) + ": " + text)
  }

  /** A decrypted KMS reply whose status is no success; `shown` is how the status prints. */
  function KmsFailure(shown: string): string {
    "KMS request " + "failed with status" + (": " + shown)
  }

  const NO_KEY_IN_JWES := "no key found in KMS response JWEs"
  const NO_KEY := "no key found in KMS response"
  const NOT_AN_OBJECT := "KMS response payload is not an object"

  /** `str(TimeoutError())` */
  const TIMEOUT := ""

  /** What a failed second attempt raises. */
  function RetryFailure(second: string, first: string): string {
    "retry KMS retrieve failed: " + second + " (original: " + first + ")"
  }

  /** Every refusal, by HTTP status or by KMS status, counts against the session, whatever the code and text. */
  lemma RefusalIsSessionError(status: int, text: string, shown: string)
    ensures IsSessionError(HttpFailure(status, text))
    ensures IsSessionError(KmsFailure(shown))
  {
    MarkedIsSessionError("KMS request ", " " + Decimal(status) + ": " + text);
    MarkedIsSessionError("KMS request ", ": " + shown);
  }

  lemma MarkedIsSessionError(a: string, b: string)
    ensures IsSessionError(a + "failed with status" + b)
  {
    ContainsAt(a, "failed with status", b);
    assert SESSION_MARKERS[3] == "failed with status";
  }

  /** No failure from silence, or from a reply that is no object or carries no key, counts against the session. */
  lemma SilenceIsNoSessionError()
    ensures !IsSessionError(TIMEOUT)
    ensures !IsSessionError(NO_KEY_IN_JWES)
    ensures !IsSessionError(NO_KEY)
    ensures !IsSessionError(NOT_AN_OBJECT)
  {
    WithoutT(TIMEOUT);
    WithoutT(NO_KEY_IN_JWES);
    WithoutT(NO_KEY);
    hide IsSessionError;
    NotAnObjectIsUnmarked();
  }

  lemma NotAnObjectIsUnmarked()
    ensures !IsSessionError(NOT_AN_OBJECT)
  {
    hide IsSessionError, Contains, NOT_AN_OBJECT;
    NotAnObjectLacks('u');
    NotAnObjectLacks('g');
    NotAnObjectLacks('w');
    WithoutUGW(NOT_AN_OBJECT);
  }

  lemma NotAnObjectLacks(c: char)
    requires c in {'g', 'u', 'w'}
    ensures c !in NOT_AN_OBJECT
  {
  }

  lemma WithoutUGW(message: string)
    requires 'u' !in message && 'g' !in message && 'w' !in message
    ensures !IsSessionError(message)
  {
    assert "status 400"[4] == "status 403"[4] == 'u' && "error decrypting"[15] == 'g' && "failed with status"[7] == 'w';
    Unmarked(message, 4, 15, 7);
  }

  lemma WithoutT(message: string)
    requires 't' !in message
    ensures !IsSessionError(message)
  {
    assert "status 400"[1] == "status 403"[1] == "error decrypting"[12] == "failed with status"[15] == 't';
    Unmarked(message, 1, 12, 15);
  }

  /** A message lacking a character of each marker is no session error. */
  lemma Unmarked(message: string, i: nat, j: nat, k: nat)
    requires i < 10 && j < 16 && k < 18
    requires "status 400"[i] !in message && "status 403"[i] !in message
    requires "error decrypting"[j] !in message && "failed with status"[k] !in message
    ensures !IsSessionError(message)
  {
    LacksCharacter(message, "status 400", i);
    LacksCharacter(message, "status 403", i);
    LacksCharacter(message, "error decrypting", j);
    LacksCharacter(message, "failed with status", k);
  }

  // ---------------------------------------------------------------- Webex identifiers

  predicate IsHex(c: char) {
    '0' <= c <= '9' || 'a' <= c <= 'f' || 'A' <= c <= 'F'
  }

  predicate IsUuid(s: string) {
    |s| == 36 && forall i | 0 <= i < 36 :: if i in {8, 13, 18, 23} then s[i] == '-' else IsHex(s[i])
  }

  /** What the pattern accepts: its final `$` also matches before a newline that ends the text. */
  predicate MatchesUuid(s: string) {
    IsUuid(s) || (|s| == 37 && s[36] == '\n' && IsUuid(s[..36]))
  }

  predicate AllHex(s: string) {
    forall i | 0 <= i < |s| :: s[i] in "0123456789abcdefABCDEF"
  }

  /** Five groups of hexadecimal digits, of 8, 4, 4, 4 and 12 digits; the pattern allows a newline after them. */
  lemma UuidIff(s: string)
    ensures IsUuid(s) <==>
            && |s| == 36 && s[8] == s[13] == s[18] == s[23] == '-'
            && AllHex(s[..8]) && AllHex(s[9..13]) && AllHex(s[14..18]) && AllHex(s[19..23]) && AllHex(s[24..])
    ensures MatchesUuid(s) <==> IsUuid(s) || exists uuid :: IsUuid(uuid) && s == uuid + "\n"
  {
    if MatchesUuid(s) && !IsUuid(s) {
      assert s == s[..36] + "\n";
    }
    if uuid :| IsUuid(uuid) && s == uuid + "\n" {
      assert s[..36] == uuid;
    }
    HexDigits();
    if |s| == 36 {
      assert forall i | 0 <= i < 8 :: s[..8][i] == s[i];
      assert forall i | 9 <= i < 13 :: s[9..13][i - 9] == s[i];
      assert forall i | 14 <= i < 18 :: s[14..18][i - 14] == s[i];
      assert forall i | 19 <= i < 23 :: s[19..23][i - 19] == s[i];
      assert forall i | 24 <= i < 36 :: s[24..][i - 24] == s[i];
    }
  }

  lemma HexDigits()
    ensures forall c: char :: c in "0123456789abcdefABCDEF" <==> IsHex(c)
  {
    var digits := "0123456789abcdefABCDEF";
    forall c: char | IsHex(c) ensures c in digits {
      var i := if c <= '9' then c as int - '0' as int else if c <= 'F' then c as int - 'A' as int + 16
               else c as int - 'a' as int + 10;
      assert digits[i] == c;
    }
  }

  /** The text after the last slash: `decoded.rsplit("/", 1)[-1]`. */
  function AfterLastSlash(s: string): string
    decreases |s|
  {
    if '/' in s then AfterLastSlash(After(s, '/')) else s
  }

  /** `decode_webex_id`; `utf8` is the strict decoder, `None` where it raises. */
  function DecodeWebexId(value: string, utf8: Bytes -> Option<string>): string {
    if MatchesUuid(value) then value
    else
      match Base64Url.Decode(value)
      case None => value
      case Some(data) =>
        match utf8(data)
        case None => value
        case Some(decoded) =>
          var candidate := AfterLastSlash(decoded);
          if MatchesUuid(candidate) then candidate else value
  }

  lemma {:induction false} AfterLastSlashOf(a: string, b: string)
    requires '/' !in b
    ensures AfterLastSlash(a + "/" + b) == b
    decreases |a|
  {
    hide IndexOf;
    var s := a + "/" + b;
    assert s[|a|] == '/';
    if '/' in a {
      SplitAt(Before(a, '/'), '/', After(a, '/'));
      var rest := After(a, '/');
      assert a == Before(a, '/') + ['/'] + rest;
      assert s == Before(a, '/') + ['/'] + (rest + "/" + b);
      SplitAt(Before(a, '/'), '/', rest + "/" + b);
      AfterLastSlashOf(rest, b);
    } else {
      SplitAt(a, '/', b);
    }
  }

  /** Decoding twice is decoding once, and a changed value is always a UUID. */
  lemma DecodeWebexIdIdempotent(value: string, utf8: Bytes -> Option<string>)
    ensures DecodeWebexId(DecodeWebexId(value, utf8), utf8) == DecodeWebexId(value, utf8)
    ensures DecodeWebexId(value, utf8) != value ==> MatchesUuid(DecodeWebexId(value, utf8))
  {
    assert MatchesUuid(DecodeWebexId(value, utf8)) || DecodeWebexId(value, utf8) == value;
  }

  /** The base64url form of a resource name ending in a slash and a UUID decodes to that UUID. */
  lemma DecodeWebexIdOfName(name: string, uuid: string, utf8: Bytes -> Option<string>)
    requires MatchesUuid(uuid) && Base64Url.IsAscii(name + "/" + uuid)
    requires utf8(AsciiBytes(name + "/" + uuid)) == Some(name + "/" + uuid)
    ensures DecodeWebexId(Base64Url.Encode(AsciiBytes(name + "/" + uuid)), utf8) == uuid
  {
    hide AfterLastSlash, Base64Url.Decode, Base64Url.Encode;
    var data := AsciiBytes(name + "/" + uuid);
    Base64Url.RoundTrip(data);
    Base64Url.EncodeShape(data);
    assert forall i | 0 <= i < |uuid| :: uuid[i] != '/' by {
      assert forall i | 0 <= i < 36 :: uuid[..36][i] == uuid[i];
    }
    AfterLastSlashOf(name, uuid);
  }
}
