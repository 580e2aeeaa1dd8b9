/** The data the KMS protocol exchanges. */
module Models {
  import opened Basics

  /** A JSON Web Key, with the members the protocol reads; an absent member is the empty string. */
  datatype JWK = JWK(kty: string, k: string, crv: string, x: string, y: string, kid: string)

  datatype Key = Key(uri: string, jwk: JWK)

  /** A JSON status: a string, an integer (a boolean counts as one), a finite float, or anything else. */
  datatype Status = Text(text: string) | Whole(code: int) | Fraction(value: real) | Unusable

  datatype KMSMessage =
    KMSMessage(requestId: string, status: Status, key: Option<Key>, keys: seq<Key>, jwk: Option<JWK>)
  {
    predicate IsSuccess() {
      match status
      case Text(t) => t in {"success", "200", "201"}
      case Whole(n) => n in {200, 201}
      case Fraction(f) => Truncate(f) in {200, 201}
      case Unusable => false
    }

    /** The key a retrieve reply is read for: the single key if there is one, else the first of the list. */
    function FirstKey(): Option<Key> {
      if key.Some? then key
      else if |keys| > 0 then Some(keys[0])
      else None
    }

    /** The keys the batch handler offers to the cache, in order. */
    function AllKeys(): seq<Key> {
      (if key.Some? then [key.value] else []) + keys
    }
  }

  /** Python's `int` of a float: the fraction is dropped, whatever the sign. */
  function Truncate(f: real): int {
    if f >= 0.0 then f.Floor else -((-f).Floor)
  }

  /**
   What `json.loads` followed by `KMSMessage.from_dict` makes of a plaintext. `Malformed` stands for every exception but
   `JSONDecodeError`: octets that are not UTF-8, or members of a wrong type.
   */
  datatype Parsed = NotJson(error: string) | NotObject | Malformed(error: string) | Message(message: KMSMessage)

  /**
   `is_success` by value: the numbers 200 and 201 in any of their JSON spellings, floats up to but not including 202,
   and the word "success".
   */
  lemma SuccessIff(m: KMSMessage)
    ensures m.IsSuccess() <==>
            match m.status
            case Text(t) => t == "success" || t == "200" || t == "201"
            case Whole(n) => 200 <= n <= 201
            case Fraction(f) => 200.0 <= f < 202.0
            case Unusable => false
  {
    if m.status.Fraction? {
      var f := m.status.value;
      if f >= 0.0 {
        assert f.Floor as real <= f < f.Floor as real + 1.0;
      } else {
        assert Truncate(f) <= 0;
      }
    }
  }
}
