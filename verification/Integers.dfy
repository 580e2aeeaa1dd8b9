/** Big-endian integers (section 2 of RFC 7518) and the fixed-width coordinates of section 6.2.1. */
module Integers {
  import opened Basics
  import opened Base64Url
  import opened Models

  function Pow256(k: nat): (p: nat)
    ensures p > 0
  {
    if k == 0 then 1 else 256 * Pow256(k - 1)
  }

  /** `int.from_bytes(data, "big")` */
  function FromBytes(data: Bytes): nat {
    if |data| == 0 then 0 else FromBytes(data[..|data| - 1]) * 256 + data[|data| - 1]
  }

  /** `n.to_bytes(length, "big")`, which raises when the number does not fit. */
  function ToBytes(n: nat, length: nat): Bytes
    requires n < Pow256(length)
  {
    if length == 0 then [] else ToBytes(n / 256, length - 1) + [n % 256]
  }

  /** `n.bit_length()` */
  function BitLength(n: nat): nat {
    if n == 0 then 0 else 1 + BitLength(n / 2)
  }

  function ByteLength(n: nat): nat {
    var length := (BitLength(n) + 7) / 8;
    if length < 1 then 1 else length
  }

  lemma {:induction false} FromTo(n: nat, length: nat)
    requires n < Pow256(length)
    ensures |ToBytes(n, length)| == length
    ensures FromBytes(ToBytes(n, length)) == n
  {
    if length > 0 {
      FromTo(n / 256, length - 1);
      assert ToBytes(n, length)[..length - 1] == ToBytes(n / 256, length - 1);
    }
  }

  lemma {:induction false} FromBytesBound(data: Bytes)
    ensures FromBytes(data) < Pow256(|data|)
  {
    if |data| > 0 {
      FromBytesBound(data[..|data| - 1]);
    }
  }

  lemma {:induction false} ToFrom(data: Bytes)
    ensures FromBytes(data) < Pow256(|data|)
    ensures ToBytes(FromBytes(data), |data|) == data
  {
    FromBytesBound(data);
    if |data| > 0 {
      ToFrom(data[..|data| - 1]);
      assert data == data[..|data| - 1] + [data[|data| - 1]];
    }
  }

  // ---------------------------------------------------------------- minimal width

  lemma BitLengthByOctets(n: nat)
    ensures n < 256 ==> BitLength(n) <= 8
    ensures n >= 256 ==> BitLength(n) == 8 + BitLength(n / 256)
  {
    Halve(n, 1);
    Halve(n, 2);
    Halve(n, 4);
    Halve(n, 8);
    Halve(n, 16);
    Halve(n, 32);
    Halve(n, 64);
    Halve(n, 128);
  }

  lemma Halve(n: nat, d: nat)
    requires d > 0
    ensures n / d / 2 == n / (2 * d)
    ensures BitLength(n / d) == if n < d then 0 else 1 + BitLength(n / (2 * d))
  {
    var q := n / d;
    HalfQuotient(n, d, q, n % d, q / 2, q % 2);
    if n < d {
      Quotient(n, d, 0, n);
    } else {
      NonZeroQuotient(n, d);
    }
  }

  lemma HalfQuotient(n: nat, d: nat, q: nat, r: nat, h: nat, b: nat)
    requires d > 0 && n == d * q + r && r < d && q == 2 * h + b && b <= 1
    ensures n / (2 * d) == h
  {
    Regroup(d, q, h, b);
    Quotient(n, 2 * d, h, d * b + r);
  }

  lemma NonZeroQuotient(n: nat, d: nat)
    requires 0 < d <= n
    ensures n / d > 0
  {
  }

  lemma Regroup(d: nat, q: nat, h: nat, b: nat)
    requires q == 2 * h + b && b <= 1
    ensures d * q == 2 * d * h + d * b && d * b <= d
  {
    assert d * (2 * h + b) == d * (2 * h) + d * b;
    assert d * (2 * h) == 2 * d * h;
  }

  lemma Quotient(n: nat, d: nat, q: nat, r: nat)
    requires 0 < d && n == d * q + r && r < d
    ensures n / d == q
  {
    var p, s := n / d, n % d;
    if p > q {
      assert d * p == d * q + d * (p - q);
      AtLeastOnce(d, p - q);
    } else if p < q {
      assert d * q == d * p + d * (q - p);
      AtLeastOnce(d, q - p);
    }
  }

  lemma AtLeastOnce(d: nat, k: nat)
    requires k > 0
    ensures d * k >= d
  {
  }

  lemma ByteLengthStep(n: nat)
    ensures n < 256 ==> ByteLength(n) == 1
    ensures n >= 256 ==> ByteLength(n) == 1 + ByteLength(n / 256)
  {
    BitLengthByOctets(n);
    BitLengthByOctets(n / 256);
    assert n / 256 > 0 ==> BitLength(n / 256) > 0;
  }

  lemma {:induction false} ByteLengthFits(n: nat)
    ensures n < Pow256(ByteLength(n))
    ensures n > 0 ==> Pow256(ByteLength(n) - 1) <= n
  {
    ByteLengthStep(n);
    if n >= 256 {
      ByteLengthFits(n / 256);
    } else {
      assert Pow256(1) == 256 * Pow256(0) == 256;
    }
  }

  /** The width chosen for an integer is the least at which it fits, and never zero. */
  lemma ByteLengthMinimal(n: nat, length: nat)
    ensures n < Pow256(length) && length > 0 <==> ByteLength(n) <= length
  {
    ByteLengthFits(n);
    if ByteLength(n) <= length {
      Pow256Monotone(ByteLength(n), length);
    } else if length > 0 {
      Pow256Monotone(length, ByteLength(n) - 1);
    }
  }

  lemma {:induction false} Pow256Monotone(a: nat, b: nat)
    requires a <= b
    ensures Pow256(a) <= Pow256(b)
  {
    if a < b {
      Pow256Monotone(a, b - 1);
    }
  }

  /** `_int_to_b64url` */
  function IntToB64Url(n: nat): string {
    ByteLengthFits(n);
    Encode(ToBytes(n, ByteLength(n)))
  }

  /** How `jwk_to_rsa_public_key` and `jwk_to_ec_public_key` read an integer back. */
  function B64UrlToInt(s: string): Option<nat> {
    match Decode(s)
    case None => None
    case Some(data) => Some(FromBytes(data))
  }

  /**
   The base64url integer of section 2 of RFC 7518: it decodes to the number; its octets have no leading zero except
   that zero is one zero octet; and every other octet string of the same value is longer.
   */
  lemma IntRoundTrip(n: nat)
    ensures B64UrlToInt(IntToB64Url(n)) == Some(n)
    ensures n == 0 ==> Decode(IntToB64Url(n)) == Some([0])
    ensures forall other: Bytes :: other != [] && FromBytes(other) == n && Some(other) != Decode(IntToB64Url(n)) ==>
              |other| > |Decode(IntToB64Url(n)).value|
    ensures n > 0 ==> Decode(IntToB64Url(n)).value[0] != 0
  {
    ByteLengthFits(n);
    var data := ToBytes(n, ByteLength(n));
    FromTo(n, ByteLength(n));
    Base64Url.RoundTrip(data);
    hide Encode, Decode, FromBytes, ToBytes, ByteLength;
    ToBytesShortest(n, data);
  }

  lemma ToBytesShortest(n: nat, data: Bytes)
    requires n < Pow256(ByteLength(n)) && data == ToBytes(n, ByteLength(n))
    requires |data| == ByteLength(n) && FromBytes(data) == n
    ensures n == 0 ==> data == [0]
    ensures n > 0 ==> data[0] != 0
    ensures forall other: Bytes | other != [] && FromBytes(other) == n && other != data :: |other| > |data|
  {
    hide FromBytes, ToBytes, ByteLength, Pow256;
    forall other: Bytes | other != [] && FromBytes(other) == n && other != data
      ensures |other| > |data|
    {
      OthersLonger(n, data, other);
    }
    if n == 0 {
      ZeroOctet();
    } else {
      ByteLengthPositive(n);
      NoLeadingZero(n, data);
    }
  }

  lemma ZeroOctet()
    ensures ByteLength(0) == 1 && 0 < Pow256(1) && ToBytes(0, 1) == [0]
  {
    assert ToBytes(0, 1) == ToBytes(0, 0) + [0] == [0];
  }

  lemma ByteLengthPositive(n: nat)
    ensures ByteLength(n) > 0
  {
  }

  lemma OthersLonger(n: nat, data: Bytes, other: Bytes)
    requires |data| == ByteLength(n) && FromBytes(data) == n
    requires other != [] && FromBytes(other) == n && other != data
    ensures |other| > |data|
  {
    hide FromBytes, ToBytes, ByteLength, Pow256;
    FromBytesBound(other);
    ByteLengthMinimal(n, |other|);
    if |other| == |data| {
      ToFrom(other);
      ToFrom(data);
    }
  }

  lemma NoLeadingZero(n: nat, data: Bytes)
    requires n > 0 && data != [] && FromBytes(data) == n && |data| == ByteLength(n)
    ensures data[0] != 0
  {
    hide FromBytes, ByteLength, Pow256;
    ByteLengthFits(n);
    if data[0] == 0 {
      DropZeros(1, data);
      FromBytesBound(data[1..]);
    }
  }

  // ---------------------------------------------------------------- fixed width

  function Zeros(k: nat): (z: Bytes)
    ensures |z| == k && forall i | 0 <= i < k :: z[i] == 0
  {
    if k == 0 then [] else Zeros(k - 1) + [0]
  }

  /** `_pad_to_32` */
  function PadTo32(data: Bytes): Bytes {
    if |data| >= 32 then data[|data| - 32..] else Zeros(32 - |data|) + data
  }

  lemma {:induction false} DropZeros(k: nat, data: Bytes)
    requires k <= |data| && forall i | 0 <= i < k :: data[i] == 0
    ensures FromBytes(data[k..]) == FromBytes(data)
  {
    if |data| > k {
      DropZeros(k, data[..|data| - 1]);
      assert data[k..][..|data| - k - 1] == data[..|data| - 1][k..];
    } else {
      AllZeros(data);
    }
  }

  lemma {:induction false} AllZeros(data: Bytes)
    requires forall i | 0 <= i < |data| :: data[i] == 0
    ensures FromBytes(data) == 0
  {
    if |data| > 0 {
      AllZeros(data[..|data| - 1]);
    }
  }

  lemma {:induction false} FromBytesAppend(a: Bytes, b: Bytes)
    ensures FromBytes(a + b) == FromBytes(a) * Pow256(|b|) + FromBytes(b)
  {
    if |b| == 0 {
      assert a + b == a;
    } else {
      var front, last := b[..|b| - 1], b[|b| - 1];
      assert (a + b)[..|a + b| - 1] == a + front;
      FromBytesAppend(a, front);
      Distribute(FromBytes(a), Pow256(|front|), FromBytes(front), last);
    }
  }

  lemma Distribute(x: nat, p: nat, y: nat, last: nat)
    ensures (x * p + y) * 256 + last == x * (256 * p) + (y * 256 + last)
  {
  }

  lemma ModSplit(x: nat, p: nat, y: nat)
    requires y < p
    ensures (x * p + y) % p == y
  {
    Quotient(x * p + y, p, x, y);
  }

  /** Padding yields exactly 32 octets and keeps the value modulo 2 to the 256. */
  lemma PadKeepsValue(data: Bytes)
    ensures |PadTo32(data)| == 32
    ensures FromBytes(PadTo32(data)) == FromBytes(data) % Pow256(32)
    ensures |data| == 32 ==> PadTo32(data) == data
  {
    hide FromBytes, Pow256;
    if |data| >= 32 {
      var low := data[|data| - 32..];
      assert data == data[..|data| - 32] + low;
      FromBytesAppend(data[..|data| - 32], low);
      FromBytesBound(low);
      ModSplit(FromBytes(data[..|data| - 32]), Pow256(32), FromBytes(low));
    } else {
      var padded := PadTo32(data);
      assert padded[32 - |data|..] == data;
      DropZeros(32 - |data|, padded);
      FromBytesBound(padded);
      ModSplit(0, Pow256(32), FromBytes(data));
    }
  }

  /** The order of the coordinate field of P-256. */
  const P256_PRIME: nat := 0xffffffff_00000001_00000000_00000000_00000000_ffffffff_ffffffff_ffffffff

  type Coordinate = c: nat | c < P256_PRIME

  datatype PublicKey = PublicKey(x: Coordinate, y: Coordinate)

  lemma CoordinateFits()
    ensures P256_PRIME < Pow256(32)
  {
    FourOctets();
    hide Pow256;
    Pow256Sum(4, 4);
    Pow256Sum(8, 8);
    Pow256Sum(16, 16);
    assert Pow256(8) == 0x1_00000000_00000000;
    assert Pow256(16) == 0x1_00000000_00000000_00000000_00000000;
  }

  lemma FourOctets()
    ensures Pow256(4) == 0x1_0000_0000
  {
    assert Pow256(1) == 256 && Pow256(2) == 65536 && Pow256(3) == 0x1_000000;
  }

  lemma {:induction false} Pow256Sum(a: nat, b: nat)
    ensures Pow256(a + b) == Pow256(a) * Pow256(b)
  {
    if b > 0 {
      Pow256Sum(a, b - 1);
      Distribute(Pow256(a), Pow256(b - 1), 0, 0);
    }
  }

  /** The prime is 2^256 - 2^224 + 2^192 + 2^96 - 1. */
  lemma PrimeOfP256()
    ensures P256_PRIME == Pow256(32) - Pow256(28) + Pow256(24) + Pow256(12) - 1
  {
    FourOctets();
    hide Pow256;
    Pow256Sum(4, 4);
    Pow256Sum(8, 4);
    Pow256Sum(12, 12);
    Pow256Sum(24, 4);
    Pow256Sum(28, 4);
    assert Pow256(8) == 0x1_00000000_00000000;
    assert Pow256(12) == 0x1_00000000_00000000_00000000;
    assert Pow256(24) == 0x1_00000000_00000000_00000000_00000000_00000000_00000000;
    assert Pow256(28) == 0x1_00000000_00000000_00000000_00000000_00000000_00000000_00000000;
    assert Pow256(32) == 0x1_00000000_00000000_00000000_00000000_00000000_00000000_00000000_00000000;
  }

  function EncodeCoordinate(c: Coordinate): string {
    CoordinateFits();
    Encode(PadTo32(ToBytes(c, 32)))
  }

  /** `ec_public_key_to_jwk` */
  function EcPublicKeyToJwk(key: PublicKey): JWK {
    JWK("EC", "", "P-256", EncodeCoordinate(key.x), EncodeCoordinate(key.y), "")
  }

  /**
   `jwk_to_ec_public_key`. The last step, which refuses a point off the curve, is the library's; `onCurve` stands
   for its answer.
   */
  function JwkToEcPublicKey(jwk: JWK, onCurve: (nat, nat) -> bool): Result<PublicKey> {
    if jwk.kty != "EC" || jwk.crv != "P-256" then Err("unsupported key type/curve: " + jwk.kty + "/" + jwk.crv)
    else
      match (B64UrlToInt(jwk.x), B64UrlToInt(jwk.y))
      case (Some(x), Some(y)) =>
        if x < P256_PRIME && y < P256_PRIME && onCurve(x, y) then Ok(PublicKey(x, y))
        else Err("Invalid EC key.")
      case _ => Err("Incorrect padding")
  }

  /** A coordinate always takes 32 octets, 43 symbols, and is read back unchanged. */
  lemma CoordinateRoundTrip(c: Coordinate)
    ensures B64UrlToInt(EncodeCoordinate(c)) == Some(c)
    ensures |EncodeCoordinate(c)| == 43
    ensures Decode(EncodeCoordinate(c)).Some? && |Decode(EncodeCoordinate(c)).value| == 32
  {
    CoordinateFits();
    FromTo(c, 32);
    PadKeepsValue(ToBytes(c, 32));
    Base64Url.RoundTrip(ToBytes(c, 32));
    EncodeShape(ToBytes(c, 32));
  }

  /** Section 6.2.1 of RFC 7518: a public key survives the trip through its JWK. */
  lemma PublicKeyRoundTrip(key: PublicKey, onCurve: (nat, nat) -> bool)
    ensures JwkToEcPublicKey(EcPublicKeyToJwk(key), onCurve) ==
            if onCurve(key.x, key.y) then Ok(key) else Err("Invalid EC key.")
    ensures |EcPublicKeyToJwk(key).x| == |EcPublicKeyToJwk(key).y| == 43
    ensures EcPublicKeyToJwk(key).k == EcPublicKeyToJwk(key).kid == ""
  {
    CoordinateRoundTrip(key.x);
    CoordinateRoundTrip(key.y);
  }
}
