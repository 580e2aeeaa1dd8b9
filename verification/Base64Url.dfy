/**
 The base64url codec of sections 4 and 5 of RFC 4648, as the SDK uses it: encoding drops the padding, decoding
 puts it back. Decoding follows the lenient decoder of Python's standard library, which skips characters outside
 the alphabet, takes both spellings of the last two symbols, and stops at a complete run of padding.
 */
module Base64Url {
  import opened Basics

  type Sextet = v: int | 0 <= v < 64

  function Symbol(v: Sextet): char {
    if v < 26 then ('A' as int + v) as char
    else if v < 52 then ('a' as int + v - 26) as char
    else if v < 62 then ('0' as int + v - 52) as char
    else if v == 62 then '-'
    else '_'
  }

  function Value(c: char): Option<Sextet> {
    if 'A' <= c <= 'Z' then Some(c as int - 'A' as int)
    else if 'a' <= c <= 'z' then Some(c as int - 'a' as int + 26)
    else if '0' <= c <= '9' then Some(c as int - '0' as int + 52)
    else if c == '-' || c == '+' then Some(62)
    else if c == '_' || c == '/' then Some(63)
    else None
  }

  /** The symbols of the first group: four for three octets, fewer for the one or two octets left at the end. */
  function Group(data: Bytes): string
    requires 0 < |data|
  {
    if |data| == 1 then [Symbol(data[0] / 4), Symbol(data[0] % 4 * 16)]
    else if |data| == 2 then
      [Symbol(data[0] / 4), Symbol(data[0] % 4 * 16 + data[1] / 16), Symbol(data[1] % 16 * 4)]
    else
      [Symbol(data[0] / 4), Symbol(data[0] % 4 * 16 + data[1] / 16),
       Symbol(data[1] % 16 * 4 + data[2] / 64), Symbol(data[2] % 64)]
  }

  /** `urlsafe_b64encode` */
  function EncodePadded(data: Bytes): string {
    if |data| == 0 then ""
    else if |data| < 3 then Group(data) + Padding(3 - |data|)
    else Group(data) + EncodePadded(data[3..])
  }

  function Padding(n: nat): (p: string)
    ensures |p| == n
    ensures forall i | 0 <= i < n :: p[i] == '='
  {
    if n == 0 then "" else Padding(n - 1) + "="
  }

  /** `rstrip("=")` */
  function StripPadding(s: string): string {
    if |s| > 0 && s[|s| - 1] == '=' then StripPadding(s[..|s| - 1]) else s
  }

  /** `_b64url_encode` */
  function Encode(data: Bytes): string {
    StripPadding(EncodePadded(data))
  }

  /** The decoder's loop: `quad` symbols of the current group are read, `left` holds the bits not yet emitted. */
  function Scan(s: string, quad: nat, left: nat, pads: nat): Option<Bytes>
    requires quad < 4
    requires left < (if quad == 0 then 1 else if quad == 1 then 64 else if quad == 2 then 16 else 4)
  {
    if s == "" then
      if quad == 0 then Some([]) else None
    else if s[0] == '=' then
      if quad >= 2 && quad + pads + 1 >= 4 then Some([])
      else Scan(s[1..], quad, left, if quad >= 2 then pads + 1 else pads)
    else
      match Value(s[0])
      case None => Scan(s[1..], quad, left, pads)
      case Some(v) =>
        if quad == 0 then Scan(s[1..], 1, v, 0)
        else if quad == 1 then Emit(left * 4 + v / 16, Scan(s[1..], 2, v % 16, 0))
        else if quad == 2 then Emit(left * 16 + v / 4, Scan(s[1..], 3, v % 4, 0))
        else Emit(left * 64 + v, Scan(s[1..], 0, 0, 0))
  }

  function Emit(b: byte, rest: Option<Bytes>): Option<Bytes> {
    if rest.None? then None else Some([b] + rest.value)
  }

  predicate IsAscii(s: string) {
    forall i | 0 <= i < |s| :: s[i] < 128 as char
  }

  /** The number of padding characters that completes a group of four: Python's `-len(value) % 4`. */
  function PadCount(length: nat): nat {
    (4 - length % 4) % 4
  }

  /** `_b64url_decode`; `None` stands for the `ValueError` of a non-ASCII or ill-formed value. */
  function Decode(value: string): Option<Bytes> {
    if !IsAscii(value) then None else Scan(value + Padding(PadCount(|value|)), 0, 0, 0)
  }

  // ---------------------------------------------------------------- the alphabet

  const UPPER := "ABCDEFGHIJKLMNOPQRSTUVWXYZ"
  const LOWER := "abcdefghijklmnopqrstuvwxyz"
  const DIGITS := "0123456789"

  /** Table 2 of RFC 4648. */
  const ALPHABET := UPPER + LOWER + DIGITS + "-_"

  /** Symbols stand for their place in the table; decoding also takes those of table 1, and no other character. */
  lemma SymbolsOfTable()
    ensures |ALPHABET| == 64 && forall v: Sextet :: Symbol(v) == ALPHABET[v] && Value(ALPHABET[v]) == Some(v)
    ensures Value('+') == Some(62) && Value('/') == Some(63)
    ensures forall c: char :: Value(c).Some? <==> c in ALPHABET || c == '+' || c == '/'
  {
    hide ALPHABET, Symbol, Value;
    TableEntry(0);
    forall v: Sextet ensures Symbol(v) == ALPHABET[v] && Value(ALPHABET[v]) == Some(v) {
      TableEntry(v);
      ValueOfSymbol(v);
    }
    SpellingsOfTable1();
    forall c: char ensures Value(c).Some? <==> c in ALPHABET || c == '+' || c == '/' {
      if Value(c).Some? {
        SymbolOfValue(c);
      }
    }
  }

  lemma ValueOfSymbol(v: Sextet)
    ensures Value(Symbol(v)) == Some(v)
  {
  }

  lemma SymbolOfValue(c: char)
    requires Value(c).Some?
    ensures c == '+' || c == '/' || Symbol(Value(c).value) == c
  {
  }

  lemma SpellingsOfTable1()
    ensures Value('+') == Some(62) && Value('/') == Some(63)
  {
  }

  lemma TableEntry(v: Sextet)
    ensures |ALPHABET| == 64 && Symbol(v) == ALPHABET[v]
  {
    if v < 26 {
      UpperAt(v);
    } else if v < 52 {
      LowerAt(v - 26);
    } else if v < 62 {
      DigitAt(v - 52);
    }
  }

  lemma UpperAt(v: nat)
    requires v < 26
    ensures |UPPER| == 26 && UPPER[v] == ('A' as int + v) as char
  {
  }

  lemma LowerAt(v: nat)
    requires v < 26
    ensures |LOWER| == 26 && LOWER[v] == ('a' as int + v) as char
  {
  }

  lemma DigitAt(v: nat)
    requires v < 10
    ensures |DIGITS| == 10 && DIGITS[v] == ('0' as int + v) as char
  {
  }

  /** Three octets and their four symbols are the same number, in base 256 and in base 64: the high bits come first. */
  lemma GroupIsBigEndian(x: byte, y: byte, z: byte)
    ensures |Group([x, y, z])| == 4
    ensures exists a: Sextet, b: Sextet, c: Sextet, d: Sextet ::
              && Group([x, y, z]) == [Symbol(a), Symbol(b), Symbol(c), Symbol(d)]
              && ((a * 64 + b) * 64 + c) * 64 + d == (x * 256 + y) * 256 + z
  {
    hide Symbol;
    var a: Sextet, b: Sextet, c: Sextet, d: Sextet := x / 4, x % 4 * 16 + y / 16, y % 16 * 4 + z / 64, z % 64;
    assert Group([x, y, z]) == [Symbol(a), Symbol(b), Symbol(c), Symbol(d)];
    SameNumber(x / 4, x % 4, y / 16, y % 16, z / 64, z % 64);
  }

  lemma SameNumber(a: nat, b: nat, c: nat, d: nat, e: nat, f: nat)
    ensures ((a * 64 + (b * 16 + c)) * 64 + (d * 4 + e)) * 64 + f ==
            ((a * 4 + b) * 256 + (c * 16 + d)) * 256 + (e * 64 + f)
  {
  }

  // ---------------------------------------------------------------- round trip

  lemma ScanSymbol(v: Sextet, rest: string, quad: nat, left: nat, pads: nat)
    requires quad < 4
    requires left < (if quad == 0 then 1 else if quad == 1 then 64 else if quad == 2 then 16 else 4)
    ensures Scan([Symbol(v)] + rest, quad, left, pads) ==
            if quad == 0 then Scan(rest, 1, v, 0)
            else if quad == 1 then Emit(left * 4 + v / 16, Scan(rest, 2, v % 16, 0))
            else if quad == 2 then Emit(left * 16 + v / 4, Scan(rest, 3, v % 4, 0))
            else Emit(left * 64 + v, Scan(rest, 0, 0, 0))
  {
    assert ([Symbol(v)] + rest)[1..] == rest;
    assert Value(Symbol(v)) == Some(v);
  }

  lemma ScanOne(x: byte)
    ensures Scan(EncodePadded([x]), 0, 0, 0) == Some([x])
  {
    var b, c := x / 4, x % 4 * 16;
    assert Padding(2) == "==";
    assert EncodePadded([x]) == [Symbol(b)] + ([Symbol(c)] + "==");
    ScanSymbol(b, [Symbol(c)] + "==", 0, 0, 0);
    ScanSymbol(c, "==", 1, b, 0);
    assert Scan("==", 2, 0, 0) == Scan("=", 2, 0, 1) by { assert "=="[1..] == "="; }
    assert [x] == [x] + [];
  }

  lemma ScanTwo(x: byte, y: byte)
    ensures Scan(EncodePadded([x, y]), 0, 0, 0) == Some([x, y])
  {
    var b, c, d := x / 4, x % 4 * 16 + y / 16, y % 16 * 4;
    assert EncodePadded([x, y]) == [Symbol(b)] + ([Symbol(c)] + ([Symbol(d)] + "=")) by {
      hide Symbol;
      assert Padding(1) == "=";
    }
    hide EncodePadded, Scan, Symbol;
    Digits(x % 4, y / 16, 16);
    Digits(y % 16, 0, 4);
    assert b * 4 + c / 16 == x && c % 16 * 16 + d / 4 == y;
    ScanThree(b, c, d);
    assert [x, y] == [x] + ([y] + []);
  }

  lemma ScanThree(b: Sextet, c: Sextet, d: Sextet)
    ensures Scan([Symbol(b)] + ([Symbol(c)] + ([Symbol(d)] + "=")), 0, 0, 0)
         == Emit(b * 4 + c / 16, Emit(c % 16 * 16 + d / 4, Some([])))
  {
    assert Scan("=", 3, d % 4, 0) == Some([]);
    hide Scan, Symbol;
    ScanSymbol(b, [Symbol(c)] + ([Symbol(d)] + "="), 0, 0, 0);
    ScanSymbol(c, [Symbol(d)] + "=", 1, b, 0);
    ScanSymbol(d, "=", 2, c % 16, 0);
  }

  lemma Spread(b: char, c: char, d: char, e: char, tail: string)
    ensures [b, c, d, e] + tail == [b] + ([c] + ([d] + ([e] + tail)))
  {
  }

  lemma ScanFour(b: Sextet, c: Sextet, d: Sextet, e: Sextet, tail: string)
    ensures Scan([Symbol(b), Symbol(c), Symbol(d), Symbol(e)] + tail, 0, 0, 0)
         == Emit(b * 4 + c / 16, Emit(c % 16 * 16 + d / 4, Emit(d % 4 * 64 + e, Scan(tail, 0, 0, 0))))
  {
    Spread(Symbol(b), Symbol(c), Symbol(d), Symbol(e), tail);
    ScanSymbol(b, [Symbol(c)] + ([Symbol(d)] + ([Symbol(e)] + tail)), 0, 0, 0);
    ScanSymbol(c, [Symbol(d)] + ([Symbol(e)] + tail), 1, b, 0);
    ScanSymbol(d, [Symbol(e)] + tail, 2, c % 16, 0);
    ScanSymbol(e, tail, 3, d % 4, 0);
  }

  lemma ScanGroup(x: byte, y: byte, z: byte, tail: string)
    ensures var symbols :=
              [Symbol(x / 4), Symbol(x % 4 * 16 + y / 16), Symbol(y % 16 * 4 + z / 64), Symbol(z % 64)];
            Scan(symbols + tail, 0, 0, 0) == Emit(x, Emit(y, Emit(z, Scan(tail, 0, 0, 0))))
  {
    hide Scan, Symbol, Emit;
    var c, d := x % 4 * 16 + y / 16, y % 16 * 4 + z / 64;
    Digits(x % 4, y / 16, 16);
    Digits(y % 16, z / 64, 4);
    assert x / 4 * 4 + c / 16 == x && c % 16 * 16 + d / 4 == y && d % 4 * 64 + z % 64 == z;
    ScanFour(x / 4, c, d, z % 64, tail);
  }

  lemma Digits(high: nat, low: nat, base: nat)
    requires low < base && base in {4, 16}
    ensures (high * base + low) / base == high && (high * base + low) % base == low
  {
  }

  /** Decoding the padded form of any byte string gives it back. */
  lemma {:induction false} PaddedRoundTrip(data: Bytes)
    ensures Scan(EncodePadded(data), 0, 0, 0) == Some(data)
  {
    if |data| == 1 {
      assert data == [data[0]];
      ScanOne(data[0]);
    } else if |data| == 2 {
      assert data == [data[0], data[1]];
      ScanTwo(data[0], data[1]);
    } else if |data| >= 3 {
      hide Symbol, Scan;
      ScanGroup(data[0], data[1], data[2], EncodePadded(data[3..]));
      PaddedRoundTrip(data[3..]);
      assert data == [data[0]] + ([data[1]] + ([data[2]] + data[3..]));
    }
  }

  predicate InAlphabet(s: string) {
    forall i | 0 <= i < |s| :: Value(s[i]).Some? && s[i] != '+' && s[i] != '/'
  }

  lemma AlphabetIsAscii(s: string)
    requires InAlphabet(s)
    ensures IsAscii(s)
    ensures '.' !in s && '=' !in s
  {
    forall i | 0 <= i < |s| ensures s[i] < 128 as char && s[i] != '.' && s[i] != '=' {
      assert Value(s[i]).Some?;
    }
  }

  lemma EncodeUnfold(data: Bytes)
    requires 0 < |data|
    ensures InAlphabet(Group(data)) && |Group(data)| == if |data| < 3 then |data| + 1 else 4
    ensures Encode(data) == Group(data) + if |data| >= 3 then Encode(data[3..]) else ""
  {
    var q := Group(data);
    forall i | 0 <= i < |q| ensures Value(q[i]).Some? && q[i] != '+' && q[i] != '/' {
    }
    StripPrefix(q, if |data| < 3 then Padding(3 - |data|) else EncodePadded(data[3..]));
    StripAll(1);
    StripAll(2);
  }

  lemma {:induction false} StripAll(n: nat)
    ensures StripPadding(Padding(n)) == ""
  {
    if n > 0 {
      assert Padding(n)[..n - 1] == Padding(n - 1);
      StripAll(n - 1);
    }
  }

  /** The padded form is the unpadded symbols followed by just the padding the decoder recomputes. */
  lemma {:induction false} EncodeShape(data: Bytes)
    ensures InAlphabet(Encode(data))
    ensures EncodePadded(data) == Encode(data) + Padding(PadCount(|Encode(data)|))
    ensures 4 * |data| <= 3 * |Encode(data)| < 4 * |data| + 3
  {
    hide Group, Scan, Symbol, Value;
    if |data| >= 3 {
      EncodeUnfold(data);
      EncodeShape(data[3..]);
      ShapeStep(Group(data), Encode(data[3..]));
    } else if |data| > 0 {
      EncodeUnfold(data);
      AppendNothing(Group(data));
      assert |Group(data)| == |data| + 1;
    }
  }

  /** Putting a full group in front leaves the number of padding characters alone. */
  lemma ShapeStep(q: string, rest: string)
    requires |q| == 4
    ensures PadCount(|q + rest|) == PadCount(|rest|)
    ensures q + (rest + Padding(PadCount(|rest|))) == q + rest + Padding(PadCount(|q + rest|))
  {
    assert PadCount(|q + rest|) == PadCount(|rest|);
    Assoc(q, rest, Padding(PadCount(|rest|)));
  }

  lemma Assoc(a: string, b: string, c: string)
    ensures a + (b + c) == a + b + c
  {
  }

  lemma AppendNothing(s: string)
    ensures s + "" == s
  {
  }

  lemma {:induction false} StripPrefix(q: string, s: string)
    requires InAlphabet(q)
    ensures StripPadding(q + s) == q + StripPadding(s)
  {
    if |s| == 0 {
      assert q + s == q;
    } else if s[|s| - 1] == '=' {
      assert (q + s)[..|q + s| - 1] == q + s[..|s| - 1];
      StripPrefix(q, s[..|s| - 1]);
    }
  }

  /**
   The unpadded encoding of every byte string decodes to it, the padding the decoder recomputes is what encoding
   stripped, and the padded form decodes alike.
   */
  lemma RoundTrip(data: Bytes)
    ensures Decode(Encode(data)) == Some(data)
    ensures PadCount(|Encode(data)|) == |EncodePadded(data)| - |Encode(data)|
    ensures Decode(EncodePadded(data)) == Decode(Encode(data))
  {
    hide EncodePadded, StripPadding, Scan, Encode;
    EncodeShape(data);
    AlphabetIsAscii(Encode(data));
    PaddedRoundTrip(data);
    PaddedIsWhole(data);
    AppendNothing(EncodePadded(data));
  }

  lemma PaddedIsWhole(data: Bytes)
    ensures |EncodePadded(data)| % 4 == 0 && IsAscii(EncodePadded(data))
  {
    hide EncodePadded, Encode, Padding, PadCount, InAlphabet;
    EncodeShape(data);
    AlphabetIsAscii(Encode(data));
    PadCompletes(|Encode(data)|);
  }

  lemma PadCompletes(length: nat)
    ensures (length + PadCount(length)) % 4 == 0
  {
  }

  /** The decoder never produces more octets than the value has characters; padding adds none. */
  lemma {:induction false} ScanShrinks(s: string, n: nat, quad: nat, left: nat, pads: nat)
    requires quad < 4
    requires left < (if quad == 0 then 1 else if quad == 1 then 64 else if quad == 2 then 16 else 4)
    ensures var r := Scan(s + Padding(n), quad, left, pads);
            r.Some? ==> 4 * |r.value| <= 3 * |s| + (4 - quad) % 4
    decreases |s|
  {
    if s == "" {
      ScanPadding(Padding(n), quad, left, pads);
      assert s + Padding(n) == Padding(n);
    } else {
      assert (s + Padding(n))[1..] == s[1..] + Padding(n);
      match Value(s[0])
      case None =>
        if s[0] != '=' {
          ScanShrinks(s[1..], n, quad, left, pads);
        } else if !(quad >= 2 && quad + pads + 1 >= 4) {
          ScanShrinks(s[1..], n, quad, left, if quad >= 2 then pads + 1 else pads);
        }
      case Some(v) =>
        if quad == 0 {
          ScanShrinks(s[1..], n, 1, v, 0);
        } else {
          ScanShrinks(s[1..], n, (quad + 1) % 4, if quad == 1 then v % 16 else if quad == 2 then v % 4 else 0, 0);
        }
    }
  }

  lemma {:induction false} ScanPadding(s: string, quad: nat, left: nat, pads: nat)
    requires quad < 4
    requires left < (if quad == 0 then 1 else if quad == 1 then 64 else if quad == 2 then 16 else 4)
    requires forall i | 0 <= i < |s| :: s[i] == '='
    ensures Scan(s, quad, left, pads).Some? ==> Scan(s, quad, left, pads).value == []
  {
    if s != "" && !(quad >= 2 && quad + pads + 1 >= 4) {
      ScanPadding(s[1..], quad, left, if quad >= 2 then pads + 1 else pads);
    }
  }

  lemma DecodeShrinks(value: string)
    ensures Decode(value).Some? ==> |Decode(value).value| <= |value|
  {
    ScanShrinks(value, PadCount(|value|), 0, 0, 0);
  }

  // ---------------------------------------------------------------- lenient decoding

  /** The spelling of table 1 of RFC 4648. */
  function Respell(s: string): (r: string)
    ensures |r| == |s|
  {
    seq(|s|, i requires 0 <= i < |s| => if s[i] == '-' then '+' else if s[i] == '_' then '/' else s[i])
  }

  /** The bits of a symbol that are left for the next octet. */
  function Low(quad: nat, v: Sextet): nat {
    if quad == 0 then v else if quad == 1 then v % 16 else if quad == 2 then v % 4 else 0
  }

  /** One step of the decoder: over a symbol, over padding that completes nothing, and over anything else. */
  lemma ScanFirst(s: string, quad: nat, left: nat, pads: nat)
    requires s != "" && quad < 4
    requires left < (if quad == 0 then 1 else if quad == 1 then 64 else if quad == 2 then 16 else 4)
    ensures Value(s[0]).Some? ==>
              var v := Value(s[0]).value;
              Scan(s, quad, left, pads) ==
              if quad == 0 then Scan(s[1..], 1, v, 0)
              else Emit(if quad == 1 then left * 4 + v / 16 else if quad == 2 then left * 16 + v / 4 else left * 64 + v,
                        Scan(s[1..], (quad + 1) % 4, Low(quad, v), 0))
    ensures Value(s[0]).None? && s[0] != '=' ==> Scan(s, quad, left, pads) == Scan(s[1..], quad, left, pads)
    ensures s[0] == '=' ==>
              Scan(s, quad, left, pads) ==
              if quad >= 2 && quad + pads + 1 >= 4 then Some([])
              else Scan(s[1..], quad, left, if quad >= 2 then pads + 1 else pads)
  {
  }

  lemma {:induction false} ScanRespelled(s: string, quad: nat, left: nat, pads: nat)
    requires quad < 4
    requires left < (if quad == 0 then 1 else if quad == 1 then 64 else if quad == 2 then 16 else 4)
    ensures Scan(Respell(s), quad, left, pads) == Scan(s, quad, left, pads)
    decreases |s|
  {
    if s == "" {
      assert Respell(s) == "";
    } else {
      SameValue(s);
      assert Respell(s)[1..] == Respell(s[1..]);
      hide Scan, Value, Respell;
      ScanFirst(s, quad, left, pads);
      ScanFirst(Respell(s), quad, left, pads);
      match Value(s[0])
      case None =>
        ScanRespelled(s[1..], quad, left, pads);
        ScanRespelled(s[1..], quad, left, if quad >= 2 then pads + 1 else pads);
      case Some(v) => ScanRespelled(s[1..], (quad + 1) % 4, Low(quad, v), 0);
    }
  }

  lemma SameValue(s: string)
    requires s != ""
    ensures Value(Respell(s)[0]) == Value(s[0]) && (Respell(s)[0] == '=' <==> s[0] == '=')
    ensures s[0] == '=' ==> Value(s[0]).None?
  {
  }

  /** A character outside the alphabet, but for padding, is skipped. */
  lemma {:induction false} ScanSkips(a: string, c: char, b: string, quad: nat, left: nat, pads: nat)
    requires quad < 4
    requires left < (if quad == 0 then 1 else if quad == 1 then 64 else if quad == 2 then 16 else 4)
    requires Value(c).None? && c != '='
    ensures Scan(a + [c] + b, quad, left, pads) == Scan(a + b, quad, left, pads)
    decreases |a|
  {
    hide Scan, Value;
    ScanFirst(a + [c] + b, quad, left, pads);
    if a == "" {
      assert a + [c] + b == [c] + b && a + b == b && ([c] + b)[1..] == b;
    } else {
      assert (a + [c] + b)[1..] == a[1..] + [c] + b && (a + b)[1..] == a[1..] + b;
      ScanFirst(a + b, quad, left, pads);
      match Value(a[0])
      case None =>
        ScanSkips(a[1..], c, b, quad, left, pads);
        ScanSkips(a[1..], c, b, quad, left, if quad >= 2 then pads + 1 else pads);
      case Some(v) =>
        PaddingHasNoValue();
        ScanSkips(a[1..], c, b, (quad + 1) % 4, Low(quad, v), 0);
    }
  }

  lemma PaddingHasNoValue()
    ensures Value('=') == None
  {
  }

  /** Symbols followed by the padding that completes them decode unless a single symbol is left over. */
  lemma {:induction false} ScanCompletes(s: string, n: nat, quad: nat, left: nat)
    requires quad < 4 && InAlphabet(s) && n < 4 && (quad + |s| + n) % 4 == 0
    requires left < (if quad == 0 then 1 else if quad == 1 then 64 else if quad == 2 then 16 else 4)
    ensures Scan(s + Padding(n), quad, left, 0).Some? <==> n != 3
    decreases |s|
  {
    hide Scan, Value, Padding;
    if s == "" {
      assert s + Padding(n) == Padding(n);
      OnlyPadding(quad, left);
    } else {
      assert (s + Padding(n))[1..] == s[1..] + Padding(n);
      ScanFirst(s + Padding(n), quad, left, 0);
      PaddingHasNoValue();
      ScanCompletes(s[1..], n, (quad + 1) % 4, Low(quad, Value(s[0]).value));
    }
  }

  lemma OnlyPadding(quad: nat, left: nat)
    requires quad < 4
    requires left < (if quad == 0 then 1 else if quad == 1 then 64 else if quad == 2 then 16 else 4)
    ensures Scan(Padding((4 - quad) % 4), quad, left, 0).Some? <==> quad != 1
  {
    if quad == 1 {
      assert Padding(3) == "===" && "==="[1..] == "==" && "=="[1..] == "=" && "="[1..] == "";
      assert Scan("=", 1, left, 0) == Scan("", 1, left, 0);
      assert Scan("==", 1, left, 0) == Scan("=", 1, left, 0);
      assert Scan("===", 1, left, 0) == Scan("==", 1, left, 0);
    } else if quad == 2 {
      assert Padding(2) == "==" && "=="[1..] == "=";
      assert Scan("=", 2, left, 1) == Some([]);
    } else if quad == 3 {
      assert Padding(1) == "=";
    }
  }

  /**
   Padding ends the value only where it completes a group, and then whatever follows it is ignored; elsewhere it is
   skipped.
   */
  lemma PaddingRules(s: string, quad: nat, left: nat, pads: nat)
    requires quad < 4
    requires left < (if quad == 0 then 1 else if quad == 1 then 64 else if quad == 2 then 16 else 4)
    ensures quad < 2 ==> Scan("=" + s, quad, left, pads) == Scan(s, quad, left, pads)
    ensures quad == 2 ==> Scan("==" + s, quad, left, pads) == Some([])
    ensures quad == 2 && s != "" && Value(s[0]).Some? ==> Scan("=" + s, quad, left, 0) == Scan(s, quad, left, 0)
    ensures quad == 3 ==> Scan("=" + s, quad, left, pads) == Some([])
  {
    assert ("=" + s)[1..] == s && ("==" + s)[1..] == "=" + s;
    assert s != "" ==> s[0] != '=' || Value(s[0]).None?;
  }

  /**
   How lenient decoding is: both spellings of the last two symbols decode alike; symbols decode exactly if no single one
   is left over; what is not ASCII never does.
   */
  lemma DecodeLenient(s: string)
    ensures Decode(Respell(s)) == Decode(s)
    ensures InAlphabet(s) ==> (Decode(s).Some? <==> |s| % 4 != 1)
    ensures (exists i :: 0 <= i < |s| && s[i] >= 128 as char) ==> Decode(s) == None
  {
    var padded := s + Padding(PadCount(|s|));
    assert Respell(padded) == Respell(s) + Padding(PadCount(|s|));
    ScanRespelled(padded, 0, 0, 0);
    assert IsAscii(Respell(s)) <==> IsAscii(s) by {
      assert forall i | 0 <= i < |s| :: Respell(s)[i] < 128 as char <==> s[i] < 128 as char;
    }
    if InAlphabet(s) {
      AlphabetIsAscii(s);
      PadCompletes(|s|);
      ScanCompletes(s, PadCount(|s|), 0, 0);
    }
  }
}
