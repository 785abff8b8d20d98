/** Base64url without padding (section 5 of RFC 4648), and the two decoders the system uses:
    Node's, which drops what it cannot place, and Python's, which wants exact padding. */
module Base64Url {
  import opened Common

  type Byte = b: int | 0 <= b < 256
  type Sextet = s: int | 0 <= s < 64
  type Bytes = seq<Byte>

  /** The alphabet: A-Z, a-z, 0-9, '-' and '_'. */
  function Digit(s: Sextet): char {
    if s < 26 then 'A' + s as char
    else if s < 52 then 'a' + (s - 26) as char
    else if s < 62 then '0' + (s - 52) as char
    else if s == 62 then '-' else '_'
  }

  predicate IsDigit(c: char) {
    'A' <= c <= 'Z' || 'a' <= c <= 'z' || '0' <= c <= '9' || c == '-' || c == '_'
  }

  /** The value of a digit; '+' and '/' of the plain alphabet are read as '-' and '_'. */
  function Value(c: char): (r: Option<Sextet>) {
    if 'A' <= c <= 'Z' then Some(c as int - 'A' as int)
    else if 'a' <= c <= 'z' then Some(c as int - 'a' as int + 26)
    else if '0' <= c <= '9' then Some(c as int - '0' as int + 52)
    else if c == '-' || c == '+' then Some(62)
    else if c == '_' || c == '/' then Some(63)
    else None
  }

  lemma DigitHasItsValue(s: Sextet)
    ensures Value(Digit(s)) == Some(s)
  {
  }

  /** Table 2 of section 5 of RFC 4648: upper case, lower case, digits, and the two marks. */
  lemma DigitIsListed(s: Sextet)
    ensures 0 <= s < 26 ==> Digit(s) == "ABCDEFGHIJKLMNOPQRSTUVWXYZ"[s]
    ensures 26 <= s < 52 ==> Digit(s) == "abcdefghijklmnopqrstuvwxyz"[s - 26]
    ensures 52 <= s < 64 ==> Digit(s) == "0123456789-_"[s - 52]
  {
    if s < 26 {
      UpperCase(s);
    } else if s < 52 {
      LowerCase(s - 26);
    }
  }

  lemma UpperCase(k: nat)
    requires k < 26
    ensures "ABCDEFGHIJKLMNOPQRSTUVWXYZ"[k] == 'A' + k as char
  {
    if k < 13 {
      assert "ABCDEFGHIJKLMNOPQRSTUVWXYZ"[k] == "ABCDEFGHIJKLM"[k];
    } else {
      assert "ABCDEFGHIJKLMNOPQRSTUVWXYZ"[k] == "NOPQRSTUVWXYZ"[k - 13];
    }
  }

  lemma LowerCase(k: nat)
    requires k < 26
    ensures "abcdefghijklmnopqrstuvwxyz"[k] == 'a' + k as char
  {
    if k < 13 {
      assert "abcdefghijklmnopqrstuvwxyz"[k] == "abcdefghijklm"[k];
    } else {
      assert "abcdefghijklmnopqrstuvwxyz"[k] == "nopqrstuvwxyz"[k - 13];
    }
  }

  // ---- Encoding ---------------------------------------------------------------------------

  function Quantum(a: Byte, b: Byte, c: Byte): (q: seq<Sextet>)
    ensures |q| == 4
  {
    [a / 4, a % 4 * 16 + b / 16, b % 16 * 4 + c / 64, c % 64]
  }

  /** The six-bit groups of a byte string, the last one filled up with zero bits. */
  function Sextets(bytes: Bytes): seq<Sextet> {
    if |bytes| == 0 then []
    else if |bytes| == 1 then Quantum(bytes[0], 0, 0)[..2]
    else if |bytes| == 2 then Quantum(bytes[0], bytes[1], 0)[..3]
    else Quantum(bytes[0], bytes[1], bytes[2]) + Sextets(bytes[3..])
  }

  function Digits(sextets: seq<Sextet>): string {
    seq(|sextets|, i requires 0 <= i < |sextets| => Digit(sextets[i]))
  }

  function Encode(bytes: Bytes): string {
    Digits(Sextets(bytes))
  }

  /** The number that digits make in a base, the most significant first. */
  function Number(digits: seq<int>, base: int): int {
    if digits == [] then 0 else Number(digits[..|digits| - 1], base) * base + digits[|digits| - 1]
  }

  /** Three bytes and their four digits are one number of 24 bits, the most significant first. */
  lemma QuantumIsTheNumber(a: Byte, b: Byte, c: Byte)
    ensures var q := Quantum(a, b, c);
            Number([q[0], q[1], q[2], q[3]], 64) == Number([a, b, c], 256)
  {
    var q: seq<int> := Quantum(a, b, c);
    FourPlaces(q[0], q[1], q[2], q[3], 64);
    ThreePlaces(a, b, c, 256);
  }

  lemma ThreePlaces(a: int, b: int, c: int, base: int)
    ensures Number([a, b, c], base) == (a * base + b) * base + c
  {
    assert [a, b, c][..2] == [a, b] && [a, b][..1] == [a] && [a][..0] == [];
    assert Number([a], base) == a;
    assert Number([a, b], base) == a * base + b;
  }

  lemma FourPlaces(a: int, b: int, c: int, d: int, base: int)
    ensures Number([a, b, c, d], base) == ((a * base + b) * base + c) * base + d
  {
    assert [a, b, c, d][..3] == [a, b, c];
    ThreePlaces(a, b, c, base);
  }

  // ---- Decoding ---------------------------------------------------------------------------

  function High(a: Sextet, b: Sextet): Byte {
    a * 4 + b / 16
  }

  function Middle(a: Sextet, b: Sextet): Byte {
    a % 16 * 16 + b / 4
  }

  function Low(a: Sextet, b: Sextet): Byte {
    a % 4 * 64 + b
  }

  /** The bytes of a run of sextets; bits too few to fill a byte are dropped. */
  function Octets(s: seq<Sextet>): Bytes {
    if |s| < 2 then []
    else if |s| == 2 then [High(s[0], s[1])]
    else if |s| == 3 then [High(s[0], s[1]), Middle(s[1], s[2])]
    else [High(s[0], s[1]), Middle(s[1], s[2]), Low(s[2], s[3])] + Octets(s[4..])
  }

  /** The values of the digits of a text, anything else skipped. */
  function Values(text: string): seq<Sextet> {
    if text == [] then []
    else
      match Value(text[0])
      case Some(v) => [v] + Values(text[1..])
      case None => Values(text[1..])
  }

  /** `Buffer.from(text, 'base64url')` */
  function Decode(text: string): Bytes {
    Octets(Values(text))
  }

  function Padding(n: nat): string {
    seq(n, _ => '=')
  }

  /** Up to two equal signs at the end are padding. */
  function Unpadded(text: string): string {
    var n := |text|;
    if n >= 2 && text[n - 2] == '=' && text[n - 1] == '=' then text[..n - 2]
    else if n >= 1 && text[n - 1] == '=' then text[..n - 1]
    else text
  }

  /** Every character is a digit, in either alphabet. */
  predicate AllDigits(text: string) {
    |Values(text)| == |text|
  }

  /** `base64.urlsafe_b64decode`: whole quanta of four characters. */
  function DecodePadded(text: string): Option<Bytes> {
    if |text| % 4 == 0 && AllDigits(Unpadded(text)) then Some(Decode(Unpadded(text))) else None
  }

  function PaddingFor(n: int): nat {
    (-n) % 4
  }

  /** `_base64url_decode`: pads to a multiple of four first. */
  function PadAndDecode(text: string): Option<Bytes> {
    DecodePadded(text + Padding(PaddingFor(|text|)))
  }

  // ---- Round trips --------------------------------------------------------------------------

  lemma HighMiddleLow(a: Byte, b: Byte, c: Byte)
    ensures High(a / 4, a % 4 * 16 + b / 16) == a
    ensures Middle(a % 4 * 16 + b / 16, b % 16 * 4 + c / 64) == b
    ensures Low(b % 16 * 4 + c / 64, c % 64) == c
  {
  }

  lemma QuantumRoundTrip(a: Byte, b: Byte, c: Byte)
    ensures Octets(Quantum(a, b, c)) == [a, b, c]
    ensures Octets(Quantum(a, b, 0)[..3]) == [a, b]
    ensures Octets(Quantum(a, 0, 0)[..2]) == [a]
  {
    hide High, Middle, Low;
    HighMiddleLow(a, b, c);
    HighMiddleLow(a, b, 0);
    HighMiddleLow(a, 0, 0);
    assert Quantum(a, b, c)[4..] == [];
  }

  lemma {:induction false} OctetsOfSextets(bytes: Bytes)
    ensures Octets(Sextets(bytes)) == bytes
  {
    hide Quantum;
    if |bytes| == 0 {
    } else if |bytes| == 1 {
      QuantumRoundTrip(bytes[0], 0, 0);
    } else if |bytes| == 2 {
      QuantumRoundTrip(bytes[0], bytes[1], 0);
      assert bytes == [bytes[0], bytes[1]];
    } else {
      QuantumRoundTrip(bytes[0], bytes[1], bytes[2]);
      OctetsOfSextets(bytes[3..]);
      OctetsSplit(Quantum(bytes[0], bytes[1], bytes[2]), Sextets(bytes[3..]));
      assert bytes == [bytes[0], bytes[1], bytes[2]] + bytes[3..];
    }
  }

  lemma OctetsSplit(head: seq<Sextet>, tail: seq<Sextet>)
    requires |head| == 4
    ensures Octets(head + tail) == Octets(head) + Octets(tail)
  {
    hide High, Middle, Low;
    assert (head + tail)[4..] == tail && head[4..] == [];
  }

  lemma {:induction false} ValuesOfDigits(sextets: seq<Sextet>)
    ensures Values(Digits(sextets)) == sextets
  {
    if sextets != [] {
      DigitHasItsValue(sextets[0]);
      ValuesOfDigits(sextets[1..]);
      assert Digits(sextets)[1..] == Digits(sextets[1..]);
    }
  }

  /** Decoding gives back what was encoded, whatever its length. */
  lemma DecodeOfEncode(bytes: Bytes)
    ensures Decode(Encode(bytes)) == bytes
  {
    ValuesOfDigits(Sextets(bytes));
    OctetsOfSextets(bytes);
  }

  /** Four characters for three bytes, and no padding: two for one byte left over, three for two. */
  lemma {:induction false} EncodedLength(bytes: Bytes)
    ensures |Encode(bytes)| == (4 * |bytes| + 2) / 3
    ensures |Encode(bytes)| % 4 != 1
  {
    hide Quantum;
    if |bytes| >= 3 {
      EncodedLength(bytes[3..]);
    }
  }

  /** Every character is a digit of the alphabet: no '.', no '=' and no white space. */
  lemma EncodedInAlphabet(bytes: Bytes)
    ensures forall i :: 0 <= i < |Encode(bytes)| ==> IsDigit(Encode(bytes)[i])
  {
  }

  /** Different byte strings have different texts. */
  lemma EncodeIsInjective(a: Bytes, b: Bytes)
    requires Encode(a) == Encode(b)
    ensures a == b
  {
    DecodeOfEncode(a);
    DecodeOfEncode(b);
  }

  lemma {:induction false} DigitsOnly(text: string)
    ensures |Values(text)| <= |text|
    ensures AllDigits(text) ==> '=' !in text
  {
    if text != [] {
      DigitsOnly(text[1..]);
      assert text == [text[0]] + text[1..];
    }
  }

  lemma StripsWhatWasPadded(text: string, n: nat)
    requires '=' !in text && n <= 3
    ensures Unpadded(text + Padding(n)) == if n == 3 then text + "=" else text
  {
    assert text + Padding(n) == text + (if n == 0 then "" else if n == 1 then "=" else if n == 2 then "==" else "===");
  }

  /** The decoders agree on every text of digits, except that Python refuses the lengths no encoder makes. */
  lemma DecodersAgree(text: string)
    requires AllDigits(text)
    ensures PadAndDecode(text) == if |text| % 4 == 1 then None else Some(Decode(text))
  {
    hide Values, Decode, Unpadded;
    DigitsOnly(text);
    StripsWhatWasPadded(text, PaddingFor(|text|));
    DigitsOnly(text + "=");
    assert (text + "=")[|text|] == '=';
  }

  /** The padding Python puts back is the one the encoder stripped. */
  lemma PadAndDecodeOfEncode(bytes: Bytes)
    ensures PadAndDecode(Encode(bytes)) == Some(bytes)
  {
    hide Values, Sextets, PadAndDecode;
    EncodedLength(bytes);
    ValuesOfDigits(Sextets(bytes));
    assert AllDigits(Encode(bytes));
    DecodersAgree(Encode(bytes));
    DecodeOfEncode(bytes);
  }
}
