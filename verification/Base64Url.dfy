/** Unpadded base64url (sections 5 and 3.2 of RFC 4648), as Go's RawURLEncoding reads and writes it. */
module Base64Url {
  import opened Wrappers

  type Byte = x: int | 0 <= x < 256
  type Sextet = x: int | 0 <= x < 64

  predicate AlphabetChar(c: char) {
    'A' <= c <= 'Z' || 'a' <= c <= 'z' || '0' <= c <= '9' || c == '-' || c == '_'
  }

  function EncodeSextet(v: Sextet): (c: char)
    ensures AlphabetChar(c)
  {
    if v < 26 then (v + 65) as char
    else if v < 52 then (v + 71) as char
    else if v < 62 then (v - 4) as char
    else if v == 62 then '-' else '_'
  }

  function DecodeSextet(c: char): Sextet
    requires AlphabetChar(c)
  {
    if 'A' <= c <= 'Z' then c as int - 65
    else if 'a' <= c <= 'z' then c as int - 71
    else if '0' <= c <= '9' then c as int + 4
    else if c == '-' then 62 else 63
  }

  function EncodeOne(a: Byte): string {
    [EncodeSextet(a / 4), EncodeSextet(a % 4 * 16)]
  }

  function EncodeTwo(a: Byte, b: Byte): string {
    [EncodeSextet(a / 4), EncodeSextet(a % 4 * 16 + b / 16), EncodeSextet(b % 16 * 4)]
  }

  function EncodeThree(a: Byte, b: Byte, c: Byte): string {
    [EncodeSextet(a / 4), EncodeSextet(a % 4 * 16 + b / 16), EncodeSextet(b % 16 * 4 + c / 64), EncodeSextet(c % 64)]
  }

  function Encode(bytes: seq<Byte>): string {
    if |bytes| == 0 then ""
    else if |bytes| == 1 then EncodeOne(bytes[0])
    else if |bytes| == 2 then EncodeTwo(bytes[0], bytes[1])
    else EncodeThree(bytes[0], bytes[1], bytes[2]) + Encode(bytes[3..])
  }

  // One to four characters of a quantum; the unused low bits of the last one are ignored.
  function DecodeQuantum(s: string): seq<Byte>
    requires 2 <= |s| <= 4 && forall c :: c in s ==> AlphabetChar(c)
  {
    var x, y := DecodeSextet(s[0]), DecodeSextet(s[1]);
    [x * 4 + y / 16] +
    if |s| == 2 then []
    else
      var z := DecodeSextet(s[2]);
      [y % 16 * 16 + z / 4] +
      if |s| == 3 then [] else [z % 4 * 64 + DecodeSextet(s[3])]
  }

  function DecodeQuanta(s: string): Option<seq<Byte>> {
    if s == "" then Some([])
    else
      var n := if |s| < 4 then |s| else 4;
      if n == 1 || exists c :: c in s[..n] && !AlphabetChar(c) then None
      else
        match DecodeQuanta(s[n..])
        case None => None
        case Some(rest) => Some(DecodeQuantum(s[..n]) + rest)
  }

  // The decoder skips line breaks.
  function WithoutLineBreaks(s: string): string {
    if s == "" then ""
    else (if s[0] == '\r' || s[0] == '\n' then [] else [s[0]]) + WithoutLineBreaks(s[1..])
  }

  function Decode(s: string): Option<seq<Byte>> {
    DecodeQuanta(WithoutLineBreaks(s))
  }

  lemma SextetRoundTrip(v: Sextet)
    ensures DecodeSextet(EncodeSextet(v)) == v
  {
  }

  lemma OneRoundTrip(a: Byte)
    ensures DecodeQuantum(EncodeOne(a)) == [a]
  {
    hide EncodeSextet, DecodeSextet;
    SextetRoundTrip(a / 4);
    SextetRoundTrip(a % 4 * 16);
  }

  lemma TwoRoundTrip(a: Byte, b: Byte)
    ensures DecodeQuantum(EncodeTwo(a, b)) == [a, b]
  {
    hide EncodeSextet, DecodeSextet;
    SextetRoundTrip(a / 4);
    SextetRoundTrip(a % 4 * 16 + b / 16);
    SextetRoundTrip(b % 16 * 4);
  }

  lemma ThreeRoundTrip(a: Byte, b: Byte, c: Byte)
    ensures DecodeQuantum(EncodeThree(a, b, c)) == [a, b, c]
  {
    hide EncodeSextet, DecodeSextet;
    SextetRoundTrip(a / 4);
    SextetRoundTrip(a % 4 * 16 + b / 16);
    SextetRoundTrip(b % 16 * 4 + c / 64);
    SextetRoundTrip(c % 64);
  }

  lemma {:induction false} EncodedAlphabet(bytes: seq<Byte>)
    ensures forall c :: c in Encode(bytes) ==> AlphabetChar(c)
    ensures |Encode(bytes)| > 0 <==> bytes != []
  {
    hide EncodeSextet, AlphabetChar;
    forall v: Sextet ensures AlphabetChar(EncodeSextet(v)) { }
    if |bytes| > 2 {
      EncodedAlphabet(bytes[3..]);
    }
  }

  lemma {:induction false} NoLineBreaks(s: string)
    requires forall c :: c in s ==> AlphabetChar(c)
    ensures WithoutLineBreaks(s) == s
  {
    if s != "" {
      assert s[0] in s;
      NoLineBreaks(s[1..]);
      assert s == [s[0]] + s[1..];
    }
  }

  lemma {:induction false} QuantaRoundTrip(bytes: seq<Byte>)
    ensures DecodeQuanta(Encode(bytes)) == Some(bytes)
  {
    hide EncodeOne, EncodeTwo, EncodeThree, DecodeQuantum, AlphabetChar;
    var s := Encode(bytes);
    EncodedAlphabet(bytes);
    if |bytes| == 1 {
      OneRoundTrip(bytes[0]);
      QuantumLength(bytes[0], 0, 0);
      assert s[..2] == s && s[2..] == "";
      assert bytes == [bytes[0]] + [];
    } else if |bytes| == 2 {
      TwoRoundTrip(bytes[0], bytes[1]);
      QuantumLength(bytes[0], bytes[1], 0);
      assert s[..3] == s && s[3..] == "";
      assert bytes == [bytes[0], bytes[1]] + [];
    } else if |bytes| > 2 {
      ThreeRoundTrip(bytes[0], bytes[1], bytes[2]);
      QuantumLength(bytes[0], bytes[1], bytes[2]);
      QuantaRoundTrip(bytes[3..]);
      assert s[..4] == EncodeThree(bytes[0], bytes[1], bytes[2]) && s[4..] == Encode(bytes[3..]);
      assert bytes == [bytes[0], bytes[1], bytes[2]] + bytes[3..];
    }
  }

  lemma QuantumLength(a: Byte, b: Byte, c: Byte)
    ensures |EncodeOne(a)| == 2 && |EncodeTwo(a, b)| == 3 && |EncodeThree(a, b, c)| == 4
  {
  }

  // Decoding undoes encoding on every byte sequence.
  lemma DecodeOfEncode(bytes: seq<Byte>)
    ensures Decode(Encode(bytes)) == Some(bytes)
  {
    EncodedAlphabet(bytes);
    NoLineBreaks(Encode(bytes));
    QuantaRoundTrip(bytes);
  }

  // The alphabet of section 5 of RFC 4648: three runs of characters in their order, and two marks
  lemma AlphabetInOrder(v: Sextet)
    ensures EncodeSextet(0) == 'A' && EncodeSextet(25) == 'Z' && EncodeSextet(26) == 'a' && EncodeSextet(51) == 'z'
    ensures EncodeSextet(52) == '0' && EncodeSextet(61) == '9' && EncodeSextet(62) == '-' && EncodeSextet(63) == '_'
    ensures v != 25 && v != 51 && v < 61 ==> EncodeSextet(v + 1) as int == EncodeSextet(v) as int + 1
  {
  }

  function Place(s: string, i: nat): Sextet
    requires i < |s| && AlphabetChar(s[i])
  {
    DecodeSextet(s[i])
  }

  // Three bytes become four characters that stand for the same 24 bits, most significant first; one
  // or two bytes become two or three characters, filled up with zero bits.
  lemma ThreeKeepBits(a: Byte, b: Byte, c: Byte)
    ensures var s := EncodeThree(a, b, c);
      |s| == 4 && Place(s, 0) * 0x40000 + Place(s, 1) * 0x1000 + Place(s, 2) * 0x40 + Place(s, 3) == a * 0x10000 + b * 0x100 + c
  {
    hide EncodeSextet, DecodeSextet;
    SextetRoundTrip(a / 4);
    SextetRoundTrip(a % 4 * 16 + b / 16);
    SextetRoundTrip(b % 16 * 4 + c / 64);
    SextetRoundTrip(c % 64);
  }

  lemma FewKeepBits(a: Byte, b: Byte)
    ensures var s := EncodeTwo(a, b); |s| == 3 && Place(s, 0) * 0x1000 + Place(s, 1) * 0x40 + Place(s, 2) == (a * 0x100 + b) * 4
    ensures var s := EncodeOne(a); |s| == 2 && Place(s, 0) * 0x40 + Place(s, 1) == a * 16
  {
    hide EncodeSextet, DecodeSextet;
    SextetRoundTrip(a / 4);
    SextetRoundTrip(a % 4 * 16 + b / 16);
    SextetRoundTrip(b % 16 * 4);
    SextetRoundTrip(a % 4 * 16);
  }

  // What decodes has no dot in it.
  lemma {:induction false} DecodedHasNoDot(s: string)
    requires Decode(s).Some?
    ensures '.' !in s
  {
    QuantaAlphabet(WithoutLineBreaks(s));
    LineBreaksOnly(s, '.');
  }

  lemma {:induction false} QuantaAlphabet(s: string)
    requires DecodeQuanta(s).Some?
    ensures forall c :: c in s ==> AlphabetChar(c)
  {
    hide AlphabetChar, DecodeQuantum;
    if s != "" {
      var n := if |s| < 4 then |s| else 4;
      QuantaAlphabet(s[n..]);
      assert s == s[..n] + s[n..];
    }
  }

  lemma {:induction false} LineBreaksOnly(s: string, c: char)
    requires c !in WithoutLineBreaks(s) && c != '\r' && c != '\n'
    ensures c !in s
  {
    if s != "" {
      LineBreaksOnly(s[1..], c);
      assert s == [s[0]] + s[1..];
    }
  }
}
