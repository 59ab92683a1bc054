/**
 base64.RawURLEncoding: unpadded URL-safe base64 with the strict decoder, which rejects
 non-zero trailing bits but, as the Go decoder does, skips carriage returns and newlines.
 */
module Base64 {
  import opened Schema

  type Byte = b: int | 0 <= b < 256

  type Digit = d: int | 0 <= d < 64

  function DigitChar(d: Digit): char {
    if d < 26 then 'A' + d as char
    else if d < 52 then 'a' + (d - 26) as char
    else if d < 62 then '0' + (d - 52) as char
    else if d == 62 then '-'
    else '_'
  }

  predicate IsDigitChar(c: char) {
    'A' <= c <= 'Z' || 'a' <= c <= 'z' || '0' <= c <= '9' || c == '-' || c == '_'
  }

  function CharDigit(c: char): (d: Digit)
    requires IsDigitChar(c)
    ensures DigitChar(d) == c
  {
    if 'A' <= c <= 'Z' then (c - 'A') as int
    else if 'a' <= c <= 'z' then (c - 'a') as int + 26
    else if '0' <= c <= '9' then (c - '0') as int + 52
    else if c == '-' then 62
    else 63
  }

  lemma CharDigitOfDigit(d: Digit)
    ensures IsDigitChar(DigitChar(d)) && CharDigit(DigitChar(d)) == d
  {
  }

  predicate AllDigits(text: string) {
    forall i :: 0 <= i < |text| ==> IsDigitChar(text[i])
  }

  function Encode(bytes: seq<Byte>): (text: string)
    ensures AllDigits(text)
  {
    if |bytes| == 0 then ""
    else if |bytes| == 1 then
      [DigitChar(bytes[0] / 4), DigitChar(bytes[0] % 4 * 16)]
    else if |bytes| == 2 then
      [DigitChar(bytes[0] / 4), DigitChar(bytes[0] % 4 * 16 + bytes[1] / 16), DigitChar(bytes[1] % 16 * 4)]
    else
      Quad(bytes[0], bytes[1], bytes[2]) + Encode(bytes[3..])
  }

  function Quad(a: Byte, b: Byte, c: Byte): (text: string)
    ensures |text| == 4 && AllDigits(text)
  {
    [DigitChar(a / 4), DigitChar(a % 4 * 16 + b / 16), DigitChar(b % 16 * 4 + c / 64), DigitChar(c % 64)]
  }

  function Triple(p: Digit, q: Digit, r: Digit, s: Digit): (bytes: seq<Byte>)
    ensures |bytes| == 3
  {
    [p * 4 + q / 16, q % 16 * 16 + r / 4, r % 4 * 64 + s]
  }

  function DecodeDigits(text: string): Option<seq<Byte>>
    requires AllDigits(text)
  {
    if |text| == 0 then Some([])
    else if |text| == 1 then None
    else if |text| == 2 then
      var p, q := CharDigit(text[0]), CharDigit(text[1]);
      if q % 16 == 0 then Some([p * 4 + q / 16]) else None
    else if |text| == 3 then
      var p, q, r := CharDigit(text[0]), CharDigit(text[1]), CharDigit(text[2]);
      if r % 4 == 0 then Some([p * 4 + q / 16, q % 16 * 16 + r / 4]) else None
    else
      var rest := DecodeDigits(text[4..]);
      if rest.None? then None
      else
        Some(Triple(CharDigit(text[0]), CharDigit(text[1]), CharDigit(text[2]), CharDigit(text[3])) + rest.value)
  }

  function DropNewlines(text: string): (r: string)
    ensures |r| <= |text|
    ensures |r| == |text| ==> r == text
  {
    if text == [] then []
    else
      var rest := DropNewlines(text[1..]);
      if text[0] == '\r' || text[0] == '\n' then rest else [text[0]] + rest
  }

  function Decode(text: string): Option<seq<Byte>> {
    var clean := DropNewlines(text);
    if AllDigits(clean) then DecodeDigits(clean) else None
  }

  lemma BytesOfDigits(a: Byte, b: Byte, c: Byte)
    ensures a / 4 * 4 + (a % 4 * 16 + b / 16) / 16 == a
    ensures (a % 4 * 16 + b / 16) % 16 * 16 + (b % 16 * 4 + c / 64) / 4 == b
    ensures (b % 16 * 4 + c / 64) % 4 * 64 + c % 64 == c
  {
  }

  lemma DigitsOfBytes(p: Digit, q: Digit, r: Digit, s: Digit)
    ensures (p * 4 + q / 16) / 4 == p
    ensures (p * 4 + q / 16) % 4 * 16 + (q % 16 * 16 + r / 4) / 16 == q
    ensures (q % 16 * 16 + r / 4) % 16 * 4 + (r % 4 * 64 + s) / 64 == r
    ensures (r % 4 * 64 + s) % 64 == s
  {
  }

  lemma QuadTriple(a: Byte, b: Byte, c: Byte)
    ensures var q := Quad(a, b, c);
            Triple(CharDigit(q[0]), CharDigit(q[1]), CharDigit(q[2]), CharDigit(q[3])) == [a, b, c]
  {
    CharDigitOfDigit(a / 4);
    CharDigitOfDigit(a % 4 * 16 + b / 16);
    CharDigitOfDigit(b % 16 * 4 + c / 64);
    CharDigitOfDigit(c % 64);
    BytesOfDigits(a, b, c);
  }

  lemma TripleQuad(p: Digit, q: Digit, r: Digit, s: Digit)
    ensures var t := Triple(p, q, r, s);
            Quad(t[0], t[1], t[2]) == [DigitChar(p), DigitChar(q), DigitChar(r), DigitChar(s)]
  {
    hide DigitChar;
    DigitsOfBytes(p, q, r, s);
  }

  lemma DecodeOne(a: Byte)
    ensures DecodeDigits(Encode([a])) == Some([a])
  {
    CharDigitOfDigit(a / 4);
    CharDigitOfDigit(a % 4 * 16);
    BytesOfDigits(a, 0, 0);
  }

  lemma DecodeTwo(a: Byte, b: Byte)
    ensures DecodeDigits(Encode([a, b])) == Some([a, b])
  {
    CharDigitOfDigit(a / 4);
    CharDigitOfDigit(a % 4 * 16 + b / 16);
    CharDigitOfDigit(b % 16 * 4);
    BytesOfDigits(a, b, 0);
  }

  lemma DecodeQuad(head: string, tail: string)
    requires |head| == 4 && AllDigits(head) && AllDigits(tail) && DecodeDigits(tail).Some?
    ensures AllDigits(head + tail)
    ensures DecodeDigits(head + tail) ==
            Some(Triple(CharDigit(head[0]), CharDigit(head[1]), CharDigit(head[2]), CharDigit(head[3])) +
                 DecodeDigits(tail).value)
  {
    var text := head + tail;
    assert text[4..] == tail;
    assert text[0] == head[0] && text[1] == head[1] && text[2] == head[2] && text[3] == head[3];
  }

  lemma DecodeMore(bytes: seq<Byte>)
    requires |bytes| > 2 && DecodeDigits(Encode(bytes[3..])) == Some(bytes[3..])
    ensures DecodeDigits(Encode(bytes)) == Some(bytes)
  {
    hide DecodeDigits, Quad, Triple, DigitChar, IsDigitChar;
    var a, b, c := bytes[0], bytes[1], bytes[2];
    var head, tail := Quad(a, b, c), Encode(bytes[3..]);
    assert Encode(bytes) == head + tail;
    DecodeQuad(head, tail);
    QuadTriple(a, b, c);
    assert bytes == [a, b, c] + bytes[3..];
  }

  lemma {:induction false} DecodeEncoded(bytes: seq<Byte>)
    ensures DecodeDigits(Encode(bytes)) == Some(bytes)
  {
    if |bytes| == 1 {
      assert bytes == [bytes[0]];
      DecodeOne(bytes[0]);
    } else if |bytes| == 2 {
      assert bytes == [bytes[0], bytes[1]];
      DecodeTwo(bytes[0], bytes[1]);
    } else if |bytes| > 2 {
      DecodeEncoded(bytes[3..]);
      DecodeMore(bytes);
    }
  }

  lemma EncodeTwo(text: string)
    requires AllDigits(text) && |text| == 2 && DecodeDigits(text).Some?
    ensures Encode(DecodeDigits(text).value) == text
  {
    hide DigitChar, IsDigitChar;
    DigitsOfBytes(CharDigit(text[0]), CharDigit(text[1]), 0, 0);
    assert text == [text[0], text[1]];
  }

  lemma EncodeThree(text: string)
    requires AllDigits(text) && |text| == 3 && DecodeDigits(text).Some?
    ensures Encode(DecodeDigits(text).value) == text
  {
    hide DigitChar, IsDigitChar;
    var p: int, q: int, r: int := CharDigit(text[0]), CharDigit(text[1]), CharDigit(text[2]);
    var a: Byte, b: Byte := p * 4 + q / 16, q % 16 * 16 + r / 4;
    DigitsOfBytes(p, q, r, 0);
    assert Encode([a, b]) == [DigitChar(p), DigitChar(q), DigitChar(r)];
    assert text == [text[0], text[1], text[2]];
  }

  lemma EncodeTriple(head: seq<Byte>, tail: seq<Byte>)
    requires |head| == 3
    ensures Encode(head + tail) == Quad(head[0], head[1], head[2]) + Encode(tail)
  {
    assert (head + tail)[3..] == tail;
  }

  lemma {:induction false} EncodeDecoded(text: string)
    requires AllDigits(text) && DecodeDigits(text).Some?
    ensures Encode(DecodeDigits(text).value) == text
  {
    if |text| == 2 {
      EncodeTwo(text);
    } else if |text| == 3 {
      EncodeThree(text);
    } else if |text| > 3 {
      EncodeDecoded(text[4..]);
      var p, q, r, s := CharDigit(text[0]), CharDigit(text[1]), CharDigit(text[2]), CharDigit(text[3]);
      TripleQuad(p, q, r, s);
      EncodeTriple(Triple(p, q, r, s), DecodeDigits(text[4..]).value);
      assert text == [text[0], text[1], text[2], text[3]] + text[4..];
    }
  }

  lemma {:induction false} DigitsHaveNoNewline(text: string)
    requires AllDigits(text)
    ensures DropNewlines(text) == text
  {
    if text != [] {
      DigitsHaveNoNewline(text[1..]);
      assert IsDigitChar(text[0]);
    }
  }

  /** Round trip, and conversely: decoding undoes only encodings, up to skipped newlines. */
  lemma RoundTrip(bytes: seq<Byte>)
    ensures Decode(Encode(bytes)) == Some(bytes)
  {
    DigitsHaveNoNewline(Encode(bytes));
    DecodeEncoded(bytes);
  }

  lemma DecodeExact(text: string, bytes: seq<Byte>)
    ensures Decode(text) == Some(bytes) <==> DropNewlines(text) == Encode(bytes)
  {
    if DropNewlines(text) == Encode(bytes) {
      DecodeEncoded(bytes);
    }
    if Decode(text) == Some(bytes) {
      EncodeDecoded(DropNewlines(text));
    }
  }

  function EncodedLength(n: nat): nat {
    n / 3 * 4 + (if n % 3 == 0 then 0 else n % 3 + 1)
  }

  lemma {:induction false} EncodeLength(bytes: seq<Byte>)
    ensures |Encode(bytes)| == EncodedLength(|bytes|)
  {
    if |bytes| > 2 {
      EncodeLength(bytes[3..]);
    }
  }
}
