/**
 The opaque page cursor (pagination/cursor.go): a version byte, the time as a big-endian
 two's-complement 64-bit count of nanoseconds, and a 16-byte id, in unpadded base64.
 */
module Cursor {
  import opened Schema
  import Base64

  type Byte = Base64.Byte

  const TWO_63: int := 0x8000_0000_0000_0000
  const TWO_64: int := 0x1_0000_0000_0000_0000

  // 2000-01-01 in nanoseconds since 1970. A 64-bit count never reaches the year 9999.
  const YEAR_2000: int := 946_684_800_000_000_000

  datatype Position = Position(nanos: int, id: seq<Byte>)

  predicate IsNil(id: seq<Byte>) {
    forall i :: 0 <= i < |id| ==> id[i] == 0
  }

  predicate Encodable(p: Position) {
    -TWO_63 <= p.nanos < TWO_63 && |p.id| == 16
  }

  /** A position Decode is willing to return. */
  predicate Acceptable(p: Position) {
    YEAR_2000 <= p.nanos < TWO_63 && |p.id| == 16 && !IsNil(p.id)
  }

  // ----- Big-endian words -----

  function BigEndian(n: nat, width: nat): (bytes: seq<Byte>)
    ensures |bytes| == width
  {
    if width == 0 then [] else BigEndian(n / 256, width - 1) + [n % 256]
  }

  function FromBigEndian(bytes: seq<Byte>): nat {
    if bytes == [] then 0 else FromBigEndian(bytes[..|bytes| - 1]) * 256 + bytes[|bytes| - 1]
  }

  function Power256(k: nat): nat {
    if k == 0 then 1 else 256 * Power256(k - 1)
  }

  lemma {:induction false} WordRoundTrip(n: nat, width: nat)
    requires n < Power256(width)
    ensures FromBigEndian(BigEndian(n, width)) == n
  {
    if width > 0 {
      WordRoundTrip(n / 256, width - 1);
      var bytes := BigEndian(n, width);
      assert bytes[..|bytes| - 1] == BigEndian(n / 256, width - 1);
    }
  }

  lemma {:induction false} BytesRoundTrip(bytes: seq<Byte>)
    ensures FromBigEndian(bytes) < Power256(|bytes|)
    ensures BigEndian(FromBigEndian(bytes), |bytes|) == bytes
  {
    if bytes != [] {
      var init, last := bytes[..|bytes| - 1], bytes[|bytes| - 1];
      BytesRoundTrip(init);
      Digits(FromBigEndian(init), last, Power256(|init|));
      assert bytes == init + [last];
    }
  }

  lemma Digits(high: nat, low: Byte, bound: nat)
    requires high < bound
    ensures (high * 256 + low) / 256 == high && (high * 256 + low) % 256 == low && high * 256 + low < 256 * bound
  {
  }

  lemma WordSize()
    ensures Power256(8) == TWO_64
  {
    assert Power256(1) == 256;
    assert Power256(2) == 65536;
    assert Power256(4) == 256 * 256 * Power256(2);
    assert Power256(6) == 256 * 256 * Power256(4);
    assert Power256(8) == 256 * 256 * Power256(6);
  }

  function ToUnsigned(i: int): int {
    if i < 0 then i + TWO_64 else i
  }

  function ToSigned(n: int): int {
    if n >= TWO_63 then n - TWO_64 else n
  }

  // ----- The codec -----

  function Payload(p: Position): (bytes: seq<Byte>)
    requires Encodable(p)
    ensures |bytes| == 25
  {
    [1] + BigEndian(ToUnsigned(p.nanos), 8) + p.id
  }

  function Text(p: Position): string
    requires Encodable(p)
  {
    Base64.Encode(Payload(p))
  }

  /** Encode: fills a 25-byte buffer and renders it. */
  method Encode(p: Position) returns (text: string)
    requires Encodable(p)
    ensures text == Text(p)
  {
    var payload := new Byte[25](_ => 0);
    payload[0] := 1;
    var rest: nat := ToUnsigned(p.nanos);
    for k := 0 to 8
      invariant payload[0] == 1
      invariant BigEndian(ToUnsigned(p.nanos), 8) == BigEndian(rest, 8 - k) + payload[9 - k..9]
    {
      BigEndianStep(rest, 8 - k);
      payload[8 - k] := rest % 256;
      assert payload[9 - (k + 1)..9] == [rest % 256] + payload[9 - k..9];
      rest := rest / 256;
    }
    assert payload[1..9] == BigEndian(ToUnsigned(p.nanos), 8);
    ghost var word := payload[..9];
    for k := 0 to 16
      invariant payload[..9] == word && payload[9..9 + k] == p.id[..k]
    {
      payload[9 + k] := p.id[k];
    }
    assert payload[..] == payload[..9] + payload[9..25] == Payload(p);
    text := Base64.Encode(payload[..]);
  }

  lemma BigEndianStep(n: nat, width: nat)
    requires width > 0
    ensures BigEndian(n, width) == BigEndian(n / 256, width - 1) + [n % 256]
  {
  }

  /** What a cursor text names: the beginning of the list, a row, or nothing. */
  datatype Decoded<+R> = Beginning | At(position: R) | Invalid

  /** Decode. */
  function Decode(raw: string): Decoded<Position> {
    if raw == "" then Beginning
    else
      var payload := Base64.Decode(raw);
      if payload.None? || |payload.value| != 25 || payload.value[0] != 1 then Invalid
      else if Base64.Encode(payload.value) != raw then Invalid
      else
        var id := payload.value[9..];
        var nanos := ToSigned(FromBigEndian(payload.value[1..9]));
        if IsNil(id) || nanos < YEAR_2000 then Invalid else At(Position(nanos, id))
  }

  lemma PayloadParts(p: Position)
    requires Encodable(p)
    ensures Payload(p)[0] == 1 && Payload(p)[9..] == p.id && Payload(p)[1..9] == BigEndian(ToUnsigned(p.nanos), 8)
    ensures ToSigned(FromBigEndian(Payload(p)[1..9])) == p.nanos
  {
    WordSize();
    WordRoundTrip(ToUnsigned(p.nanos), 8);
  }

  lemma PayloadOf(bytes: seq<Byte>)
    requires |bytes| == 25 && bytes[0] == 1
    ensures var p := Position(ToSigned(FromBigEndian(bytes[1..9])), bytes[9..]); Encodable(p) && Payload(p) == bytes
  {
    WordSize();
    BytesRoundTrip(bytes[1..9]);
    assert bytes == [bytes[0]] + bytes[1..9] + bytes[9..];
  }

  /** Decoding accepts exactly the encodings of acceptable positions, and gives those positions back. */
  lemma DecodeExact(raw: string, p: Position)
    ensures Decode(raw) == At(p) <==> Acceptable(p) && raw == Text(p)
  {
    hide BigEndian, FromBigEndian;
    if Acceptable(p) && raw == Text(p) {
      Base64.RoundTrip(Payload(p));
      Base64.EncodeLength(Payload(p));
      PayloadParts(p);
    }
    if Decode(raw) == At(p) {
      var payload := Base64.Decode(raw).value;
      PayloadOf(payload);
    }
  }
}
