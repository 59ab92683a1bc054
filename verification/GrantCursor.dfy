/**
 The cursor of the current user's grant list (consent.go): a JSON object with a version, an
 RFC 3339 time and a public client id, in unpadded base64.

 Decoding JSON is a parameter. It is only taken to give back what encoding wrote.
 */
module GrantCursor {
  import opened Schema
  import opened Rfc3339
  import opened Cursor
  import Base64
  import ScopeClaims

  datatype GrantPosition = GrantPosition(updatedAt: Time, clientId: string)

  datatype Wire = Wire(version: int, updatedAt: string, clientId: string)

  const MAX_TEXT: nat := 1024

  const CLIENT_PREFIX: string := "ois_cli_"

  /** validPublicClientID: the prefix and 24 bytes in base64, whose decoder skips line breaks. */
  predicate ValidClientId(id: string) {
    && |id| >= 8 && id[..8] == CLIENT_PREFIX
    && ScopeClaims.Trimmed(id)
    && Base64.Decode(id[8..]).Some? && |Base64.Decode(id[8..]).value| == 24
  }

  /** The ids of registered clients: a prefix and 24 drawn bytes. */
  function ClientId(raw: seq<Base64.Byte>): string {
    CLIENT_PREFIX + Base64.Encode(raw)
  }

  // ----- JSON -----

  /** Characters json.Marshal writes as they are, and the two line breaks it escapes. */
  predicate IsPlain(c: char) {
    Base64.IsDigitChar(c) || c == ':' || c == '.' || c == '\n' || c == '\r'
  }

  predicate Plain(text: string) {
    forall i :: 0 <= i < |text| ==> IsPlain(text[i])
  }

  function Escape(text: string): (r: string)
    ensures |r| >= |text|
  {
    if text == "" then ""
    else (if text[0] == '\n' then "\\n" else if text[0] == '\r' then "\\r" else [text[0]]) + Escape(text[1..])
  }

  function Octet(c: char): Base64.Byte {
    c as int % 256
  }

  function Octets(text: string): (bytes: seq<Base64.Byte>)
    ensures |bytes| == |text|
  {
    seq(|text|, i requires 0 <= i < |text| => Octet(text[i]))
  }

  /** json.Marshal of a version 1 cursor. */
  function Marshal(updatedAt: string, clientId: string): (bytes: seq<Base64.Byte>)
    ensures |bytes| == 21 + |Escape(updatedAt)| + |Escape(clientId)|
  {
    Octets("{\"v\":1,\"u\":\"" + Escape(updatedAt) + "\",\"c\":\"" + Escape(clientId) + "\"}")
  }

  /** The decoder gives back what Marshal wrote. */
  ghost predicate Faithful(json: seq<Base64.Byte> -> Option<Wire>) {
    forall u: string, c: string :: Plain(u) && Plain(c) ==> json(Marshal(u, c)) == Some(Wire(1, u, c))
  }

  // ----- The codec -----

  /** EncodeGrantCursor. */
  function Encode(p: GrantPosition): string {
    if p.updatedAt == 0 || !ValidClientId(p.clientId) then ""
    else Base64.Encode(Marshal(Format(p.updatedAt), p.clientId))
  }

  /** DecodeGrantCursor. */
  function Decode(json: seq<Base64.Byte> -> Option<Wire>, raw: string): Decoded<GrantPosition> {
    if raw == "" then Beginning
    else if |raw| > MAX_TEXT || !ScopeClaims.Trimmed(raw) then Invalid
    else
      var payload := Base64.Decode(raw);
      if payload.None? then Invalid
      else
        var wire := json(payload.value);
        if wire.None? || wire.value.version != 1 || !ValidClientId(wire.value.clientId) then Invalid
        else
          var updated := Parse(wire.value.updatedAt);
          if updated.None? || updated.value == 0 || wire.value.updatedAt != Format(updated.value) then Invalid
          else At(GrantPosition(updated.value, wire.value.clientId))
  }

  // ----- What the parts are made of -----

  lemma {:induction false} DroppedIsPlain(text: string)
    requires Base64.AllDigits(Base64.DropNewlines(text))
    ensures Plain(text)
  {
    if text != "" {
      var rest := Base64.DropNewlines(text[1..]);
      var all := Base64.DropNewlines(text);
      if text[0] != '\r' && text[0] != '\n' {
        assert all[0] == text[0] && all[1..] == rest;
        assert forall i :: 0 <= i < |rest| ==> rest[i] == all[i + 1];
      }
      DroppedIsPlain(text[1..]);
      assert forall i :: 1 <= i < |text| ==> text[i] == text[1..][i - 1];
    }
  }

  lemma ClientIdIsPlain(id: string)
    requires ValidClientId(id)
    ensures Plain(id)
  {
    DroppedIsPlain(id[8..]);
    assert forall i :: 8 <= i < |id| ==> id[i] == id[8..][i - 8];
    assert forall i :: 0 <= i < 8 ==> id[i] == id[..8][i];
  }

  lemma FormatIsPlain(t: Time)
    ensures Plain(Format(t))
    ensures forall i :: 0 <= i < |Format(t)| ==> Format(t)[i] != '\n' && Format(t)[i] != '\r'
  {
    hide Format;
    FormatChars(t);
    assert forall i :: 0 <= i < |Format(t)| ==> IsTimeChar(Format(t)[i]);
  }

  lemma TextIsTrimmed(bytes: seq<Base64.Byte>)
    requires bytes != []
    ensures Base64.Encode(bytes) != "" && ScopeClaims.Trimmed(Base64.Encode(bytes))
  {
    var text := Base64.Encode(bytes);
    Base64.EncodeLength(bytes);
    assert Base64.IsDigitChar(text[0]) && Base64.IsDigitChar(text[|text| - 1]);
  }

  /** The empty text, which ends the list without an error, is written exactly for a row no cursor can name. */
  lemma EmptyExactly(p: GrantPosition)
    ensures Encode(p) == "" <==> p.updatedAt == 0 || !ValidClientId(p.clientId)
  {
    hide Base64.Encode, Marshal, ValidClientId, Format;
    if p.updatedAt != 0 && ValidClientId(p.clientId) {
      MarshalIsLong(Format(p.updatedAt), p.clientId);
      TextIsTrimmed(Marshal(Format(p.updatedAt), p.clientId));
    }
  }

  lemma MarshalIsLong(u: string, c: string)
    ensures |Marshal(u, c)| >= 21
  {
  }

  /**
   Round trip. Decoding an encoded cursor gives the position back exactly when its year has four digits
   and the text is at most 1024 bytes, and is refused otherwise.
   */
  lemma RoundTripExactly(json: seq<Base64.Byte> -> Option<Wire>, p: GrantPosition)
    requires Faithful(json) && p.updatedAt != 0 && ValidClientId(p.clientId)
    ensures Decode(json, Encode(p)) ==
            if 0 <= Year(p.updatedAt) <= 9999 && |Encode(p)| <= MAX_TEXT then At(p) else Invalid
  {
    hide Base64.Encode, Base64.Decode, Marshal, ValidClientId, Format, Parse, Year, Plain, ScopeClaims.Trimmed;
    var u := Format(p.updatedAt);
    var bytes := Marshal(u, p.clientId);
    MarshalIsLong(u, p.clientId);
    TextIsTrimmed(bytes);
    Base64.RoundTrip(bytes);
    FormatIsPlain(p.updatedAt);
    ClientIdIsPlain(p.clientId);
    ParseFormat(p.updatedAt);
    assert json(bytes) == Some(Wire(1, u, p.clientId));
  }

  lemma {:induction false} NothingEscaped(text: string)
    requires forall i :: 0 <= i < |text| ==> text[i] != '\n' && text[i] != '\r'
    ensures |Escape(text)| == |text|
  {
    if text != "" { NothingEscaped(text[1..]); }
  }

  /** Every grant of a registered client last changed in the years 0 to 9999 has a cursor that is read back. */
  lemma RegisteredRoundTrip(json: seq<Base64.Byte> -> Option<Wire>, t: Time, raw: seq<Base64.Byte>)
    requires Faithful(json) && t != 0 && 0 <= Year(t) <= 9999 && |raw| == 24
    ensures var p := GrantPosition(t, ClientId(raw)); Encode(p) != "" && Decode(json, Encode(p)) == At(p)
  {
    hide Base64.Encode, Base64.Decode, Format, Year, Decode;
    var p := GrantPosition(t, ClientId(raw));
    ClientIdIsValid(raw);
    EmptyExactly(p);
    ParseFormat(t);
    FormatIsPlain(t);
    NothingEscaped(Format(t));
    NothingEscaped(p.clientId);
    Base64.EncodeLength(Marshal(Format(t), p.clientId));
    RoundTripExactly(json, p);
  }

  lemma ClientIdIsValid(raw: seq<Base64.Byte>)
    requires |raw| == 24
    ensures ValidClientId(ClientId(raw)) && |ClientId(raw)| == 40
    ensures forall i :: 0 <= i < 40 ==> ClientId(raw)[i] != '\n' && ClientId(raw)[i] != '\r'
  {
    var id, text := ClientId(raw), Base64.Encode(raw);
    Base64.EncodeLength(raw);
    Base64.RoundTrip(raw);
    assert id[..8] == CLIENT_PREFIX && id[8..] == text;
    assert Base64.IsDigitChar(text[31]) && id[39] == text[31];
    assert forall i :: 8 <= i < 40 ==> Base64.IsDigitChar(text[i - 8]) && id[i] == text[i - 8];
  }

  /** Whatever text is accepted, it names a position that has a cursor of its own. */
  lemma DecodeSound(json: seq<Base64.Byte> -> Option<Wire>, raw: string, p: GrantPosition)
    requires Decode(json, raw) == At(p)
    ensures Encode(p) != "" && 0 <= Year(p.updatedAt) <= 9999
  {
    hide Base64.Encode, Base64.Decode, ValidClientId, Format, Parse, Year;
    EmptyExactly(p);
    ParseFormat(p.updatedAt);
  }

  // ----- A decoder that gives back what was written -----

  predicate Quoteless(text: string) {
    forall i :: 0 <= i < |text| ==> text[i] != '"' && text[i] < 256 as char
  }

  lemma {:induction false} EscapeQuoteless(text: string)
    requires Plain(text)
    ensures Quoteless(Escape(text))
  {
    if text != "" { EscapeQuoteless(text[1..]); }
  }

  lemma {:induction false} EscapeInjective(a: string, b: string)
    requires Plain(a) && Plain(b) && Escape(a) == Escape(b)
    ensures a == b
  {
    if a != "" && b != "" {
      var x, y := Escape(a), Escape(b);
      assert x[0] == y[0];
      var k := if a[0] == '\n' || a[0] == '\r' then 2 else 1;
      assert IsPlain(a[0]) && IsPlain(b[0]);
      assert x[k..] == Escape(a[1..]) && y[k..] == Escape(b[1..]);
      EscapeInjective(a[1..], b[1..]);
      assert a == [a[0]] + a[1..] && b == [b[0]] + b[1..];
    }
  }

  lemma NoEarlierQuote(a: string, x: string, k: nat)
    requires Quoteless(a) && k <= |a| && (a + "\"" + x)[k] == '"'
    ensures k == |a|
  {
  }

  /** Texts without a quote that end at the same first quote are the same. */
  lemma SameUpToQuote(a: string, b: string, x: string, y: string)
    requires Quoteless(a) && Quoteless(b) && a + "\"" + x == b + "\"" + y
    ensures a == b && x == y
  {
    var s, t := a + "\"" + x, b + "\"" + y;
    assert s[|a|] == '"' && t[|b|] == '"';
    if |b| <= |a| { NoEarlierQuote(a, x, |b|); }
    if |a| <= |b| { NoEarlierQuote(b, y, |a|); }
    assert a == s[..|a|] && b == t[..|b|];
    assert x == s[|a| + 1..] && y == t[|b| + 1..];
  }

  lemma OctetsInjective(a: string, b: string)
    requires (forall i :: 0 <= i < |a| ==> a[i] < 256 as char) && (forall i :: 0 <= i < |b| ==> b[i] < 256 as char)
    requires Octets(a) == Octets(b)
    ensures a == b
  {
    assert |a| == |b|;
    forall i | 0 <= i < |a|
      ensures a[i] == b[i]
    {
      assert Octets(a)[i] == Octet(a[i]) && Octets(b)[i] == Octet(b[i]);
    }
  }

  function WireText(u: string, c: string): string {
    "{\"v\":1,\"u\":\"" + (Escape(u) + "\"" + (",\"c\":\"" + (Escape(c) + "\"" + "}")))
  }

  lemma MarshalText(u: string, c: string)
    requires Plain(u) && Plain(c)
    ensures Marshal(u, c) == Octets(WireText(u, c))
    ensures forall i :: 0 <= i < |WireText(u, c)| ==> WireText(u, c)[i] < 256 as char
  {
    EscapeQuoteless(u);
    EscapeQuoteless(c);
    assert "{\"v\":1,\"u\":\"" + Escape(u) + "\",\"c\":\"" + Escape(c) + "\"}" == WireText(u, c);
  }

  /** Marshal is injective on plain texts. */
  lemma MarshalInjective(u: string, c: string, v: string, d: string)
    requires Plain(u) && Plain(c) && Plain(v) && Plain(d) && Marshal(u, c) == Marshal(v, d)
    ensures u == v && c == d
  {
    hide Marshal, Plain, Octets, Escape;
    MarshalText(u, c);
    MarshalText(v, d);
    OctetsInjective(WireText(u, c), WireText(v, d));
    EscapeQuoteless(u);
    EscapeQuoteless(c);
    EscapeQuoteless(v);
    EscapeQuoteless(d);
    var head := "{\"v\":1,\"u\":\"";
    assert WireText(u, c)[|head|..] == Escape(u) + "\"" + (",\"c\":\"" + (Escape(c) + "\"" + "}"));
    assert WireText(v, d)[|head|..] == Escape(v) + "\"" + (",\"c\":\"" + (Escape(d) + "\"" + "}"));
    var x, y := ",\"c\":\"" + (Escape(c) + "\"" + "}"), ",\"c\":\"" + (Escape(d) + "\"" + "}");
    SameUpToQuote(Escape(u), Escape(v), x, y);
    assert x[6..] == Escape(c) + "\"" + "}" && y[6..] == Escape(d) + "\"" + "}";
    SameUpToQuote(Escape(c), Escape(d), "}", "}");
    EscapeInjective(u, v);
    EscapeInjective(c, d);
  }

  ghost predicate Writes(bytes: seq<Base64.Byte>, u: string, c: string) {
    Plain(u) && Plain(c) && Marshal(u, c) == bytes
  }

  /** The decoder that reads exactly what Marshal writes. */
  ghost function Unmarshal(bytes: seq<Base64.Byte>): Option<Wire> {
    if exists u: string, c: string :: Writes(bytes, u, c) then
      var u: string, c: string :| Writes(bytes, u, c);
      Some(Wire(1, u, c))
    else None
  }

  lemma UnmarshalIsFaithful()
    ensures Faithful(bytes => Unmarshal(bytes))
  {
    hide Marshal, Plain;
    forall u: string, c: string | Plain(u) && Plain(c)
      ensures Unmarshal(Marshal(u, c)) == Some(Wire(1, u, c))
    {
      assert Writes(Marshal(u, c), u, c);
      var w := Unmarshal(Marshal(u, c)).value;
      assert Writes(Marshal(u, c), w.updatedAt, w.clientId);
      MarshalInjective(u, c, w.updatedAt, w.clientId);
    }
  }
}
