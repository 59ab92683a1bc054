/**
 The scope claim of an access token: canonical scope names joined by single spaces, and the
 strict parser that accepts nothing else.
 */
module ScopeClaims {
  import opened Schema
  import opened Scopes

  /** unicode.IsSpace. */
  predicate IsSpace(c: char) {
    var code := c as int;
    9 <= code <= 13 || code == 32 || code == 0x85 || code == 0xA0 || code == 0x1680 ||
    0x2000 <= code <= 0x200a || code == 0x2028 || code == 0x2029 || code == 0x202f ||
    code == 0x205f || code == 0x3000
  }

  /** strings.TrimSpace(text) == text. */
  predicate Trimmed(text: string) {
    text == [] || (!IsSpace(text[0]) && !IsSpace(text[|text| - 1]))
  }

  function Read(part: string): ScopeName {
    if part == "openid" then Known(OpenId)
    else if part == "profile" then Known(Profile)
    else if part == "email" then Known(Email)
    else if part == "offline_access" then Known(OfflineAccess)
    else Other(part)
  }

  function ReadAll(parts: seq<string>): seq<ScopeName> {
    seq(|parts|, i requires 0 <= i < |parts| => Read(parts[i]))
  }

  lemma ReadName(s: Scope)
    ensures Read(Name(s)) == Known(s)
  {
  }

  predicate PlainText(text: string) {
    forall i :: 0 <= i < |text| ==> !IsSpace(text[i])
  }

  lemma NamesArePlain(s: Scope)
    ensures Name(s) != [] && PlainText(Name(s))
  {
  }

  /** strings.Join(names, " "). */
  function Join(list: seq<Scope>): string {
    if list == [] then ""
    else if |list| == 1 then Name(list[0])
    else Name(list[0]) + " " + Join(list[1..])
  }

  function FirstSpace(text: string): (i: nat)
    requires ' ' in text
    ensures i < |text| && text[i] == ' ' && ' ' !in text[..i]
  {
    if text[0] == ' ' then 0
    else
      var i := 1 + FirstSpace(text[1..]);
      assert text[..i] == [text[0]] + text[1..][..i - 1];
      i
  }

  /** strings.Split(text, " "). */
  function Split(text: string): seq<string> {
    if ' ' !in text then [text]
    else
      var i := FirstSpace(text);
      [text[..i]] + Split(text[i + 1..])
  }

  function ScopeText(scopes: set<Scope>): string {
    Join(Listed(scopes))
  }

  predicate HasControlSpace(text: string) {
    '\t' in text || '\r' in text || '\n' in text
  }

  /** parseScopeClaim. */
  function ParseScopeClaim(raw: string): Option<set<Scope>> {
    if raw == "" || !Trimmed(raw) || HasControlSpace(raw) then None
    else
      var names := ReadAll(Split(raw));
      if Acceptable(names) && Join(Listed(Denoted(names))) == raw then Some(Denoted(names))
      else None
  }

  lemma SplitAfter(first: string, rest: string)
    requires ' ' !in first
    ensures Split(first + " " + rest) == [first] + Split(rest)
  {
    var text := first + " " + rest;
    assert text[|first|] == ' ';
    var i := FirstSpace(text);
    assert forall k :: 0 <= k < |first| ==> text[k] == first[k];
    assert forall k :: 0 <= k < i ==> text[k] == text[..i][k];
    assert i == |first|;
    assert text[..i] == first && text[i + 1..] == rest;
  }

  /** Joining shape: text without control spaces, starting and ending in a name's letter. */
  lemma {:induction false} JoinShape(list: seq<Scope>)
    requires list != []
    ensures Join(list) != [] && Trimmed(Join(list)) && !HasControlSpace(Join(list))
  {
    NamesArePlain(list[0]);
    if |list| > 1 {
      JoinShape(list[1..]);
      var head, tail := Name(list[0]), Join(list[1..]);
      var text := head + " " + tail;
      assert text[0] == head[0] && text[|text| - 1] == tail[|tail| - 1];
      forall c | c in text
        ensures c in head || c == ' ' || c in tail
      {
      }
    }
  }

  lemma ReadAllCons(first: string, parts: seq<string>)
    ensures ReadAll([first] + parts) == [Read(first)] + ReadAll(parts)
  {
    hide Read;
  }

  lemma {:induction false} SplitJoin(list: seq<Scope>)
    requires list != []
    ensures ReadAll(Split(Join(list))) == seq(|list|, i requires 0 <= i < |list| => Known(list[i]))
  {
    hide Name, Read;
    var name := Name(list[0]);
    NamesArePlain(list[0]);
    ReadName(list[0]);
    if |list| > 1 {
      var parts := Split(Join(list[1..]));
      SplitJoin(list[1..]);
      SplitAfter(name, Join(list[1..]));
      ReadAllCons(name, parts);
    } else {
      ReadAllCons(name, []);
    }
  }

  lemma ListedAcceptable(scopes: set<Scope>)
    requires OpenId in scopes
    ensures var list := Listed(scopes);
            var names := seq(|list|, i requires 0 <= i < |list| => Known(list[i]));
            list != [] && Acceptable(names) && Denoted(names) == scopes
  {
    var list := Listed(scopes);
    var names := seq(|list|, i requires 0 <= i < |list| => Known(list[i]));
    ListedShape(scopes);
    CopiedFacts(names, list);
    assert DistinctScopes(list);
    assert OpenId in list;
    assert forall s :: s in Denoted(names) <==> s in scopes;
  }

  /** The parser accepts exactly the canonical rendering of a set containing openid. */
  lemma ParseExact(raw: string, scopes: set<Scope>)
    ensures ParseScopeClaim(raw) == Some(scopes) <==> OpenId in scopes && raw == ScopeText(scopes)
  {
    if OpenId in scopes && raw == ScopeText(scopes) {
      ListedAcceptable(scopes);
      JoinShape(Listed(scopes));
      SplitJoin(Listed(scopes));
    }
  }
}
