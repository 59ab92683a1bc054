/**
 Scope lists of package consent. The source keeps scopes as sorted, duplicate-free string
 lists; every list operation is proved here to compute the listing of a set operation, which
 is why the rest of the model keeps scopes as sets.

 A scope string is either one of the four supported names or some other text.
 */
module Scopes {
  import opened Schema

  datatype ScopeName = Known(scope: Scope) | Other(text: string)

  function Name(s: Scope): string {
    match s
    case OpenId => "openid"
    case Profile => "profile"
    case Email => "email"
    case OfflineAccess => "offline_access"
  }

  /** Position of a scope's name in the byte-wise string order. */
  function Rank(s: Scope): nat {
    match s
    case Email => 0
    case OfflineAccess => 1
    case OpenId => 2
    case Profile => 3
  }

  /** Byte-wise string order, as sort.Strings uses it. */
  predicate Less(a: string, b: string) {
    b != [] && (a == [] || a[0] < b[0] || (a[0] == b[0] && Less(a[1..], b[1..])))
  }

  lemma {:induction false} LessIrreflexive(a: string)
    ensures !Less(a, a)
  {
    if a != [] {
      LessIrreflexive(a[1..]);
    }
  }

  /** Sorting names as strings is sorting scopes by rank. */
  lemma LessIsRank(a: Scope, b: Scope)
    ensures Less(Name(a), Name(b)) <==> Rank(a) < Rank(b)
  {
    LessIrreflexive(Name(a));
    assert Name(OfflineAccess)[1..] == "ffline_access" && Name(OpenId)[1..] == "penid";
    assert Less("ffline_access", "penid") && !Less("penid", "ffline_access");
  }

  /** The supported scopes a list names. */
  function Denoted(names: seq<ScopeName>): set<Scope> {
    set i | 0 <= i < |names| && names[i].Known? :: names[i].scope
  }

  predicate AllKnown(names: seq<ScopeName>) {
    forall i :: 0 <= i < |names| ==> names[i].Known?
  }

  predicate Distinct(names: seq<ScopeName>) {
    forall i, j :: 0 <= i < j < |names| ==> names[i] != names[j]
  }

  predicate Increasing(scopes: seq<Scope>) {
    forall i, j :: 0 <= i < j < |scopes| ==> Rank(scopes[i]) < Rank(scopes[j])
  }

  /** The sorted, duplicate-free list of a scope set. */
  function Listed(scopes: set<Scope>): seq<Scope> {
    (if Email in scopes then [Email] else []) +
    (if OfflineAccess in scopes then [OfflineAccess] else []) +
    (if OpenId in scopes then [OpenId] else []) +
    (if Profile in scopes then [Profile] else [])
  }

  lemma ListedMembers(scopes: set<Scope>, s: Scope)
    ensures s in Listed(scopes) <==> s in scopes
  {
    match s
    case OpenId =>
    case Profile =>
    case Email =>
    case OfflineAccess =>
  }

  lemma ListedIncreasing(scopes: set<Scope>)
    ensures Increasing(Listed(scopes))
  {
  }

  lemma ListedShape(scopes: set<Scope>)
    ensures Increasing(Listed(scopes))
    ensures forall s :: s in Listed(scopes) <==> s in scopes
  {
    hide Listed, Increasing;
    ListedIncreasing(scopes);
    forall s: Scope
      ensures s in Listed(scopes) <==> s in scopes
    {
      ListedMembers(scopes, s);
    }
  }

  lemma HasMember(list: seq<Scope>)
    requires list != []
    ensures exists x :: x in list
  {
    assert list[0] in list;
  }

  /** A strictly increasing list is determined by its members. */
  lemma {:induction false} IncreasingUnique(a: seq<Scope>, b: seq<Scope>)
    requires Increasing(a) && Increasing(b)
    requires forall x :: x in a <==> x in b
    ensures a == b
  {
    if a == [] {
      if b != [] {
        HasMember(b);
      }
    } else if b == [] {
      HasMember(a);
    } else {
      assert a[0] in b && b[0] in a;
      assert a[0] == b[0];
      assert forall x :: x in a[1..] <==> x in a && x != a[0];
      assert forall x :: x in b[1..] <==> x in b && x != b[0];
      IncreasingUnique(a[1..], b[1..]);
    }
  }

  /** Every canonical list is the listing of its members. */
  lemma ListedUnique(list: seq<Scope>, scopes: set<Scope>)
    requires Increasing(list)
    requires forall s :: s in list <==> s in scopes
    ensures list == Listed(scopes)
  {
    ListedShape(scopes);
    IncreasingUnique(list, Listed(scopes));
  }

  // ----- sort.Strings -----

  predicate NonDecreasing(scopes: seq<Scope>) {
    forall i, j :: 0 <= i < j < |scopes| ==> Rank(scopes[i]) <= Rank(scopes[j])
  }

  function Insert(x: Scope, sorted: seq<Scope>): (r: seq<Scope>)
    requires NonDecreasing(sorted)
    ensures NonDecreasing(r)
    ensures |r| == |sorted| + 1 && forall y :: y in r <==> y == x || y in sorted
  {
    if sorted == [] then [x]
    else if Rank(sorted[0]) < Rank(x) then
      var rest := Insert(x, sorted[1..]);
      assert forall i :: 0 <= i < |rest| ==> rest[i] == x || rest[i] in sorted[1..];
      [sorted[0]] + rest
    else
      [x] + sorted
  }

  function Sort(scopes: seq<Scope>): (r: seq<Scope>)
    ensures NonDecreasing(r)
    ensures |r| == |scopes| && forall y :: y in r <==> y in scopes
  {
    if scopes == [] then []
    else
      assert scopes == [scopes[0]] + scopes[1..];
      Insert(scopes[0], Sort(scopes[1..]))
  }

  predicate DistinctScopes(scopes: seq<Scope>) {
    forall i, j :: 0 <= i < j < |scopes| ==> scopes[i] != scopes[j]
  }

  /** A list is duplicate-free exactly when it has as many members as positions. */
  lemma {:induction false} DistinctCount(scopes: seq<Scope>)
    ensures |set x | x in scopes| <= |scopes|
    ensures DistinctScopes(scopes) <==> |set x | x in scopes| == |scopes|
  {
    if scopes != [] {
      var first, rest := scopes[0], scopes[1..];
      DistinctCount(rest);
      var tail := set x | x in rest;
      assert (set x | x in scopes) == tail + {first};
      if first in rest {
        assert tail + {first} == tail;
      } else {
        assert DistinctScopes(scopes) <==> DistinctScopes(rest);
      }
    }
  }

  /** Sorting neither creates nor hides a duplicate. */
  lemma SortedFacts(scopes: seq<Scope>)
    ensures DistinctScopes(scopes) <==> Increasing(Sort(scopes))
  {
    var sorted := Sort(scopes);
    assert (set x | x in sorted) == (set x | x in scopes);
    DistinctCount(scopes);
    DistinctCount(sorted);
    assert DistinctScopes(sorted) <==> Increasing(sorted);
  }

  // ----- consent.CanonicalScopes -----

  /** What the source accepts: between one and four distinct supported names, openid among them. */
  predicate Acceptable(names: seq<ScopeName>) {
    1 <= |names| <= 4 && AllKnown(names) && Distinct(names) && OpenId in Denoted(names)
  }

  lemma CopiedFacts(names: seq<ScopeName>, copied: seq<Scope>)
    requires |copied| == |names|
    requires forall k :: 0 <= k < |names| ==> names[k] == Known(copied[k])
    ensures DistinctScopes(copied) <==> Distinct(names)
    ensures forall s :: s in copied <==> s in Denoted(names)
  {
    assert Distinct(names) ==> forall i, j :: 0 <= i < j < |copied| ==> names[i] != names[j];
    forall s | s in copied
      ensures s in Denoted(names)
    {
      var k :| 0 <= k < |copied| && copied[k] == s;
      assert names[k].Known?;
    }
  }

  /** The validation loop: the list as scopes, or None when some name is not supported. */
  method CopySupported(names: seq<ScopeName>) returns (r: Option<seq<Scope>>)
    ensures r.Some? <==> AllKnown(names)
    ensures r.Some? ==> |r.value| == |names|
    ensures r.Some? ==> forall k :: 0 <= k < |names| ==> names[k] == Known(r.value[k])
  {
    var copied: seq<Scope> := [];
    for i := 0 to |names|
      invariant |copied| == i
      invariant forall k :: 0 <= k < i ==> names[k] == Known(copied[k])
    {
      if !names[i].Known? {
        return None;
      }
      copied := copied + [names[i].scope];
    }
    return Some(copied);
  }

  /** The duplicate loop over neighbours of a sorted list. */
  method HasAdjacentDuplicate(sorted: seq<Scope>) returns (found: bool)
    requires NonDecreasing(sorted)
    ensures found <==> !Increasing(sorted)
  {
    for index := 0 to |sorted|
      invariant forall i, j :: 0 <= i < j < index ==> Rank(sorted[i]) < Rank(sorted[j])
    {
      if index > 0 && sorted[index - 1] == sorted[index] {
        return true;
      }
    }
    return false;
  }

  /** Accepts exactly the acceptable lists and returns the listing of the set they name. */
  method CanonicalScopes(names: seq<ScopeName>) returns (r: Option<seq<Scope>>)
    ensures r.Some? <==> Acceptable(names)
    ensures r.Some? ==> r.value == Listed(Denoted(names))
  {
    if |names| < 1 || |names| > 4 {
      return None;
    }
    var copied := CopySupported(names);
    if copied.None? {
      return None;
    }
    var result := Sort(copied.value);
    SortedFacts(copied.value);
    CopiedFacts(names, copied.value);
    var duplicate := HasAdjacentDuplicate(result);
    if duplicate || OpenId !in result {
      return None;
    }
    ListedUnique(result, Denoted(names));
    return Some(result);
  }

  // ----- consent.Union, Intersection, Difference -----

  /** sortedSet: the keys of a map, collected in any order and then sorted. */
  method SortedSet(keys: set<Scope>) returns (r: seq<Scope>)
    ensures r == Listed(keys)
  {
    var todo, collected: seq<Scope> := keys, [];
    while todo != {}
      invariant todo <= keys
      invariant forall x :: x in collected <==> x in keys && x !in todo
      invariant DistinctScopes(collected)
      decreases |todo|
    {
      var x :| x in todo;
      collected := collected + [x];
      todo := todo - {x};
    }
    r := Sort(collected);
    SortedFacts(collected);
    ListedUnique(r, keys);
  }

  method Union(left: seq<ScopeName>, right: seq<ScopeName>) returns (r: seq<Scope>)
    ensures r == Listed(Denoted(left) + Denoted(right))
  {
    var keys: set<Scope> := {};
    for i := 0 to |left|
      invariant keys == Denoted(left[..i])
    {
      if left[i].Known? {
        keys := keys + {left[i].scope};
      }
      DenotedStep(left, i);
    }
    assert left[..|left|] == left && right[..0] == [];
    for i := 0 to |right|
      invariant keys == Denoted(left) + Denoted(right[..i])
    {
      if right[i].Known? {
        keys := keys + {right[i].scope};
      }
      DenotedStep(right, i);
    }
    assert right[..|right|] == right;
    r := SortedSet(keys);
  }

  lemma DenotedStep(names: seq<ScopeName>, i: nat)
    requires i < |names|
    ensures Denoted(names[..i + 1]) ==
            Denoted(names[..i]) + (if names[i].Known? then {names[i].scope} else {})
  {
    var longer, shorter := names[..i + 1], names[..i];
    forall s
      ensures s in Denoted(longer) <==>
              s in Denoted(shorter) + (if names[i].Known? then {names[i].scope} else {})
    {
      if s in Denoted(shorter) {
        var k :| 0 <= k < |shorter| && shorter[k].Known? && shorter[k].scope == s;
        assert longer[k] == shorter[k];
      }
      if names[i].Known? && s == names[i].scope {
        assert longer[i] == names[i];
      }
      if s in Denoted(longer) {
        var k :| 0 <= k < |longer| && longer[k].Known? && longer[k].scope == s;
        assert k < i ==> shorter[k] == longer[k];
      }
    }
  }

  method Intersection(left: seq<ScopeName>, right: seq<ScopeName>) returns (r: seq<Scope>)
    ensures r == Listed(Denoted(left) * Denoted(right))
  {
    var allowed := set x | x in right;
    assert forall s: Scope :: Known(s) in allowed <==> s in Denoted(right);
    var keys: set<Scope> := {};
    for i := 0 to |left|
      invariant keys == Denoted(left[..i]) * Denoted(right)
    {
      if left[i].Known? && left[i] in allowed {
        keys := keys + {left[i].scope};
      }
      DenotedStep(left, i);
    }
    assert left[..|left|] == left;
    r := SortedSet(keys);
  }

  method Difference(left: seq<ScopeName>, right: seq<ScopeName>) returns (r: seq<Scope>)
    ensures r == Listed(Denoted(left) - Denoted(right))
  {
    var present := set x | x in right;
    assert forall s: Scope :: Known(s) in present <==> s in Denoted(right);
    var keys: set<Scope> := {};
    for i := 0 to |left|
      invariant keys == Denoted(left[..i]) - Denoted(right)
    {
      if left[i].Known? && left[i] !in present {
        keys := keys + {left[i].scope};
      }
      DenotedStep(left, i);
    }
    assert left[..|left|] == left;
    r := SortedSet(keys);
  }
}
