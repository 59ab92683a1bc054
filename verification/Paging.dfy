/**
 Keyset pages with one look-ahead row (consent.go, application.go): following the texts of the
 next cursors over a fixed table visits every row exactly once, in order, exactly when the rows
 those cursors are made of can be named.
 */
module Paging {
  import opened Schema
  import opened Cursor
  import GrantCursor
  import Rfc3339
  import Base64

  // ----- Pages -----

  /** A table as ORDER BY lists it: the i-th row comes before exactly the later ones. */
  predicate Listed<R>(table: seq<R>, before: (R, R) -> bool) {
    forall i, j :: 0 <= i < |table| && 0 <= j < |table| ==> (before(table[i], table[j]) <==> i < j)
  }

  /** WHERE the cursor comes before the row. */
  function After<R>(table: seq<R>, before: (R, R) -> bool, cursor: Option<R>): (rows: seq<R>)
    ensures |rows| <= |table|
  {
    if table == [] then []
    else
      var rest := After(table[1..], before, cursor);
      if cursor.None? || before(cursor.value, table[0]) then [table[0]] + rest else rest
  }

  function Take<R>(rows: seq<R>, n: nat): seq<R> {
    if |rows| <= n then rows else rows[..n]
  }

  lemma {:induction false} AfterAll<R>(table: seq<R>, before: (R, R) -> bool)
    ensures After(table, before, None) == table
  {
    if table != [] { AfterAll(table[1..], before); }
  }

  lemma {:induction false} AfterNothing<R>(table: seq<R>, before: (R, R) -> bool, cursor: R)
    requires forall i :: 0 <= i < |table| ==> before(cursor, table[i])
    ensures After(table, before, Some(cursor)) == table
  {
    if table != [] { AfterNothing(table[1..], before, cursor); }
  }

  lemma ListedTail<R>(table: seq<R>, before: (R, R) -> bool)
    requires Listed(table, before) && table != []
    ensures Listed(table[1..], before)
  {
    var rest := table[1..];
    forall i, j | 0 <= i < |rest| && 0 <= j < |rest|
      ensures before(rest[i], rest[j]) <==> i < j
    {
      assert rest[i] == table[i + 1] && rest[j] == table[j + 1];
    }
  }

  /** The rows after the i-th row are the rest of the list. */
  lemma {:induction false} AfterRow<R>(table: seq<R>, before: (R, R) -> bool, i: nat)
    requires Listed(table, before) && i < |table|
    ensures After(table, before, Some(table[i])) == table[i + 1..]
  {
    assert !before(table[i], table[0]);
    if i == 0 {
      assert forall j :: 0 <= j < |table[1..]| ==> before(table[0], table[1..][j]);
      AfterNothing(table[1..], before, table[0]);
    } else {
      ListedTail(table, before);
      AfterRow(table[1..], before, i - 1);
    }
  }

  // ----- Following the cursors -----

  datatype Codec<!R> = Codec(encode: R -> string, decode: string -> Decoded<R>)

  datatype End = Finished | Rejected | Unfinished

  /** What a client that follows the cursors is shown, and how it ends. */
  datatype Visit<R> = Visit(shown: seq<R>, end: End)

  /**
   At most `pages` requests from cursor text `raw`. Each reads up to `fetch` rows, shows `limit` of them
   and, when it read more, answers with the text of the last one shown. No text means no further page.
   */
  function Follow<R>(codec: Codec<R>, before: (R, R) -> bool, table: seq<R>, raw: string, limit: nat, fetch: nat,
                     pages: nat): Visit<R>
    requires limit >= 1
    decreases pages
  {
    if pages == 0 then Visit([], Unfinished)
    else
      var from := codec.decode(raw);
      if from.Invalid? then Visit([], Rejected)
      else
        var rows := Take(After(table, before, if from.At? then Some(from.position) else None), fetch);
        if |rows| <= limit then Visit(rows, Finished)
        else
          var next := codec.encode(rows[limit - 1]);
          if next == "" then Visit(rows[..limit], Finished)
          else
            var rest := Follow(codec, before, table, next, limit, fetch, pages - 1);
            Visit(rows[..limit] + rest.shown, rest.end)
  }

  /** An encoded row is read back as that row or refused; the empty text is the beginning. */
  ghost predicate Honest<R(!new)>(codec: Codec<R>) {
    && codec.decode("") == Beginning
    && forall r: R ::
         codec.encode(r) == "" || codec.decode(codec.encode(r)) == At(r) || codec.decode(codec.encode(r)) == Invalid
  }

  predicate Names<R(==)>(codec: Codec<R>, r: R) {
    codec.encode(r) != "" && codec.decode(codec.encode(r)) == At(r)
  }

  /** The last row of every page that is not the last one has this property. */
  predicate CursorRows<R>(table: seq<R>, done: nat, limit: nat, holds: R -> bool)
    requires limit >= 1 && done <= |table|
    decreases |table| - done
  {
    done + limit < |table| ==> holds(table[done + limit - 1]) && CursorRows(table, done + limit, limit, holds)
  }

  lemma {:induction false} AllRowsHold<R(!new)>(table: seq<R>, done: nat, limit: nat, holds: R -> bool)
    requires limit >= 1 && done <= |table| && forall r :: r in table ==> holds(r)
    ensures CursorRows(table, done, limit, holds)
    decreases |table| - done
  {
    if done + limit < |table| { AllRowsHold(table, done + limit, limit, holds); }
  }

  /** The text names the place in the list before which `done` rows lie. */
  predicate NamesPlace<R(==)>(codec: Codec<R>, table: seq<R>, raw: string, done: nat)
    requires done <= |table|
  {
    if done == 0 then codec.decode(raw) == Beginning else codec.decode(raw) == At(table[done - 1])
  }

  lemma RowsFrom<R>(codec: Codec<R>, before: (R, R) -> bool, table: seq<R>, raw: string, done: nat)
    requires Listed(table, before) && done <= |table| && NamesPlace(codec, table, raw, done)
    ensures var from := codec.decode(raw);
      After(table, before, if from.At? then Some(from.position) else None) == table[done..]
  {
    if done == 0 {
      AfterAll(table, before);
    } else {
      AfterRow(table, before, done - 1);
    }
  }

  /** One request. */
  lemma FollowStep<R>(codec: Codec<R>, before: (R, R) -> bool, table: seq<R>, raw: string, done: nat, limit: nat,
                      pages: nat)
    requires Listed(table, before) && limit >= 1 && done <= |table| && pages >= 1
    requires NamesPlace(codec, table, raw, done)
    ensures Follow(codec, before, table, raw, limit, limit + 1, pages) ==
      if done + limit >= |table| then Visit(table[done..], Finished)
      else
        var next := codec.encode(table[done + limit - 1]);
        if next == "" then Visit(table[done..done + limit], Finished)
        else
          var rest := Follow(codec, before, table, next, limit, limit + 1, pages - 1);
          Visit(table[done..done + limit] + rest.shown, rest.end)
  {
    hide After, Listed;
    RowsFrom(codec, before, table, raw, done);
    var rows := Take(table[done..], limit + 1);
    if done + limit < |table| {
      assert rows[limit - 1] == table[done + limit - 1] && rows[..limit] == table[done..done + limit];
    }
  }

  /** What the rest of the visit adds completes the table exactly when it is the rest of the table. */
  lemma RestCompletes<R>(table: seq<R>, done: nat, mid: nat, rest: Visit<R>)
    requires done <= mid < |table|
    ensures Visit(table[done..mid] + rest.shown, rest.end) == Visit(table[done..], Finished) <==>
            rest == Visit(table[mid..], Finished)
  {
    var first := table[done..mid];
    assert table[done..] == first + table[mid..];
    if first + rest.shown == first + table[mid..] {
      assert rest.shown == (first + rest.shown)[|first|..] && table[mid..] == (first + table[mid..])[|first|..];
    }
  }

  /**
   With a look-ahead row, following the texts shows the rest of the table and then ends, exactly when
   every row that becomes a cursor is named by its text.
   */
  lemma {:induction false} FollowExactly<R(!new)>(codec: Codec<R>, before: (R, R) -> bool, table: seq<R>, raw: string,
                                                  done: nat, limit: nat, pages: nat, holds: R -> bool)
    requires Listed(table, before) && Honest(codec) && limit >= 1 && done <= |table| && pages > |table| - done
    requires NamesPlace(codec, table, raw, done)
    requires forall r :: r in table ==> (holds(r) <==> Names(codec, r))
    ensures Follow(codec, before, table, raw, limit, limit + 1, pages) == Visit(table[done..], Finished) <==>
            CursorRows(table, done, limit, holds)
    decreases pages
  {
    hide Listed, Honest, Follow;
    FollowStep(codec, before, table, raw, done, limit, pages);
    if done + limit < |table| {
      var last := table[done + limit - 1];
      LastRow(codec, last);
      var next := codec.encode(last);
      if next == "" {
        assert |table[done..done + limit]| < |table[done..]|;
      } else {
        RestCompletes(table, done, done + limit, Follow(codec, before, table, next, limit, limit + 1, pages - 1));
        if codec.decode(next) == At(last) {
          FollowExactly(codec, before, table, next, done + limit, limit, pages - 1, holds);
        } else {
          RefusedAtOnce(codec, before, table, next, limit, limit + 1, pages - 1);
        }
      }
    }
  }

  lemma RefusedAtOnce<R>(codec: Codec<R>, before: (R, R) -> bool, table: seq<R>, raw: string, limit: nat, fetch: nat,
                         pages: nat)
    requires limit >= 1 && pages >= 1 && codec.decode(raw) == Invalid
    ensures Follow(codec, before, table, raw, limit, fetch, pages) == Visit([], Rejected)
  {
  }

  lemma LastRow<R(!new)>(codec: Codec<R>, r: R)
    requires Honest(codec)
    ensures codec.encode(r) == "" || codec.decode(codec.encode(r)) == At(r) || codec.decode(codec.encode(r)) == Invalid
  {
  }

  // ----- Grants -----

  /** boundedRepositoryPageLimit. */
  function GrantFetch(limit: int): nat {
    if limit < 1 then 1 else if limit > 101 then 101 else limit
  }

  type Json = seq<Base64.Byte> -> Option<GrantCursor.Wire>

  function GrantCodec(json: Json): Codec<GrantCursor.GrantPosition> {
    Codec(p => GrantCursor.Encode(p), raw => GrantCursor.Decode(json, raw))
  }

  /** Newest first, then by client id in the order the database collates texts. */
  function GrantOrder(collates: (string, string) -> bool)
    : (GrantCursor.GrantPosition, GrantCursor.GrantPosition) -> bool
  {
    (a: GrantCursor.GrantPosition, b: GrantCursor.GrantPosition) =>
      a.updatedAt > b.updatedAt || (a.updatedAt == b.updatedAt && collates(b.clientId, a.clientId))
  }

  /** What a grant needs for its place in the list to have a cursor that is read back. */
  predicate HasCursor(p: GrantCursor.GrantPosition) {
    && p.updatedAt != 0 && GrantCursor.ValidClientId(p.clientId)
    && 0 <= Rfc3339.Year(p.updatedAt) <= 9999 && |GrantCursor.Encode(p)| <= GrantCursor.MAX_TEXT
  }

  lemma GrantCodecExact(json: Json, p: GrantCursor.GrantPosition)
    requires GrantCursor.Faithful(json)
    ensures Names(GrantCodec(json), p) <==> HasCursor(p)
    ensures GrantCursor.Encode(p) == "" || GrantCursor.Decode(json, GrantCursor.Encode(p)) in {At(p), Invalid}
  {
    hide GrantCursor.Encode, GrantCursor.Decode, GrantCursor.ValidClientId, GrantCursor.Faithful, Rfc3339.Year;
    GrantCursor.EmptyExactly(p);
    if p.updatedAt != 0 && GrantCursor.ValidClientId(p.clientId) {
      GrantCursor.RoundTripExactly(json, p);
    }
  }

  lemma GrantCodecHonest(json: Json)
    requires GrantCursor.Faithful(json)
    ensures Honest(GrantCodec(json))
  {
    hide GrantCursor.Encode, GrantCursor.ValidClientId, GrantCursor.Faithful;
    forall p: GrantCursor.GrantPosition
      ensures GrantCursor.Encode(p) == "" || GrantCursor.Decode(json, GrantCursor.Encode(p)) in {At(p), Invalid}
    {
      GrantCodecExact(json, p);
    }
  }

  /**
   Grants: for every limit the service accepts, following the cursor texts shows each grant exactly once
   and in order, and ends, if and only if every grant that ends a page has a cursor.
   */
  lemma GrantPagesVisitAllExactly(json: Json, collates: (string, string) -> bool, table: seq<GrantCursor.GrantPosition>,
                                  limit: nat)
    requires GrantCursor.Faithful(json) && 1 <= limit <= 100 && Listed(table, GrantOrder(collates))
    ensures Follow(GrantCodec(json), GrantOrder(collates), table, "", limit, GrantFetch(limit + 1), |table| + 1) ==
            Visit(table, Finished)
       <==> CursorRows(table, 0, limit, p => HasCursor(p))
  {
    hide GrantCursor.Faithful, Listed, Honest, Names, HasCursor, GrantOrder, Follow;
    GrantCodecHonest(json);
    forall p | p in table
      ensures HasCursor(p) <==> Names(GrantCodec(json), p)
    {
      GrantCodecExact(json, p);
    }
    FollowExactly(GrantCodec(json), GrantOrder(collates), table, "", 0, limit, |table| + 1, p => HasCursor(p));
    assert table[0..] == table;
  }

  /** Every grant of a registered client last changed in the years 0 to 9999 has one, so all such grants are shown. */
  lemma GrantPagesVisitAll(json: Json, collates: (string, string) -> bool, table: seq<GrantCursor.GrantPosition>,
                           limit: nat)
    requires GrantCursor.Faithful(json) && 1 <= limit <= 100 && Listed(table, GrantOrder(collates))
    requires forall p :: p in table ==>
      && p.updatedAt != 0 && 0 <= Rfc3339.Year(p.updatedAt) <= 9999
      && exists raw: seq<Base64.Byte> :: |raw| == 24 && p.clientId == GrantCursor.ClientId(raw)
    ensures Follow(GrantCodec(json), GrantOrder(collates), table, "", limit, GrantFetch(limit + 1), |table| + 1) ==
            Visit(table, Finished)
  {
    hide GrantCursor.Faithful, Listed, Rfc3339.Year, GrantCursor.ClientId, GrantCursor.Encode, GrantCursor.Decode,
         Follow;
    hide GrantCursor.ValidClientId, GrantOrder;
    forall p | p in table
      ensures HasCursor(p)
    {
      var raw: seq<Base64.Byte> :| |raw| == 24 && p.clientId == GrantCursor.ClientId(raw);
      GrantCursor.RegisteredRoundTrip(json, p.updatedAt, raw);
      GrantCodecExact(json, p);
    }
    AllRowsHold(table, 0, limit, p => HasCursor(p));
    GrantPagesVisitAllExactly(json, collates, table, limit);
  }

  /** A grant that cannot be encoded ends the list without an error after its page, whatever follows. */
  lemma GrantListEndsSilently(json: Json, collates: (string, string) -> bool, table: seq<GrantCursor.GrantPosition>,
                              limit: nat)
    requires 1 <= limit <= 100 && |table| > limit && Listed(table, GrantOrder(collates))
    requires table[limit - 1].updatedAt == 0 || !GrantCursor.ValidClientId(table[limit - 1].clientId)
    ensures Follow(GrantCodec(json), GrantOrder(collates), table, "", limit, GrantFetch(limit + 1), |table| + 1) ==
            Visit(table[..limit], Finished)
  {
    hide Listed, GrantCursor.ValidClientId, GrantCursor.Encode, GrantOrder, Follow;
    GrantCursor.EmptyExactly(table[limit - 1]);
    FollowStep(GrantCodec(json), GrantOrder(collates), table, "", 0, limit, |table| + 1);
    assert table[0..limit] == table[..limit];
  }

  // ----- Administrative lists -----

  /** pagination.Limit, which postgresPageLimit also applies to the service's limit + 1. */
  function Limit(requested: int): nat {
    if requested <= 0 then 20 else if requested > 100 then 100 else requested
  }

  function AdminText(p: Position): string {
    if Encodable(p) then Text(p) else ""
  }

  const ADMIN: Codec<Position> := Codec(p => AdminText(p), raw => Decode(raw))

  /** Newest first, then by id. */
  predicate Newer(a: Position, b: Position) {
    a.nanos > b.nanos || (a.nanos == b.nanos && FromBigEndian(a.id) > FromBigEndian(b.id))
  }

  lemma AdminCodecExact(p: Position)
    requires Encodable(p)
    ensures Text(p) != "" && (if Acceptable(p) then Decode(Text(p)) == At(p) else Decode(Text(p)) == Invalid)
  {
    hide Base64.Encode, Acceptable, Decode;
    Base64.EncodeLength(Payload(p));
    DecodeExact(Text(p), p);
    if !Acceptable(p) {
      UnacceptableRefused(p);
    }
  }

  lemma UnacceptableRefused(p: Position)
    requires Encodable(p) && !Acceptable(p)
    ensures Decode(Text(p)) == Invalid
  {
    hide BigEndian, FromBigEndian, Base64.Encode, Base64.Decode;
    Base64.RoundTrip(Payload(p));
    Base64.EncodeLength(Payload(p));
    PayloadParts(p);
  }

  lemma AdminHonest()
    ensures Honest(ADMIN)
  {
    hide Encodable, Text, Acceptable;
    forall p: Position
      ensures AdminText(p) == "" || Decode(AdminText(p)) in {At(p), Invalid}
    {
      if Encodable(p) { AdminCodecExact(p); }
    }
  }

  /**
   Administrative lists, over rows with 16-byte ids and 64-bit times. Below limit 100 the walk shows every
   row and ends if and only if every row that ends a page is from 2000 on and has a non-nil id. At limit 100
   the clamp takes the look-ahead row away: the walk ends after the first page, so it is complete if and only
   if the table has at most 100 rows.
   */
  lemma AdminPagesVisitAllExactly(table: seq<Position>, limit: nat)
    requires Listed(table, (a, b) => Newer(a, b)) && 1 <= limit <= 100 && forall p :: p in table ==> Encodable(p)
    ensures var visit := Follow(ADMIN, (a, b) => Newer(a, b), table, "", limit, Limit(limit + 1), |table| + 1);
      && (visit == Visit(table, Finished) <==>
          if limit < 100 then CursorRows(table, 0, limit, p => Acceptable(p)) else |table| <= 100)
      && (limit == 100 ==> visit == Visit(Take(table, 100), Finished))
  {
    hide Listed, Honest, Encodable, Acceptable, Text, Newer;
    assert table[0..] == table;
    AdminHonest();
    if limit < 100 {
      forall p | p in table
        ensures Acceptable(p) <==> Names(ADMIN, p)
      {
        AdminCodecExact(p);
      }
      FollowExactly(ADMIN, (a, b) => Newer(a, b), table, "", 0, limit, |table| + 1, p => Acceptable(p));
    } else {
      RowsFrom(ADMIN, (a, b) => Newer(a, b), table, "", 0);
    }
  }

  /** 101 rows a nanosecond apart. */
  const TABLE_OF_101: seq<Position> :=
    seq(101, i requires 0 <= i < 101 => Position(YEAR_2000 + 101 - i, seq(16, _ => 1)))

  /** At limit 100 a list of 101 acceptable rows never shows the last one; at limit 99 it does. */
  lemma LastOf101(limit: nat)
    requires limit == 99 || limit == 100
    ensures var visit := Follow(ADMIN, (a, b) => Newer(a, b), TABLE_OF_101, "", limit, Limit(limit + 1), 102);
      visit == Visit(if limit == 99 then TABLE_OF_101 else TABLE_OF_101[..100], Finished)
  {
    hide Follow, Decode, Text;
    var table := TABLE_OF_101;
    assert forall i, j :: 0 <= i < 101 && 0 <= j < 101 ==> (Newer(table[i], table[j]) <==> i < j);
    forall p | p in table
      ensures Encodable(p) && Acceptable(p)
    {
      assert p.id[0] == 1;
    }
    AllRowsHold(table, 0, limit, p => Acceptable(p));
    AdminPagesVisitAllExactly(table, limit);
  }
}
