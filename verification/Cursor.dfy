/** Opaque page cursors and the walk along them (src/common/cursor.ts). A cursor is the decimal
    offset in the URL-safe base64 of section 5 of RFC 4648, without padding. */
module Cursor {
  import opened Wrappers

  type Byte = b: nat | b < 256

  type Sextet = v: nat | v < 64

  // ---- base64url ----

  function ToChar(v: Sextet): char {
    if v < 26 then 'A' + v as char
    else if v < 52 then 'a' + (v - 26) as char
    else if v < 62 then '0' + (v - 52) as char
    else if v == 62 then '-' else '_'
  }

  /** The decoder takes the characters of both alphabets. */
  function FromChar(c: char): Option<Sextet> {
    if 'A' <= c <= 'Z' then Some((c - 'A') as nat)
    else if 'a' <= c <= 'z' then Some((c - 'a') as nat + 26)
    else if '0' <= c <= '9' then Some((c - '0') as nat + 52)
    else if c == '-' || c == '+' then Some(62)
    else if c == '_' || c == '/' then Some(63)
    else None
  }

  function ToSextets(s: seq<Byte>): seq<Sextet> {
    if |s| == 0 then []
    else if |s| == 1 then [s[0] / 4, s[0] % 4 * 16]
    else if |s| == 2 then [s[0] / 4, s[0] % 4 * 16 + s[1] / 16, s[1] % 16 * 4]
    else [s[0] / 4, s[0] % 4 * 16 + s[1] / 16, s[1] % 16 * 4 + s[2] / 64, s[2] % 64] + ToSextets(s[3..])
  }

  function ToBytes(s: seq<Sextet>): seq<Byte> {
    if |s| <= 1 then []
    else if |s| == 2 then [High(s[0], s[1])]
    else if |s| == 3 then [High(s[0], s[1]), Middle(s[1], s[2])]
    else [High(s[0], s[1]), Middle(s[1], s[2]), Low(s[2], s[3])] + ToBytes(s[4..])
  }

  /** Four sextets a, b, c, d hold three bytes: (a, b), (b, c) and (c, d). */
  function High(a: nat, b: nat): Byte
    requires a < 64 && b < 64
  {
    a * 4 + b / 16
  }

  function Middle(b: nat, c: nat): Byte
    requires b < 64 && c < 64
  {
    b % 16 * 16 + c / 4
  }

  function Low(c: nat, d: nat): Byte
    requires c < 64 && d < 64
  {
    c % 4 * 64 + d
  }

  function Encode(s: seq<Byte>): string {
    var v := ToSextets(s);
    seq(|v|, i requires 0 <= i < |v| => ToChar(v[i]))
  }

  /** Characters outside the alphabets are skipped; a '=' ends the text. */
  function Sextets(raw: string): seq<Sextet> {
    if raw == "" || raw[0] == '=' then []
    else
      var v := FromChar(raw[0]);
      (if v.Some? then [v.value] else []) + Sextets(raw[1..])
  }

  function Decode(raw: string): seq<Byte> {
    ToBytes(Sextets(raw))
  }

  lemma CharRoundTrip(v: Sextet)
    ensures FromChar(ToChar(v)) == Some(v) && ToChar(v) != '='
  {
  }

  lemma {:induction false} SextetsRoundTrip(v: seq<Sextet>, raw: string)
    requires |raw| == |v| && forall i :: 0 <= i < |v| ==> raw[i] == ToChar(v[i])
    ensures Sextets(raw) == v
  {
    if v != [] {
      CharRoundTrip(v[0]);
      SextetsRoundTrip(v[1..], raw[1..]);
    }
  }

  lemma {:induction false} BytesRoundTrip(s: seq<Byte>)
    ensures ToBytes(ToSextets(s)) == s
  {
    if |s| >= 3 {
      var v := ToSextets(s);
      assert v[4..] == ToSextets(s[3..]);
      BytesRoundTrip(s[3..]);
      assert High(v[0], v[1]) == s[0] && Middle(v[1], v[2]) == s[1] && Low(v[2], v[3]) == s[2];
      assert s == [s[0], s[1], s[2]] + s[3..];
    }
  }

  lemma Base64RoundTrip(s: seq<Byte>)
    ensures Decode(Encode(s)) == s
  {
    SextetsRoundTrip(ToSextets(s), Encode(s));
    BytesRoundTrip(s);
  }

  /** The table of RFC 4648, section 5: three ranges without a gap, and two characters more. */
  lemma AlphabetIs(v: Sextet)
    ensures ToChar(0) == 'A' && ToChar(26) == 'a' && ToChar(52) == '0' && ToChar(62) == '-' && ToChar(63) == '_'
    ensures v !in {25, 51, 61, 62, 63} ==> ToChar(v + 1) == ToChar(v) + 1 as char
  {
  }

  /** The sextets are the bits of the bytes, most significant first, the last ones filled with zeros. */
  lemma BitsKept(s: seq<Byte>)
    ensures var v := ToSextets(s);
            if |s| == 0 then v == []
            else if |s| == 1 then |v| == 2 && Join(v[0], v[1]) == s[0] as int * 16
            else if |s| == 2 then |v| == 3 && Join(Join(v[0], v[1]), v[2]) == (s[0] as int * 256 + s[1]) * 4
            else |v| >= 4 && Join(Join(Join(v[0], v[1]), v[2]), v[3]) == (s[0] as int * 256 + s[1]) * 256 + s[2]
                 && v[4..] == ToSextets(s[3..])
  {
  }

  /** One sextet after the bits so far. */
  function Join(bits: nat, v: nat): nat {
    bits * 64 + v
  }

  // ---- offsets ----

  /** String(n), as bytes. */
  function Decimal(n: nat): seq<Byte> {
    if n < 10 then [48 + n] else Decimal(n / 10) + [48 + n % 10]
  }

  /** Number() of a text of digits; of an empty text it is 0. */
  function ParseNumber(s: seq<Byte>): Option<nat> {
    if s == [] then Some(0)
    else
      var before, d := ParseNumber(s[..|s| - 1]), s[|s| - 1];
      if before.Some? && 48 <= d <= 57 then Some(before.value * 10 + (d - 48)) else None
  }

  datatype BadCursor = BadCursor

  function EncodeCursor(offset: nat): string {
    Encode(Decimal(offset))
  }

  function DecodeCursor(raw: string): Result<nat, BadCursor> {
    match ParseNumber(Decode(raw))
    case Some(offset) => Ok(offset)
    case None => Err(BadCursor)
  }

  lemma {:induction false} DecimalRoundTrip(n: nat)
    ensures ParseNumber(Decimal(n)) == Some(n)
  {
    if n >= 10 {
      DecimalRoundTrip(n / 10);
      assert Decimal(n)[..|Decimal(n)| - 1] == Decimal(n / 10);
    } else {
      assert Decimal(n)[..0] == [];
    }
  }

  /** Every cursor the server issues decodes to its offset, so no two offsets share one. */
  lemma CursorRoundTrip(offset: nat)
    ensures DecodeCursor(EncodeCursor(offset)) == Ok(offset) && EncodeCursor(offset) != ""
  {
    Base64RoundTrip(Decimal(offset));
    DecimalRoundTrip(offset);
  }

  lemma {:induction false} ParsesDigits(s: seq<Byte>)
    ensures ParseNumber(s).Some? <==> forall i :: 0 <= i < |s| ==> 48 <= s[i] <= 57
  {
    if s != [] {
      ParsesDigits(s[..|s| - 1]);
    }
  }

  // ---- pages ----

  datatype Page<T> = Page(items: seq<T>, next: Option<string>)

  /** Array.slice: a negative end counts from the back. */
  function Slice<T>(all: seq<T>, start: nat, end: int): seq<T> {
    var from := if start < |all| then start else |all|;
    var to := if end < 0 then (if |all| + end < 0 then 0 else |all| + end) else if end < |all| then end else |all|;
    if from < to then all[from..to] else []
  }

  function NextCursor(offset: nat, length: nat): Option<string> {
    if offset < length then Some(EncodeCursor(offset)) else None
  }

  function Paginate<T>(all: seq<T>, limit: int, cursor: Option<string>): Result<Page<T>, BadCursor> {
    var offset := if cursor.None? || cursor.value == "" then Ok(0) else DecodeCursor(cursor.value);
    match offset
    case Err(e) => Err(e)
    case Ok(o) =>
      var items := Slice(all, o, o + limit);
      Ok(Page(items, NextCursor(o + |items|, |all|)))
  }

  lemma PageAt<T>(all: seq<T>, limit: int, offset: nat, cursor: Option<string>)
    requires cursor == Some(EncodeCursor(offset)) || (cursor == None && offset == 0)
    ensures var items := Slice(all, offset, offset + limit);
            Paginate(all, limit, cursor) == Ok(Page(items, NextCursor(offset + |items|, |all|)))
  {
    CursorRoundTrip(offset);
  }

  /** A request is refused exactly when its cursor is not empty and does not decode to digits. */
  lemma RefusedIff<T>(all: seq<T>, limit: int, raw: string)
    ensures Paginate(all, limit, None).Ok?
    ensures Paginate(all, limit, Some(raw)).Err? <==>
              raw != "" && exists i :: 0 <= i < |Decode(raw)| && !(48 <= Decode(raw)[i] <= 57)
  {
    ParsesDigits(Decode(raw));
  }

  // ---- walking ----

  /** One request: what the list held at that moment, and the page it gave. */
  datatype Visit<T> = Visit(list: seq<T>, page: Page<T>)

  /** The cursor to ask with after these visits. */
  function CursorAfter<T>(visits: seq<Visit<T>>): Option<string> {
    if visits == [] then None else visits[|visits| - 1].page.next
  }

  /** A client that starts without a cursor and follows next_cursor. Between two visits items may
      be appended to the list. */
  ghost predicate IsWalk<T>(limit: int, visits: seq<Visit<T>>) {
    visits == [] ||
    var before, last := visits[..|visits| - 1], visits[|visits| - 1];
    && IsWalk(limit, before)
    && (before != [] ==> CursorAfter(before).Some? && before[|before| - 1].list <= last.list)
    && Paginate(last.list, limit, CursorAfter(before)) == Ok(last.page)
  }

  function Items<T>(visits: seq<Visit<T>>): seq<T> {
    if visits == [] then [] else Items(visits[..|visits| - 1]) + visits[|visits| - 1].page.items
  }

  lemma SliceIs<T>(list: seq<T>, start: nat, limit: int)
    requires start <= |list| && limit >= 1
    ensures Slice(list, start, start + limit) == if start + limit < |list| then list[start..start + limit] else list[start..]
  {
  }

  /** The page asked for after `read` items continues them. */
  lemma NextPage<T>(list: seq<T>, limit: int, read: seq<T>, cursor: Option<string>)
    requires limit >= 1 && read <= list
    requires cursor == Some(EncodeCursor(|read|)) || (cursor == None && read == [])
    ensures Paginate(list, limit, cursor).Ok?
    ensures var page := Paginate(list, limit, cursor).value;
            && read + page.items <= list && page.next == NextCursor(|read + page.items|, |list|)
            && (page.next.Some? ==> |page.items| == limit)
  {
    hide Paginate, EncodeCursor, Slice;
    PageAt(list, limit, |read|, cursor);
    SliceIs(list, |read|, limit);
    var page := Paginate(list, limit, cursor).value;
    assert read + page.items == list[..|read| + |page.items|];
  }

  /** At every moment of a walk the items read are a prefix of the list, and the next cursor
      stands for exactly what is left. */
  lemma {:induction false} WalkReads<T>(limit: int, visits: seq<Visit<T>>)
    requires IsWalk(limit, visits) && visits != [] && limit >= 1
    ensures var read, last := Items(visits), visits[|visits| - 1];
            && read <= last.list && last.page.next == NextCursor(|read|, |last.list|)
            && (last.page.next.Some? ==> |read| == limit * |visits|)
  {
    hide Paginate, EncodeCursor;
    var before, last := visits[..|visits| - 1], visits[|visits| - 1];
    if before != [] {
      WalkReads(limit, before);
      assert limit * |visits| == limit * |before| + limit;
    }
    NextPage(last.list, limit, Items(before), CursorAfter(before));
  }

  /** A walk that ends has read the whole list, each item exactly once and in order; what was
      there when it began comes first, whatever was appended meanwhile. */
  lemma EndedWalkReadsAll<T>(limit: int, visits: seq<Visit<T>>)
    requires IsWalk(limit, visits) && visits != [] && limit >= 1 && CursorAfter(visits).None?
    ensures Items(visits) == visits[|visits| - 1].list && visits[0].list <= Items(visits)
  {
    WalkReads(limit, visits);
    FirstIsPrefix(limit, visits);
  }

  lemma {:induction false} FirstIsPrefix<T>(limit: int, visits: seq<Visit<T>>)
    requires IsWalk(limit, visits) && visits != []
    ensures visits[0].list <= visits[|visits| - 1].list
  {
    if |visits| > 1 {
      FirstIsPrefix(limit, visits[..|visits| - 1]);
    }
  }

  // ---- does a walk end? ----

  predicate Unchanged<T(==)>(list: seq<T>, visits: seq<Visit<T>>) {
    forall i :: 0 <= i < |visits| ==> visits[i].list == list
  }

  /** The client has walked `visits`, through whatever appends, and may ask for another page of what
      is now `list`. */
  ghost predicate Underway<T>(list: seq<T>, limit: int, visits: seq<Visit<T>>) {
    IsWalk(limit, visits) && (visits != [] ==> CursorAfter(visits).Some? && visits[|visits| - 1].list <= list)
  }

  /** `more` brings the walk to its end, the list staying as it is. */
  ghost predicate EndedBy<T>(list: seq<T>, limit: int, visits: seq<Visit<T>>, more: seq<Visit<T>>) {
    more != [] && Unchanged(list, more) && IsWalk(limit, visits + more) && CursorAfter(more).None?
  }

  ghost predicate Ends<T(!new)>(list: seq<T>, limit: int, visits: seq<Visit<T>>) {
    exists more :: EndedBy(list, limit, visits, more)
  }

  lemma WalkOn<T>(list: seq<T>, limit: int, visits: seq<Visit<T>>, page: Page<T>)
    requires Underway(list, limit, visits) && Paginate(list, limit, CursorAfter(visits)) == Ok(page)
    ensures IsWalk(limit, visits + [Visit(list, page)])
  {
    assert (visits + [Visit(list, page)])[..|visits|] == visits;
  }

  /** The next page; unless it is the last, the pages so far have read `limit` items each. */
  lemma NextVisit<T>(list: seq<T>, limit: int, visits: seq<Visit<T>>) returns (visit: Visit<T>)
    requires Underway(list, limit, visits) && limit >= 1
    ensures visit.list == list && IsWalk(limit, visits + [visit])
    ensures visit.page.next.Some? ==> |visits| < |list|
  {
    hide Paginate, EncodeCursor, IsWalk, NextCursor;
    ReadSoFar(list, limit, visits);
    NextPage(list, limit, Items(visits), CursorAfter(visits));
    visit := Visit(list, Paginate(list, limit, CursorAfter(visits)).value);
    WalkOn(list, limit, visits, visit.page);
    WalkReads(limit, visits + [visit]);
    assert visit.page.next.Some? ==> limit * (|visits| + 1) >= |visits| + 1;
  }

  /** Each further page but the last brings `limit` more items. */
  lemma {:induction false} FinishWalk<T>(list: seq<T>, limit: int, visits: seq<Visit<T>>) returns (more: seq<Visit<T>>)
    requires Underway(list, limit, visits) && limit >= 1
    ensures EndedBy(list, limit, visits, more)
    decreases |list| - |visits|
  {
    hide IsWalk;
    var visit := NextVisit(list, limit, visits);
    if visit.page.next.None? {
      more := [visit];
    } else {
      var rest := FinishWalk(list, limit, visits + [visit]);
      more := [visit] + rest;
      assert visits + more == (visits + [visit]) + rest;
    }
  }

  lemma ReadSoFar<T>(list: seq<T>, limit: int, visits: seq<Visit<T>>)
    requires Underway(list, limit, visits) && limit >= 1
    ensures Items(visits) <= list
    ensures CursorAfter(visits) == if visits == [] then None else Some(EncodeCursor(|Items(visits)|))
  {
    hide Paginate, EncodeCursor;
    if visits != [] {
      WalkReads(limit, visits);
    }
  }

  /** Without a positive limit the offset never reaches the end of the list, even while it grows. */
  lemma {:induction false} StaysBehind<T>(limit: int, visits: seq<Visit<T>>) returns (offset: nat)
    requires IsWalk(limit, visits) && visits != [] && visits[|visits| - 1].list != [] && limit <= 0
    ensures offset < |visits[|visits| - 1].list| && CursorAfter(visits) == Some(EncodeCursor(offset))
  {
    hide Paginate, EncodeCursor;
    var before, last := visits[..|visits| - 1], visits[|visits| - 1];
    var start := 0;
    if before != [] {
      MoreToRead(limit, before);
      start := StaysBehind(limit, before);
    }
    PageAt(last.list, limit, start, CursorAfter(before));
    offset := start + |last.page.items|;
  }

  lemma MoreToRead<T>(limit: int, visits: seq<Visit<T>>)
    requires IsWalk(limit, visits) && visits != [] && CursorAfter(visits).Some?
    ensures visits[|visits| - 1].list != []
  {
  }

  /** From any point of any walk, through whatever appends, following next_cursor comes to an end
      once the list stays as it is, exactly when the limit is positive or there is nothing to read. */
  lemma WalkEndsIff<T(!new)>(list: seq<T>, limit: int, visits: seq<Visit<T>>)
    requires Underway(list, limit, visits)
    ensures Ends(list, limit, visits) <==> limit >= 1 || list == []
  {
    if limit >= 1 {
      var more := FinishWalk(list, limit, visits);
    } else if list == [] {
      if visits != [] {
        MoreToRead(limit, visits);
      }
      PageAt(list, limit, 0, None);
      WalkOn(list, limit, visits, Page([], None));
      var only := [Visit(list, Page([], None))];
      assert visits == [] && CursorAfter(only) == None;
      assert EndedBy(list, limit, visits, only);
    } else {
      forall more: seq<Visit<T>> ensures !EndedBy(list, limit, visits, more) {
        if EndedBy(list, limit, visits, more) {
          assert (visits + more)[|visits + more| - 1] == more[|more| - 1];
          var offset := StaysBehind(limit, visits + more);
        }
      }
    }
  }
}
