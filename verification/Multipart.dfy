/** What a multipart upload holds, what it still lacks, and what assembling it gives
    (src/files/files.service.ts). Storage keeps parts by number, each with the size and the
    ETag of its latest upload. */
module Multipart {
  import opened Limits

  /** One line of a listing. */
  datatype Part = Part(number: nat, size: nat, etag: nat)

  /** Part numbers start at 1 and a listing names each once, in ascending order. */
  predicate Ascending(parts: seq<Part>) {
    && (forall i :: 0 <= i < |parts| ==> parts[i].number >= 1)
    && (forall i, j :: 0 <= i < j < |parts| ==> parts[i].number < parts[j].number)
  }

  // ---- listing by pages ----

  datatype Page = Page(parts: seq<Part>, truncated: bool, nextMarker: nat)

  function After(stored: seq<Part>, marker: nat): seq<Part> {
    if stored != [] && stored[0].number <= marker then After(stored[1..], marker) else stored
  }

  /** ListParts: at most `max` parts with a number above the marker. */
  function ListPage(stored: seq<Part>, marker: nat, max: nat): Page
    requires max >= 1
  {
    var rest := After(stored, marker);
    if |rest| <= max then Page(rest, false, 0) else Page(rest[..max], true, rest[max - 1].number)
  }

  lemma {:induction false} AfterSplit(stored: seq<Part>, done: seq<Part>, rest: seq<Part>, marker: nat)
    requires stored == done + rest
    requires forall i :: 0 <= i < |done| ==> done[i].number <= marker
    requires rest != [] ==> rest[0].number > marker
    ensures After(stored, marker) == rest
  {
    if done != [] {
      assert stored[0] == done[0] && stored[1..] == done[1..] + rest;
      AfterSplit(stored[1..], done[1..], rest, marker);
    }
  }

  /** Where a listing stands: `out` has been read, `rest` lies above the marker. */
  ghost predicate Standing(stored: seq<Part>, out: seq<Part>, rest: seq<Part>, marker: nat) {
    && stored == out + rest && Ascending(stored)
    && (forall i :: 0 <= i < |out| ==> out[i].number <= marker)
    && (rest != [] ==> rest[0].number > marker)
  }

  lemma StandingMoves(stored: seq<Part>, out: seq<Part>, page: seq<Part>, rest: seq<Part>, marker: nat)
    requires Standing(stored, out, page + rest, marker) && page != []
    ensures Standing(stored, out + page, rest, page[|page| - 1].number)
  {
    assert out + (page + rest) == (out + page) + rest;
    var top := |out| + |page| - 1;
    assert stored[top] == page[|page| - 1];
    forall i | 0 <= i < |out + page| ensures (out + page)[i].number <= page[|page| - 1].number {
      assert stored[i] == (out + page)[i];
    }
    if rest != [] {
      assert stored[top + 1] == rest[0];
    }
  }

  lemma PageAt(stored: seq<Part>, out: seq<Part>, rest: seq<Part>, marker: nat, max: nat)
    requires Standing(stored, out, rest, marker) && max >= 1
    ensures ListPage(stored, marker, max)
         == if |rest| <= max then Page(rest, false, 0) else Page(rest[..max], true, rest[max - 1].number)
  {
    AfterSplit(stored, out, rest, marker);
  }

  /** listAllParts: page after page, every stored part exactly once and in order. */
  method ListAllParts(stored: seq<Part>, max: nat) returns (out: seq<Part>)
    requires Ascending(stored) && max >= 1
    ensures out == stored
  {
    hide ListPage;
    out := [];
    var marker := 0;
    ghost var rest := stored;
    while true
      invariant Standing(stored, out, rest, marker)
      decreases |rest|
    {
      PageAt(stored, out, rest, marker, max);
      var page := ListPage(stored, marker, max);
      if !page.truncated {
        out := out + page.parts;
        return;
      }
      assert rest == page.parts + rest[max..];
      StandingMoves(stored, out, page.parts, rest[max..], marker);
      out := out + page.parts;
      marker := page.nextMarker;
      rest := rest[max..];
    }
  }

  // ---- good and missing parts ----

  /** The geometry of one upload. */
  datatype Plan = Plan(size: nat, partSize: nat)

  predicate PlanOk(p: Plan) {
    p.size >= 1 && p.partSize >= 1
  }

  function Total(p: Plan): int
    requires PlanOk(p)
  {
    PartCount(p.size, p.partSize)
  }

  /** A part is there only if it has the length it should: a short one was cut off. */
  predicate Good(p: Plan, part: Part) {
    part.size == PartLength(p.size, p.partSize, part.number)
  }

  predicate Has(p: Plan, parts: seq<Part>, n: int) {
    exists i :: 0 <= i < |parts| && parts[i].number == n && Good(p, parts[i])
  }

  function GoodParts(p: Plan, parts: seq<Part>): seq<Part> {
    if parts == [] then []
    else
      var last := parts[|parts| - 1];
      GoodParts(p, parts[..|parts| - 1]) + (if Good(p, last) then [last] else [])
  }

  function MissingUpTo(p: Plan, parts: seq<Part>, k: nat): seq<nat> {
    if k == 0 then []
    else MissingUpTo(p, parts, k - 1) + (if Has(p, parts, k) then [] else [k])
  }

  lemma {:induction false} GoodPartsMembers(p: Plan, parts: seq<Part>, part: Part)
    ensures part in GoodParts(p, parts) <==> part in parts && Good(p, part)
  {
    if parts != [] {
      GoodPartsMembers(p, parts[..|parts| - 1], part);
      assert parts == parts[..|parts| - 1] + [parts[|parts| - 1]];
    }
  }

  lemma {:induction false} GoodPartsAscend(p: Plan, parts: seq<Part>)
    requires Ascending(parts)
    ensures Ascending(GoodParts(p, parts))
  {
    if parts != [] {
      var before, last := parts[..|parts| - 1], parts[|parts| - 1];
      GoodPartsAscend(p, before);
      var good := GoodParts(p, before);
      forall i | 0 <= i < |good| ensures good[i].number < last.number {
        GoodPartsMembers(p, before, good[i]);
        var j :| 0 <= j < |before| && before[j] == good[i];
        assert parts[j].number < parts[|parts| - 1].number;
      }
    }
  }

  lemma {:induction false} MissingMeans(p: Plan, parts: seq<Part>, k: nat)
    ensures var missing := MissingUpTo(p, parts, k);
            && (forall n :: n in missing <==> 1 <= n <= k && !Has(p, parts, n))
            && (forall i, j :: 0 <= i < j < |missing| ==> missing[i] < missing[j])
  {
    if k > 0 {
      MissingMeans(p, parts, k - 1);
      var before := MissingUpTo(p, parts, k - 1);
      forall i | 0 <= i < |before| ensures before[i] < k {
        assert before[i] in before;
      }
    }
  }

  /** The one stray part that counts as good without belonging to the object: an empty part,
      one past the last, when the parts fill the object exactly. */
  predicate Stray(p: Plan, part: Part)
    requires PlanOk(p)
  {
    part.size == 0 && part.number == Total(p) + 1 && p.size % p.partSize == 0
  }

  lemma GoodInRange(p: Plan, part: Part)
    requires PlanOk(p) && part.number >= 1
    ensures Good(p, part) ==> part.number <= Total(p) || Stray(p, part)
    ensures Stray(p, part) ==> Good(p, part)
  {
    if part.number > Total(p) {
      LengthPastEnd(p.size, p.partSize, part.number);
    }
  }

  /** Good and missing numbers never overlap and leave nothing of 1..total out. They are exactly
      1..total if and only if no stray empty part is stored. */
  lemma GoodAndMissingPartition(p: Plan, parts: seq<Part>)
    requires PlanOk(p) && Ascending(parts)
    ensures var missing := MissingUpTo(p, parts, Total(p));
            && (forall n :: 1 <= n <= Total(p) ==> (Has(p, parts, n) <==> n !in missing))
            && (forall n :: n in missing ==> 1 <= n <= Total(p))
            && ((forall n: nat :: Has(p, parts, n) ==> 1 <= n <= Total(p)) <==> forall part :: part in parts ==> !Stray(p, part))
  {
    MissingMeans(p, parts, Total(p));
    if forall part :: part in parts ==> !Stray(p, part) {
      forall n: nat | Has(p, parts, n) ensures 1 <= n <= Total(p) {
        var i :| 0 <= i < |parts| && parts[i].number == n && Good(p, parts[i]);
        GoodInRange(p, parts[i]);
      }
    } else {
      var part :| part in parts && Stray(p, part);
      GoodInRange(p, part);
      assert Has(p, parts, part.number);
    }
  }

  // ---- assembling ----

  function SumSizes(parts: seq<Part>): nat {
    if parts == [] then 0 else SumSizes(parts[..|parts| - 1]) + parts[|parts| - 1].size
  }

  predicate Listed(parts: seq<Part>, n: int) {
    exists i :: 0 <= i < |parts| && parts[i].number == n
  }

  /** The parts listed are good ones, and of 1..total exactly those up to `k`. */
  ghost predicate CoversUpTo(p: Plan, have: seq<Part>, k: nat)
    requires PlanOk(p)
  {
    && k <= Total(p) && Ascending(have)
    && (forall i :: 0 <= i < |have| ==> Good(p, have[i]) && (have[i].number <= k || have[i].number > Total(p)))
    && (forall n :: 1 <= n <= k ==> Listed(have, n))
  }

  lemma CoverShrinks(p: Plan, have: seq<Part>, k: nat) returns (k': nat)
    requires PlanOk(p) && CoversUpTo(p, have, k) && have != []
    ensures CoversUpTo(p, have[..|have| - 1], k')
    ensures TotalLength(p.size, p.partSize, k) == TotalLength(p.size, p.partSize, k') + have[|have| - 1].size
  {
    var last, before := have[|have| - 1], have[..|have| - 1];
    if last.number > Total(p) {
      GoodInRange(p, last);
      k' := k;
    } else {
      assert Listed(have, k);
      k' := k - 1;
    }
    forall n | 1 <= n <= k' ensures Listed(before, n) {
      assert Listed(have, n);
      var i :| 0 <= i < |have| && have[i].number == n;
      assert before[i] == have[i];
    }
  }

  lemma {:induction false} SumUpTo(p: Plan, have: seq<Part>, k: nat)
    requires PlanOk(p) && CoversUpTo(p, have, k)
    ensures SumSizes(have) == TotalLength(p.size, p.partSize, k)
    decreases |have|
  {
    if have == [] {
      assert k > 0 ==> Listed(have, k);
    } else {
      var k' := CoverShrinks(p, have, k);
      SumUpTo(p, have[..|have| - 1], k');
    }
  }

  /** When no part is missing, what the commit sends is strictly ascending and assembles to
      exactly `size` bytes. */
  lemma AssemblesExactly(p: Plan, parts: seq<Part>)
    requires PlanOk(p) && Ascending(parts) && MissingUpTo(p, parts, Total(p)) == []
    ensures Ascending(GoodParts(p, parts)) && SumSizes(GoodParts(p, parts)) == p.size
  {
    var have, total := GoodParts(p, parts), Total(p);
    GoodPartsAscend(p, parts);
    MissingMeans(p, parts, total);
    forall n | 1 <= n <= total ensures Listed(have, n) {
      assert n !in MissingUpTo(p, parts, total);
      var i :| 0 <= i < |parts| && parts[i].number == n && Good(p, parts[i]);
      GoodPartsMembers(p, parts, parts[i]);
      var j :| 0 <= j < |have| && have[j] == parts[i];
    }
    forall i | 0 <= i < |have| ensures Good(p, have[i]) {
      GoodPartsMembers(p, parts, have[i]);
    }
    PartsCover(p.size, p.partSize);
    SumUpTo(p, have, total);
  }

  lemma {:induction false} NoneMissing(p: Plan, parts: seq<Part>, k: nat)
    requires forall n :: 1 <= n <= k ==> Has(p, parts, n)
    ensures MissingUpTo(p, parts, k) == []
  {
    if k > 0 {
      NoneMissing(p, parts, k - 1);
    }
  }

  /** Uploading exactly what was reported missing, whole, leaves nothing missing. */
  lemma ResumeCompletes(p: Plan, before: seq<Part>, after: seq<Part>)
    requires PlanOk(p)
    requires forall n :: n in MissingUpTo(p, before, Total(p)) ==> Has(p, after, n)
    requires forall part :: part in before && part.number !in MissingUpTo(p, before, Total(p)) ==> part in after
    ensures MissingUpTo(p, after, Total(p)) == []
  {
    var total := Total(p);
    MissingMeans(p, before, total);
    forall n | 1 <= n <= total ensures Has(p, after, n) {
      if Has(p, before, n) {
        var i :| 0 <= i < |before| && before[i].number == n && Good(p, before[i]);
        assert before[i] in after;
      }
    }
    NoneMissing(p, after, total);
  }
}
