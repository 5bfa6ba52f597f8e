/** The outbox relay: claim a batch, publish it row by row, mark what was confirmed
    (src/outbox/relay.ts). Rows stand in the order of the partial index, created_at then
    id, and a row's position is its id. */
module Relay {
  import opened Wrappers
  import opened Checkout

  type RowId = nat

  /** What the broker made of one publish. `Lost`: it kept the message but the publisher
      saw an error all the same, so an error says nothing about delivery. */
  datatype Publish = Confirmed | Refused | Lost

  datatype Pass = Pass(claimed: nat, published: nat, failed: bool)

  datatype RelayError = InvalidLimit | PublishFailed | TransactionThrew

  /** The broker as the publisher sees it: the messages it kept, and how it will answer.
      Past the end of the script it confirms. */
  class Publisher {
    var script: seq<Publish>
    var kept: seq<Event>

    constructor (answers: seq<Publish>)
      ensures script == answers && kept == []
    {
      script, kept := answers, [];
    }

    /** publishRaw: returns whether the confirm arrived. */
    method PublishRaw(e: Event) returns (confirmed: bool)
      modifies this
      ensures confirmed <==> Answer(old(script), 0).Confirmed?
      ensures kept == if Answer(old(script), 0).Refused? then old(kept) else old(kept) + [e]
      ensures script == if old(script) == [] then [] else old(script)[1..]
    {
      var answer := Answer(script, 0);
      if script != [] {
        script := script[1..];
      }
      if !answer.Refused? {
        kept := kept + [e];
      }
      confirmed := answer.Confirmed?;
    }
  }

  function Answer(script: seq<Publish>, n: nat): Publish {
    if n < |script| then script[n] else Confirmed
  }

  /** Unpublished rows that no other relay holds, from `i` on, in index order. */
  function Eligible(rows: seq<OutboxRow>, locked: set<RowId>, i: nat): (ids: seq<RowId>)
    requires i <= |rows|
    ensures forall n :: 0 <= n < |ids| ==>
              i <= ids[n] < |rows| && !rows[ids[n]].published && ids[n] !in locked
    decreases |rows| - i
  {
    if i == |rows| then []
    else if rows[i].published || i in locked then Eligible(rows, locked, i + 1)
    else [i] + Eligible(rows, locked, i + 1)
  }

  /** Eligible rows come in index order and none is missed. */
  lemma {:induction false} EligibleComplete(rows: seq<OutboxRow>, locked: set<RowId>, i: nat)
    requires i <= |rows|
    ensures var ids := Eligible(rows, locked, i);
            && (forall n, m :: 0 <= n < m < |ids| ==> ids[n] < ids[m])
            && (forall r :: i <= r < |rows| ==> (r in ids <==> !rows[r].published && r !in locked))
    decreases |rows| - i
  {
    if i < |rows| {
      EligibleComplete(rows, locked, i + 1);
    }
  }

  function Take(ids: seq<RowId>, limit: nat): seq<RowId> {
    if limit <= |ids| then ids[..limit] else ids
  }

  /** LIMIT n: the first `n` of them, or all when there are fewer. */
  lemma TakeIs(ids: seq<RowId>, limit: nat)
    ensures |Take(ids, limit)| == if limit < |ids| then limit else |ids|
    ensures Take(ids, limit) <= ids
  {
  }

  /** The outbox and the broker while rows are published one after another: how many went
      through, and whether one `failed`, which ends the pass. */
  datatype Progress = Progress(rows: seq<OutboxRow>, script: seq<Publish>, kept: seq<Event>, sent: nat, failed: bool)

  function Published(row: OutboxRow): OutboxRow {
    row.(published := true, attempts := row.attempts + 1)
  }

  function Attempted(row: OutboxRow): OutboxRow {
    row.(attempts := row.attempts + 1)
  }

  function PublishRow(w: Progress, r: RowId): Progress {
    if r >= |w.rows| then w else
    var row := w.rows[r];
    var answer := Answer(w.script, 0);
    var script := if w.script == [] then [] else w.script[1..];
    if answer.Confirmed? then
      Progress(w.rows[r := Published(row)], script, w.kept + [row.event], w.sent + 1, false)
    else
      Progress(w.rows[r := Attempted(row)], script,
               if answer.Lost? then w.kept + [row.event] else w.kept, w.sent, true)
  }

  ghost predicate Within(rows: seq<OutboxRow>, ids: seq<RowId>) {
    forall n :: 0 <= n < |ids| ==> ids[n] < |rows|
  }

  /** One pass over `ids`. */
  ghost function Walk(w: Progress, ids: seq<RowId>): (end: Progress)
    ensures |end.rows| == |w.rows|
    decreases |ids|
  {
    if ids == [] || w.failed then w else Walk(PublishRow(w, ids[0]), ids[1..])
  }

  lemma WalkNothing(w: Progress)
    ensures Walk(w, []) == w
  {
  }

  /** Two passes, one after the other, are one pass over both batches. */
  lemma {:induction false} WalksJoin(w: Progress, first: seq<RowId>, second: seq<RowId>)
    ensures Walk(w, first + second) == Walk(Walk(w, first), second)
    decreases |first|
  {
    if first == [] {
      assert first + second == second;
    } else {
      assert (first + second)[1..] == first[1..] + second;
      if !w.failed {
        WalksJoin(PublishRow(w, first[0]), first[1..], second);
      }
    }
  }

  ghost predicate Distinct(ids: seq<RowId>) {
    forall n, m :: 0 <= n < m < |ids| ==> ids[n] != ids[m]
  }

  /** A pass does not look at how many rows went before it. */
  lemma {:induction false} WalkShift(w: Progress, ids: seq<RowId>, n: nat)
    ensures Walk(w.(sent := w.sent + n), ids) == Walk(w, ids).(sent := Walk(w, ids).sent + n)
    decreases |ids|
  {
    if ids != [] && !w.failed {
      assert PublishRow(w.(sent := w.sent + n), ids[0]) == PublishRow(w, ids[0]).(sent := PublishRow(w, ids[0]).sent + n);
      WalkShift(PublishRow(w, ids[0]), ids[1..], n);
    }
  }

  /** What a pass does to the rows: exactly the prefix before the failure is published, the
      failed row only counts an attempt, every other row is untouched. */
  lemma {:induction false} WalkRows(w: Progress, ids: seq<RowId>)
    requires Within(w.rows, ids) && Distinct(ids) && !w.failed
    ensures var end := Walk(w, ids);
            var k := end.sent - w.sent;
            && 0 <= k <= |ids| && (end.failed <==> k < |ids|)
            && (forall n :: 0 <= n < |ids| ==>
                  end.rows[ids[n]] == if n < k then Published(w.rows[ids[n]])
                                      else if n == k then Attempted(w.rows[ids[n]])
                                      else w.rows[ids[n]])
            && (forall r :: 0 <= r < |w.rows| && r !in ids ==> end.rows[r] == w.rows[r])
    decreases |ids|
  {
    if ids != [] {
      var w1, rest, end := PublishRow(w, ids[0]), ids[1..], Walk(w, ids);
      assert ids[0] !in rest;
      if w1.failed {
        assert end == w1;
      } else {
        WalkRows(w1, rest);
        forall n | 0 <= n < |ids|
          ensures end.rows[ids[n]] == if n < end.sent - w.sent then Published(w.rows[ids[n]])
                                      else if n == end.sent - w.sent then Attempted(w.rows[ids[n]])
                                      else w.rows[ids[n]]
        {
          if n > 0 {
            assert ids[n] == rest[n - 1];
          }
        }
      }
    }
  }

  /** The events of the rows, in the order given. */
  function EventsOf(rows: seq<OutboxRow>, ids: seq<RowId>): seq<Event>
    requires forall n :: 0 <= n < |ids| ==> ids[n] < |rows|
  {
    if ids == [] then [] else [rows[ids[0]].event] + EventsOf(rows, ids[1..])
  }

  lemma {:induction false} EventsSame(rows: seq<OutboxRow>, rows': seq<OutboxRow>, ids: seq<RowId>)
    requires Within(rows, ids) && |rows'| == |rows|
    requires forall r :: 0 <= r < |rows| ==> rows'[r].event == rows[r].event
    ensures EventsOf(rows', ids) == EventsOf(rows, ids)
  {
    if ids != [] {
      EventsSame(rows, rows', ids[1..]);
    }
  }

  /** Where a pass stops: at the broker's first answer that is not a confirm. */
  lemma {:induction false} WalkStops(w: Progress, ids: seq<RowId>)
    requires Within(w.rows, ids) && !w.failed
    ensures var end := Walk(w, ids);
            var k := end.sent - w.sent;
            && 0 <= k <= |ids| && (end.failed <==> k < |ids|)
            && (forall n :: 0 <= n < k ==> Answer(w.script, n).Confirmed?)
            && (end.failed ==> !Answer(w.script, k).Confirmed?)
    decreases |ids|
  {
    if ids != [] {
      var w1, end := PublishRow(w, ids[0]), Walk(w, ids);
      if w1.failed {
        assert end == w1;
      } else {
        WalkStops(w1, ids[1..]);
        forall n | 0 < n <= end.sent - w.sent ensures Answer(w.script, n) == Answer(w1.script, n - 1) {
        }
      }
    }
  }

  /** How many of `ids` the broker is sent and keeps: those confirmed, and the failed one too
      if only its confirm was lost. */
  function KeptCount(script: seq<Publish>, k: nat, failed: bool): nat {
    if failed && Answer(script, k).Lost? then k + 1 else k
  }

  lemma EventsCons(rows: seq<OutboxRow>, ids: seq<RowId>, m: nat)
    requires Within(rows, ids) && 1 <= m <= |ids|
    ensures EventsOf(rows, ids[..m]) == [rows[ids[0]].event] + EventsOf(rows, ids[1..][..m - 1])
  {
    assert ids[..m][1..] == ids[1..][..m - 1];
  }

  lemma KeptJoin(kept: seq<Event>, rows: seq<OutboxRow>, ids: seq<RowId>, m: nat)
    requires Within(rows, ids) && 1 <= m <= |ids|
    ensures (kept + [rows[ids[0]].event]) + EventsOf(rows, ids[1..][..m - 1]) == kept + EventsOf(rows, ids[..m])
  {
    EventsCons(rows, ids, m);
  }

  /** What a pass sends: a prefix of the events, in order and once each. */
  lemma {:induction false} WalkSends(w: Progress, ids: seq<RowId>)
    requires Within(w.rows, ids) && !w.failed
    ensures var end := Walk(w, ids);
            && 0 <= end.sent - w.sent <= |ids| && (end.failed <==> end.sent - w.sent < |ids|)
            && end.kept == w.kept + EventsOf(w.rows, ids[..KeptCount(w.script, end.sent - w.sent, end.failed)])
    decreases |ids|
  {
    hide EventsOf;
    WalkStops(w, ids);
    NothingSent(w.rows, w.kept, ids);
    if ids != [] {
      var w1, rest, end := PublishRow(w, ids[0]), ids[1..], Walk(w, ids);
      var m := KeptCount(w.script, end.sent - w.sent, end.failed);
      NothingSent(w.rows, w1.kept, rest);
      if m > 0 {
        KeptJoin(w.kept, w.rows, ids, m);
      }
      if !w1.failed {
        WalkSends(w1, rest);
        assert Answer(w.script, end.sent - w.sent) == Answer(w1.script, end.sent - w1.sent);
        EventsSame(w.rows, w1.rows, rest[..m - 1]);
      }
    }
  }

  lemma NothingSent(rows: seq<OutboxRow>, kept: seq<Event>, ids: seq<RowId>)
    ensures kept + EventsOf(rows, ids[..0]) == kept
  {
  }

  /** Once exactly the first of the eligible rows have become published, the rest are eligible. */
  lemma {:induction false} EligibleAfter(rows: seq<OutboxRow>, marked: seq<OutboxRow>, locked: set<RowId>, i: nat,
                                         done: seq<RowId>, rest: seq<RowId>)
    requires i <= |rows| == |marked| && Eligible(rows, locked, i) == done + rest
    requires forall r :: i <= r < |rows| ==> (marked[r].published <==> rows[r].published || r in done)
    ensures Eligible(marked, locked, i) == rest
    decreases |rows| - i
  {
    if i < |rows| {
      var ids := Eligible(rows, locked, i + 1);
      if rows[i].published || i in locked {
        EligibleAfter(rows, marked, locked, i + 1, done, rest);
      } else if done == [] {
        assert [i] + ids == rest && rest[0] == i;
        assert ids == [] + rest[1..];
        EligibleAfter(rows, marked, locked, i + 1, [], rest[1..]);
      } else {
        assert [i] + ids == done + rest && done[0] == (done + rest)[0] == i;
        assert ids == (done + rest)[1..] == done[1..] + rest;
        assert done == [i] + done[1..];
        EligibleAfter(rows, marked, locked, i + 1, done[1..], rest);
      }
    }
  }

  lemma EligiblePrefix(rows: seq<OutboxRow>, locked: set<RowId>, done: seq<RowId>, rest: seq<RowId>)
    requires Eligible(rows, locked, 0) == done + rest
    ensures Within(rows, done) && Distinct(done)
  {
    EligibleComplete(rows, locked, 0);
    forall n | 0 <= n < |done| ensures done[n] == (done + rest)[n] {
    }
  }

  /** After a pass over the first of the eligible rows that went through, the rest are eligible. */
  lemma EligibleAfterWalk(w: Progress, locked: set<RowId>, done: seq<RowId>, rest: seq<RowId>)
    requires !w.failed && Eligible(w.rows, locked, 0) == done + rest && !Walk(w, done).failed
    ensures Eligible(Walk(w, done).rows, locked, 0) == rest
  {
    hide Walk;
    EligiblePrefix(w.rows, locked, done, rest);
    WalkRows(w, done);
    var end := Walk(w, done);
    forall r | 0 <= r < |w.rows| ensures end.rows[r].published <==> w.rows[r].published || r in done {
      if r in done {
        var m :| 0 <= m < |done| && done[m] == r;
        assert end.rows[done[m]] == Published(w.rows[done[m]]);
      }
    }
    EligibleAfter(w.rows, end.rows, locked, 0, done, rest);
  }

  /** UPDATE outbox SET published_at = now(), attempts = attempts + 1 WHERE id = ANY(ids). */
  function MarkAll(rows: seq<OutboxRow>, ids: seq<RowId>): (marked: seq<OutboxRow>)
    requires forall n :: 0 <= n < |ids| ==> ids[n] < |rows|
    ensures |marked| == |rows|
  {
    if ids == [] then rows
    else
      var before := MarkAll(rows, ids[..|ids| - 1]);
      before[ids[|ids| - 1] := Published(before[ids[|ids| - 1]])]
  }

  /** UPDATE outbox SET attempts = attempts + 1 WHERE id = r. */
  function MarkFailed(rows: seq<OutboxRow>, r: RowId): seq<OutboxRow>
    requires r < |rows|
  {
    rows[r := Attempted(rows[r])]
  }

  lemma {:induction false} MarksKeepEvents(rows: seq<OutboxRow>, ids: seq<RowId>)
    requires Within(rows, ids)
    ensures forall r :: 0 <= r < |rows| ==> MarkAll(rows, ids)[r].event == rows[r].event
  {
    if ids != [] {
      MarksKeepEvents(rows, ids[..|ids| - 1]);
    }
  }

  /** One pass of a drain that has done `done` and has `batch + rest` to go: it ends the drain
      where a single pass over everything ends, or takes it as far as it claimed. */
  lemma DrainStep(start: Progress, done: seq<RowId>, batch: seq<RowId>, rest: seq<RowId>, now: Progress)
    requires Within(now.rows, batch)
    requires !now.failed && now.sent == 0 && Walk(start, done) == now.(sent := |done|)
    ensures var end := Walk(now, batch);
            if end.failed then Walk(start, done + batch + rest) == end.(sent := |done| + end.sent)
            else end.sent == |batch| && Walk(start, done + batch) == end.(sent := |done| + |batch|)
  {
    WalkShift(now, batch, |done|);
    WalkStops(now, batch);
    WalksJoin(start, done, batch);
    WalksJoin(start, done + batch, rest);
  }

  /** One pass of a drain: what it claims, and how far it takes the drain. */
  lemma DrainOn(start: Progress, locked: set<RowId>, done: seq<RowId>, rest: seq<RowId>, now: Progress, limit: nat)
    requires Eligible(start.rows, locked, 0) == done + rest && !start.failed
    requires !now.failed && now.sent == 0 && Walk(start, done) == now.(sent := |done|)
    ensures Eligible(now.rows, locked, 0) == rest
    ensures var batch := Take(rest, limit);
            var later, end := rest[|batch|..], Walk(now, batch);
            && |batch| <= |rest| && rest == batch + later
            && if end.failed then Walk(start, done + rest) == end.(sent := |done| + end.sent)
               else end.sent == |batch| && Walk(start, done + batch) == end.(sent := |done| + |batch|)
  {
    hide Walk, Take, Eligible, Distinct;
    EligibleAfterWalk(start, locked, done, rest);
    TakeIs(rest, limit);
    var batch := Take(rest, limit);
    var later := rest[|batch|..];
    assert rest == batch + later && done + batch + later == done + rest;
    FirstWithin(now.rows, locked, batch, later);
    DrainStep(start, done, batch, later, now);
  }

  lemma FirstWithin(rows: seq<OutboxRow>, locked: set<RowId>, first: seq<RowId>, later: seq<RowId>)
    requires Eligible(rows, locked, 0) == first + later
    ensures Within(rows, first)
  {
    EligiblePrefix(rows, locked, first, later);
  }

  lemma {:induction false} EventsOfAt(rows: seq<OutboxRow>, ids: seq<RowId>, n: nat)
    requires Within(rows, ids) && n < |ids|
    ensures |EventsOf(rows, ids)| == |ids| && EventsOf(rows, ids)[n] == rows[ids[n]].event
  {
    if n > 0 {
      EventsOfAt(rows, ids[1..], n - 1);
    } else if |ids| > 1 {
      EventsOfAt(rows, ids[1..], 0);
    }
  }

  /** A pass with LIMIT `limit` over the eligible rows `all`, told row by row and message by message. */
  ghost predicate PassDone(rows: seq<OutboxRow>, rows': seq<OutboxRow>, kept: seq<Event>, kept': seq<Event>,
                           all: seq<RowId>, sent: nat, failed: bool)
    requires Within(rows, all)
  {
    RowsDone(rows, rows', all, sent, failed) && MessagesSent(rows, kept, kept', all, sent, failed)
  }

  ghost predicate RowsDone(rows: seq<OutboxRow>, rows': seq<OutboxRow>, all: seq<RowId>, sent: nat, failed: bool)
    requires Within(rows, all)
  {
    && |rows'| == |rows|
    && (forall n :: 0 <= n < |all| ==>
          rows'[all[n]] == if n < sent then OutboxRow(rows[all[n]].event, true, rows[all[n]].attempts + 1)
                           else if n == sent && failed then rows[all[n]].(attempts := rows[all[n]].attempts + 1)
                           else rows[all[n]])
    && (forall i :: 0 <= i < |rows| && i !in all ==> rows'[i] == rows[i])
  }

  ghost predicate MessagesSent(rows: seq<OutboxRow>, kept: seq<Event>, kept': seq<Event>, all: seq<RowId>, sent: nat, failed: bool)
    requires Within(rows, all)
  {
    && kept <= kept' && sent <= |kept'| - |kept| <= (if failed then sent + 1 else sent) && |kept'| - |kept| <= |all|
    && (forall n :: 0 <= n < |kept'| - |kept| ==> kept'[|kept| + n] == rows[all[n]].event)
  }

  lemma PassMeans(start: Progress, all: seq<RowId>, limit: nat)
    requires Within(start.rows, all) && Distinct(all) && !start.failed && start.sent == 0
    ensures var end, claimed := Walk(start, Take(all, limit)), if limit < |all| then limit else |all|;
            && |Take(all, limit)| == claimed && 0 <= end.sent <= claimed && (end.failed <==> end.sent < claimed)
            && PassDone(start.rows, end.rows, start.kept, end.kept, all, end.sent, end.failed)
  {
    hide Walk, EventsOf, Take;
    TakeIs(all, limit);
    var ids := Take(all, limit);
    assert forall n :: 0 <= n < |ids| ==> ids[n] == all[n];
    WalkSends(start, ids);
    PassRows(start, all, ids);
    var end := Walk(start, ids);
    EventsSent(start.rows, all, ids[..KeptCount(start.script, end.sent, end.failed)]);
  }

  lemma PassRows(start: Progress, all: seq<RowId>, ids: seq<RowId>)
    requires Within(start.rows, all) && Distinct(all) && ids <= all && !start.failed && start.sent == 0
    ensures var end := Walk(start, ids);
            0 <= end.sent <= |ids| && (end.failed <==> end.sent < |ids|)
            && RowsDone(start.rows, end.rows, all, end.sent, end.failed)
  {
    hide Walk;
    assert forall n :: 0 <= n < |ids| ==> ids[n] == all[n];
    WalkRows(start, ids);
    var end := Walk(start, ids);
    forall n | 0 <= n < |all|
      ensures end.rows[all[n]] == if n < end.sent then OutboxRow(start.rows[all[n]].event, true, start.rows[all[n]].attempts + 1)
                                  else if n == end.sent && end.failed then start.rows[all[n]].(attempts := start.rows[all[n]].attempts + 1)
                                  else start.rows[all[n]]
    {
      if n < |ids| {
        assert ids[n] == all[n];
      } else {
        assert all[n] !in ids;
      }
    }
  }

  /** The messages sent are the events of the rows, in their order. */
  lemma EventsSent(rows: seq<OutboxRow>, all: seq<RowId>, ids: seq<RowId>)
    requires Within(rows, all) && ids <= all
    ensures |EventsOf(rows, ids)| == |ids|
    ensures forall n :: 0 <= n < |ids| ==> EventsOf(rows, ids)[n] == rows[all[n]].event
  {
    NoEvents(rows);
    forall n | 0 <= n < |ids| ensures |EventsOf(rows, ids)| == |ids| && EventsOf(rows, ids)[n] == rows[all[n]].event {
      EventsOfAt(rows, ids, n);
    }
  }

  /** What a drain amounts to: unless a publish failed, every row that was eligible is published, with
      one attempt more, and its event is with the broker, in index order and once. */
  lemma DrainMeans(rows: seq<OutboxRow>, locked: set<RowId>, script: seq<Publish>, kept: seq<Event>)
    ensures var all := Eligible(rows, locked, 0);
            var end := Walk(Progress(rows, script, kept, 0, false), all);
            !end.failed ==>
              && |end.rows| == |rows| && |end.kept| == |kept| + |all| && kept <= end.kept
              && (forall n :: 0 <= n < |all| ==>
                    && end.rows[all[n]] == OutboxRow(rows[all[n]].event, true, rows[all[n]].attempts + 1)
                    && end.kept[|kept| + n] == rows[all[n]].event)
              && (forall i :: 0 <= i < |rows| && i !in all ==> end.rows[i] == rows[i])
  {
    var all, start := Eligible(rows, locked, 0), Progress(rows, script, kept, 0, false);
    EligibleComplete(rows, locked, 0);
    TakeIs(all, |all|);
    assert Take(all, |all|) == all;
    hide Walk, Take, Eligible;
    PassMeans(start, all, |all|);
  }

  lemma NoEvents(rows: seq<OutboxRow>)
    ensures EventsOf(rows, []) == []
  {
  }

  class OutboxRelay {
    var rows: seq<OutboxRow>

    constructor (table: seq<OutboxRow>)
      ensures rows == table
    {
      rows := table;
    }

    ghost function State(publisher: Publisher): Progress
      reads this, publisher
    {
      Progress(rows, publisher.script, publisher.kept, 0, false)
    }

    /** The publishing loop: the rows confirmed, and the row that failed. */
    method PublishAll(publisher: Publisher, ids: seq<RowId>) returns (done: seq<RowId>, failed: Option<RowId>)
      requires Within(rows, ids)
      modifies publisher
      ensures |done| <= |ids| && done == ids[..|done|]
      ensures failed == if |done| < |ids| then Some(ids[|done|]) else None
      ensures Walk(old(State(publisher)), ids)
           == Progress(if failed.None? then MarkAll(rows, done) else MarkFailed(MarkAll(rows, done), failed.value),
                       publisher.script, publisher.kept, |done|, failed.Some?)
    {
      done, failed := [], None;
      ghost var start := State(publisher);
      while |done| < |ids|
        invariant |done| <= |ids| && done == ids[..|done|] && failed.None?
        invariant Walk(start, done) == Progress(MarkAll(rows, done), publisher.script, publisher.kept, |done|, false)
      {
        ghost var before := Walk(start, done);
        var id := ids[|done|];
        assert ids == done + [id] + ids[|done| + 1..];
        WalksJoin(start, done, [id]);
        WalksJoin(start, done + [id], ids[|done| + 1..]);
        var confirmed := publisher.PublishRaw(rows[id].event);
        MarksKeepEvents(rows, done);
        assert Walk(before, [id]) == PublishRow(before, id);
        if !confirmed {
          failed := Some(id);
          return;
        }
        done := done + [id];
      }
      assert done == ids;
    }

    /** One transaction. When it fails nothing is marked, and what the broker kept it keeps. */
    method RelayOnce(publisher: Publisher, locked: set<RowId>, batchSize: int, fate: CommitFate)
      returns (r: Result<Pass, RelayError>)
      modifies this, publisher
      ensures batchSize < 0 ==> r == Err(InvalidLimit) && State(publisher) == old(State(publisher))
      ensures batchSize >= 0 ==>
                var ids := Take(Eligible(old(rows), locked, 0), batchSize);
                var end := Walk(old(State(publisher)), ids);
                && r == (if fate.CommitDone? then Ok(Pass(|ids|, end.sent, end.failed)) else Err(TransactionThrew))
                && State(publisher) == end.(rows := if fate.CommitFails? then old(rows) else end.rows, sent := 0, failed := false)
      ensures r.Ok? ==>
                var all, pass := Eligible(old(rows), locked, 0), r.value;
                && pass.claimed == (if batchSize < |all| then batchSize else |all|)
                && pass.published <= pass.claimed && (pass.failed <==> pass.published < pass.claimed)
                && PassDone(old(rows), rows, old(publisher.kept), publisher.kept, all, pass.published, pass.failed)
    {
      if batchSize < 0 {
        return Err(InvalidLimit);
      }
      EligibleComplete(rows, locked, 0);
      PassMeans(State(publisher), Eligible(rows, locked, 0), batchSize);
      hide Walk, Take, Eligible, PassDone;
      var ids := Take(Eligible(rows, locked, 0), batchSize);
      var done, failed := PublishAll(publisher, ids);
      if fate.CommitFails? {
        return Err(TransactionThrew);
      }
      rows := MarkAll(rows, done);
      if failed.Some? {
        rows := MarkFailed(rows, failed.value);
      }
      r := if fate.CommitDone? then Ok(Pass(|ids|, |done|, failed.Some?)) else Err(TransactionThrew);
    }

    /** Passes until one claims nothing. With a positive batch size the result does not depend
        on it: the drain is one pass over every eligible row. */
    method RelayUntilEmpty(publisher: Publisher, locked: set<RowId>, batchSize: int)
      returns (r: Result<nat, RelayError>)
      modifies this, publisher
      ensures batchSize < 0 ==> r == Err(InvalidLimit) && State(publisher) == old(State(publisher))
      ensures batchSize == 0 ==> r == Ok(0) && State(publisher) == old(State(publisher))
      ensures batchSize > 0 ==>
                var ids := Eligible(old(rows), locked, 0);
                var end := Walk(old(State(publisher)), ids);
                && r == (if end.failed then Err(PublishFailed) else Ok(|ids|))
                && State(publisher) == end.(sent := 0, failed := false)
    {
      hide Walk, Eligible, PassDone, Distinct, Within;
      var total := 0;
      ghost var start := State(publisher);
      ghost var done, rest := [], Eligible(rows, locked, 0);
      WalkNothing(start);
      while true
        invariant total == |done| && (batchSize <= 0 ==> done == [])
        invariant done + rest == Eligible(start.rows, locked, 0) && |rows| == |start.rows|
        invariant Walk(start, done) == State(publisher).(sent := total)
        decreases |rest|
      {
        ghost var now := State(publisher);
        DrainOn(start, locked, done, rest, now, if batchSize < 0 then 0 else batchSize);
        var pass := RelayOnce(publisher, locked, batchSize, CommitDone);
        if pass.Err? {
          return Err(pass.error);
        }
        ghost var batch := Take(rest, batchSize);
        if pass.value.failed {
          return Err(PublishFailed);
        }
        total := total + pass.value.published;
        assert (done + batch) + rest[|batch|..] == done + rest;
        done, rest := done + batch, rest[|batch|..];
        if pass.value.claimed == 0 {
          return Ok(total);
        }
      }
    }
  }
}
