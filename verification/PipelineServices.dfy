/** The relay and the consumer as they are written take exactly the steps of the Pipeline machine:
    one pass of the relay (src/outbox/relay.ts) and one delivery (src/messaging/consumer.ts). */
module PipelineServices {
  import opened Wrappers
  import opened Checkout
  import opened Consumer
  import opened Relay
  import opened Pipeline

  lemma RunTwo(w: World, x: Step, y: Step)
    ensures Run(w, [x]) == Apply(w, x) && Run(w, [x, y]) == Apply(Apply(w, x), y)
  {
    hide Apply;
    assert [x][..0] == [] && [x, y][..1] == [x];
    assert Run(w, []) == w;
  }

  lemma RunThree(w: World, x: Step, y: Step, z: Step)
    ensures Run(w, [x, y, z]) == Apply(Apply(Apply(w, x), y), z)
  {
    hide Apply, Run;
    RunTwo(w, x, y);
    RunOn(w, [x, y], z);
    assert [x, y] + [z] == [x, y, z];
  }

  // ---- one pass of a relay ----

  function Ids(ids: seq<RowId>): set<RowId> {
    set id | id in ids
  }

  /** The broker takes the first `n` of these rows. */
  function SendFirst(w: World, ids: seq<RowId>, n: nat): World
    requires n <= |ids| && Within(w.tables.outbox, ids)
  {
    if n == 0 then w
    else Send(SendFirst(w, ids, n - 1), Json(w.tables.outbox[ids[n - 1]].event), ids[n - 1])
  }

  function Publishes(r: RelayId, script: seq<Publish>, n: nat): seq<Step> {
    if n == 0 then [] else Publishes(r, script, n - 1) + [PublishNext(r, Answer(script, n - 1))]
  }

  /** The pass: claim, publish up to the first failure, then mark and commit, or lose it all. */
  function RelaySteps(r: RelayId, ids: seq<RowId>, script: seq<Publish>, sent: nat, failed: bool, fate: CommitFate): seq<Step> {
    [Claim(r, ids)] + Publishes(r, script, if failed then sent + 1 else sent)
    + [LastStep(r, fate)]
  }

  /** What the world looks like while a relay has `next` rows of its batch confirmed. */
  function Publishing(w: World, r: RelayId, ids: seq<RowId>, next: nat): World
    requires next <= |ids| && Within(w.tables.outbox, ids)
  {
    SendFirst(w, ids, next).(relays := w.relays[r := Batch(ids, next, false)], confirmed := w.confirmed + Ids(ids[..next]))
  }

  lemma ConfirmOne(w: World, r: RelayId, ids: seq<RowId>, n: nat)
    requires n < |ids| && BatchSound(w.tables.outbox, Batch(ids, 0, false))
    ensures Within(w.tables.outbox, ids)
    ensures Apply(Publishing(w, r, ids, n), PublishNext(r, Confirmed)) == Publishing(w, r, ids, n + 1)
  {
    SendFrame(w, ids, n);
    assert Ids(ids[..n + 1]) == Ids(ids[..n]) + {ids[n]} by {
      assert ids[..n + 1] == ids[..n] + [ids[n]];
    }
    assert w.relays[r := Batch(ids, n, false)][r := Batch(ids, n + 1, false)] == w.relays[r := Batch(ids, n + 1, false)];
  }

  lemma {:induction false} SendFrame(w: World, ids: seq<RowId>, n: nat)
    requires n <= |ids| && Within(w.tables.outbox, ids)
    ensures var s := SendFirst(w, ids, n); s == w.(msgs := s.msgs, nextMsg := s.nextMsg)
  {
    if n > 0 {
      SendFrame(w, ids, n - 1);
    }
  }

  lemma {:induction false} PublishesRun(w: World, r: RelayId, ids: seq<RowId>, script: seq<Publish>, n: nat)
    requires w.relays[r := Batch(ids, 0, false)] == w.relays
    requires BatchSound(w.tables.outbox, Batch(ids, 0, false)) && n <= |ids|
    requires forall k :: 0 <= k < n ==> Answer(script, k).Confirmed?
    ensures Within(w.tables.outbox, ids)
    ensures Run(w, Publishes(r, script, n)) == Publishing(w, r, ids, n)
  {
    hide Apply, BatchSound;
    if n > 0 {
      PublishesRun(w, r, ids, script, n - 1);
      RunOn(w, Publishes(r, script, n - 1), PublishNext(r, Confirmed));
      ConfirmOne(w, r, ids, n - 1);
    } else {
      PublishNone(w, r, ids);
    }
  }

  lemma PublishNone(w: World, r: RelayId, ids: seq<RowId>)
    requires w.relays[r := Batch(ids, 0, false)] == w.relays && BatchSound(w.tables.outbox, Batch(ids, 0, false))
    ensures Within(w.tables.outbox, ids) && Publishing(w, r, ids, 0) == w
  {
    assert Ids(ids[..0]) == {};
  }

  /** The publishing as a whole, with the failure that may end it. */
  function Stopped(w: World, r: RelayId, ids: seq<RowId>, script: seq<Publish>, sent: nat, failed: bool): World
    requires sent <= |ids| && (failed ==> sent < |ids|) && Within(w.tables.outbox, ids)
  {
    SendFirst(w, ids, KeptCount(script, sent, failed)).(
      relays := w.relays[r := Batch(ids, sent, failed)], confirmed := w.confirmed + Ids(ids[..sent]))
  }

  lemma FailOne(w: World, r: RelayId, ids: seq<RowId>, script: seq<Publish>, sent: nat)
    requires sent < |ids| && BatchSound(w.tables.outbox, Batch(ids, 0, false)) && !Answer(script, sent).Confirmed?
    ensures Within(w.tables.outbox, ids)
    ensures Apply(Publishing(w, r, ids, sent), PublishNext(r, Answer(script, sent))) == Stopped(w, r, ids, script, sent, true)
  {
    SendFrame(w, ids, sent);
    assert w.relays[r := Batch(ids, sent, false)][r := Batch(ids, sent, true)] == w.relays[r := Batch(ids, sent, true)];
  }

  /** Where a pass stops, as WalkStops says. */
  predicate StopsAt(ids: seq<RowId>, script: seq<Publish>, sent: nat, failed: bool) {
    && sent <= |ids| && (failed <==> sent < |ids|)
    && (forall k :: 0 <= k < sent ==> Answer(script, k).Confirmed?)
    && (failed ==> !Answer(script, sent).Confirmed?)
  }

  lemma PublishingRun(w: World, r: RelayId, ids: seq<RowId>, script: seq<Publish>, sent: nat, failed: bool)
    requires w.relays[r := Batch(ids, 0, false)] == w.relays
    requires BatchSound(w.tables.outbox, Batch(ids, 0, false)) && StopsAt(ids, script, sent, failed)
    ensures Within(w.tables.outbox, ids)
    ensures Run(w, Publishes(r, script, if failed then sent + 1 else sent)) == Stopped(w, r, ids, script, sent, failed)
  {
    hide Apply, BatchSound;
    PublishesRun(w, r, ids, script, sent);
    if failed {
      RunOn(w, Publishes(r, script, sent), PublishNext(r, Answer(script, sent)));
      FailOne(w, r, ids, script, sent);
    }
  }

  function LastStep(r: RelayId, fate: CommitFate): Step {
    if fate.CommitFails? then RelayCrash(r) else CommitBatch(r)
  }

  /** The world after the pass. */
  ghost function Passed(w: World, r: RelayId, ids: seq<RowId>, script: seq<Publish>, sent: nat, failed: bool, fate: CommitFate): World
    requires BatchSound(w.tables.outbox, Batch(ids, sent, failed)) && Within(w.tables.outbox, ids)
  {
    SendFirst(w, ids, KeptCount(script, sent, failed)).(
      confirmed := w.confirmed + Ids(ids[..sent]),
      tables := if fate.CommitFails? then w.tables
                else w.tables.(outbox := Marked(w.tables.outbox, Batch(ids, sent, failed))))
  }

  /** The end of a pass: the marks are committed, or the transaction is gone. */
  lemma PassEnds(w: World, r: RelayId, ids: seq<RowId>, script: seq<Publish>, sent: nat, failed: bool, fate: CommitFate)
    requires r !in w.relays && BatchSound(w.tables.outbox, Batch(ids, 0, false)) && StopsAt(ids, script, sent, failed)
    ensures Within(w.tables.outbox, ids)
    ensures Apply(Stopped(w, r, ids, script, sent, failed), LastStep(r, fate)) == Passed(w, r, ids, script, sent, failed, fate)
  {
    SendFrame(w, ids, KeptCount(script, sent, failed));
    assert w.relays[r := Batch(ids, sent, failed)] - {r} == w.relays;
  }

  lemma {:induction false} MarkAllRows(rows: seq<OutboxRow>, ids: seq<RowId>)
    requires Within(rows, ids) && Distinct(ids)
    ensures forall n :: 0 <= n < |ids| ==> MarkAll(rows, ids)[ids[n]] == Published(rows[ids[n]])
    ensures forall i :: 0 <= i < |rows| && i !in ids ==> MarkAll(rows, ids)[i] == rows[i]
  {
    if ids != [] {
      var before, last := ids[..|ids| - 1], ids[|ids| - 1];
      MarkAllRows(rows, before);
      assert last !in before;
    }
  }

  /** The rows after a pass are the rows marked as the batch says. */
  lemma WalkMarks(start: Progress, ids: seq<RowId>)
    requires Within(start.rows, ids) && Distinct(ids) && !start.failed && start.sent == 0
    requires forall n :: 0 <= n < |ids| ==> !start.rows[ids[n]].published
    ensures var end := Walk(start, ids);
            && 0 <= end.sent <= |ids| && (end.failed <==> end.sent < |ids|)
            && end.rows == Marked(start.rows, Batch(ids, end.sent, end.failed))
  {
    hide Walk, MarkAll;
    WalkRows(start, ids);
    var end := Walk(start, ids);
    var done := ids[..end.sent];
    MarkAllRows(start.rows, done);
    if end.failed {
      assert ids[end.sent] !in done;
    }
    var marked := Marked(start.rows, Batch(ids, end.sent, end.failed));
    forall i | 0 <= i < |start.rows| ensures end.rows[i] == marked[i] {
      if i in ids {
        var n :| 0 <= n < |ids| && ids[n] == i;
        SplitAt(ids, n, end.sent);
      }
    }
  }

  lemma SplitAt(ids: seq<RowId>, n: nat, k: nat)
    requires n < |ids| && k <= |ids| && Distinct(ids)
    ensures ids[n] in ids[..k] <==> n < k
    ensures n < k ==> ids[..k][n] == ids[n]
  {
  }

  /** One pass of the relay, as its pass specification says it ends, is a run of the machine: the
      outbox it leaves, and the messages the broker keeps, are the same. */
  lemma RelayPassIsRun(w: World, r: RelayId, limit: nat, script: seq<Publish>, kept: seq<Event>, fate: CommitFate)
    requires r !in w.relays
    ensures var ids := Take(Eligible(w.tables.outbox, Locked(w.relays), 0), limit);
            var end := Walk(Progress(w.tables.outbox, script, kept, 0, false), ids);
            && 0 <= end.sent <= |ids| && (end.failed <==> end.sent < |ids|) && Within(w.tables.outbox, ids)
            && var n := KeptCount(script, end.sent, end.failed);
               && end.kept == kept + EventsOf(w.tables.outbox, ids[..n])
               && Run(w, RelaySteps(r, ids, script, end.sent, end.failed, fate))
               == SendFirst(w, ids, n).(
                    confirmed := w.confirmed + Ids(ids[..end.sent]),
                    tables := w.tables.(outbox := if fate.CommitFails? then w.tables.outbox else end.rows))
  {
    hide Walk, Eligible, Take, Locked, Marked, EventsOf, SendFirst, Publishes;
    var outbox := w.tables.outbox;
    var ids := Take(Eligible(outbox, Locked(w.relays), 0), limit);
    var start := Progress(outbox, script, kept, 0, false);
    EligibleClaimable(outbox, Locked(w.relays), limit);
    WalkStops(start, ids);
    WalkSends(start, ids);
    WalkMarks(start, ids);
    var end := Walk(start, ids);
    ClaimedIs(w, r, ids);
    PassIsRun(w, r, ids, script, end.sent, end.failed, fate);
  }

  lemma EligibleClaimable(outbox: seq<OutboxRow>, locked: set<RowId>, limit: nat)
    ensures Claimable(outbox, locked, Take(Eligible(outbox, locked, 0), limit))
  {
    EligibleComplete(outbox, locked, 0);
  }

  lemma ClaimedIs(w: World, r: RelayId, ids: seq<RowId>)
    requires r !in w.relays && Claimable(w.tables.outbox, Locked(w.relays), ids)
    ensures Apply(w, Claim(r, ids)) == w.(relays := w.relays[r := Batch(ids, 0, false)])
    ensures BatchSound(w.tables.outbox, Batch(ids, 0, false))
  {
  }

  lemma PassIsRun(w: World, r: RelayId, ids: seq<RowId>, script: seq<Publish>, sent: nat, failed: bool, fate: CommitFate)
    requires r !in w.relays && BatchSound(w.tables.outbox, Batch(ids, 0, false)) && StopsAt(ids, script, sent, failed)
    requires Apply(w, Claim(r, ids)) == w.(relays := w.relays[r := Batch(ids, 0, false)])
    ensures Within(w.tables.outbox, ids)
    ensures Run(w, RelaySteps(r, ids, script, sent, failed, fate)) == Passed(w, r, ids, script, sent, failed, fate)
  {
    hide Apply, Run, Publishes, Passed, LastStep;
    var claimed := w.(relays := w.relays[r := Batch(ids, 0, false)]);
    var publishes := Publishes(r, script, if failed then sent + 1 else sent);
    RunTwo(w, Claim(r, ids), LastStep(r, fate));
    RunJoins(w, [Claim(r, ids)], publishes);
    PublishingRun(claimed, r, ids, script, sent, failed);
    RunOn(w, [Claim(r, ids)] + publishes, LastStep(r, fate));
    ClaimedStops(w, r, ids, script, sent, failed);
    PassEnds(w, r, ids, script, sent, failed, fate);
  }

  lemma ClaimedStops(w: World, r: RelayId, ids: seq<RowId>, script: seq<Publish>, sent: nat, failed: bool)
    requires sent <= |ids| && (failed ==> sent < |ids|) && Within(w.tables.outbox, ids)
    ensures Stopped(w.(relays := w.relays[r := Batch(ids, 0, false)]), r, ids, script, sent, failed)
         == Stopped(w, r, ids, script, sent, failed)
  {
    var claimed := w.(relays := w.relays[r := Batch(ids, 0, false)]);
    SendSame(w, claimed, ids, KeptCount(script, sent, failed));
    SendFrame(w, ids, KeptCount(script, sent, failed));
    assert claimed.relays[r := Batch(ids, sent, failed)] == w.relays[r := Batch(ids, sent, failed)];
  }

  lemma {:induction false} SendSame(w: World, w': World, ids: seq<RowId>, n: nat)
    requires n <= |ids| && Within(w.tables.outbox, ids) && w' == w.(relays := w'.relays)
    ensures SendFirst(w', ids, n) == SendFirst(w, ids, n).(relays := w'.relays)
  {
    if n > 0 {
      SendSame(w, w', ids, n - 1);
    }
  }

  /** relayOnce, run beside the machine. */
  method RelayBeside(relay: OutboxRelay, publisher: Publisher, locked: set<RowId>, limit: nat, fate: CommitFate,
                     ghost w: World, ghost id: RelayId) returns (ghost steps: seq<Step>)
    requires relay.rows == w.tables.outbox && locked == Locked(w.relays) && id !in w.relays
    modifies relay, publisher
    ensures var w', ids := Run(w, steps), Take(Eligible(w.tables.outbox, locked, 0), limit);
            var end := Walk(old(relay.State(publisher)), ids);
            && 0 <= end.sent <= |ids| && (end.failed <==> end.sent < |ids|) && Within(w.tables.outbox, ids)
            && steps == RelaySteps(id, ids, old(publisher.script), end.sent, end.failed, fate)
            && w'.tables == w.tables.(outbox := relay.rows) && w'.relays == w.relays && w'.ledger == w.ledger
            && var n := KeptCount(old(publisher.script), end.sent, end.failed);
               && w'.msgs == SendFirst(w, ids, n).msgs
               && publisher.kept == old(publisher.kept) + EventsOf(w.tables.outbox, ids[..n])
  {
    hide Run, Walk, Eligible, Take, EventsOf, SendFirst, Publishes;
    ghost var script, kept := publisher.script, publisher.kept;
    ghost var ids := Take(Eligible(w.tables.outbox, locked, 0), limit);
    ghost var end := Walk(Progress(w.tables.outbox, script, kept, 0, false), ids);
    RelayPassIsRun(w, id, limit, script, kept, fate);
    var r := relay.RelayOnce(publisher, locked, limit, fate);
    steps := RelaySteps(id, ids, script, end.sent, end.failed, fate);
    SendFrame(w, ids, KeptCount(script, end.sent, end.failed));
  }

  // ---- one delivery ----

  function HandleSteps(body: Content, m: MsgId, c: ConsumerId, fate: CommitFate, channelFails: bool): seq<Step> {
    var answer := AnswerStep(m, c, fate, channelFails);
    if !Parses(body) then [Step.Deliver(m, c), if channelFails then ConsumerCrash(c) else Handle(m)]
    else if fate.CommitFails? then [Step.Deliver(m, c), answer]
    else [Step.Deliver(m, c), Handle(m), answer]
  }

  /** What the broker makes of the reply. A closed channel gives back all its consumer holds. */
  predicate Answered(before: map<MsgId, Msg>, after: map<MsgId, Msg>, m: MsgId, c: ConsumerId, reply: Reply)
    requires m in before
  {
    match reply
    case Ack => after == before - {m}
    case Reject(requeue) =>
      after == before[m := if requeue then Returned(before[m]) else before[m].(place := DeadLettered(Malformed))]
    case _ =>
      && after.Keys == before.Keys
      && forall j :: j in before ==>
           after[j] == if j == m || (before[j].place.Held? && before[j].place.holder == c) then Returned(before[j]) else before[j]
  }

  function InHand(w: World, m: MsgId, c: ConsumerId, applied: bool): World
    requires m in w.msgs
  {
    w.(msgs := w.msgs[m := w.msgs[m].(place := Held(c, applied))])
  }

  /** The answer the consumer gives for message `m`, as a step. */
  function AnswerStep(m: MsgId, c: ConsumerId, fate: CommitFate, channelFails: bool): Step {
    if channelFails then ConsumerCrash(c) else if fate.CommitDone? then Acknowledge(m) else Requeue(m)
  }

  lemma AnswerGiven(w: World, m: MsgId, c: ConsumerId, applied: bool, fate: CommitFate, channelFails: bool)
    requires m in w.msgs && Parses(w.msgs[m].content) && (fate.CommitDone? ==> applied)
    ensures var w' := Apply(InHand(w, m, c, applied), AnswerStep(m, c, fate, channelFails));
            && w'.ledger == w.ledger && w'.tables == w.tables && w'.relays == w.relays
            && Answered(w.msgs, w'.msgs, m, c, if channelFails then ChannelClosed else if fate.CommitDone? then Ack else Reject(true))
  {
  }

  lemma Handled(w: World, m: MsgId, c: ConsumerId)
    requires m in w.msgs && Parses(w.msgs[m].content)
    ensures Apply(InHand(w, m, c, false), Handle(m)) == InHand(w, m, c, true).(ledger := ApplyEvent(w.ledger, w.msgs[m].content.event))
  {
    hide ApplyEvent;
    var held := InHand(w, m, c, false);
    assert held.msgs[m := held.msgs[m].(place := Held(c, true))] == InHand(w, m, c, true).msgs;
  }

  lemma GarbageAnswered(w: World, m: MsgId, c: ConsumerId, channelFails: bool)
    requires m in w.msgs && !Parses(w.msgs[m].content)
    ensures var w' := Apply(InHand(w, m, c, false), if channelFails then ConsumerCrash(c) else Handle(m));
            && w'.ledger == w.ledger && w'.tables == w.tables && w'.relays == w.relays
            && Answered(w.msgs, w'.msgs, m, c, if channelFails then Threw else Reject(false))
  {
  }

  lemma DeliveryIsRun(w: World, m: MsgId, c: ConsumerId, fate: CommitFate, channelFails: bool, reply: Reply)
    requires m in w.msgs && w.msgs[m].place.Ready?
    requires var parses := Parses(w.msgs[m].content);
             reply == if channelFails then (if parses then ChannelClosed else Threw)
                      else if !parses then Reject(false)
                      else if fate.CommitDone? then Ack else Reject(true)
    ensures var body := w.msgs[m].content;
            var w' := Run(w, HandleSteps(body, m, c, fate, channelFails));
            && w'.ledger == (if Parses(body) && !fate.CommitFails? then ApplyEvent(w.ledger, body.event) else w.ledger)
            && w'.tables == w.tables && w'.relays == w.relays
            && Answered(w.msgs, w'.msgs, m, c, reply)
  {
    var body, answer := w.msgs[m].content, AnswerStep(m, c, fate, channelFails);
    assert Apply(w, Step.Deliver(m, c)) == InHand(w, m, c, false);
    hide Run, ApplyEvent, Apply, Answered, Parses;
    if !Parses(body) {
      GarbageAnswered(w, m, c, channelFails);
      RunTwo(w, Step.Deliver(m, c), if channelFails then ConsumerCrash(c) else Handle(m));
    } else if fate.CommitFails? {
      AnswerGiven(w, m, c, false, fate, channelFails);
      RunTwo(w, Step.Deliver(m, c), answer);
    } else {
      var after := w.(ledger := ApplyEvent(w.ledger, body.event));
      Handled(w, m, c);
      AnswerGiven(after, m, c, true, fate, channelFails);
      RunThree(w, Step.Deliver(m, c), Handle(m), answer);
    }
  }

  /** The handler, run beside the machine: the ledger it leaves is the machine's, and the broker does
      with the message what the reply says. */
  method HandleBeside(consumer: OrderConsumer, body: Content, fate: CommitFate, channelFails: bool,
                      ghost w: World, ghost m: MsgId, ghost c: ConsumerId) returns (reply: Reply, ghost steps: seq<Step>)
    requires m in w.msgs && w.msgs[m].place.Ready? && w.msgs[m].content == body && consumer.State() == w.ledger
    modifies consumer
    ensures steps == HandleSteps(body, m, c, fate, channelFails)
    ensures consumer.State() == Run(w, steps).ledger && Answered(w.msgs, Run(w, steps).msgs, m, c, reply)
  {
    reply := consumer.Handle(body, fate, channelFails);
    steps := HandleSteps(body, m, c, fate, channelFails);
    DeliveryIsRun(w, m, c, fate, channelFails, reply);
  }
}
