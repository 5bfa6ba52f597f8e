/** No crash wedges the pipeline: from every reachable state the relays and consumers can still
    bring every order to its receipt, save those whose event was dead-lettered before. */
module PipelineRecovery {
  import opened Checkout
  import opened Consumer
  import opened Relay
  import opened Pipeline

  ghost predicate Reaches(a: World, b: World) {
    exists steps :: Run(a, steps) == b
  }

  lemma ReachesOn(a: World, b: World, step: Step)
    requires Reaches(a, b)
    ensures Reaches(a, Apply(b, step))
  {
    hide Apply;
    var steps :| Run(a, steps) == b;
    RunOn(a, steps, step);
  }

  predicate Dead(m: Msg) {
    m.content.Json? && m.place.DeadLettered?
  }

  /** No event has been dead-lettered between `a` and `b`. */
  predicate NoneDied(a: World, b: World) {
    forall m :: m in b.msgs && Dead(b.msgs[m]) ==> m in a.msgs && a.msgs[m] == b.msgs[m]
  }

  /** `b` is reached from `a` without an event dying. */
  ghost predicate Saves(a: World, b: World) {
    Reaches(a, b) && NoneDied(a, b)
  }

  lemma SavesSelf(w: World)
    ensures Saves(w, w)
  {
    assert Run(w, []) == w;
  }

  /** One more step that does not dead-letter an event. */
  lemma SavesOn(a: World, b: World, step: Step)
    requires Saves(a, b) && NoneDied(b, Apply(b, step))
    ensures Saves(a, Apply(b, step))
  {
    hide Apply;
    ReachesOn(a, b, step);
    forall m | m in Apply(b, step).msgs && Dead(Apply(b, step).msgs[m])
      ensures m in a.msgs && a.msgs[m] == Apply(b, step).msgs[m]
    {
      assert b.msgs[m] == Apply(b, step).msgs[m];
    }
  }

  // ---- the relays ----

  /** Every relay that holds rows may crash: its locks go, its rows wait again. */
  lemma {:induction false} DropRelays(start: World, w: World) returns (w': World)
    requires Saves(start, w) && Inv(w)
    ensures Saves(start, w') && Inv(w') && w' == w.(relays := map[])
    decreases |w.relays|
  {
    hide Inv;
    if w.relays == map[] {
      w' := w;
    } else {
      var r :| r in w.relays;
      var next := Apply(w, RelayCrash(r));
      SavesOn(start, w, RelayCrash(r));
      ApplyKeepsInv(w, RelayCrash(r));
      w' := DropRelays(start, next);
    }
  }

  function Waiting(outbox: seq<OutboxRow>): nat {
    if outbox == [] then 0
    else Waiting(outbox[..|outbox| - 1]) + if outbox[|outbox| - 1].published then 0 else 1
  }

  lemma {:induction false} NoneWaits(outbox: seq<OutboxRow>)
    ensures Waiting(outbox) == 0 <==> forall i :: 0 <= i < |outbox| ==> outbox[i].published
  {
    if outbox != [] {
      var before := outbox[..|outbox| - 1];
      NoneWaits(before);
      assert forall i :: 0 <= i < |before| ==> before[i] == outbox[i];
    }
  }

  lemma {:induction false} MarkingOne(outbox: seq<OutboxRow>, i: RowId, row: OutboxRow)
    requires i < |outbox| && !outbox[i].published && row.published
    ensures Waiting(outbox[i := row]) == Waiting(outbox) - 1
  {
    var last := |outbox| - 1;
    if i == last {
      assert outbox[i := row][..last] == outbox[..last];
    } else {
      MarkingOne(outbox[..last], i, row);
      assert outbox[i := row][..last] == outbox[..last][i := row];
    }
  }

  /** The relay `0` holds the row `id` alone, and has confirmed it or not yet. */
  predicate Holding(w: World, id: RowId, next: nat) {
    w.relays == map[0 := Batch([id], next, false)] && id < |w.tables.outbox| && !w.tables.outbox[id].published
  }

  lemma ClaimFirst(start: World, w: World) returns (w': World, id: RowId)
    requires Saves(start, w) && Inv(w) && w.relays == map[] && Waiting(w.tables.outbox) > 0
    ensures Saves(start, w') && Inv(w') && Holding(w', id, 0) && w'.tables == w.tables
  {
    hide Inv;
    id := FirstWaiting(w);
    w' := Apply(w, Claim(0, [id]));
    SavesOn(start, w, Claim(0, [id]));
    ApplyKeepsInv(w, Claim(0, [id]));
  }

  lemma ConfirmIt(start: World, w: World, id: RowId) returns (w': World)
    requires Saves(start, w) && Inv(w) && Holding(w, id, 0)
    ensures Saves(start, w') && Inv(w') && Holding(w', id, 1) && w'.tables == w.tables
  {
    hide Inv;
    w' := Apply(w, PublishNext(0, Confirmed));
    SavesOn(start, w, PublishNext(0, Confirmed));
    ApplyKeepsInv(w, PublishNext(0, Confirmed));
  }

  /** One relay, one row: claimed, published, marked. */
  lemma PublishOne(start: World, w: World) returns (w': World)
    requires Saves(start, w) && Inv(w) && w.relays == map[] && Waiting(w.tables.outbox) > 0
    ensures Saves(start, w') && Inv(w') && w'.relays == map[]
    ensures Waiting(w'.tables.outbox) == Waiting(w.tables.outbox) - 1 && w'.tables.orders == w.tables.orders
  {
    hide Inv;
    var claimed, id := ClaimFirst(start, w);
    var sent := ConfirmIt(start, claimed, id);
    w' := Apply(sent, CommitBatch(0));
    SavesOn(start, sent, CommitBatch(0));
    ApplyKeepsInv(sent, CommitBatch(0));
    MarkedOne(w.tables.outbox, id);
    MarkingOne(w.tables.outbox, id, Published(w.tables.outbox[id]));
  }

  lemma FirstWaiting(w: World) returns (id: RowId)
    requires w.relays == map[] && Waiting(w.tables.outbox) > 0
    ensures id < |w.tables.outbox| && !w.tables.outbox[id].published
    ensures Apply(w, Claim(0, [id])) == w.(relays := map[0 := Batch([id], 0, false)])
  {
    var outbox := w.tables.outbox;
    NoneWaits(outbox);
    id :| 0 <= id < |outbox| && !outbox[id].published;
    assert Locked(w.relays) == {};
    assert Claimable(outbox, Locked(w.relays), [id]);
    hide Waiting, Locked, Claimable;
    assert w.relays[0 := Batch([id], 0, false)] == map[0 := Batch([id], 0, false)];
  }

  lemma MarkedOne(outbox: seq<OutboxRow>, id: RowId)
    requires id < |outbox|
    ensures Marked(outbox, Batch([id], 1, false)) == outbox[id := Published(outbox[id])]
  {
    var b := Batch([id], 1, false);
    assert b.rows[..b.next] == [id] && [id][..0] == [];
    assert MarkAll(outbox, []) == outbox;
    assert MarkAll(outbox, [id]) == outbox[id := Published(outbox[id])];
  }

  lemma {:induction false} PublishAll(start: World, w: World) returns (w': World)
    requires Saves(start, w) && Inv(w) && w.relays == map[]
    ensures Saves(start, w') && Inv(w') && Waiting(w'.tables.outbox) == 0 && w'.tables.orders == w.tables.orders
    decreases Waiting(w.tables.outbox)
  {
    if Waiting(w.tables.outbox) == 0 {
      w' := w;
    } else {
      var next := PublishOne(start, w);
      w' := PublishAll(start, next);
    }
  }

  // ---- the consumers ----

  /** Events a consumer has not answered for. */
  function Alive(w: World): set<MsgId> {
    set m | m in w.msgs && w.msgs[m].content.Json? && !w.msgs[m].place.DeadLettered?
  }

  lemma DeliverIt(start: World, w: World, m: MsgId) returns (w': World)
    requires Saves(start, w) && Inv(w) && m in Alive(w)
    ensures Saves(start, w') && Inv(w') && w'.tables == w.tables
    ensures m in w'.msgs && w'.msgs - {m} == w.msgs - {m} && w'.msgs[m].content.Json? && w'.msgs[m].place.Held?
  {
    hide Inv;
    if w.msgs[m].place.Ready? {
      w' := Apply(w, Step.Deliver(m, 0));
      SavesOn(start, w, Step.Deliver(m, 0));
      ApplyKeepsInv(w, Step.Deliver(m, 0));
    } else {
      w' := w;
    }
  }

  lemma HandleIt(start: World, w: World, m: MsgId) returns (w': World)
    requires Saves(start, w) && Inv(w) && m in w.msgs && w.msgs[m].content.Json? && w.msgs[m].place.Held?
    ensures Saves(start, w') && Inv(w') && w'.tables == w.tables
    ensures m in w'.msgs && w'.msgs - {m} == w.msgs - {m} && w'.msgs[m].content.Json?
         && w'.msgs[m].place.Held? && w'.msgs[m].place.applied
  {
    assert Parses(w.msgs[m].content) by {
      assert MsgSound(w.tables, w.ledger, w.msgs[m]);
    }
    hide Inv;
    if w.msgs[m].place.applied {
      w' := w;
    } else {
      w' := Apply(w, Step.Handle(m));
      SavesOn(start, w, Step.Handle(m));
      ApplyKeepsInv(w, Step.Handle(m));
    }
  }

  /** One message to its end: delivered, applied, acknowledged. */
  lemma ConsumeOne(start: World, w: World, m: MsgId) returns (w': World)
    requires Saves(start, w) && Inv(w) && m in Alive(w)
    ensures Saves(start, w') && Inv(w') && w'.msgs == w.msgs - {m} && w'.tables == w.tables
  {
    hide Inv;
    var a := DeliverIt(start, w, m);
    var b := HandleIt(start, a, m);
    w' := Apply(b, Acknowledge(m));
    SavesOn(start, b, Acknowledge(m));
    ApplyKeepsInv(b, Acknowledge(m));
  }

  lemma {:induction false} ConsumeAll(start: World, w: World) returns (w': World)
    requires Saves(start, w) && Inv(w)
    ensures Saves(start, w') && Inv(w') && Alive(w') == {} && w'.tables == w.tables
    decreases Alive(w)
  {
    hide Inv;
    if Alive(w) == {} {
      w' := w;
    } else {
      var m :| m in Alive(w);
      var next := ConsumeOne(start, w, m);
      assert Alive(next) == Alive(w) - {m};
      w' := ConsumeAll(start, next);
    }
  }

  // ---- together ----

  /** Nothing is left to publish or to deliver. */
  predicate Settled(w: World) {
    Waiting(w.tables.outbox) == 0 && Alive(w) == {}
  }

  predicate DeadLetteredCopy(w: World, id: OrderId) {
    exists m :: m in w.msgs && w.msgs[m].content.Json? && w.msgs[m].content.event.order == id
             && w.msgs[m].place == DeadLettered(DeliveryLimit)
  }

  /** Once settled, every order has its receipt, unless a copy of its event ran out of redeliveries. */
  lemma SettledMeans(w0: World, steps: seq<Step>, i: RowId)
    requires Fresh(w0) && Settled(Run(w0, steps)) && i < |Run(w0, steps).tables.orders|
    ensures var w := Run(w0, steps); var id := w.tables.orders[i].id; HasReceipt(w.ledger, id) || DeadLetteredCopy(w, id)
  {
    var w := Run(w0, steps);
    var id := w.tables.orders[i].id;
    NoEventIsLost(w0, steps, i);
    NoneWaits(w.tables.outbox);
    if !HasReceipt(w.ledger, id) {
      var m :| m in w.msgs && w.msgs[m].content == Json(w.tables.outbox[i].event)
            && (w.msgs[m].place.DeadLettered? ==> w.msgs[m].place.reason == DeliveryLimit);
      assert m !in Alive(w);
      assert w.msgs[m].place == DeadLettered(DeliveryLimit);
    }
  }

  lemma DeadBefore(a: World, b: World, id: OrderId)
    requires NoneDied(a, b) && DeadLetteredCopy(b, id)
    ensures DeadLetteredCopy(a, id)
  {
    var m :| m in b.msgs && b.msgs[m].content.Json? && b.msgs[m].content.event.order == id
          && b.msgs[m].place == DeadLettered(DeliveryLimit);
    assert Dead(b.msgs[m]);
  }

  /** From every reachable state, whoever has crashed, the relays and consumers can go on so that
      everything is published and delivered, no further event is dead-lettered, and every order
      ends with its receipt, save those that had a dead-lettered copy already. */
  lemma CanAlwaysSettle(w0: World, steps: seq<Step>) returns (more: seq<Step>)
    requires Fresh(w0)
    ensures var w, w' := Run(w0, steps), Run(w0, steps + more);
            && w'.tables.orders == w.tables.orders && Settled(w') && NoneDied(w, w')
            && forall i :: 0 <= i < |w.tables.orders| ==>
                 HasReceipt(w'.ledger, w.tables.orders[i].id) || DeadLetteredCopy(w, w.tables.orders[i].id)
  {
    hide Inv, NoneDied, Settled;
    var w := Run(w0, steps);
    EveryRunKeepsInv(w0, steps);
    SavesSelf(w);
    var a := DropRelays(w, w);
    var b := PublishAll(w, a);
    var w' := ConsumeAll(w, b);
    assert Settled(w') by { SettledIs(w'); }
    more :| Run(w, more) == w';
    RunJoins(w0, steps, more);
    forall i | 0 <= i < |w.tables.orders|
      ensures HasReceipt(w'.ledger, w.tables.orders[i].id) || DeadLetteredCopy(w, w.tables.orders[i].id)
    {
      SettledMeans(w0, steps + more, i);
      if DeadLetteredCopy(w', w.tables.orders[i].id) {
        DeadBefore(w, w', w.tables.orders[i].id);
      }
    }
  }

  lemma SettledIs(w: World)
    ensures Settled(w) <==> Waiting(w.tables.outbox) == 0 && Alive(w) == {}
  {
  }
}
