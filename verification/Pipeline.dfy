/** checkout -> outbox -> relays -> broker -> consumers, with a crash possible between any
    two steps of any component (src/checkout.ts, src/outbox/relay.ts,
    src/messaging/topology.ts, src/messaging/consumer.ts). A checkout is one step here;
    CheckoutInterleaving shows why it may be. */
module Pipeline {
  import opened Checkout
  import opened Consumer
  import opened Relay

  type RelayId = nat
  type ConsumerId = nat
  type MsgId = nat

  const DELIVERY_LIMIT := 5

  datatype DeathReason = Malformed | DeliveryLimit

  /** Where a message is; `applied`: the consumer's transaction has committed, the ack is due. */
  datatype Where = Ready | Held(holder: ConsumerId, applied: bool) | DeadLettered(reason: DeathReason)

  /** `origin` is history: the outbox row a JSON message was published from. */
  datatype Msg = Msg(content: Content, origin: RowId, bounces: nat, place: Where)

  /** A relay's open transaction: the rows it has locked, and how far its publishing got. */
  datatype Batch = Batch(rows: seq<RowId>, next: nat, failed: bool)

  /** `confirmed` and `acked` are history. */
  datatype World = World(
    tables: Tables, nextOrder: OrderId, relays: map<RelayId, Batch>, confirmed: set<RowId>,
    msgs: map<MsgId, Msg>, nextMsg: MsgId, ledger: Ledger, acked: set<OrderId>)

  datatype Step =
    | PlaceOrder(params: Params)
    | Claim(relay: RelayId, rows: seq<RowId>)
    | PublishNext(relay: RelayId, answer: Publish)
    | CommitBatch(relay: RelayId)
    | RelayCrash(relay: RelayId)
    | PublishGarbage
    | Deliver(msg: MsgId, consumer: ConsumerId)
    | Handle(msg: MsgId)
    | Requeue(msg: MsgId)
    | Acknowledge(msg: MsgId)
    | ConsumerCrash(consumer: ConsumerId)
    | CleanInbox(ids: set<nat>)

  ghost function Locked(relays: map<RelayId, Batch>): set<RowId> {
    set r, id | r in relays && id in relays[r].rows :: id
  }

  /** What SKIP LOCKED may hand out: unpublished rows no relay holds, each once. They come in the
      order of created_at, which is when their transactions began and so may be any order here. */
  ghost predicate Claimable(outbox: seq<OutboxRow>, locked: set<RowId>, rows: seq<RowId>) {
    && Distinct(rows)
    && forall n :: 0 <= n < |rows| ==> rows[n] < |outbox| && !outbox[rows[n]].published && rows[n] !in locked
  }

  function Send(w: World, content: Content, origin: RowId): World {
    w.(msgs := w.msgs[w.nextMsg := Msg(content, origin, 0, Ready)], nextMsg := w.nextMsg + 1)
  }

  /** One return to the queue; at the delivery limit the broker dead-letters instead. */
  function Returned(m: Msg): Msg {
    m.(bounces := m.bounces + 1,
       place := if m.bounces + 1 >= DELIVERY_LIMIT then DeadLettered(DeliveryLimit) else Ready)
  }

  /** The UPDATEs at the end of a batch: the confirmed prefix is marked, the failed row counts. */
  function Marked(outbox: seq<OutboxRow>, b: Batch): seq<OutboxRow>
    requires forall n :: 0 <= n < |b.rows| ==> b.rows[n] < |outbox|
    requires b.next <= |b.rows| && (b.failed ==> b.next < |b.rows|)
  {
    var marked := MarkAll(outbox, b.rows[..b.next]);
    if b.failed then MarkFailed(marked, b.rows[b.next]) else marked
  }

  ghost predicate BatchSound(outbox: seq<OutboxRow>, b: Batch) {
    && b.next <= |b.rows| && (b.failed ==> b.next < |b.rows|)
    && (forall n :: 0 <= n < |b.rows| ==> b.rows[n] < |outbox| && !outbox[b.rows[n]].published)
  }

  ghost function Apply(w: World, step: Step): World {
    match step
    case PlaceOrder(p) =>
      w.(tables := Checkout.Place(w.tables, p, w.nextOrder), nextOrder := w.nextOrder + 1)
    case Claim(r, rows) =>
      if r in w.relays || !Claimable(w.tables.outbox, Locked(w.relays), rows) then w
      else w.(relays := w.relays[r := Batch(rows, 0, false)])
    case PublishNext(r, answer) =>
      if r in w.relays && BatchSound(w.tables.outbox, w.relays[r])
         && w.relays[r].next < |w.relays[r].rows| && !w.relays[r].failed then
        var b := w.relays[r];
        var id := b.rows[b.next];
        var sent := if answer.Refused? then w else Send(w, Json(w.tables.outbox[id].event), id);
        if answer.Confirmed? then
          sent.(relays := w.relays[r := b.(next := b.next + 1)], confirmed := w.confirmed + {id})
        else
          sent.(relays := w.relays[r := b.(failed := true)])
      else w
    case CommitBatch(r) =>
      if r in w.relays && BatchSound(w.tables.outbox, w.relays[r])
         && (w.relays[r].failed || w.relays[r].next == |w.relays[r].rows|) then
        w.(tables := w.tables.(outbox := Marked(w.tables.outbox, w.relays[r])), relays := w.relays - {r})
      else w
    case RelayCrash(r) =>
      w.(relays := w.relays - {r})
    case PublishGarbage =>
      Send(w, Garbage, 0)
    case Deliver(m, c) =>
      if m in w.msgs && w.msgs[m].place.Ready? then w.(msgs := w.msgs[m := w.msgs[m].(place := Held(c, false))]) else w
    case Handle(m) =>
      if m in w.msgs && w.msgs[m].place.Held? && !w.msgs[m].place.applied then
        var msg := w.msgs[m];
        if Parses(msg.content) then
          w.(ledger := ApplyEvent(w.ledger, msg.content.event),
             msgs := w.msgs[m := msg.(place := Held(msg.place.holder, true))])
        else
          w.(msgs := w.msgs[m := msg.(place := DeadLettered(Malformed))])
      else w
    case Requeue(m) =>
      // the transaction threw, with or without effect: reject(requeue = true)
      if m in w.msgs && w.msgs[m].place.Held? && Parses(w.msgs[m].content) then
        w.(msgs := w.msgs[m := Returned(w.msgs[m])])
      else w
    case Acknowledge(m) =>
      if m in w.msgs && w.msgs[m].place.Held? && w.msgs[m].place.applied && w.msgs[m].content.Json? then
        w.(msgs := w.msgs - {m}, acked := w.acked + {w.msgs[m].content.event.order})
      else w
    case ConsumerCrash(c) =>
      w.(msgs := map m | m in w.msgs :: if w.msgs[m].place.Held? && w.msgs[m].place.holder == c then Returned(w.msgs[m]) else w.msgs[m])
    case CleanInbox(ids) =>
      w.(ledger := w.ledger.(processed := w.ledger.processed - ids))
  }

  ghost function Run(w: World, steps: seq<Step>): World {
    if steps == [] then w else Apply(Run(w, steps[..|steps| - 1]), steps[|steps| - 1])
  }

  lemma RunOn(w: World, steps: seq<Step>, step: Step)
    ensures Run(w, steps + [step]) == Apply(Run(w, steps), step)
  {
    hide Apply;
    assert (steps + [step])[..|steps|] == steps;
  }

  lemma {:induction false} RunJoins(w: World, a: seq<Step>, b: seq<Step>)
    ensures Run(Run(w, a), b) == Run(w, a + b)
  {
    hide Apply;
    if b == [] {
      assert a + b == a;
    } else {
      var last := |b| - 1;
      RunJoins(w, a, b[..last]);
      assert a + b == (a + b[..last]) + [b[last]];
    }
  }

  /** Nothing ordered yet, nothing in flight. */
  predicate Fresh(w: World) {
    && Sound(w.tables) && w.tables.orders == [] && w.relays == map[] && w.confirmed == {}
    && w.msgs == map[] && w.ledger == Ledger({}, []) && w.acked == {}
  }

  // ---- the invariant, across the four components ----

  /** Somewhere there is a copy of the event of order `id`, or its effect has happened. */
  predicate Carried(w: World, id: OrderId) {
    HasReceipt(w.ledger, id) || exists m :: m in w.msgs && w.msgs[m].content.Json? && w.msgs[m].content.event.order == id
  }

  predicate OrdersSound(t: Tables, next: OrderId) {
    Aligned(t) && forall i :: 0 <= i < |t.orders| ==> t.orders[i].id < next
  }

  /** Open batches lock unpublished rows, and no row is locked twice. */
  ghost predicate RelaysSound(outbox: seq<OutboxRow>, relays: map<RelayId, Batch>) {
    && (forall r :: r in relays ==> BatchSound(outbox, relays[r]) && Distinct(relays[r].rows))
    && (forall r, q :: r in relays && q in relays && r != q ==> Disjoint(relays[r].rows, relays[q].rows))
  }

  ghost predicate Disjoint(a: seq<RowId>, b: seq<RowId>) {
    forall i, j :: 0 <= i < |a| && 0 <= j < |b| ==> a[i] != b[j]
  }

  /** A row is marked only after a confirm; so is the prefix of a batch before it is marked. */
  predicate MarksConfirmed(outbox: seq<OutboxRow>, relays: map<RelayId, Batch>, confirmed: set<RowId>) {
    && (forall i :: 0 <= i < |outbox| && outbox[i].published ==> i in confirmed)
    && (forall r, n :: r in relays && 0 <= n < relays[r].next && n < |relays[r].rows| ==> relays[r].rows[n] in confirmed)
  }

  predicate ConfirmedCarried(w: World) {
    forall i :: i in w.confirmed ==> i < |w.tables.orders| && Carried(w, w.tables.orders[i].id)
  }

  predicate MsgSound(t: Tables, l: Ledger, m: Msg) {
    && (m.content.Json? ==>
          && m.origin < |t.orders| && m.origin < |t.outbox| && m.content.event == t.outbox[m.origin].event
          && m.content.event.order == t.orders[m.origin].id
          && WellFormed(m.content.event)
          && (m.place.DeadLettered? ==> m.place.reason == DeliveryLimit && m.bounces == DELIVERY_LIMIT))
    && (m.place.Held? && m.place.applied ==> m.content.Json? && HasReceipt(l, m.content.event.order))
    && (!m.place.DeadLettered? ==> m.bounces < DELIVERY_LIMIT)
  }

  predicate MsgsSound(w: World) {
    forall m :: m in w.msgs ==> m < w.nextMsg && MsgSound(w.tables, w.ledger, w.msgs[m])
  }

  /** Every receipt is the receipt of a committed order, with that order's buyer and total. */
  predicate ReceiptsReal(t: Tables, l: Ledger) {
    forall k :: 0 <= k < |l.receipts| ==> RealReceipt(t, l.receipts[k])
  }

  predicate RealReceipt(t: Tables, r: Receipt) {
    exists i :: 0 <= i < |t.orders| && t.orders[i].id == r.order && t.orders[i].buyer == r.buyer && t.orders[i].total == r.total
  }

  predicate AckedDone(w: World) {
    forall id :: id in w.acked ==> HasReceipt(w.ledger, id)
  }

  ghost predicate Inv(w: World) {
    && OrdersSound(w.tables, w.nextOrder)
    && RelaysSound(w.tables.outbox, w.relays)
    && MarksConfirmed(w.tables.outbox, w.relays, w.confirmed)
    && ConfirmedCarried(w)
    && MsgsSound(w)
    && UniqueReceipts(w.ledger) && StableReceipts(w.ledger) && MarksSound(w.ledger)
    && ReceiptsReal(w.tables, w.ledger)
    && AckedDone(w)
  }

  // ---- each step keeps it ----

  lemma CarriedGrows(w: World, w': World, id: OrderId)
    requires Carried(w, id) && w.ledger.receipts <= w'.ledger.receipts
    requires forall m :: m in w.msgs ==> m in w'.msgs && w'.msgs[m].content == w.msgs[m].content
    ensures Carried(w', id)
  {
    if HasReceipt(w.ledger, id) {
      var k :| 0 <= k < |w.ledger.receipts| && w.ledger.receipts[k].order == id;
      assert w'.ledger.receipts[k] == w.ledger.receipts[k];
    } else {
      var m :| m in w.msgs && w.msgs[m].content.Json? && w.msgs[m].content.event.order == id;
      assert m in w'.msgs;
    }
  }

  lemma PlaceOrderKeeps(w: World, p: Params)
    requires Inv(w)
    ensures Inv(Apply(w, PlaceOrder(p)))
  {
    var w' := Apply(w, PlaceOrder(p));
    var t, t' := w.tables, w'.tables;
    assert OrdersSound(t', w'.nextOrder) && t.orders <= t'.orders && t.outbox <= t'.outbox && |t.orders| == |t.outbox|;
    forall i | i in w.confirmed ensures i < |t'.orders| && Carried(w', t'.orders[i].id) {
      CarriedGrows(w, w', t.orders[i].id);
    }
    forall k | 0 <= k < |w.ledger.receipts| ensures RealReceipt(t', w.ledger.receipts[k]) {
      RealGrows(t, t', w.ledger.receipts[k]);
    }
  }

  lemma RealGrows(t: Tables, t': Tables, r: Receipt)
    requires RealReceipt(t, r) && t.orders <= t'.orders
    ensures RealReceipt(t', r)
  {
    var i :| 0 <= i < |t.orders| && t.orders[i].id == r.order && t.orders[i].buyer == r.buyer && t.orders[i].total == r.total;
    assert t'.orders[i] == t.orders[i];
  }

  lemma ClaimedRows(outbox: seq<OutboxRow>, relays: map<RelayId, Batch>, rows: seq<RowId>)
    requires Claimable(outbox, Locked(relays), rows)
    ensures BatchSound(outbox, Batch(rows, 0, false))
    ensures forall r :: r in relays ==> Disjoint(relays[r].rows, rows) && Disjoint(rows, relays[r].rows)
  {
    forall r, i, j | r in relays && 0 <= i < |relays[r].rows| && 0 <= j < |rows| ensures relays[r].rows[i] != rows[j] {
      var id := relays[r].rows[i];
      assert r in relays && id in relays[r].rows;
      assert id in Locked(relays);
    }
  }

  lemma ClaimKeeps(w: World, r: RelayId, rows: seq<RowId>)
    requires Inv(w)
    ensures Inv(Apply(w, Claim(r, rows)))
  {
    hide Aligned, Locked;
    var w' := Apply(w, Claim(r, rows));
    if w' != w {
      ClaimedRows(w.tables.outbox, w.relays, rows);
      forall i | i in w.confirmed ensures Carried(w', w.tables.orders[i].id) {
        CarriedGrows(w, w', w.tables.orders[i].id);
      }
    }
  }

  /** Messages only join, change place, or leave with their receipt written: every order that
      was carried still is. */
  lemma ConfirmedStay(w: World, w': World)
    requires ConfirmedCarried(w) && w'.tables.orders == w.tables.orders && w'.confirmed == w.confirmed
    requires w.ledger.receipts <= w'.ledger.receipts
    requires forall m :: m in w.msgs ==> m in w'.msgs && w'.msgs[m].content == w.msgs[m].content
    ensures ConfirmedCarried(w')
  {
    forall i | i in w.confirmed ensures Carried(w', w.tables.orders[i].id) {
      CarriedGrows(w, w', w.tables.orders[i].id);
    }
  }

  lemma OutboxEventWellFormed(t: Tables, i: RowId)
    requires Aligned(t) && i < |t.orders|
    ensures t.outbox[i].event.order == t.orders[i].id && WellFormed(t.outbox[i].event) && Stable(t.outbox[i].event)
    ensures RealReceipt(t, ReceiptFor(t.outbox[i].event))
  {
  }

  lemma SendKeeps(w: World, id: RowId)
    requires Inv(w) && id < |w.tables.outbox|
    ensures Inv(Send(w, Json(w.tables.outbox[id].event), id))
    ensures Carried(Send(w, Json(w.tables.outbox[id].event), id), w.tables.orders[id].id)
  {
    var w' := Send(w, Json(w.tables.outbox[id].event), id);
    OutboxEventWellFormed(w.tables, id);
    assert |w.tables.outbox| == |w.tables.orders|;
    assert w'.msgs[w.nextMsg].content.event.order == w.tables.orders[id].id;
    ConfirmedStay(w, w');
  }

  lemma PublishKeeps(w: World, r: RelayId, answer: Publish)
    requires Inv(w) && r in w.relays && w.relays[r].next < |w.relays[r].rows| && !w.relays[r].failed
    ensures Inv(Apply(w, PublishNext(r, answer)))
  {
    var b := w.relays[r];
    var id := b.rows[b.next];
    var w' := Apply(w, PublishNext(r, answer));
    if !answer.Refused? {
      SendKeeps(w, id);
    }
    var sent := if answer.Refused? then w else Send(w, Json(w.tables.outbox[id].event), id);
    hide Inv, Carried;
    AdvanceKeeps(sent, r, answer.Confirmed?);
  }

  lemma AdvanceKeeps(w: World, r: RelayId, confirmed: bool)
    requires Inv(w) && r in w.relays && w.relays[r].next < |w.relays[r].rows| && !w.relays[r].failed
    requires confirmed ==> Carried(w, w.tables.orders[w.relays[r].rows[w.relays[r].next]].id)
    ensures var b := w.relays[r];
            Inv(if confirmed then w.(relays := w.relays[r := b.(next := b.next + 1)], confirmed := w.confirmed + {b.rows[b.next]})
                else w.(relays := w.relays[r := b.(failed := true)]))
  {
  }

  /** Marking changes no event, and publishes exactly the confirmed prefix. */
  lemma {:induction false} MarkAllMeans(rows: seq<OutboxRow>, ids: seq<RowId>)
    requires forall n :: 0 <= n < |ids| ==> ids[n] < |rows|
    ensures forall i :: 0 <= i < |rows| ==>
              && MarkAll(rows, ids)[i].event == rows[i].event
              && (MarkAll(rows, ids)[i].published <==> rows[i].published || i in ids)
  {
    if ids != [] {
      MarkAllMeans(rows, ids[..|ids| - 1]);
      assert ids == ids[..|ids| - 1] + [ids[|ids| - 1]];
    }
  }

  lemma MarkedMeans(outbox: seq<OutboxRow>, b: Batch)
    requires BatchSound(outbox, b)
    ensures |Marked(outbox, b)| == |outbox|
    ensures forall i :: 0 <= i < |outbox| ==>
              && Marked(outbox, b)[i].event == outbox[i].event
              && (Marked(outbox, b)[i].published <==> outbox[i].published || i in b.rows[..b.next])
  {
    MarkAllMeans(outbox, b.rows[..b.next]);
  }

  /** Marking a batch leaves the other batches and the marks sound. */
  lemma MarkingSound(w: World, r: RelayId)
    requires Inv(w) && r in w.relays
    ensures var outbox := Marked(w.tables.outbox, w.relays[r]);
            RelaysSound(outbox, w.relays - {r}) && MarksConfirmed(outbox, w.relays - {r}, w.confirmed)
  {
    hide OrdersSound, ConfirmedCarried, MsgsSound, UniqueReceipts, ReceiptsReal, MarksSound, AckedDone, Marked;
    var b, outbox := w.relays[r], w.tables.outbox;
    var outbox' := Marked(outbox, b);
    MarkedMeans(outbox, b);
    forall i | 0 <= i < |outbox'| && outbox'[i].published ensures i in w.confirmed {
      if i in b.rows[..b.next] {
        var n :| 0 <= n < b.next && b.rows[n] == i;
      }
    }
    forall q | q in w.relays - {r} ensures BatchSound(outbox', w.relays[q]) {
      assert Disjoint(w.relays[q].rows, b.rows);
    }
  }

  lemma CommitBatchKeeps(w: World, r: RelayId)
    requires Inv(w) && r in w.relays && (w.relays[r].failed || w.relays[r].next == |w.relays[r].rows|)
    ensures Inv(Apply(w, CommitBatch(r)))
  {
    var w' := Apply(w, CommitBatch(r));
    MarkedMeans(w.tables.outbox, w.relays[r]);
    MarkingSound(w, r);
    ConfirmedStay(w, w');
    MsgsFrame(w, w');
    forall k | 0 <= k < |w.ledger.receipts| ensures RealReceipt(w'.tables, w.ledger.receipts[k]) {
      RealGrows(w.tables, w'.tables, w.ledger.receipts[k]);
    }
    hide RelaysSound, MarksConfirmed, Marked, MsgsSound, ConfirmedCarried, UniqueReceipts, RealReceipt;
  }

  lemma MsgsFrame(w: World, w': World)
    requires MsgsSound(w) && w'.msgs == w.msgs && w'.nextMsg == w.nextMsg && w'.ledger == w.ledger
    requires w'.tables.orders == w.tables.orders && |w'.tables.outbox| == |w.tables.outbox|
    requires forall i :: 0 <= i < |w.tables.outbox| ==> w'.tables.outbox[i].event == w.tables.outbox[i].event
    ensures MsgsSound(w')
  {
    forall m | m in w'.msgs ensures MsgSound(w'.tables, w'.ledger, w'.msgs[m]) {
      assert MsgSound(w.tables, w.ledger, w.msgs[m]);
    }
  }

  lemma CrashKeeps(w: World, r: RelayId)
    requires Inv(w)
    ensures Inv(Apply(w, RelayCrash(r)))
  {
    ConfirmedStay(w, Apply(w, RelayCrash(r)));
  }

  /** Changing messages one by one, each still sound and still carrying what it carried. */
  lemma MessagesKeep(w: World, w': World)
    requires Inv(w) && MsgsSound(w') && w' == w.(msgs := w'.msgs, nextMsg := w'.nextMsg)
    requires forall m :: m in w.msgs ==> m in w'.msgs && w'.msgs[m].content == w.msgs[m].content
    ensures Inv(w')
  {
    ConfirmedStay(w, w');
  }

  lemma MessageStepKeeps(w: World, step: Step)
    requires Inv(w)
    requires step.PublishGarbage? || step.Deliver? || step.Requeue? || step.ConsumerCrash?
    ensures Inv(Apply(w, step))
  {
    hide OrdersSound, RelaysSound, MarksConfirmed, ConfirmedCarried, UniqueReceipts, ReceiptsReal, MarksSound, AckedDone;
    MessagesKeep(w, Apply(w, step));
  }

  lemma HandleKeeps(w: World, m: MsgId)
    requires Inv(w) && m in w.msgs && w.msgs[m].place.Held? && !w.msgs[m].place.applied
    ensures Inv(Apply(w, Handle(m)))
  {
    var msg, w' := w.msgs[m], Apply(w, Handle(m));
    assert MsgSound(w.tables, w.ledger, msg);
    if Parses(msg.content) {
      var e := msg.content.event;
      OutboxEventWellFormed(w.tables, msg.origin);
      ApplyKeeps(w.ledger, e);
      forall j | j in w'.msgs ensures MsgSound(w'.tables, w'.ledger, w'.msgs[j]) {
        assert MsgSound(w.tables, w.ledger, w.msgs[j]);
        if w.msgs[j].place.Held? && w.msgs[j].place.applied {
          ReceiptStays(w.ledger, w'.ledger, w.msgs[j].content.event.order);
        }
      }
      forall id | id in w.acked ensures HasReceipt(w'.ledger, id) {
        ReceiptStays(w.ledger, w'.ledger, id);
      }
      ConfirmedStay(w, w');
    } else {
      MessagesKeep(w, w');
    }
  }

  lemma ReceiptStays(l: Ledger, l': Ledger, id: OrderId)
    requires HasReceipt(l, id) && l.receipts <= l'.receipts
    ensures HasReceipt(l', id)
  {
    var k :| 0 <= k < |l.receipts| && l.receipts[k].order == id;
    assert l'.receipts[k] == l.receipts[k];
  }

  lemma AcknowledgeKeeps(w: World, m: MsgId)
    requires Inv(w) && m in w.msgs && w.msgs[m].place.Held? && w.msgs[m].place.applied && w.msgs[m].content.Json?
    ensures Inv(Apply(w, Acknowledge(m)))
  {
    var w' := Apply(w, Acknowledge(m));
    assert MsgSound(w.tables, w.ledger, w.msgs[m]);
    forall i | i in w.confirmed ensures Carried(w', w.tables.orders[i].id) {
      var id := w.tables.orders[i].id;
      if !HasReceipt(w.ledger, id) {
        var n :| n in w.msgs && w.msgs[n].content.Json? && w.msgs[n].content.event.order == id;
        assert n in w'.msgs;
      }
    }
  }

  lemma CleanInboxKeeps(w: World, ids: set<nat>)
    requires Inv(w)
    ensures Inv(Apply(w, CleanInbox(ids)))
  {
    var w' := Apply(w, CleanInbox(ids));
    forall id ensures HasReceipt(w'.ledger, id) <==> HasReceipt(w.ledger, id) {
    }
    ConfirmedStay(w, w');
  }

  lemma ApplyKeepsInv(w: World, step: Step)
    requires Inv(w)
    ensures Inv(Apply(w, step))
  {
    var w' := Apply(w, step);
    match step
    case PlaceOrder(p) => PlaceOrderKeeps(w, p);
    case Claim(r, rows) => ClaimKeeps(w, r, rows);
    case PublishNext(r, answer) => if w' != w { PublishKeeps(w, r, answer); }
    case CommitBatch(r) => if w' != w { CommitBatchKeeps(w, r); }
    case RelayCrash(r) => CrashKeeps(w, r);
    case PublishGarbage => MessageStepKeeps(w, step);
    case Deliver(m, c) => MessageStepKeeps(w, step);
    case Handle(m) => if w' != w { HandleKeeps(w, m); }
    case Requeue(m) => MessageStepKeeps(w, step);
    case Acknowledge(m) => if w' != w { AcknowledgeKeeps(w, m); }
    case ConsumerCrash(c) => MessageStepKeeps(w, step);
    case CleanInbox(ids) => CleanInboxKeeps(w, ids);
  }

  lemma {:induction false} EveryRunKeepsInv(w: World, steps: seq<Step>)
    requires Fresh(w)
    ensures Inv(Run(w, steps))
  {
    if steps != [] {
      EveryRunKeepsInv(w, steps[..|steps| - 1]);
      ApplyKeepsInv(Run(w, steps[..|steps| - 1]), steps[|steps| - 1]);
    }
  }

  // ---- what every run guarantees ----

  /** The outbox row of order `i` still waits, or a copy is queued, in a consumer's hands or
      dead-lettered, or the receipt is written. Dead-lettering never calls it malformed. */
  lemma NoEventIsLost(w0: World, steps: seq<Step>, i: RowId)
    requires Fresh(w0) && i < |Run(w0, steps).tables.orders|
    ensures var w := Run(w0, steps);
            var id := w.tables.orders[i].id;
            && i < |w.tables.outbox| && w.tables.outbox[i].event.order == id
            && (|| !w.tables.outbox[i].published
                || HasReceipt(w.ledger, id)
                || exists m :: m in w.msgs && w.msgs[m].content == Json(w.tables.outbox[i].event)
                     && (w.msgs[m].place.DeadLettered? ==> w.msgs[m].place.reason == DeliveryLimit))
  {
    var w := Run(w0, steps);
    EveryRunKeepsInv(w0, steps);
    var id := w.tables.orders[i].id;
    if w.tables.outbox[i].published && !HasReceipt(w.ledger, id) {
      assert i in w.confirmed && Carried(w, id);
      var m :| m in w.msgs && w.msgs[m].content.Json? && w.msgs[m].content.event.order == id;
      assert MsgSound(w.tables, w.ledger, w.msgs[m]);
      assert w.msgs[m].origin == i;
    }
  }

  /** No effect is doubled or invented: at most one receipt per order, each the receipt of a
      committed order with its buyer and total; a mark or an ack means the receipt is there. */
  lemma NoEffectIsDoubled(w0: World, steps: seq<Step>)
    requires Fresh(w0)
    ensures var w := Run(w0, steps);
            && UniqueReceipts(w.ledger) && ReceiptsReal(w.tables, w.ledger)
            && MarksSound(w.ledger) && AckedDone(w)
  {
    EveryRunKeepsInv(w0, steps);
  }

  /** No row is in two relays' hands, and a published row was confirmed by the broker first. */
  lemma RelaysAreSafe(w0: World, steps: seq<Step>, r: RelayId, q: RelayId)
    requires Fresh(w0)
    ensures var w := Run(w0, steps);
            && (r in w.relays && q in w.relays && r != q ==> Disjoint(w.relays[r].rows, w.relays[q].rows))
            && (forall i :: 0 <= i < |w.tables.outbox| && w.tables.outbox[i].published ==> i in w.confirmed)
  {
    EveryRunKeepsInv(w0, steps);
  }

  /** A message is returned fewer times than the delivery limit while it is alive, and an
      outbox event is dead-lettered only by reaching it, never as malformed. */
  lemma DeadLettersAreExhausted(w0: World, steps: seq<Step>, m: MsgId)
    requires Fresh(w0) && m in Run(w0, steps).msgs
    ensures var msg := Run(w0, steps).msgs[m];
            if msg.place.DeadLettered? then
              msg.content.Json? ==> msg.place.reason == DeliveryLimit && msg.bounces == 5
            else msg.bounces < 5
  {
    EveryRunKeepsInv(w0, steps);
    assert MsgSound(Run(w0, steps).tables, Run(w0, steps).ledger, Run(w0, steps).msgs[m]);
  }

  /** Step `k` of the run applied an event with the id `id`, and no cleaning has removed its mark since. */
  ghost predicate MarkedAt(w0: World, steps: seq<Step>, k: nat, id: nat) {
    && k < |steps| && steps[k].Handle?
    && (var w, m := Run(w0, steps[..k]), steps[k].msg;
        && m in w.msgs && w.msgs[m].place.Held? && !w.msgs[m].place.applied
        && w.msgs[m].content.Json? && w.msgs[m].content.event.eventId == id)
    && forall j :: k < j < |steps| && steps[j].CleanInbox? ==> id !in steps[j].ids
  }

  lemma StepMarks(w: World, step: Step, id: nat)
    requires Inv(w)
    ensures id in Apply(w, step).ledger.processed <==>
              || (id in w.ledger.processed && !(step.CleanInbox? && id in step.ids))
              || (&& step.Handle? && step.msg in w.msgs && w.msgs[step.msg].place.Held? && !w.msgs[step.msg].place.applied
                  && w.msgs[step.msg].content.Json? && w.msgs[step.msg].content.event.eventId == id)
  {
    if step.Handle? && step.msg in w.msgs {
      assert MsgSound(w.tables, w.ledger, w.msgs[step.msg]);
    }
    hide Inv;
  }

  /** In every run an event is marked in the inbox exactly when it was applied and no cleaning has
      removed its mark since: redelivery in between is told apart by the mark. */
  lemma {:induction false} MarkedIff(w0: World, steps: seq<Step>, id: nat)
    requires Fresh(w0)
    ensures id in Run(w0, steps).ledger.processed <==> exists k :: MarkedAt(w0, steps, k, id)
  {
    hide Apply, Inv;
    if steps != [] {
      var before, last := steps[..|steps| - 1], |steps| - 1;
      MarkedIff(w0, before, id);
      EveryRunKeepsInv(w0, before);
      StepMarks(Run(w0, before), steps[last], id);
      if k: nat :| MarkedAt(w0, before, k, id) {
        assert before[..k] == steps[..k];
        assert (steps[last].CleanInbox? && id in steps[last].ids) || MarkedAt(w0, steps, k, id);
      }
      if k: nat :| MarkedAt(w0, steps, k, id) {
        assert k < last ==> before[..k] == steps[..k] && MarkedAt(w0, before, k, id);
      }
      if id in Run(w0, steps).ledger.processed && id !in Run(w0, before).ledger.processed {
        assert MarkedAt(w0, steps, last, id);
      }
    }
  }

  function OrderIds(orders: seq<Order>): seq<OrderId> {
    seq(|orders|, i requires 0 <= i < |orders| => orders[i].id)
  }

  function ReceiptIds(receipts: seq<Receipt>): seq<OrderId> {
    seq(|receipts|, k requires 0 <= k < |receipts| => receipts[k].order)
  }

  lemma {:induction false} DistinctCounts(ids: seq<OrderId>, id: OrderId)
    requires Distinct(ids)
    ensures multiset(ids)[id] == if id in ids then 1 else 0
  {
    if ids != [] {
      var rest := ids[..|ids| - 1];
      assert ids == rest + [ids[|ids| - 1]];
      DistinctCounts(rest, id);
    }
  }

  /** Nothing waits in the outbox and no event is queued, in flight or dead-lettered. */
  predicate Quiet(w: World) {
    && (forall i :: 0 <= i < |w.tables.outbox| ==> w.tables.outbox[i].published)
    && (forall m :: m in w.msgs ==> w.msgs[m].content.Garbage?)
  }

  /** At-least-once delivery and an idempotent effect make an exactly-once result: once all is
      quiet, orders and receipts are in bijection. */
  lemma ExactlyOnceResult(w0: World, steps: seq<Step>)
    requires Fresh(w0) && Quiet(Run(w0, steps))
    ensures var w := Run(w0, steps);
            multiset(ReceiptIds(w.ledger.receipts)) == multiset(OrderIds(w.tables.orders))
  {
    var w := Run(w0, steps);
    EveryRunKeepsInv(w0, steps);
    var orders, receipts := OrderIds(w.tables.orders), ReceiptIds(w.ledger.receipts);
    forall id ensures multiset(receipts)[id] == multiset(orders)[id] {
      DistinctCounts(orders, id);
      DistinctCounts(receipts, id);
      if id in orders {
        var i :| 0 <= i < |w.tables.orders| && w.tables.orders[i].id == id;
        NoEventIsLost(w0, steps, i);
        var k :| 0 <= k < |w.ledger.receipts| && w.ledger.receipts[k].order == id;
        assert receipts[k] == id;
      }
      if id in receipts {
        var k :| 0 <= k < |w.ledger.receipts| && w.ledger.receipts[k].order == id;
        assert RealReceipt(w.tables, w.ledger.receipts[k]);
        var i :| 0 <= i < |w.tables.orders| && w.tables.orders[i].id == id;
        assert orders[i] == id;
      }
    }
  }
}
