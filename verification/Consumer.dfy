/** The order.placed consumer: an inbox mark and the receipt in one transaction, and the
    acknowledgement only afterwards (src/messaging/consumer.ts). */
module Consumer {
  import opened Wrappers
  import opened Checkout

  datatype Receipt = Receipt(eventId: nat, order: OrderId, buyer: UserId, total: int)

  /** processed_messages of this consumer, and order_receipts in commit order. */
  datatype Ledger = Ledger(processed: set<nat>, receipts: seq<Receipt>)

  /** A delivered body: JSON of the event shape, or anything else. */
  datatype Content = Json(event: Event) | Garbage

  /** OrderPlacedSchema: quantity a positive integer, totalAmount not negative. */
  predicate WellFormed(e: Event) {
    e.quantity > 0 && e.total >= 0
  }

  predicate Parses(c: Content) {
    c.Json? && WellFormed(c.event)
  }

  predicate HasReceipt(l: Ledger, id: OrderId) {
    exists k :: 0 <= k < |l.receipts| && l.receipts[k].order == id
  }

  /** The two unique indexes of order_receipts: event_id and order_id. */
  predicate Conflicts(receipts: seq<Receipt>, e: Event) {
    exists k :: 0 <= k < |receipts| && (receipts[k].eventId == e.eventId || receipts[k].order == e.order)
  }

  predicate Applies(l: Ledger, e: Event) {
    e.eventId !in l.processed && !Conflicts(l.receipts, e)
  }

  function ReceiptFor(e: Event): Receipt {
    Receipt(e.eventId, e.order, e.buyer, e.total)
  }

  /** The committed effect of one delivery. */
  function ApplyEvent(l: Ledger, e: Event): Ledger {
    if Applies(l, e) then Ledger(l.processed + {e.eventId}, l.receipts + [ReceiptFor(e)])
    else l.(processed := l.processed + {e.eventId})
  }

  /** One receipt per order and per event id, whatever else. */
  predicate UniqueReceipts(l: Ledger) {
    forall j, k :: 0 <= j < k < |l.receipts| ==>
      l.receipts[j].order != l.receipts[k].order && l.receipts[j].eventId != l.receipts[k].eventId
  }

  /** An event id names its order: eventIdFor is injective. */
  predicate Stable(e: Event) {
    e.eventId == e.order
  }

  predicate StableReceipts(l: Ledger) {
    forall k :: 0 <= k < |l.receipts| ==> l.receipts[k].eventId == l.receipts[k].order
  }

  predicate MarksSound(l: Ledger) {
    forall id :: id in l.processed ==> HasReceipt(l, id)
  }

  /** After a delivery, redelivered or not, its order has exactly its one receipt, every older
      receipt is where it was, and a mark still means a receipt. */
  lemma ApplyKeeps(l: Ledger, e: Event)
    requires UniqueReceipts(l) && StableReceipts(l) && MarksSound(l) && Stable(e)
    ensures var l' := ApplyEvent(l, e);
            && UniqueReceipts(l') && StableReceipts(l') && MarksSound(l')
            && HasReceipt(l', e.order)
            && l.receipts <= l'.receipts
            && (HasReceipt(l, e.order) <==> l'.receipts == l.receipts)
  {
    var l' := ApplyEvent(l, e);
    if Applies(l, e) {
      assert l'.receipts[|l.receipts|] == ReceiptFor(e);
      forall id | HasReceipt(l, id) ensures HasReceipt(l', id) {
        var k :| 0 <= k < |l.receipts| && l.receipts[k].order == id;
        assert l'.receipts[k] == l.receipts[k];
      }
    }
  }

  /** Deliveries of outbox events, and deletions of inbox rows at any moment in between. */
  datatype Op = Deliver(event: Event) | DeleteMarks(ids: set<nat>)

  function RunOp(l: Ledger, op: Op): Ledger {
    match op
    case Deliver(e) => ApplyEvent(l, e)
    case DeleteMarks(ids) => l.(processed := l.processed - ids)
  }

  function RunOps(l: Ledger, ops: seq<Op>): Ledger {
    if ops == [] then l else RunOp(RunOps(l, ops[..|ops| - 1]), ops[|ops| - 1])
  }

  predicate StableOps(ops: seq<Op>) {
    forall n :: 0 <= n < |ops| && ops[n].Deliver? ==> Stable(ops[n].event)
  }

  /** However often each event is delivered and however the inbox is emptied meanwhile, the
      receipts are one for each order delivered at least once, and no others. */
  lemma {:induction false} ReceiptsAreDeliveries(ops: seq<Op>)
    requires StableOps(ops)
    ensures var l := RunOps(Ledger({}, []), ops);
            && UniqueReceipts(l) && StableReceipts(l) && MarksSound(l)
            && (forall id :: HasReceipt(l, id) <==> exists n :: 0 <= n < |ops| && ops[n].Deliver? && ops[n].event.order == id)
  {
    if ops != [] {
      var before, op := ops[..|ops| - 1], ops[|ops| - 1];
      ReceiptsAreDeliveries(before);
      var l, l' := RunOps(Ledger({}, []), before), RunOps(Ledger({}, []), ops);
      if op.Deliver? {
        ApplyKeeps(l, op.event);
      }
      forall id ensures HasReceipt(l', id) <==> HasReceipt(l, id) || (op.Deliver? && op.event.order == id) {
        ReceiptGrowth(l, op, id);
      }
      forall id ensures (exists n :: 0 <= n < |ops| && ops[n].Deliver? && ops[n].event.order == id)
                   <==> HasReceipt(l, id) || (op.Deliver? && op.event.order == id) {
        if n :| 0 <= n < |ops| && ops[n].Deliver? && ops[n].event.order == id {
          assert n < |ops| - 1 ==> before[n] == ops[n];
        }
        if HasReceipt(l, id) {
          var n :| 0 <= n < |before| && before[n].Deliver? && before[n].event.order == id;
          assert ops[n] == before[n];
        }
      }
    }
  }

  /** Delivery `n` left the mark `id`, and nothing has deleted it since. */
  predicate MarkedAt(ops: seq<Op>, n: nat, id: nat) {
    && n < |ops| && ops[n].Deliver? && ops[n].event.eventId == id
    && forall m :: n < m < |ops| && ops[m].DeleteMarks? ==> id !in ops[m].ids
  }

  /** An event is marked exactly when it was delivered and its mark not deleted since the last time. */
  lemma {:induction false} MarkedIff(ops: seq<Op>, id: nat)
    ensures id in RunOps(Ledger({}, []), ops).processed <==> exists n :: MarkedAt(ops, n, id)
  {
    if ops != [] {
      var before, last := ops[..|ops| - 1], |ops| - 1;
      MarkedIff(before, id);
      if n: nat :| MarkedAt(before, n, id) {
        assert (ops[last].DeleteMarks? && id in ops[last].ids) || MarkedAt(ops, n, id);
      }
      if n: nat :| MarkedAt(ops, n, id) {
        assert n < last ==> MarkedAt(before, n, id);
        assert !(ops[last].DeleteMarks? && id in ops[last].ids);
      }
      if ops[last].Deliver? && ops[last].event.eventId == id {
        assert MarkedAt(ops, last, id);
      }
    }
  }

  lemma ReceiptGrowth(l: Ledger, op: Op, id: OrderId)
    requires op.Deliver? ==> HasReceipt(RunOp(l, op), op.event.order)
    ensures HasReceipt(RunOp(l, op), id) <==> HasReceipt(l, id) || (op.Deliver? && op.event.order == id)
  {
    var l' := RunOp(l, op);
    if HasReceipt(l, id) {
      var k :| 0 <= k < |l.receipts| && l.receipts[k].order == id;
      assert l'.receipts[k] == l.receipts[k];
    }
    if k :| 0 <= k < |l'.receipts| && l'.receipts[k].order == id {
      assert k < |l.receipts| ==> l.receipts[k] == l'.receipts[k];
    }
  }

  /** `ChannelClosed`: the reply could not be sent, so the broker takes the message back. `Threw`: the
      same, and the error leaves the handler. */
  datatype Reply = Ack | Reject(requeue: bool) | ChannelClosed | Threw

  datatype Stats = Stats(delivered: nat, applied: nat, skipped: nat, acked: nat, rejected: nat)

  class OrderConsumer {
    var processed: set<nat>
    var receipts: seq<Receipt>
    var stats: Stats

    constructor ()
      ensures State() == Ledger({}, []) && stats == Stats(0, 0, 0, 0, 0)
    {
      processed, receipts, stats := {}, [], Stats(0, 0, 0, 0, 0);
    }

    ghost function State(): Ledger
      reads this
    {
      Ledger(processed, receipts)
    }

    /** Both inserts in one transaction; true when the receipt is new. */
    method ApplyOrderPlaced(e: Event) returns (applied: bool)
      modifies this`processed, this`receipts
      ensures applied == Applies(old(State()), e)
      ensures State() == ApplyEvent(old(State()), e)
      ensures processed == old(processed) + {e.eventId}
      ensures applied <==>
                e.eventId !in old(processed) &&
                forall k :: 0 <= k < |old(receipts)| ==> old(receipts)[k].eventId != e.eventId && old(receipts)[k].order != e.order
      ensures receipts == if applied then old(receipts) + [Receipt(e.eventId, e.order, e.buyer, e.total)] else old(receipts)
    {
      if e.eventId in processed {
        assert processed == processed + {e.eventId};
        return false;
      }
      processed := processed + {e.eventId};
      applied := !Conflicts(receipts, e);
      if applied {
        receipts := receipts + [ReceiptFor(e)];
      }
    }

    /** One delivery. `fate` is that of the transaction; `channelFails`: the channel is gone by the
        time the reply is sent. */
    method Handle(body: Content, fate: CommitFate, channelFails: bool) returns (reply: Reply)
      modifies this
      ensures Parses(body) <==> body.Json? && body.event.quantity > 0 && body.event.total >= 0
      ensures processed == if Parses(body) && !fate.CommitFails? then old(processed) + {body.event.eventId} else old(processed)
      ensures !Parses(body) ==>
                && reply == (if channelFails then Threw else Reject(false)) && State() == old(State())
                && stats == old(stats).(delivered := old(stats).delivered + 1, rejected := old(stats).rejected + 1)
      ensures Parses(body) && !fate.CommitDone? ==>
                && reply == (if channelFails then ChannelClosed else Reject(true))
                && State() == (if fate.CommitFails? then old(State()) else ApplyEvent(old(State()), body.event))
                && stats == old(stats).(delivered := old(stats).delivered + 1)
      ensures Parses(body) && fate.CommitDone? ==>
                && reply == (if channelFails then ChannelClosed else Ack)
                && State() == ApplyEvent(old(State()), body.event)
                && stats.applied + stats.skipped == old(stats.applied + stats.skipped) + 1
                && stats.applied - old(stats.applied) == |receipts| - |old(receipts)|
                && stats.acked == old(stats.acked) + (if channelFails then 0 else 1)
                && stats.delivered == old(stats.delivered) + 1 && stats.rejected == old(stats.rejected)
    {
      stats := stats.(delivered := stats.delivered + 1);
      if !Parses(body) {
        stats := stats.(rejected := stats.rejected + 1);
        return if channelFails then Threw else Reject(false);
      }
      if fate.CommitFails? {
        return if channelFails then ChannelClosed else Reject(true);
      }
      var applied := ApplyOrderPlaced(body.event);
      if fate.CommitUnheard? {
        return if channelFails then ChannelClosed else Reject(true);
      }
      if applied {
        stats := stats.(applied := stats.applied + 1);
      } else {
        stats := stats.(skipped := stats.skipped + 1);
      }
      if channelFails {
        return ChannelClosed;
      }
      stats := stats.(acked := stats.acked + 1);
      reply := Ack;
    }
  }
}
