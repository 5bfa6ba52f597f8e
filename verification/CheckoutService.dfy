/** checkout() as it is written: one transaction, statement after statement over
    tables updated in place, with the early rollbacks (src/checkout.ts). */
module CheckoutService {
  import opened Wrappers
  import opened Checkout

  /** Claimed keys all carry their order id: true of every committed state. */
  predicate Complete(keys: map<Key, Option<OrderId>>) {
    forall k :: k in keys ==> keys[k].Some?
  }

  function Values(keys: map<Key, Option<OrderId>>): map<Key, OrderId>
    requires Complete(keys)
  {
    map k | k in keys :: keys[k].value
  }

  /** With its key claimed, a checkout goes on as one without a key. */
  lemma KeyAside(t: Tables, p: Params, id: OrderId)
    requires !KeyTaken(t, p)
    ensures var bare := t.(keys := map[]);
            && Decide(bare, p.(key := None), id) == Decide(t, p, id)
            && Place(t, p, id) == (if Decide(t, p, id).Placed? then Commit(t, p, id) else t)
            && (Decide(t, p, id).Placed? ==>
                  Commit(t, p, id) == Commit(bare, p.(key := None), id).(
                                        keys := if p.key.Some? then t.keys[p.key.value := id] else t.keys))
  {
  }

  lemma TakenKey(t: Tables, p: Params, id: OrderId)
    requires KeyTaken(t, p)
    ensures Decide(t, p, id) == Lookup(t, p.key.value) && Place(t, p, id) == t
  {
  }

  /** One connection's view of the database between BEGIN and COMMIT or ROLLBACK. */
  class Database {
    var products: map<ProductId, Product>
    var users: map<UserId, User>
    var orders: seq<Order>
    var items: seq<Item>
    var jobs: seq<Job>
    var outbox: seq<OutboxRow>
    var keys: map<Key, Option<OrderId>>  // order_id is NULL between the claim and the update
    var nextOrder: OrderId               // identity sequence: a rollback does not give values back

    ghost function Committed(): Tables
      reads this
      requires Complete(keys)
    {
      Tables(products, users, orders, items, jobs, outbox, Values(keys))
    }

    constructor (t: Tables, next: OrderId)
      ensures Complete(keys) && Committed() == t && nextOrder == next
    {
      products, users, orders, items := t.products, t.users, t.orders, t.items;
      jobs, outbox, nextOrder := t.jobs, t.outbox, next;
      keys := map k | k in t.keys :: Some(t.keys[k]);
    }

    /** INSERT ... ON CONFLICT DO NOTHING: false when the key is already there. */
    method ClaimKey(k: Key) returns (claimed: bool)
      modifies this`keys
      ensures claimed == (k !in old(keys))
      ensures keys == if claimed then old(keys)[k := None] else old(keys)
    {
      claimed := k !in keys;
      if claimed {
        keys := keys[k := None];
      }
    }

    /** UPDATE products ... WHERE stock >= quantity RETURNING price. */
    method DecrementStock(product: ProductId, quantity: int) returns (price: Option<int>)
      modifies this`products
      ensures price.Some? <==> product in old(products) && old(products)[product].stock >= quantity
      ensures price.None? ==> products == old(products)
      ensures price.Some? ==>
                && price.value == old(products)[product].price
                && products == old(products)[product := Product(price.value, old(products)[product].stock - quantity)]
    {
      if product !in products || products[product].stock < quantity {
        return None;
      }
      var row := products[product];
      products := products[product := row.(stock := row.stock - quantity)];
      price := Some(row.price);
    }

    /** UPDATE users ... WHERE balance >= total RETURNING balance. */
    method DecrementBalance(buyer: UserId, total: int) returns (done: bool)
      modifies this`users
      ensures done <==> buyer in old(users) && old(users)[buyer].balance >= total
      ensures users == if done
                       then old(users)[buyer := User(old(users)[buyer].email, old(users)[buyer].balance - total)]
                       else old(users)
    {
      done := buyer in users && users[buyer].balance >= total;
      if done {
        var row := users[buyer];
        users := users[buyer := row.(balance := row.balance - total)];
      }
    }

    /** INSERT INTO orders: the identity value is spent even when the CHECK fails. */
    method InsertOrder(buyer: UserId, email: string, total: int) returns (id: Option<OrderId>)
      modifies this`orders, this`nextOrder
      ensures nextOrder == old(nextOrder) + 1
      ensures id == if total >= 0 then Some(old(nextOrder)) else None
      ensures orders == if total >= 0 then old(orders) + [Order(old(nextOrder), buyer, email, total)] else old(orders)
    {
      var next := nextOrder;
      nextOrder := nextOrder + 1;
      if total < 0 {
        return None;
      }
      orders := orders + [Order(next, buyer, email, total)];
      id := Some(next);
    }

    /** The replay lookup, with `prev[0]!` throwing when there is no row: it answers with the order
        that took the key, and fails only when there is none. */
    method FindPlaced(k: Key) returns (r: Outcome)
      requires k in keys && keys[k].Some?
      ensures r.LookupFailed? <==> forall o :: o in orders ==> o.id != keys[k].value
      ensures !r.LookupFailed? ==> exists o :: o in orders && o.id == keys[k].value && r == Replayed(o.id, o.total)
      ensures Complete(keys) ==> r == Lookup(Committed(), k)
    {
      var found := FindOrder(orders, keys[k].value);
      match found
      case Some(o) => r := Replayed(o.id, o.total);
      case None => r := LookupFailed;
    }

    /** Step 0: the key is claimed, or some order already has it and the call is a replay. */
    method ClaimOrReplay(p: Params) returns (replay: Option<Outcome>)
      requires Complete(keys)
      modifies this`keys
      ensures replay.Some? <==> KeyTaken(old(Committed()), p)
      ensures replay.Some? ==> replay.value == Lookup(old(Committed()), p.key.value) && keys == old(keys)
      ensures replay.None? ==> keys == if p.key.Some? then old(keys)[p.key.value := None] else old(keys)
    {
      if p.key.Some? {
        var claimed := ClaimKey(p.key.value);
        if !claimed {
          var prev := FindPlaced(p.key.value);
          return Some(prev);
        }
      }
      replay := None;
    }

    /** The inserts that follow the order row: item, job, key, outbox. False when
        CHECK (quantity > 0) fails on the item, before anything else is written. */
    method WriteRows(p: Params, id: OrderId, unitPrice: int, total: int) returns (done: bool)
      modifies this`items, this`jobs, this`keys, this`outbox
      ensures done <==> p.quantity > 0
      ensures items == if done then old(items) + [Item(id, p.product, p.quantity, unitPrice)] else old(items)
      ensures jobs == if done then old(jobs) + [Job(id)] else old(jobs)
      ensures keys == if done && p.key.Some? then old(keys)[p.key.value := Some(id)] else old(keys)
      ensures outbox == if done then old(outbox) + [OutboxRow(EventFor(p, id, total), false, 0)] else old(outbox)
    {
      done := p.quantity > 0;
      if done {
        items := items + [Item(id, p.product, p.quantity, unitPrice)];
        jobs := jobs + [Job(id)];
        if p.key.Some? {
          keys := keys[p.key.value := Some(id)];
        }
        outbox := outbox + [OutboxRow(EventFor(p, id, total), false, 0)];
      }
    }

    /** Everything after the key claim, up to but not including COMMIT or ROLLBACK. */
    method Spend(p: Params) returns (said: Outcome)
      modifies this
      ensures said == OutOfStock <==> p.product !in old(products) || old(products)[p.product].stock < p.quantity
      ensures said.Placed? <==>
                && p.product in old(products) && old(products)[p.product].stock >= p.quantity > 0
                && p.buyer in old(users) && old(users)[p.buyer].balance >= old(products)[p.product].price * p.quantity >= 0
      ensures var t := Tables(old(products), old(users), old(orders), old(items), old(jobs), old(outbox), map[]);
              && said == Decide(t, p.(key := None), old(nextOrder))
              && nextOrder == old(nextOrder) + (if said.Rejected? || said.Placed? then 1 else 0)
              && (said.Placed? ==>
                    var done := Commit(t, p.(key := None), old(nextOrder));
                    && products == done.products && users == done.users && orders == done.orders
                    && items == done.items && jobs == done.jobs && outbox == done.outbox
                    && keys == if p.key.Some? then old(keys)[p.key.value := Some(said.order)] else old(keys))
    {
      var price := DecrementStock(p.product, p.quantity);
      if price.None? {
        return OutOfStock;
      }
      var total := price.value * p.quantity;
      var paid := DecrementBalance(p.buyer, total);
      if !paid {
        return InsufficientFunds;
      }
      var email := users[p.buyer].email;
      var id := InsertOrder(p.buyer, email, total);
      if id.None? {
        return Rejected;
      }
      var written := WriteRows(p, id.value, price.value, total);
      said := if written then Placed(id.value, total) else Rejected;
    }

    /** ROLLBACK: every table as it was at BEGIN; the identity sequence is not a table. */
    method Rollback(t: Tables)
      modifies this`products, this`users, this`orders, this`items, this`jobs, this`outbox, this`keys
      ensures Complete(keys) && Committed() == t
    {
      products, users, orders, items := t.products, t.users, t.orders, t.items;
      jobs, outbox, keys := t.jobs, t.outbox, map k | k in t.keys :: Some(t.keys[k]);
    }

    /** The whole call. It throws, too, when its COMMIT took effect unheard: the order is placed, and
        the same key replays it. */
    method PlaceOrder(p: Params, fate: CommitFate) returns (r: Result<Outcome, Outcome>)
      requires Complete(keys)
      modifies this
      ensures Complete(keys)
      ensures var said := Decide(old(Committed()), p, old(nextOrder));
              && (r.Err? <==> said.Rejected? || said.LookupFailed? || (said.Placed? && !fate.CommitDone?))
              && (if r.Ok? then r.value else r.error) == said
              && Committed() == (if fate.CommitFails? then old(Committed()) else Place(old(Committed()), p, old(nextOrder)))
              && nextOrder == old(nextOrder) + if said.Rejected? || said.Placed? then 1 else 0
      ensures Deserved(old(Committed()), p, if r.Ok? then r.value else r.error)
      ensures (if r.Ok? then r.value else r.error) == OutOfStock <==>
                && (p.key.None? || p.key.value !in old(keys))
                && (p.product !in old(products) || old(products)[p.product].stock < p.quantity)
      ensures (if r.Ok? then r.value else r.error).Placed? <==>
                && (p.key.None? || p.key.value !in old(keys))
                && p.product in old(products) && old(products)[p.product].stock >= p.quantity > 0
                && p.buyer in old(users) && old(users)[p.buyer].balance >= old(products)[p.product].price * p.quantity >= 0
    {
      OutcomeIff(Committed(), p, nextOrder);
      var start := Tables(products, users, orders, items, jobs, outbox, Values(keys));
      if KeyTaken(start, p) {
        TakenKey(start, p, nextOrder);
      } else {
        KeyAside(start, p, nextOrder);
      }
      hide Decide, Commit, Place, Lookup, Deserved;
      var replay := ClaimOrReplay(p);
      if replay.Some? {
        return if replay.value.Replayed? then Ok(replay.value) else Err(replay.value);
      }
      var said := Spend(p);
      if said.Placed? && !fate.CommitFails? {
        assert Complete(keys) && Values(keys) == Commit(start, p, said.order).keys;
        return if fate.CommitDone? then Ok(said) else Err(said);
      }
      Rollback(start);
      r := if said.Placed? || said.Rejected? then Err(said) else Ok(said);
    }
  }
}
