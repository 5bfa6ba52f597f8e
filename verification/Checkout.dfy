/** The tables one checkout touches, and what one checkout does to them when it
    runs alone (src/checkout.ts). Money is integer cents. Every table that a
    checkout only inserts into is a sequence in commit order. */
module Checkout {
  import opened Wrappers

  type OrderId = nat
  type ProductId = nat
  type UserId = nat
  type Key = string

  datatype Product = Product(price: int, stock: int)
  datatype User = User(email: string, balance: int)
  datatype Order = Order(id: OrderId, buyer: UserId, email: string, total: int)
  datatype Item = Item(order: OrderId, product: ProductId, quantity: int, unitPrice: int)
  datatype Job = Job(order: OrderId)

  /** The order.placed contract; `eventId` is derived from the order id alone. */
  datatype Event = Event(eventId: nat, order: OrderId, buyer: UserId, product: ProductId, quantity: int, total: int)

  /** A row of outbox: published_at IS NOT NULL, and the attempt counter. */
  datatype OutboxRow = OutboxRow(event: Event, published: bool, attempts: nat)

  datatype Tables = Tables(
    products: map<ProductId, Product>,
    users: map<UserId, User>,
    orders: seq<Order>,
    items: seq<Item>,
    jobs: seq<Job>,
    outbox: seq<OutboxRow>,
    keys: map<Key, OrderId>)

  datatype Params = Params(buyer: UserId, product: ProductId, quantity: int, key: Option<Key>)

  /** `Rejected`: a CHECK constraint of orders or order_items failed, so checkout threw.
      `LookupFailed`: the replay lookup found no row, so `prev[0]!` threw. */
  datatype Outcome =
    | Placed(order: OrderId, total: int)
    | Replayed(order: OrderId, total: int)
    | OutOfStock
    | InsufficientFunds
    | Rejected
    | LookupFailed

  function FindOrder(orders: seq<Order>, id: OrderId): (r: Option<Order>)
    ensures r.Some? ==> r.value in orders && r.value.id == id
    ensures r.None? ==> forall o :: o in orders ==> o.id != id
  {
    if orders == [] then None
    else if orders[|orders| - 1].id == id then Some(orders[|orders| - 1])
    else FindOrder(orders[..|orders| - 1], id)
  }

  /** The row pair that the idempotency lookup joins: keys -> orders. */
  function Lookup(t: Tables, k: Key): Outcome
    requires k in t.keys
  {
    match FindOrder(t.orders, t.keys[k])
    case Some(o) => Replayed(o.id, o.total)
    case None => LookupFailed
  }

  predicate KeyTaken(t: Tables, p: Params) {
    p.key.Some? && p.key.value in t.keys
  }

  /** The WHERE clause of the stock decrement. */
  predicate StockSuffices(t: Tables, p: Params) {
    p.product in t.products && t.products[p.product].stock >= p.quantity
  }

  function Price(t: Tables, p: Params): int
    requires p.product in t.products
  {
    t.products[p.product].price * p.quantity
  }

  /** The WHERE clause of the balance decrement. */
  predicate FundsSuffice(t: Tables, buyer: UserId, total: int) {
    buyer in t.users && t.users[buyer].balance >= total
  }

  /** CHECK (total_amount >= 0) on orders, CHECK (quantity > 0) on order_items. */
  predicate ChecksPass(p: Params, total: int) {
    total >= 0 && p.quantity > 0
  }

  function EventFor(p: Params, id: OrderId, total: int): Event {
    Event(id, id, p.buyer, p.product, p.quantity, total)
  }

  /** The committed tables after a checkout that placed order `id`. */
  function Commit(t: Tables, p: Params, id: OrderId): Tables
    requires p.product in t.products && p.buyer in t.users
  {
    var product := t.products[p.product];
    var user := t.users[p.buyer];
    var total := Price(t, p);
    t.(products := t.products[p.product := product.(stock := product.stock - p.quantity)],
       users := t.users[p.buyer := user.(balance := user.balance - total)],
       orders := t.orders + [Order(id, p.buyer, user.email, total)],
       items := t.items + [Item(id, p.product, p.quantity, product.price)],
       jobs := t.jobs + [Job(id)],
       outbox := t.outbox + [OutboxRow(EventFor(p, id, total), false, 0)],
       keys := if p.key.Some? then t.keys[p.key.value := id] else t.keys)
  }

  function Decide(t: Tables, p: Params, id: OrderId): Outcome {
    if KeyTaken(t, p) then Lookup(t, p.key.value)
    else if !StockSuffices(t, p) then OutOfStock
    else if !FundsSuffice(t, p.buyer, Price(t, p)) then InsufficientFunds
    else if !ChecksPass(p, Price(t, p)) then Rejected
    else Placed(id, Price(t, p))
  }

  /** One checkout, run alone, with `id` the value the orders identity column yields. */
  function Place(t: Tables, p: Params, id: OrderId): Tables {
    if Decide(t, p, id).Placed? then Commit(t, p, id) else t
  }

  /** What a caller may expect, told from the tables alone: which outcome, and when. */
  predicate Deserved(t: Tables, p: Params, said: Outcome) {
    var unclaimed := p.key.None? || p.key.value !in t.keys;
    var inStock := p.product in t.products && t.products[p.product].stock >= p.quantity;
    var funded := inStock && p.buyer in t.users && t.users[p.buyer].balance >= t.products[p.product].price * p.quantity;
    && (said.Replayed? || said.LookupFailed? <==> !unclaimed)
    && (said.OutOfStock? <==> unclaimed && !inStock)
    && (said.InsufficientFunds? <==> unclaimed && inStock && !funded)
    && (said.Rejected? <==> unclaimed && funded && (p.quantity <= 0 || t.products[p.product].price * p.quantity < 0))
    && (said.Placed? <==> unclaimed && funded && p.quantity > 0 && t.products[p.product].price * p.quantity >= 0)
    && (said.Placed? ==> said.total == t.products[p.product].price * p.quantity)
    && (said.Replayed? ==> exists o :: o in t.orders && o.id == t.keys[p.key.value] && said == Replayed(o.id, o.total))
  }

  /** An order is placed exactly when its key is free, the stock suffices, the quantity is positive and
      the buyer can pay; it is refused for stock exactly when there is too little, and for funds
      exactly when there is enough stock but too little money. */
  lemma OutcomeIff(t: Tables, p: Params, id: OrderId)
    ensures Deserved(t, p, Decide(t, p, id))
    ensures Decide(t, p, id).Placed? <==>
              && (p.key.None? || p.key.value !in t.keys)
              && p.product in t.products && t.products[p.product].stock >= p.quantity > 0
              && p.buyer in t.users && t.users[p.buyer].balance >= t.products[p.product].price * p.quantity >= 0
    ensures Decide(t, p, id) == OutOfStock <==>
              && (p.key.None? || p.key.value !in t.keys)
              && (p.product !in t.products || t.products[p.product].stock < p.quantity)
    ensures Decide(t, p, id) == InsufficientFunds <==>
              && (p.key.None? || p.key.value !in t.keys)
              && p.product in t.products && t.products[p.product].stock >= p.quantity
              && (p.buyer !in t.users || t.users[p.buyer].balance < t.products[p.product].price * p.quantity)
  {
  }

  /** What placing an order writes, row by row. */
  lemma PlacedWrites(t: Tables, p: Params, id: OrderId)
    requires Decide(t, p, id).Placed?
    ensures var t', price, user := Place(t, p, id), t.products[p.product].price, t.users[p.buyer];
            var total := price * p.quantity;
            && Decide(t, p, id) == Placed(id, total)
            && t'.products == t.products[p.product := Product(price, t.products[p.product].stock - p.quantity)]
            && t'.users == t.users[p.buyer := User(user.email, user.balance - total)]
            && t'.orders == t.orders + [Order(id, p.buyer, user.email, total)]
            && t'.items == t.items + [Item(id, p.product, p.quantity, price)]
            && t'.jobs == t.jobs + [Job(id)]
            && t'.outbox == t.outbox + [OutboxRow(Event(id, id, p.buyer, p.product, p.quantity, total), false, 0)]
            && t'.keys == if p.key.Some? then t.keys[p.key.value := id] else t.keys
  {
  }

  // ---- what every sequence of checkouts keeps ----

  function Sold(items: seq<Item>, p: ProductId): int {
    if items == [] then 0
    else Sold(items[..|items| - 1], p) + (if items[|items| - 1].product == p then items[|items| - 1].quantity else 0)
  }

  function Spent(orders: seq<Order>, u: UserId): int {
    if orders == [] then 0
    else Spent(orders[..|orders| - 1], u) + (if orders[|orders| - 1].buyer == u then orders[|orders| - 1].total else 0)
  }

  predicate HasOrder(t: Tables, id: OrderId) {
    exists i :: 0 <= i < |t.orders| && t.orders[i].id == id
  }

  /** Each order has its one item, one job and one outbox row, all describing it. */
  predicate Aligned(t: Tables) {
    && |t.items| == |t.orders| && |t.jobs| == |t.orders| && |t.outbox| == |t.orders|
    && (forall i, j :: 0 <= i < j < |t.orders| ==> t.orders[i].id != t.orders[j].id)
    && (forall i :: 0 <= i < |t.orders| ==>
          && t.items[i].order == t.orders[i].id
          && t.jobs[i].order == t.orders[i].id
          && EventMatches(t.outbox[i].event, t.orders[i], t.items[i])
          && t.items[i].quantity > 0
          && t.orders[i].total == t.items[i].unitPrice * t.items[i].quantity >= 0)
  }

  predicate EventMatches(e: Event, o: Order, i: Item) {
    e == Event(o.id, o.id, o.buyer, i.product, i.quantity, o.total)
  }

  /** The CHECK constraints on products and users, and the foreign key of idempotency_keys. */
  predicate Sound(t: Tables) {
    && Aligned(t)
    && (forall p :: p in t.products ==> t.products[p].stock >= 0 && t.products[p].price >= 0)
    && (forall u :: u in t.users ==> t.users[u].balance >= 0)
    && (forall k :: k in t.keys ==> HasOrder(t, t.keys[k]))
  }

  /** Nothing was created or destroyed between `t0` and `t`. */
  predicate Conserved(t0: Tables, t: Tables) {
    && t.products.Keys == t0.products.Keys && t.users.Keys == t0.users.Keys
    && (forall p :: p in t.products ==>
          && t.products[p].stock + Sold(t.items, p) == t0.products[p].stock + Sold(t0.items, p)
          && t.products[p].price == t0.products[p].price)
    && (forall u :: u in t.users ==>
          && t.users[u].balance + Spent(t.orders, u) == t0.users[u].balance + Spent(t0.orders, u)
          && t.users[u].email == t0.users[u].email)
  }

  lemma PlaceConserves(t: Tables, p: Params, id: OrderId)
    ensures Conserved(t, Place(t, p, id))
  {
    var t' := Place(t, p, id);
    if Decide(t, p, id).Placed? {
      assert t'.items[..|t'.items| - 1] == t.items;
      assert t'.orders[..|t'.orders| - 1] == t.orders;
    }
  }

  lemma PlaceKeepsSound(t: Tables, p: Params, id: OrderId)
    requires Sound(t) && !HasOrder(t, id)
    ensures Sound(Place(t, p, id))
  {
    var t' := Place(t, p, id);
    if Decide(t, p, id).Placed? {
      assert t'.orders[|t.orders|].id == id;
      forall k | k in t'.keys ensures HasOrder(t', t'.keys[k]) {
        if k in t.keys && t'.keys[k] == t.keys[k] {
          var i :| 0 <= i < |t.orders| && t.orders[i].id == t.keys[k];
          assert t'.orders[i] == t.orders[i];
        }
      }
    }
  }

  /** A checkout that does not place an order changes nothing at all. */
  lemma OnlyPlacedChanges(t: Tables, p: Params, id: OrderId)
    ensures Place(t, p, id) != t <==> Decide(t, p, id).Placed?
  {
    if Decide(t, p, id).Placed? {
      assert |Place(t, p, id).orders| == |t.orders| + 1;
    }
  }

  // ---- runs of calls, one after another ----

  /** One finished call: what was asked, the identity value it would use, what it returned. */
  datatype Call = Call(params: Params, id: OrderId, outcome: Outcome)

  function Serial(t0: Tables, log: seq<Call>): Tables {
    if log == [] then t0
    else
      var last := log[|log| - 1];
      Place(Serial(t0, log[..|log| - 1]), last.params, last.id)
  }

  /** Every call in the log returned what a checkout alone returns at that point,
      and no identity value that placed an order was used before. */
  predicate Legal(t0: Tables, log: seq<Call>) {
    log == [] ||
    (var last := log[|log| - 1];
     var t := Serial(t0, log[..|log| - 1]);
     && Legal(t0, log[..|log| - 1])
     && last.outcome == Decide(t, last.params, last.id)
     && (last.outcome.Placed? ==> !HasOrder(t, last.id)))
  }

  /** Committed stock plus quantities sold is the initial stock, committed balance plus
      order totals the initial balance, neither goes negative, one row of each kind per order. */
  lemma {:induction false} SerialKeeps(t0: Tables, log: seq<Call>)
    requires Sound(t0) && Legal(t0, log)
    ensures Sound(Serial(t0, log)) && Conserved(t0, Serial(t0, log))
  {
    if log != [] {
      var last := log[|log| - 1];
      var t := Serial(t0, log[..|log| - 1]);
      SerialKeeps(t0, log[..|log| - 1]);
      PlaceConserves(t, last.params, last.id);
      if last.outcome.Placed? {
        PlaceKeepsSound(t, last.params, last.id);
      } else {
        OnlyPlacedChanges(t, last.params, last.id);
      }
    }
  }

  /** Orders and keys are never removed or rewritten, so what a key means never changes. */
  lemma {:induction false} SerialGrows(t0: Tables, log: seq<Call>, n: nat)
    requires n <= |log|
    ensures Serial(t0, log[..n]).orders <= Serial(t0, log).orders
    ensures forall k :: k in Serial(t0, log[..n]).keys ==>
              k in Serial(t0, log).keys && Serial(t0, log).keys[k] == Serial(t0, log[..n]).keys[k]
    decreases |log|
  {
    if n == |log| {
      assert log[..n] == log;
    } else {
      SerialGrows(t0, log[..|log| - 1], n);
      assert log[..|log| - 1][..n] == log[..n];
    }
  }

  lemma FindUnique(orders: seq<Order>, i: nat)
    requires i < |orders|
    requires forall a, b :: 0 <= a < b < |orders| ==> orders[a].id != orders[b].id
    ensures FindOrder(orders, orders[i].id) == Some(orders[i])
  {
  }

  lemma ReplayFindsOrder(t: Tables, k: Key, n: nat)
    requires Aligned(t) && n < |t.orders| && k in t.keys && t.keys[k] == t.orders[n].id
    ensures Lookup(t, k) == Replayed(t.orders[n].id, t.orders[n].total)
  {
    FindUnique(t.orders, n);
  }

  lemma LegalAt(t0: Tables, log: seq<Call>, i: nat)
    requires Legal(t0, log) && i < |log|
    ensures Legal(t0, log[..i])
    ensures log[i].outcome == Decide(Serial(t0, log[..i]), log[i].params, log[i].id)
    ensures Serial(t0, log[..i + 1]) == Place(Serial(t0, log[..i]), log[i].params, log[i].id)
  {
    LegalPrefix(t0, log, i + 1);
    assert log[..i + 1][..i] == log[..i];
  }

  /** Every call of a log got the outcome it deserved when it took effect. */
  lemma LogDeserved(t0: Tables, log: seq<Call>, i: nat)
    requires Legal(t0, log) && i < |log|
    ensures Deserved(Serial(t0, log[..i]), log[i].params, log[i].outcome)
  {
    LegalAt(t0, log, i);
    OutcomeIff(Serial(t0, log[..i]), log[i].params, log[i].id);
  }

  /** For one key, whatever the log: at most one call placed an order, and every later
      call with that key replays exactly that order's id and total. */
  lemma KeyPlacesOnce(t0: Tables, log: seq<Call>, i: nat, j: nat)
    requires Sound(t0) && Legal(t0, log) && i < j < |log|
    requires log[i].params.key.Some? && log[j].params.key == log[i].params.key
    requires log[i].outcome.Placed?
    ensures log[j].outcome == Replayed(log[i].outcome.order, log[i].outcome.total)
  {
    var k := log[i].params.key.value;
    LegalAt(t0, log, i);
    LegalAt(t0, log, j);
    var before, now := Serial(t0, log[..i]), Serial(t0, log[..j]);
    var after := Commit(before, log[i].params, log[i].id);
    assert Serial(t0, log[..i + 1]) == after;
    var n := |before.orders|;
    assert after.orders[n].id == log[i].id == log[i].outcome.order && after.orders[n].total == log[i].outcome.total;
    assert now.orders[n] == after.orders[n] && k in now.keys && now.keys[k] == log[i].id by {
      SerialGrows(t0, log[..j], i + 1);
      assert log[..j][..i + 1] == log[..i + 1];
    }
    assert Aligned(now) by { SerialKeeps(t0, log[..j]); }
    ReplayFindsOrder(now, k, n);
  }

  lemma {:induction false} LegalPrefix(t0: Tables, log: seq<Call>, n: nat)
    requires Legal(t0, log) && n <= |log|
    ensures Legal(t0, log[..n])
    decreases |log|
  {
    if n == |log| {
      assert log[..n] == log;
    } else {
      LegalPrefix(t0, log[..|log| - 1], n);
      assert log[..|log| - 1][..n] == log[..n];
    }
  }

  /** The replay lookup of a taken key always finds its order: `prev[0]!` never throws. */
  lemma LookupNeverFails(t0: Tables, log: seq<Call>, i: nat)
    requires Sound(t0) && Legal(t0, log) && i < |log|
    ensures log[i].outcome != LookupFailed
  {
    hide Legal, Serial;
    LegalAt(t0, log, i);
    SerialKeeps(t0, log[..i]);
  }

  predicate PlacedWith(call: Call, k: Key) {
    call.params.key == Some(k) && call.outcome.Placed?
  }

  predicate EverPlaced(log: seq<Call>, k: Key) {
    exists i :: 0 <= i < |log| && PlacedWith(log[i], k)
  }

  /** A key is taken exactly when it was at the start or a call with it placed an order: every
      call that ended otherwise has left its key free. */
  lemma {:induction false} KeyTakenIff(t0: Tables, log: seq<Call>, k: Key)
    requires Legal(t0, log)
    ensures k in Serial(t0, log).keys <==> k in t0.keys || EverPlaced(log, k)
  {
    if log != [] {
      var before, last := log[..|log| - 1], log[|log| - 1];
      KeyTakenIff(t0, before, k);
      assert EverPlaced(log, k) <==> EverPlaced(before, k) || PlacedWith(last, k) by {
        assert PlacedWith(last, k) ==> PlacedWith(log[|log| - 1], k);
        assert forall i :: 0 <= i < |before| ==> before[i] == log[i];
      }
    }
  }
}
