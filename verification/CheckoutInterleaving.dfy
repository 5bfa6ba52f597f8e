/** Any number of checkouts at once, interleaved statement by statement. A statement
    that writes a row takes its lock and keeps it to COMMIT or ROLLBACK; writes stay in
    the transaction's buffer and are published by COMMIT (src/checkout.ts, READ COMMITTED). */
module CheckoutInterleaving {
  import opened Wrappers
  import opened Checkout

  type TxnId = nat

  datatype Row = KeyRow(key: Key) | ProductRow(product: ProductId) | UserRow(user: UserId)

  /** The statement a transaction runs next, in program order. */
  datatype Stage =
    | ClaimKey | Stock | Balance | Email | InsertOrder | InsertItem | InsertJob | SetKey | InsertOutbox | Publish

  /** `at` is where the finished call stands in the log. */
  datatype Pc =
    | At(stage: Stage)
    | Replaying
    | RollingBack(outcome: Outcome, at: nat)
    | Done(outcome: Outcome, at: nat)
    | Aborted

  datatype Buffer = Buffer(
    product: Option<Product>, user: Option<User>, email: string, order: Option<Order>,
    item: Option<Item>, job: Option<Job>, key: Option<OrderId>, outbox: Option<OutboxRow>)

  const NO_WRITES := Buffer(None, None, "", None, None, None, None, None)

  datatype Txn = Txn(params: Params, pc: Pc, buffer: Buffer)

  /** `log` and `owners` are history: the calls in the order they took effect, and whose they were. */
  datatype Sys = Sys(
    db: Tables, nextOrder: OrderId, locks: map<Row, TxnId>, txns: map<TxnId, Txn>,
    log: seq<Call>, owners: seq<TxnId>)

  datatype Step = Begin(id: TxnId, params: Params) | Advance(id: TxnId) | Abort(id: TxnId)

  function Initial(db: Tables, nextOrder: OrderId): Sys {
    Sys(db, nextOrder, map[], map[], [], [])
  }

  predicate FreeFor(s: Sys, row: Row, i: TxnId) {
    row in s.locks ==> s.locks[row] == i
  }

  function Goto(s: Sys, i: TxnId, stage: Stage): Sys
    requires i in s.txns
  {
    s.(txns := s.txns[i := s.txns[i].(pc := At(stage))])
  }

  /** A statement that locks `row` and puts `buffer` in place of the old buffer. */
  function LockAndWrite(s: Sys, i: TxnId, row: Row, buffer: Buffer, next: Stage): Sys
    requires i in s.txns
  {
    if !FreeFor(s, row, i) then s
    else s.(locks := s.locks[row := i], txns := s.txns[i := s.txns[i].(pc := At(next), buffer := buffer)])
  }

  /** An INSERT of fresh rows: no lock anyone else could want. */
  function Write(s: Sys, i: TxnId, buffer: Buffer, next: Stage): Sys
    requires i in s.txns
  {
    s.(txns := s.txns[i := s.txns[i].(pc := At(next), buffer := buffer)])
  }

  /** The call's outcome is settled by what is committed now; the transaction will roll back. */
  function Refuse(s: Sys, i: TxnId, outcome: Outcome): Sys
    requires i in s.txns
  {
    s.(txns := s.txns[i := s.txns[i].(pc := RollingBack(outcome, |s.log|))],
       log := s.log + [Call(s.txns[i].params, 0, outcome)],
       owners := s.owners + [i])
  }

  function Release(locks: map<Row, TxnId>, i: TxnId): map<Row, TxnId> {
    map row | row in locks && locks[row] != i :: locks[row]
  }

  /** COMMIT: exactly the buffered writes become visible, and the locks go. */
  function Published(db: Tables, p: Params, b: Buffer): Tables {
    db.(products := if b.product.Some? then db.products[p.product := b.product.value] else db.products,
        users := if b.user.Some? then db.users[p.buyer := b.user.value] else db.users,
        orders := db.orders + Inserted(b.order),
        items := db.items + Inserted(b.item),
        jobs := db.jobs + Inserted(b.job),
        outbox := db.outbox + Inserted(b.outbox),
        keys := if p.key.Some? && b.key.Some? then db.keys[p.key.value := b.key.value] else db.keys)
  }

  function Inserted<T>(row: Option<T>): seq<T> {
    if row.Some? then [row.value] else []
  }

  function RunStatement(s: Sys, i: TxnId): Sys
    requires i in s.txns && s.txns[i].pc.At?
  {
    var t := s.txns[i];
    var p, b := t.params, t.buffer;
    match t.pc.stage
    case ClaimKey =>
      if p.key.None? then Goto(s, i, Stock)
      else if p.key.value in s.db.keys then s.(txns := s.txns[i := t.(pc := Replaying)])
      else LockAndWrite(s, i, KeyRow(p.key.value), b, Stock)
    case Stock =>
      if !StockSuffices(s.db, p) then Refuse(s, i, OutOfStock)
      else
        var row := s.db.products[p.product];
        LockAndWrite(s, i, ProductRow(p.product), b.(product := Some(row.(stock := row.stock - p.quantity))), Balance)
    case Balance =>
      if b.product.None? then s else
      var total := b.product.value.price * p.quantity;
      if !FundsSuffice(s.db, p.buyer, total) then Refuse(s, i, InsufficientFunds)
      else
        var row := s.db.users[p.buyer];
        LockAndWrite(s, i, UserRow(p.buyer), b.(user := Some(row.(balance := row.balance - total))), Email)
    case Email =>
      Write(s, i, b.(email := if b.user.Some? then b.user.value.email else ""), InsertOrder)
    case InsertOrder =>
      if b.product.None? then s else
      var total := b.product.value.price * p.quantity;
      var next := s.(nextOrder := s.nextOrder + 1);
      if total < 0 then Refuse(next, i, Rejected)
      else Write(next, i, b.(order := Some(Order(s.nextOrder, p.buyer, b.email, total))), InsertItem)
    case InsertItem =>
      if b.product.None? || b.order.None? then s
      else if p.quantity <= 0 then Refuse(s, i, Rejected)
      else Write(s, i, b.(item := Some(Item(b.order.value.id, p.product, p.quantity, b.product.value.price))), InsertJob)
    case InsertJob =>
      if b.order.None? then s
      else Write(s, i, b.(job := Some(Job(b.order.value.id))), SetKey)
    case SetKey =>
      if b.order.None? then s
      else Write(s, i, if p.key.Some? then b.(key := Some(b.order.value.id)) else b, InsertOutbox)
    case InsertOutbox =>
      if b.order.None? then s
      else Write(s, i, b.(outbox := Some(OutboxRow(EventFor(p, b.order.value.id, b.order.value.total), false, 0))), Publish)
    case Publish =>
      if b.order.None? then s
      else
        var outcome := Placed(b.order.value.id, b.order.value.total);
        s.(db := Published(s.db, p, b),
           locks := Release(s.locks, i),
           txns := s.txns[i := t.(pc := Done(outcome, |s.log|))],
           log := s.log + [Call(p, b.order.value.id, outcome)],
           owners := s.owners + [i])
  }

  /** What transaction `i` does when it is scheduled; nothing while it waits for a lock. */
  function Move(s: Sys, i: TxnId): Sys
    requires i in s.txns
  {
    var t := s.txns[i];
    match t.pc
    case At(_) => RunStatement(s, i)
    case Replaying =>
      Refuse(s, i, if KeyTaken(s.db, t.params) then Lookup(s.db, t.params.key.value) else LookupFailed)
    case RollingBack(outcome, at) =>
      s.(locks := Release(s.locks, i), txns := s.txns[i := t.(pc := Done(outcome, at))])
    case Done(_, _) => s
    case Aborted => s
  }

  function Apply(s: Sys, step: Step): Sys {
    match step
    case Begin(i, p) =>
      if i in s.txns then s else s.(txns := s.txns[i := Txn(p, At(ClaimKey), NO_WRITES)])
    case Advance(i) =>
      if i in s.txns then Move(s, i) else s
    case Abort(i) =>
      // a crash or an error at any point before COMMIT
      if i in s.txns && (s.txns[i].pc.At? || s.txns[i].pc.Replaying?) then
        s.(locks := Release(s.locks, i), txns := s.txns[i := s.txns[i].(pc := Aborted)])
      else s
  }

  function Run(s: Sys, steps: seq<Step>): Sys {
    if steps == [] then s else Apply(Run(s, steps[..|steps| - 1]), steps[|steps| - 1])
  }

  // ---- the invariant ----

  function StageRank(stage: Stage): nat {
    match stage
    case ClaimKey => 0 case Stock => 1 case Balance => 2 case Email => 3 case InsertOrder => 4
    case InsertItem => 5 case InsertJob => 6 case SetKey => 7 case InsertOutbox => 8 case Publish => 9
  }

  predicate Past(t: Txn, stage: Stage) {
    t.pc.At? && StageRank(t.pc.stage) > StageRank(stage)
  }

  predicate OwnRow(p: Params, row: Row) {
    match row
    case KeyRow(k) => p.key == Some(k)
    case ProductRow(x) => p.product == x
    case UserRow(u) => p.buyer == u
  }

  function LockStage(row: Row): Stage {
    match row case KeyRow(_) => ClaimKey case ProductRow(_) => Stock case UserRow(_) => Balance
  }

  /** A lock is held by the transaction that ran its statement and has not finished. */
  ghost predicate LocksSound(locks: map<Row, TxnId>, txns: map<TxnId, Txn>) {
    && (forall row :: row in locks ==>
          && locks[row] in txns
          && OwnRow(txns[locks[row]].params, row)
          && (txns[locks[row]].pc.RollingBack? || Past(txns[locks[row]], LockStage(row))))
    && (forall i, row :: i in txns && OwnRow(txns[i].params, row) && Past(txns[i], LockStage(row)) ==>
          row in locks && locks[row] == i)
  }

  /** What a transaction has buffered agrees with what is committed now. */
  predicate BufferSound(db: Tables, t: Txn) {
    var p, b := t.params, t.buffer;
    && (Past(t, ClaimKey) ==> !KeyTaken(db, p))
    && (Past(t, Stock) ==>
          && StockSuffices(db, p)
          && b.product == Some(db.products[p.product].(stock := db.products[p.product].stock - p.quantity)))
    && (Past(t, Balance) ==>
          && FundsSuffice(db, p.buyer, Price(db, p))
          && b.user == Some(db.users[p.buyer].(balance := db.users[p.buyer].balance - Price(db, p))))
    && (Past(t, Email) ==> b.email == db.users[p.buyer].email)
    && (Past(t, InsertOrder) ==>
          && b.order.Some? && Price(db, p) >= 0
          && b.order.value == Order(b.order.value.id, p.buyer, b.email, Price(db, p)))
    && (t.pc.Replaying? ==> KeyTaken(db, p))
    && RowsSound(t)
  }

  /** The rows a transaction has inserted so far. */
  predicate RowsSound(t: Txn) {
    var p, b := t.params, t.buffer;
    && (Past(t, InsertItem) ==>
          && p.quantity > 0 && b.order.Some? && b.product.Some?
          && b.item == Some(Item(b.order.value.id, p.product, p.quantity, b.product.value.price)))
    && (Past(t, InsertJob) ==> b.order.Some? && b.job == Some(Job(b.order.value.id)))
    && (Past(t, SetKey) && p.key.Some? ==> b.order.Some? && b.key == Some(b.order.value.id))
    && (Past(t, InsertOutbox) ==>
          && b.order.Some?
          && b.outbox == Some(OutboxRow(EventFor(p, b.order.value.id, b.order.value.total), false, 0)))
  }

  /** The transaction has drawn an identity value and may still commit it. */
  predicate Numbered(t: Txn) {
    Past(t, InsertOrder) && t.buffer.order.Some?
  }

  /** Identity values are handed out once. */
  predicate IdsSound(db: Tables, next: OrderId, txns: map<TxnId, Txn>) {
    && (forall k :: 0 <= k < |db.orders| ==> db.orders[k].id < next)
    && (forall i :: i in txns && Numbered(txns[i]) ==>
          txns[i].buffer.order.value.id < next && !HasOrder(db, txns[i].buffer.order.value.id))
    && (forall i, j :: i in txns && j in txns && i != j && Numbered(txns[i]) && Numbered(txns[j]) ==>
          txns[i].buffer.order.value.id != txns[j].buffer.order.value.id)
  }

  predicate Decided(pc: Pc) {
    pc.RollingBack? || pc.Done?
  }

  /** Every settled transaction owns exactly one place in the log, with the outcome it returns. */
  predicate Settled(log: seq<Call>, owners: seq<TxnId>, txns: map<TxnId, Txn>) {
    && |owners| == |log|
    && (forall i :: i in txns && Decided(txns[i].pc) ==>
          && txns[i].pc.at < |log|
          && owners[txns[i].pc.at] == i
          && log[txns[i].pc.at].params == txns[i].params
          && log[txns[i].pc.at].outcome == txns[i].pc.outcome)
    && (forall n :: 0 <= n < |log| ==>
          owners[n] in txns && Decided(txns[owners[n]].pc) && txns[owners[n]].pc.at == n)
  }

  /** The log is a legal serial order and what is committed is its result. */
  predicate Serializable(t0: Tables, db: Tables, log: seq<Call>) {
    Legal(t0, log) && db == Serial(t0, log)
  }

  predicate BuffersSound(db: Tables, txns: map<TxnId, Txn>) {
    forall i :: i in txns ==> BufferSound(db, txns[i])
  }

  ghost predicate Inv(t0: Tables, s: Sys) {
    && LocksSound(s.locks, s.txns)
    && BuffersSound(s.db, s.txns)
    && IdsSound(s.db, s.nextOrder, s.txns)
    && Settled(s.log, s.owners, s.txns)
    && Serializable(t0, s.db, s.log)
  }

  // ---- each step keeps it ----

  lemma LocksTaken(locks: map<Row, TxnId>, txns: map<TxnId, Txn>, i: TxnId, t': Txn, row: Option<Row>)
    requires LocksSound(locks, txns) && i in txns && t'.params == txns[i].params && !txns[i].pc.RollingBack?
    requires row.Some? ==> OwnRow(t'.params, row.value) && (row.value in locks ==> locks[row.value] == i)
    requires forall r :: OwnRow(t'.params, r) ==>
               && (Past(t', LockStage(r)) ==> Past(txns[i], LockStage(r)) || row == Some(r))
               && (Past(txns[i], LockStage(r)) || row == Some(r) ==> Past(t', LockStage(r)) || t'.pc.RollingBack?)
    ensures LocksSound(if row.Some? then locks[row.value := i] else locks, txns[i := t'])
  {
  }

  lemma LocksReleased(locks: map<Row, TxnId>, txns: map<TxnId, Txn>, i: TxnId, t': Txn)
    requires LocksSound(locks, txns) && i in txns && !t'.pc.At?
    ensures LocksSound(Release(locks, i), txns[i := t'])
  {
  }

  lemma IdsKept(db: Tables, next: OrderId, txns: map<TxnId, Txn>, i: TxnId, t': Txn, next': OrderId)
    requires IdsSound(db, next, txns) && next <= next'
    requires Numbered(t') ==>
               || (next == t'.buffer.order.value.id < next')
               || (i in txns && Numbered(txns[i]) && t'.buffer.order == txns[i].buffer.order)
    ensures IdsSound(db, next', txns[i := t'])
  {
  }

  lemma SettledKept(log: seq<Call>, owners: seq<TxnId>, txns: map<TxnId, Txn>, i: TxnId, t': Txn)
    requires Settled(log, owners, txns)
    requires if i in txns && Decided(txns[i].pc)
             then Decided(t'.pc) && t'.pc.at == txns[i].pc.at && t'.pc.outcome == txns[i].pc.outcome && t'.params == txns[i].params
             else !Decided(t'.pc)
    ensures Settled(log, owners, txns[i := t'])
  {
  }

  lemma SettledGrows(log: seq<Call>, owners: seq<TxnId>, txns: map<TxnId, Txn>, i: TxnId, t': Txn, call: Call)
    requires Settled(log, owners, txns) && i in txns && !Decided(txns[i].pc)
    requires Decided(t'.pc) && t'.pc.at == |log| && call.params == t'.params && call.outcome == t'.pc.outcome
    ensures Settled(log + [call], owners + [i], txns[i := t'])
  {
  }

  lemma SerialGrown(t0: Tables, s: Sys, call: Call, s': Sys)
    requires Serializable(t0, s.db, s.log)
    requires call.outcome == Decide(s.db, call.params, call.id)
    requires call.outcome.Placed? ==> !HasOrder(s.db, call.id)
    requires s'.log == s.log + [call] && s'.db == Place(s.db, call.params, call.id)
    ensures Serializable(t0, s'.db, s'.log)
  {
    assert s'.log[..|s.log|] == s.log;
  }

  lemma BeginKeeps(t0: Tables, s: Sys, i: TxnId, p: Params)
    requires Inv(t0, s) && i !in s.txns
    ensures Inv(t0, Apply(s, Begin(i, p)))
  {
    var t' := Txn(p, At(ClaimKey), NO_WRITES);
    assert BufferSound(s.db, t');
    assert LocksSound(s.locks, s.txns[i := t']);
    IdsKept(s.db, s.nextOrder, s.txns, i, t', s.nextOrder);
    SettledKept(s.log, s.owners, s.txns, i, t');
  }

  lemma AbortKeeps(t0: Tables, s: Sys, i: TxnId)
    requires Inv(t0, s) && i in s.txns && (s.txns[i].pc.At? || s.txns[i].pc.Replaying?)
    ensures Inv(t0, Apply(s, Abort(i)))
  {
    var t' := s.txns[i].(pc := Aborted);
    LocksReleased(s.locks, s.txns, i, t');
    IdsKept(s.db, s.nextOrder, s.txns, i, t', s.nextOrder);
    SettledKept(s.log, s.owners, s.txns, i, t');
  }

  lemma RollbackKeeps(t0: Tables, s: Sys, i: TxnId)
    requires Inv(t0, s) && i in s.txns && s.txns[i].pc.RollingBack?
    ensures Inv(t0, Move(s, i))
  {
    var t' := s.txns[i].(pc := Done(s.txns[i].pc.outcome, s.txns[i].pc.at));
    LocksReleased(s.locks, s.txns, i, t');
    IdsKept(s.db, s.nextOrder, s.txns, i, t', s.nextOrder);
    SettledKept(s.log, s.owners, s.txns, i, t');
  }

  lemma RefuseKeeps(t0: Tables, s: Sys, i: TxnId, outcome: Outcome)
    requires Inv(t0, s) && i in s.txns && (s.txns[i].pc.At? || s.txns[i].pc.Replaying?)
    requires outcome == Decide(s.db, s.txns[i].params, 0) && !outcome.Placed?
    ensures Inv(t0, Refuse(s, i, outcome))
  {
    var t' := s.txns[i].(pc := RollingBack(outcome, |s.log|));
    var call := Call(s.txns[i].params, 0, outcome);
    LocksTaken(s.locks, s.txns, i, t', None);
    IdsKept(s.db, s.nextOrder, s.txns, i, t', s.nextOrder);
    SettledGrows(s.log, s.owners, s.txns, i, t', call);
    SerialGrown(t0, s, call, Refuse(s, i, outcome));
  }

  /** A statement that only fills the buffer, or takes the lock of its stage as well. */
  lemma StatementKeeps(t0: Tables, s: Sys, i: TxnId, t': Txn, row: Option<Row>, next': OrderId)
    requires Inv(t0, s) && i in s.txns && s.txns[i].pc.At? && t'.params == s.txns[i].params
    requires BufferSound(s.db, t')
    requires t'.pc.At? && StageRank(t'.pc.stage) == StageRank(s.txns[i].pc.stage) + 1
    requires if row.Some?
             then FreeFor(s, row.value, i) && OwnRow(t'.params, row.value) && LockStage(row.value) == s.txns[i].pc.stage
             else forall r :: OwnRow(t'.params, r) ==> LockStage(r) != s.txns[i].pc.stage
    requires if s.txns[i].pc.stage == InsertOrder
             then next' == s.nextOrder + 1 && t'.buffer.order.Some? && t'.buffer.order.value.id == s.nextOrder
             else next' == s.nextOrder && (Numbered(t') ==> t'.buffer.order == s.txns[i].buffer.order)
    ensures Inv(t0, s.(locks := if row.Some? then s.locks[row.value := i] else s.locks,
                       txns := s.txns[i := t'], nextOrder := next'))
  {
    hide LocksSound, IdsSound, Settled, Serializable, BufferSound;
    LocksTaken(s.locks, s.txns, i, t', row);
    IdsKept(s.db, s.nextOrder, s.txns, i, t', next');
    SettledKept(s.log, s.owners, s.txns, i, t');
  }

  lemma ClaimKeyKeeps(t0: Tables, s: Sys, i: TxnId)
    requires Inv(t0, s) && i in s.txns && s.txns[i].pc == At(ClaimKey)
    ensures Inv(t0, RunStatement(s, i))
  {
    hide LocksSound, IdsSound, Settled, Serializable;
    var t := s.txns[i];
    if t.params.key.None? {
      StatementKeeps(t0, s, i, t.(pc := At(Stock)), None, s.nextOrder);
    } else if t.params.key.value in s.db.keys {
      ReplayKeeps(t0, s, i);
    } else if FreeFor(s, KeyRow(t.params.key.value), i) {
      StatementKeeps(t0, s, i, t.(pc := At(Stock)), Some(KeyRow(t.params.key.value)), s.nextOrder);
    }
  }

  lemma ReplayKeeps(t0: Tables, s: Sys, i: TxnId)
    requires Inv(t0, s) && i in s.txns && s.txns[i].pc == At(ClaimKey) && KeyTaken(s.db, s.txns[i].params)
    ensures Inv(t0, s.(txns := s.txns[i := s.txns[i].(pc := Replaying)]))
  {
    var t' := s.txns[i].(pc := Replaying);
    LocksTaken(s.locks, s.txns, i, t', None);
    IdsKept(s.db, s.nextOrder, s.txns, i, t', s.nextOrder);
    SettledKept(s.log, s.owners, s.txns, i, t');
  }

  /** The buffer after the stock decrement agrees with the committed row. */
  lemma StockBuffer(db: Tables, t: Txn)
    requires BufferSound(db, t) && t.pc == At(Stock) && StockSuffices(db, t.params)
    ensures var row := db.products[t.params.product];
            BufferSound(db, t.(pc := At(Balance),
                               buffer := t.buffer.(product := Some(row.(stock := row.stock - t.params.quantity)))))
  {
  }

  lemma StockKeeps(t0: Tables, s: Sys, i: TxnId)
    requires Inv(t0, s) && i in s.txns && s.txns[i].pc == At(Stock)
    ensures Inv(t0, RunStatement(s, i))
  {
    hide LocksSound, IdsSound, Settled, Serializable;
    var t := s.txns[i];
    var p := t.params;
    if !StockSuffices(s.db, p) {
      RefuseKeeps(t0, s, i, OutOfStock);
    } else if FreeFor(s, ProductRow(p.product), i) {
      var row := s.db.products[p.product];
      var b := t.buffer.(product := Some(row.(stock := row.stock - p.quantity)));
      StockBuffer(s.db, t);
      StatementKeeps(t0, s, i, t.(pc := At(Balance), buffer := b), Some(ProductRow(p.product)), s.nextOrder);
    }
  }

  lemma BalanceBuffer(db: Tables, t: Txn)
    requires BufferSound(db, t) && t.pc == At(Balance)
    ensures StockSuffices(db, t.params) && t.buffer.product.Some?
    ensures t.buffer.product.value.price * t.params.quantity == Price(db, t.params)
    ensures !KeyTaken(db, t.params)
    ensures FundsSuffice(db, t.params.buyer, Price(db, t.params)) ==>
              var row := db.users[t.params.buyer];
              BufferSound(db, t.(pc := At(Email),
                                 buffer := t.buffer.(user := Some(row.(balance := row.balance - Price(db, t.params))))))
  {
  }

  lemma BalanceKeeps(t0: Tables, s: Sys, i: TxnId)
    requires Inv(t0, s) && i in s.txns && s.txns[i].pc == At(Balance)
    ensures Inv(t0, RunStatement(s, i))
  {
    hide LocksSound, IdsSound, Settled, Serializable;
    var t := s.txns[i];
    assert BufferSound(s.db, t);
    BalanceBuffer(s.db, t);
    var p, total := t.params, Price(s.db, t.params);
    if !FundsSuffice(s.db, p.buyer, total) {
      RefuseKeeps(t0, s, i, InsufficientFunds);
    } else if FreeFor(s, UserRow(p.buyer), i) {
      var row := s.db.users[p.buyer];
      var b := t.buffer.(user := Some(row.(balance := row.balance - total)));
      StatementKeeps(t0, s, i, t.(pc := At(Email), buffer := b), Some(UserRow(p.buyer)), s.nextOrder);
    }
  }

  /** What a transaction past the balance decrement knows about the committed state. */
  lemma PaidFor(db: Tables, t: Txn)
    requires BufferSound(db, t) && Past(t, Balance)
    ensures t.buffer.product.Some? && t.buffer.user.Some? && StockSuffices(db, t.params)
    ensures t.buffer.product.value.price * t.params.quantity == Price(db, t.params)
    ensures !ChecksPass(t.params, Price(db, t.params)) ==> Decide(db, t.params, 0) == Rejected
  {
  }

  lemma InsertOrderBuffer(db: Tables, t: Txn, id: OrderId)
    requires BufferSound(db, t) && t.pc == At(InsertOrder)
    requires StockSuffices(db, t.params) && Price(db, t.params) >= 0
    ensures BufferSound(db, t.(pc := At(InsertItem),
                               buffer := t.buffer.(order := Some(Order(id, t.params.buyer, t.buffer.email, Price(db, t.params))))))
  {
  }

  lemma InsertOrderKeeps(t0: Tables, s: Sys, i: TxnId)
    requires Inv(t0, s) && i in s.txns && s.txns[i].pc == At(InsertOrder)
    ensures Inv(t0, RunStatement(s, i))
  {
    var t := s.txns[i];
    assert BufferSound(s.db, t);
    PaidFor(s.db, t);
    var total := Price(s.db, t.params);
    if total < 0 {
      var next := s.(nextOrder := s.nextOrder + 1);
      assert IdsSound(next.db, next.nextOrder, next.txns);
      RefuseKeeps(t0, next, i, Rejected);
    } else {
      InsertOrderBuffer(s.db, t, s.nextOrder);
      var b := t.buffer.(order := Some(Order(s.nextOrder, t.params.buyer, t.buffer.email, total)));
      StatementKeeps(t0, s, i, t.(pc := At(InsertItem), buffer := b), None, s.nextOrder + 1);
    }
  }

  /** The buffer after the statements that neither lock nor can be refused. */
  lemma EmailBuffer(s: Sys, i: TxnId)
    requires i in s.txns && BufferSound(s.db, s.txns[i]) && s.txns[i].pc == At(Email)
    ensures var b := s.txns[i].buffer;
            && b.user.Some?
            && BufferSound(s.db, s.txns[i].(pc := At(InsertOrder), buffer := b.(email := b.user.value.email)))
  {
  }

  lemma ItemBuffer(s: Sys, i: TxnId)
    requires i in s.txns && BufferSound(s.db, s.txns[i])
    requires s.txns[i].pc.At? && s.txns[i].pc.stage in {InsertItem, InsertJob}
    requires s.txns[i].pc.stage == InsertItem ==> s.txns[i].params.quantity > 0
    ensures var t, s' := s.txns[i], RunStatement(s, i);
            && s' == s.(txns := s.txns[i := s'.txns[i]])
            && BufferSound(s.db, s'.txns[i]) && s'.txns[i].params == t.params
            && s'.txns[i].pc.At? && StageRank(s'.txns[i].pc.stage) == StageRank(t.pc.stage) + 1
            && s'.txns[i].buffer.order == t.buffer.order
  {
    hide Price, FundsSuffice, StockSuffices, KeyTaken;
  }

  lemma OutboxBuffer(s: Sys, i: TxnId)
    requires i in s.txns && BufferSound(s.db, s.txns[i])
    requires s.txns[i].pc.At? && s.txns[i].pc.stage in {SetKey, InsertOutbox}
    ensures var t, s' := s.txns[i], RunStatement(s, i);
            && s' == s.(txns := s.txns[i := s'.txns[i]])
            && BufferSound(s.db, s'.txns[i]) && s'.txns[i].params == t.params
            && s'.txns[i].pc.At? && StageRank(s'.txns[i].pc.stage) == StageRank(t.pc.stage) + 1
            && s'.txns[i].buffer.order == t.buffer.order
  {
    hide Price, FundsSuffice, StockSuffices, KeyTaken, EventFor, Refuse, LockAndWrite, Release, Published;
  }

  lemma WriteKeeps(t0: Tables, s: Sys, i: TxnId)
    requires Inv(t0, s) && i in s.txns
    requires s.txns[i].pc.At? && s.txns[i].pc.stage in {Email, InsertItem, InsertJob, SetKey, InsertOutbox}
    ensures Inv(t0, RunStatement(s, i))
  {
    hide LocksSound, IdsSound, Settled, Serializable;
    var t := s.txns[i];
    assert BufferSound(s.db, t);
    if t.pc.stage == InsertItem && t.params.quantity <= 0 {
      PaidFor(s.db, t);
      RefuseKeeps(t0, s, i, Rejected);
    } else {
      if t.pc.stage == Email {
        EmailBuffer(s, i);
      } else {
        if t.pc.stage in {InsertItem, InsertJob} {
          ItemBuffer(s, i);
        } else {
          OutboxBuffer(s, i);
        }
      }
      StatementKeeps(t0, s, i, RunStatement(s, i).txns[i], None, s.nextOrder);
    }
  }

  /** A commit that touches none of the rows a transaction has locked leaves its buffer sound. */
  lemma BufferFrame(db: Tables, db': Tables, t: Txn)
    requires BufferSound(db, t) && db.keys.Keys <= db'.keys.Keys
    requires Past(t, ClaimKey) && t.params.key.Some? ==> t.params.key.value !in db'.keys
    requires Past(t, Stock) ==>
               t.params.product in db'.products && db'.products[t.params.product] == db.products[t.params.product]
    requires Past(t, Balance) ==>
               t.params.buyer in db'.users && db'.users[t.params.buyer] == db.users[t.params.buyer]
    ensures BufferSound(db', t)
  {
  }

  /** Someone else's commit leaves the rows this transaction has locked alone. */
  lemma OthersUnaffected(s: Sys, i: TxnId, j: TxnId, id: OrderId)
    requires i in s.txns && j in s.txns && i != j && s.txns[i].pc == At(Publish)
    requires LocksSound(s.locks, s.txns) && BufferSound(s.db, s.txns[i]) && BufferSound(s.db, s.txns[j])
    ensures BufferSound(Commit(s.db, s.txns[i].params, id), s.txns[j])
  {
    var p, t := s.txns[i].params, s.txns[j];
    var q := t.params;
    RowsDistinct(s.locks, s.txns, i, j, ProductRow(p.product), ProductRow(q.product));
    RowsDistinct(s.locks, s.txns, i, j, UserRow(p.buyer), UserRow(q.buyer));
    if p.key.Some? && q.key.Some? {
      RowsDistinct(s.locks, s.txns, i, j, KeyRow(p.key.value), KeyRow(q.key.value));
    }
    BufferFrame(s.db, Commit(s.db, p, id), t);
  }

  lemma RowsDistinct(locks: map<Row, TxnId>, txns: map<TxnId, Txn>, i: TxnId, j: TxnId, a: Row, b: Row)
    requires LocksSound(locks, txns) && i in txns && j in txns && i != j
    requires OwnRow(txns[i].params, a) && OwnRow(txns[j].params, b)
    ensures Past(txns[i], LockStage(a)) && Past(txns[j], LockStage(b)) ==> a != b
  {
  }

  lemma IdsPublished(db: Tables, db': Tables, next: OrderId, txns: map<TxnId, Txn>, i: TxnId, t': Txn)
    requires IdsSound(db, next, txns) && i in txns && Numbered(txns[i]) && !Numbered(t')
    requires db'.orders == db.orders + [txns[i].buffer.order.value]
    ensures IdsSound(db', next, txns[i := t'])
  {
  }

  lemma PublishedIsCommit(db: Tables, t: Txn)
    requires BufferSound(db, t) && t.pc == At(Publish)
    ensures t.buffer.order.Some? && Numbered(t) && t.params.product in db.products && t.params.buyer in db.users
    ensures Published(db, t.params, t.buffer) == Commit(db, t.params, t.buffer.order.value.id)
    ensures Decide(db, t.params, t.buffer.order.value.id)
         == Placed(t.buffer.order.value.id, t.buffer.order.value.total)
    ensures Published(db, t.params, t.buffer).orders == db.orders + [t.buffer.order.value]
  {
  }

  lemma PublishKeeps(t0: Tables, s: Sys, i: TxnId)
    requires Inv(t0, s) && i in s.txns && s.txns[i].pc == At(Publish)
    ensures Inv(t0, RunStatement(s, i))
  {
    hide LocksSound, Settled, Serializable, Commit, Published, Decide;
    var t, s' := s.txns[i], RunStatement(s, i);
    assert BufferSound(s.db, t);
    PublishedIsCommit(s.db, t);
    var id := t.buffer.order.value.id;
    var call := Call(t.params, id, Placed(id, t.buffer.order.value.total));
    var t' := t.(pc := Done(call.outcome, |s.log|));
    LocksReleased(s.locks, s.txns, i, t');
    IdsPublished(s.db, s'.db, s.nextOrder, s.txns, i, t');
    SettledGrows(s.log, s.owners, s.txns, i, t', call);
    SerialGrown(t0, s, call, s');
    assert BuffersSound(s'.db, s'.txns) by {
      forall j | j in s'.txns ensures BufferSound(s'.db, s'.txns[j]) {
        if j != i {
          OthersUnaffected(s, i, j, id);
        }
      }
    }
  }

  lemma ApplyKeeps(t0: Tables, s: Sys, step: Step)
    requires Inv(t0, s)
    ensures Inv(t0, Apply(s, step))
  {
    var i := step.id;
    if step.Begin? {
      if i !in s.txns { BeginKeeps(t0, s, i, step.params); }
    } else if i in s.txns {
      var pc := s.txns[i].pc;
      if step.Abort? {
        if pc.At? || pc.Replaying? { AbortKeeps(t0, s, i); }
      } else {
        match pc
        case At(ClaimKey) => ClaimKeyKeeps(t0, s, i);
        case At(Stock) => StockKeeps(t0, s, i);
        case At(Balance) => BalanceKeeps(t0, s, i);
        case At(InsertOrder) => InsertOrderKeeps(t0, s, i);
        case At(Publish) => PublishKeeps(t0, s, i);
        case At(_) => WriteKeeps(t0, s, i);
        case Replaying => RefuseKeeps(t0, s, i, Lookup(s.db, s.txns[i].params.key.value));
        case RollingBack(_, _) => RollbackKeeps(t0, s, i);
        case Done(_, _) =>
        case Aborted =>
      }
    }
  }

  /** Every interleaving of any number of checkouts has the effect of running the settled
      calls one after another, and each call returned what it returns in that order. */
  lemma {:induction false} EveryRunIsSerial(t0: Tables, next: OrderId, steps: seq<Step>)
    requires forall k :: 0 <= k < |t0.orders| ==> t0.orders[k].id < next
    ensures Inv(t0, Run(Initial(t0, next), steps))
  {
    if steps != [] {
      EveryRunIsSerial(t0, next, steps[..|steps| - 1]);
      ApplyKeeps(t0, Run(Initial(t0, next), steps[..|steps| - 1]), steps[|steps| - 1]);
    }
  }

  /** No oversell, no overdraft, nothing lost, one item, job and outbox row per order,
      at every instant of every interleaving. */
  lemma EveryRunConserves(t0: Tables, next: OrderId, steps: seq<Step>)
    requires Sound(t0) && forall k :: 0 <= k < |t0.orders| ==> t0.orders[k].id < next
    ensures Sound(Run(Initial(t0, next), steps).db) && Conserved(t0, Run(Initial(t0, next), steps).db)
  {
    EveryRunIsSerial(t0, next, steps);
    SerialKeeps(t0, Run(Initial(t0, next), steps).log);
  }

  /** The replay lookup finds its order in every interleaving: no call ends in the throw. */
  lemma LookupsSucceed(t0: Tables, next: OrderId, steps: seq<Step>, i: TxnId)
    requires Sound(t0) && forall k :: 0 <= k < |t0.orders| ==> t0.orders[k].id < next
    requires i in Run(Initial(t0, next), steps).txns
    ensures var pc := Run(Initial(t0, next), steps).txns[i].pc; Decided(pc) ==> pc.outcome != LookupFailed
  {
    var s := Run(Initial(t0, next), steps);
    EveryRunIsSerial(t0, next, steps);
    hide LocksSound, BuffersSound, IdsSound, Legal, Serial;
    if Decided(s.txns[i].pc) {
      LookupNeverFails(t0, s.log, s.txns[i].pc.at);
    }
  }

  /** In every interleaving each settled call got the outcome it deserved by the tables that were
      committed when it took effect: its place in the log. */
  lemma OutcomesDeserved(t0: Tables, next: OrderId, steps: seq<Step>, i: TxnId)
    requires forall k :: 0 <= k < |t0.orders| ==> t0.orders[k].id < next
    requires var s := Run(Initial(t0, next), steps); i in s.txns && Decided(s.txns[i].pc)
    ensures var s := Run(Initial(t0, next), steps);
            && s.txns[i].pc.at < |s.log|
            && Deserved(Serial(t0, s.log[..s.txns[i].pc.at]), s.txns[i].params, s.txns[i].pc.outcome)
  {
    var s := Run(Initial(t0, next), steps);
    EveryRunIsSerial(t0, next, steps);
    hide LocksSound, BuffersSound, IdsSound, Legal, Serial, Deserved;
    LogDeserved(t0, s.log, s.txns[i].pc.at);
  }

  /** Two calls with one key, however they interleave: they never both place an order, and if
      both succeed they name the same order and total. */
  lemma OneOrderPerKey(t0: Tables, next: OrderId, steps: seq<Step>, a: TxnId, b: TxnId)
    requires Sound(t0) && forall k :: 0 <= k < |t0.orders| ==> t0.orders[k].id < next
    requires var s := Run(Initial(t0, next), steps);
             && a in s.txns && b in s.txns && a != b
             && s.txns[a].params.key.Some? && s.txns[a].params.key == s.txns[b].params.key
             && s.txns[a].pc.Done? && s.txns[a].pc.outcome.Placed?
             && s.txns[b].pc.Done? && (s.txns[b].pc.outcome.Placed? || s.txns[b].pc.outcome.Replayed?)
    ensures var s := Run(Initial(t0, next), steps);
            s.txns[b].pc.outcome == Replayed(s.txns[a].pc.outcome.order, s.txns[a].pc.outcome.total)
  {
    var s := Run(Initial(t0, next), steps);
    EveryRunIsSerial(t0, next, steps);
    var i, j := s.txns[a].pc.at, s.txns[b].pc.at;
    if i < j {
      KeyPlacesOnce(t0, s.log, i, j);
    } else {
      KeyTakenForever(t0, s.log, j, i);
    }
  }

  /** After a call that placed or replayed an order, no call with that key places another. */
  lemma KeyTakenForever(t0: Tables, log: seq<Call>, i: nat, j: nat)
    requires Legal(t0, log) && i < j < |log|
    requires log[i].params.key.Some? && log[j].params.key == log[i].params.key
    requires log[i].outcome.Placed? || log[i].outcome.Replayed?
    ensures !log[j].outcome.Placed?
  {
    LegalAt(t0, log, i);
    LegalAt(t0, log, j);
    assert log[..j][..i + 1] == log[..i + 1];
    SerialGrows(t0, log[..j], i + 1);
    assert log[i].params.key.value in Serial(t0, log[..i + 1]).keys;
  }

  predicate PlacedOne(t: Txn, k: Key) {
    t.params.key == Some(k) && t.pc.Done? && t.pc.outcome.Placed?
  }

  predicate SomeonePlaced(s: Sys, k: Key) {
    exists i :: i in s.txns && PlacedOne(s.txns[i], k)
  }

  /** The log and the finished transactions agree on who placed an order. */
  lemma PlacedInLog(t0: Tables, s: Sys, k: Key)
    requires Inv(t0, s) && OnlyRefusedRollBack(s.txns)
    ensures EverPlaced(s.log, k) <==> SomeonePlaced(s, k)
  {
    hide LocksSound, BuffersSound, IdsSound, Serializable;
    if EverPlaced(s.log, k) {
      var n :| 0 <= n < |s.log| && PlacedWith(s.log[n], k);
      assert s.owners[n] in s.txns && PlacedOne(s.txns[s.owners[n]], k);
    }
    if SomeonePlaced(s, k) {
      var i :| i in s.txns && PlacedOne(s.txns[i], k);
      assert PlacedWith(s.log[s.txns[i].pc.at], k);
    }
  }

  /** A transaction that rolls back has placed nothing. */
  predicate OnlyRefusedRollBack(txns: map<TxnId, Txn>) {
    forall i :: i in txns ==> RolledBackUnplaced(txns[i])
  }

  predicate RolledBackUnplaced(t: Txn) {
    t.pc.RollingBack? ==> !t.pc.outcome.Placed?
  }

  lemma StatementUnplaced(s: Sys, i: TxnId)
    requires i in s.txns && s.txns[i].pc.At?
    ensures var s' := RunStatement(s, i);
            s'.txns == s.txns[i := s'.txns[i]] && RolledBackUnplaced(s'.txns[i])
  {
    hide StockSuffices, FundsSuffice, Published, EventFor, FreeFor, Release, Inserted;
    hide Price, KeyTaken;
  }

  lemma MoveUnplaced(s: Sys, i: TxnId)
    requires i in s.txns && RolledBackUnplaced(s.txns[i])
    ensures var s' := Move(s, i); s'.txns == s.txns[i := s'.txns[i]] && RolledBackUnplaced(s'.txns[i])
  {
    hide RunStatement;
    if s.txns[i].pc.At? {
      StatementUnplaced(s, i);
    }
  }

  lemma {:induction false} RollbacksPlaceNothing(t0: Tables, next: OrderId, steps: seq<Step>)
    ensures OnlyRefusedRollBack(Run(Initial(t0, next), steps).txns)
  {
    hide Move;
    if steps != [] {
      var s, step := Run(Initial(t0, next), steps[..|steps| - 1]), steps[|steps| - 1];
      RollbacksPlaceNothing(t0, next, steps[..|steps| - 1]);
      if step.Advance? && step.id in s.txns {
        MoveUnplaced(s, step.id);
      }
    }
  }

  predicate Unfinished(s: Sys, i: TxnId) {
    i in s.txns && !s.txns[i].pc.Done? && !s.txns[i].pc.Aborted?
  }

  predicate HasKey(s: Sys, i: TxnId, k: Key) {
    Unfinished(s, i) && s.txns[i].params.key == Some(k)
  }

  /** In every interleaving a committed key was there at the start or belongs to a call that placed
      an order, and an uncommitted claim is held by a call with that key that has not finished. */
  lemma KeyTakenIffPlaced(t0: Tables, next: OrderId, steps: seq<Step>, k: Key)
    requires forall n :: 0 <= n < |t0.orders| ==> t0.orders[n].id < next
    ensures var s := Run(Initial(t0, next), steps);
            && (k in s.db.keys <==> k in t0.keys || SomeonePlaced(s, k))
            && (KeyRow(k) in s.locks ==> HasKey(s, s.locks[KeyRow(k)], k))
  {
    var s := Run(Initial(t0, next), steps);
    EveryRunIsSerial(t0, next, steps);
    RollbacksPlaceNothing(t0, next, steps);
    PlacedInLog(t0, s, k);
    KeyTakenIff(t0, s.log, k);
    KeyLockHeld(t0, s, k);
  }

  lemma KeyLockHeld(t0: Tables, s: Sys, k: Key)
    requires Inv(t0, s)
    ensures KeyRow(k) in s.locks ==> HasKey(s, s.locks[KeyRow(k)], k)
  {
    hide BuffersSound, IdsSound, Settled, Serializable;
  }

  /** So once every call with a key has ended without an order - rolled back, refused or crashed -
      the next call with that key claims it at once. */
  lemma FailureFreesKey(t0: Tables, next: OrderId, steps: seq<Step>, id: TxnId, p: Params)
    requires forall n :: 0 <= n < |t0.orders| ==> t0.orders[n].id < next
    requires p.key.Some? && p.key.value !in t0.keys
    requires var s := Run(Initial(t0, next), steps);
             && id !in s.txns && !SomeonePlaced(s, p.key.value)
             && forall i :: !HasKey(s, i, p.key.value)
    ensures var s := Apply(Apply(Run(Initial(t0, next), steps), Begin(id, p)), Advance(id));
            s.txns[id].pc == At(Stock) && s.locks[KeyRow(p.key.value)] == id
  {
    KeyTakenIffPlaced(t0, next, steps, p.key.value);
  }

  // ---- no deadlock ----

  /** The row whose lock the next statement needs; none when it needs no lock. */
  function Wanted(s: Sys, i: TxnId): Option<Row>
    requires i in s.txns
  {
    var t := s.txns[i];
    if t.pc == At(ClaimKey) && t.params.key.Some? && !KeyTaken(s.db, t.params) then Some(KeyRow(t.params.key.value))
    else if t.pc == At(Stock) && StockSuffices(s.db, t.params) then Some(ProductRow(t.params.product))
    else if t.pc == At(Balance) && StockSuffices(s.db, t.params)
            && FundsSuffice(s.db, t.params.buyer, Price(s.db, t.params)) then Some(UserRow(t.params.buyer))
    else None
  }

  predicate WaitsFor(s: Sys, i: TxnId, j: TxnId) {
    && i in s.txns && j in s.txns && i != j
    && Wanted(s, i).Some? && Wanted(s, i).value in s.locks && s.locks[Wanted(s, i).value] == j
  }

  /** keys before products before users; a transaction that wants no lock comes last. */
  function Rank(s: Sys, i: TxnId): nat
    requires i in s.txns
    ensures Rank(s, i) <= 3
  {
    match Wanted(s, i)
    case Some(KeyRow(_)) => 0
    case Some(ProductRow(_)) => 1
    case Some(UserRow(_)) => 2
    case None => 3
  }

  lemma WaitingRaisesRank(t0: Tables, s: Sys, i: TxnId, j: TxnId)
    requires Inv(t0, s) && WaitsFor(s, i, j)
    ensures Rank(s, i) < Rank(s, j) && Unfinished(s, j)
  {
  }

  lemma {:induction false} ChainRaisesRank(t0: Tables, s: Sys, path: seq<TxnId>)
    requires Inv(t0, s) && |path| >= 2
    requires forall k :: 0 <= k < |path| - 1 ==> WaitsFor(s, path[k], path[k + 1])
    ensures path[0] in s.txns && path[|path| - 1] in s.txns
    ensures Rank(s, path[0]) < Rank(s, path[|path| - 1])
  {
    assert WaitsFor(s, path[0], path[1]);
    WaitingRaisesRank(t0, s, path[0], path[1]);
    if |path| > 2 {
      forall k | 0 <= k < |path| - 2 ensures WaitsFor(s, path[1..][k], path[1..][k + 1]) {
        assert WaitsFor(s, path[k + 1], path[k + 2]);
      }
      ChainRaisesRank(t0, s, path[1..]);
    }
  }

  /** The wait-for graph of every reachable state is acyclic: a chain of waits never
      comes back to where it started. */
  lemma NoDeadlock(t0: Tables, next: OrderId, steps: seq<Step>, path: seq<TxnId>)
    requires forall k :: 0 <= k < |t0.orders| ==> t0.orders[k].id < next
    requires |path| >= 2
    requires forall k :: 0 <= k < |path| - 1 ==> WaitsFor(Run(Initial(t0, next), steps), path[k], path[k + 1])
    ensures path[0] != path[|path| - 1]
  {
    EveryRunIsSerial(t0, next, steps);
    ChainRaisesRank(t0, Run(Initial(t0, next), steps), path);
  }

  lemma FindMover(t0: Tables, s: Sys, i: TxnId) returns (j: TxnId)
    requires Inv(t0, s) && Unfinished(s, i)
    ensures Unfinished(s, j) && Apply(s, Advance(j)).txns[j].pc != s.txns[j].pc
    decreases 3 - Rank(s, i)
  {
    if Wanted(s, i).Some? && !FreeFor(s, Wanted(s, i).value, i) {
      var holder := s.locks[Wanted(s, i).value];
      WaitingRaisesRank(t0, s, i, holder);
      j := FindMover(t0, s, holder);
    } else {
      j := i;
    }
  }

  /** Whatever has happened, while any checkout is unfinished some unfinished one moves on
      as soon as it is scheduled. */
  lemma SomeoneMoves(t0: Tables, next: OrderId, steps: seq<Step>, i: TxnId) returns (j: TxnId)
    requires forall k :: 0 <= k < |t0.orders| ==> t0.orders[k].id < next
    requires Unfinished(Run(Initial(t0, next), steps), i)
    ensures var s := Run(Initial(t0, next), steps);
            Unfinished(s, j) && Apply(s, Advance(j)).txns[j].pc != s.txns[j].pc
  {
    EveryRunIsSerial(t0, next, steps);
    j := FindMover(t0, Run(Initial(t0, next), steps), i);
  }
}
