/** Conditional orders: users create and cancel stop-loss, take-profit and trailing-stop
    orders while one price monitor fetches a bounded batch and triggers row by row. */
module Conditional {
  import opened Prelude
  import opened Trading
  import opened Selection

  const BATCH_LIMIT := 100

  datatype Request = Request(
    side: Side,
    energy: real,
    triggerType: TriggerType,
    triggerPrice: real,
    limitPrice: Option<real>,
    trailingOffset: Option<real>,
    expiry: Option<int>,
    session: Option<string>)

  /** The guards of the create handler. */
  predicate Acceptable(q: Request) {
    q.triggerPrice > 0.0 && q.energy > 0.0 && (q.triggerType == TrailingStop ==> q.trailingOffset.Some?)
  }

  /** What the table accepts: its CHECK wants a positive price, so a request without a limit price
      passes the handler's guards and is then rejected by the INSERT. */
  predicate Storable(q: Request) {
    Acceptable(q) && Insertable(q.energy, q.limitPrice.UnwrapOr(0.0))
  }

  function NewRow(user: UserId, q: Request, now: int): TradingOrder {
    TradingOrder(
      Deal(user, if q.limitPrice.Some? then Limit else Market, q.side, q.energy, q.limitPrice.UnwrapOr(0.0), now,
           Some(q.expiry.UnwrapOr(now + 7 * DAY)), q.session),
      0.0, OrderPending,
      Trigger(Some(q.triggerType), Some(q.triggerPrice), q.trailingOffset, TriggerPending, None))
  }

  /** The stored row holds the request, column by column. */
  predicate Holds(row: TradingOrder, user: UserId, q: Request, at: int) {
    && row.deal.user == user && row.deal.side == q.side && row.deal.energy == q.energy && row.deal.session == q.session
    && Some(row.deal.price) == q.limitPrice && row.deal.orderType == Limit && row.deal.createdAt == at
    && row.deal.expiresAt == Some(if q.expiry.Some? then q.expiry.value else at + 604800)
    && row.trigger.kind == Some(q.triggerType) && row.trigger.price == Some(q.triggerPrice)
    && row.trigger.trailingOffset == q.trailingOffset && row.trigger.status == TriggerPending && row.trigger.triggeredAt == None
    && row.filled == 0.0 && row.status == OrderPending
  }

  /** A request is stored exactly if trigger price, amount and limit price are positive and a
      trailing stop has its offset; then the row holds what was asked for. */
  lemma StoredAsRequested(user: UserId, q: Request, at: int)
    ensures Storable(q) <==> && q.triggerPrice > 0.0 && q.energy > 0.0 && q.limitPrice.Some? && q.limitPrice.value > 0.0
                             && !(q.triggerType == TrailingStop && q.trailingOffset == None)
    ensures Storable(q) ==> Holds(NewRow(user, q, at), user, q, at)
  {
  }

  predicate Condition(kind: TriggerType, side: Side, triggerPrice: real, price: real) {
    match kind
    case StopLoss => if side == Sell then price <= triggerPrice else price >= triggerPrice
    case TakeProfit => if side == Sell then price >= triggerPrice else price <= triggerPrice
    case TrailingStop => false
  }

  /** Which way each order looks: a sell stop-loss and a buy take-profit fire once the price has
      come down to the trigger and keep firing below it; the other two fire on the way up. At
      any price one of stop-loss and take-profit holds, and both only at the trigger itself. */
  lemma TriggerDirections(side: Side, trigger: real, high: real, low: real)
    requires low < high
    ensures Condition(StopLoss, Sell, trigger, high) ==> Condition(StopLoss, Sell, trigger, low)
    ensures Condition(StopLoss, Buy, trigger, low) ==> Condition(StopLoss, Buy, trigger, high)
    ensures Condition(StopLoss, Sell, high, low) && !Condition(StopLoss, Sell, low, high)
    ensures Condition(StopLoss, side, trigger, low) || Condition(TakeProfit, side, trigger, low)
    ensures Condition(StopLoss, side, trigger, low) && Condition(TakeProfit, side, trigger, low) <==> low == trigger
    ensures Condition(StopLoss, Sell, trigger, low) <==> Condition(TakeProfit, Buy, trigger, low)
    ensures !Condition(TrailingStop, side, trigger, low)
  {
  }

  predicate Fires(row: TradingOrder, price: real) {
    row.trigger.kind.Some? && Condition(row.trigger.kind.value, row.deal.side, row.trigger.price.UnwrapOr(0.0), price)
  }

  /** The monitor can trigger the row: its condition holds and the table takes the spawned order. */
  predicate Triggers(row: TradingOrder, price: real) {
    Fires(row, price) && Insertable(row.deal.energy, row.deal.price)
  }

  /** Rows the monitor's query may return at time `now`, with the key it sorts by. */
  predicate Eligible(row: TradingOrder, now: int) {
    && row.trigger.kind.Some? && row.trigger.status == TriggerPending
    && (row.deal.expiresAt.Some? ==> row.deal.expiresAt.value > now)
  }

  function PendingKeys(orders: map<Id, TradingOrder>, now: int): map<Id, int> {
    map id | id in orders && Eligible(orders[id], now) :: orders[id].deal.createdAt
  }

  /** A row as the monitor fetched it. */
  datatype Fetched = Fetched(id: Id, row: TradingOrder)

  function Snapshots(orders: map<Id, TradingOrder>, ids: seq<Id>): seq<Fetched>
    requires forall i :: 0 <= i < |ids| ==> ids[i] in orders
  {
    seq(|ids|, i requires 0 <= i < |ids| => Fetched(ids[i], orders[ids[i]]))
  }

  /** The log line of a trigger: which order fired, at what price, and what it spawned. */
  datatype Spawn = Spawn(cond: Id, order: Id, price: real)

  datatype Db = Db(orders: map<Id, TradingOrder>, spawns: seq<Spawn>)

  function Marked(row: TradingOrder, now: int): TradingOrder {
    row.(trigger := row.trigger.(status := Triggered, triggeredAt := Some(now)))
  }

  function Spawned(row: TradingOrder, now: int): TradingOrder {
    SpawnedOrder(row.deal.user, row.deal.side, row.deal.energy, row.deal.price, now, row.deal.session)
  }

  /** The committed effect of triggering: mark by id, insert a plain order from the fetched copy. */
  function TriggerCommitted(db: Db, f: Fetched, price: real, now: int, newId: Id): Db
    requires f.id in db.orders
  {
    Db(db.orders[f.id := Marked(db.orders[f.id], now)][newId := Spawned(f.row, now)],
       db.spawns + [Spawn(f.id, newId, price)])
  }

  predicate Cancellable(orders: map<Id, TradingOrder>, user: UserId, id: Id) {
    id in orders && orders[id].deal.user == user && orders[id].trigger.status == TriggerPending
  }

  function CancelledRow(row: TradingOrder): TradingOrder {
    row.(status := OrderCancelled, trigger := row.trigger.(status := TriggerCancelled))
  }

  // ---------------------------------------------------------------- the state machine

  datatype State = State(clock: int, price: real, db: Db, batch: seq<Fetched>)

  /** A create request has read the clock, at `stamp`, some time before its INSERT; so has a
      trigger, at `at`, before it commits. */
  datatype Action =
    | Tick(dt: nat)
    | Create(id: Id, user: UserId, request: Request, stamp: int)
    | Cancel(user: UserId, id: Id)
    | OtherOrder(id: Id, row: TradingOrder)
    | Match(id: Id, filled: real, newStatus: OrderStatus)
    | Edit(id: Id, energy: real, price: real)
    | Fetch(price: real, ids: seq<Id>)
    | Skip
    | Fire(newId: Id, at: int)
    | FireFails

  ghost predicate Enabled(s: State, a: Action) {
    match a
    case Create(id, _, _, stamp) => id !in s.db.orders && stamp <= s.clock
    case OtherOrder(id, row) =>
      && id !in s.db.orders && Insertable(row.deal.energy, row.deal.price)
      && row.trigger == Trigger(None, None, None, TriggerPending, None)
    case Fetch(price, ids) =>
      s.batch == [] && price > 0.0 && IsOldest(PendingKeys(s.db.orders, s.clock), BATCH_LIMIT, ids)
    case Skip => s.batch != [] && !Fires(s.batch[0].row, s.price)
    case Fire(newId, at) =>
      && s.batch != [] && Triggers(s.batch[0].row, s.price)
      && s.batch[0].id in s.db.orders && newId !in s.db.orders && at <= s.clock
    case FireFails => s.batch != [] && Fires(s.batch[0].row, s.price)
    case _ => true
  }

  function WithRow(s: State, id: Id, row: TradingOrder): State {
    s.(db := s.db.(orders := s.db.orders[id := row]))
  }

  ghost function Next(s: State, a: Action): State
    requires Enabled(s, a)
  {
    match a
    case Tick(dt) => s.(clock := s.clock + dt)
    case Create(id, u, q, stamp) => if Storable(q) then WithRow(s, id, NewRow(u, q, stamp)) else s
    case Cancel(u, id) => if Cancellable(s.db.orders, u, id) then WithRow(s, id, CancelledRow(s.db.orders[id])) else s
    case OtherOrder(id, row) => WithRow(s, id, row)
    case Match(id, filled, st) =>
      if id in s.db.orders then WithRow(s, id, s.db.orders[id].(filled := filled, status := st)) else s
    case Edit(id, energy, price) =>
      if id in s.db.orders && Insertable(energy, price) then WithRow(s, id, Edited(s.db.orders[id], energy, price)) else s
    case Fetch(price, ids) =>
      assert forall i :: 0 <= i < |ids| ==> ids[i] in ids;
      s.(price := price, batch := Snapshots(s.db.orders, ids))
    case Skip => s.(batch := s.batch[1..])
    case Fire(newId, at) =>
      s.(db := TriggerCommitted(s.db, s.batch[0], s.price, at, newId), batch := s.batch[1..])
    case FireFails => s.(batch := s.batch[1..])
  }

  ghost predicate Valid(s: State, run: seq<Action>)
    decreases |run|
  {
    run == [] || (Enabled(s, run[0]) && Valid(Next(s, run[0]), run[1..]))
  }

  ghost function After(s: State, run: seq<Action>): State
    requires Valid(s, run)
    decreases |run|
  {
    if run == [] then s else After(Next(s, run[0]), run[1..])
  }

  lemma RunCons(s: State, a: Action, rest: seq<Action>) returns (run: seq<Action>)
    requires Enabled(s, a) && Valid(Next(s, a), rest)
    ensures run == [a] + rest && Valid(s, run) && After(s, run) == After(Next(s, a), rest)
  {
    run := [a] + rest;
    assert run[1..] == rest;
  }

  lemma {:induction false} RunAppend(s: State, a: seq<Action>, b: seq<Action>)
    requires Valid(s, a) && Valid(After(s, a), b)
    ensures Valid(s, a + b) && After(s, a + b) == After(After(s, a), b)
    decreases |a|
  {
    if a == [] {
      assert a + b == b;
    } else {
      RunAppend(Next(s, a[0]), a[1..], b);
      assert (a + b)[1..] == a[1..] + b;
    }
  }

  ghost predicate Initial(s: State) {
    s.db == Db(map[], []) && s.batch == []
  }

  // ---------------------------------------------------------------- what every step keeps

  predicate RowOk(row: TradingOrder) {
    && Insertable(row.deal.energy, row.deal.price)
    && match row.trigger.kind
       case Some(k) => && row.trigger.price.Some? && row.trigger.price.value > 0.0
                       && (k == TrailingStop ==> row.trigger.trailingOffset.Some?)
       case None => row.trigger.status != Triggered
  }

  ghost predicate RowsOk(db: Db) {
    forall id :: id in db.orders ==> RowOk(db.orders[id])
  }

  function TriggeredIds(orders: map<Id, TradingOrder>): set<Id> {
    set id | id in orders && orders[id].trigger.status == Triggered
  }

  function Conds(spawns: seq<Spawn>): set<Id> {
    set i | 0 <= i < |spawns| :: spawns[i].cond
  }

  function IdsOf(rows: seq<Fetched>): set<Id> {
    set i | 0 <= i < |rows| :: rows[i].id
  }

  function BatchIds(s: State): set<Id> {
    IdsOf(s.batch)
  }

  /** The spawned order is a limit order with the user, side and session of the order that
      fired, whose condition did hold at the logged price. Amounts can be edited later. */
  ghost predicate SpawnOk(orders: map<Id, TradingOrder>, p: Spawn) {
    && p.cond in orders && p.order in orders
    && Fires(orders[p.cond], p.price)
    && orders[p.order].trigger.kind == None
    && var c, o := orders[p.cond].deal, orders[p.order].deal;
    && o.user == c.user && o.side == c.side && o.session == c.session && o.orderType == Limit
    && o.expiresAt == Some(o.createdAt + DAY)
  }

  ghost predicate SpawnsOk(db: Db) {
    && (forall i :: 0 <= i < |db.spawns| ==> SpawnOk(db.orders, db.spawns[i]))
    && (forall i, j :: 0 <= i < j < |db.spawns| ==>
          db.spawns[i].cond != db.spawns[j].cond && db.spawns[i].order != db.spawns[j].order)
  }

  ghost predicate FetchedOk(orders: map<Id, TradingOrder>, f: Fetched) {
    && f.id in orders
    && DealFrame(f.row.deal, orders[f.id].deal) && Insertable(f.row.deal.energy, f.row.deal.price)
    && f.row.trigger.kind.Some? && f.row.trigger.status == TriggerPending
    && (orders[f.id].trigger == f.row.trigger || orders[f.id].trigger == f.row.trigger.(status := TriggerCancelled))
  }

  ghost predicate BatchOk(s: State) {
    && (forall i, j :: 0 <= i < j < |s.batch| ==> s.batch[i].id != s.batch[j].id)
    && (forall i :: 0 <= i < |s.batch| ==> FetchedOk(s.db.orders, s.batch[i]))
  }

  ghost predicate Inv(s: State) {
    RowsOk(s.db) && SpawnsOk(s.db) && BatchOk(s) && TriggeredIds(s.db.orders) == Conds(s.db.spawns)
  }

  /** What a step outside the monitor may do to the table. */
  ghost predicate RowFrame(row: TradingOrder, q: TradingOrder) {
    && DealFrame(row.deal, q.deal)
    && (q.trigger == row.trigger
        || (row.trigger.status == TriggerPending && q.trigger == row.trigger.(status := TriggerCancelled)))
  }

  ghost predicate UserFrame(s: State, t: State) {
    && t.batch == s.batch && t.db.spawns == s.db.spawns && t.price == s.price
    && (forall id :: id in s.db.orders ==> id in t.db.orders && RowFrame(s.db.orders[id], t.db.orders[id]))
    && (forall id :: id in t.db.orders && id !in s.db.orders ==>
          RowOk(t.db.orders[id]) && t.db.orders[id].trigger.status == TriggerPending)
  }

  predicate IsMonitor(a: Action) {
    a.Fetch? || a.Skip? || a.Fire? || a.FireFails?
  }

  lemma UserStep(s: State, a: Action)
    requires Enabled(s, a) && !IsMonitor(a)
    ensures UserFrame(s, Next(s, a))
  {
  }

  lemma UserKeepsInv(s: State, t: State)
    requires Inv(s) && UserFrame(s, t)
    ensures Inv(t)
  {
    forall i | 0 <= i < |t.db.spawns| ensures SpawnOk(t.db.orders, t.db.spawns[i]) {
      assert SpawnOk(s.db.orders, s.db.spawns[i]);
      var p := s.db.spawns[i];
      assert RowFrame(s.db.orders[p.cond], t.db.orders[p.cond]) && RowFrame(s.db.orders[p.order], t.db.orders[p.order]);
    }
    forall i | 0 <= i < |t.batch| ensures FetchedOk(t.db.orders, t.batch[i]) {
      assert FetchedOk(s.db.orders, s.batch[i]);
    }
    forall id | id in t.db.orders ensures RowOk(t.db.orders[id]) {
      assert id in s.db.orders ==> RowFrame(s.db.orders[id], t.db.orders[id]);
    }
    forall id | id in s.db.orders || id in t.db.orders
      ensures id in TriggeredIds(t.db.orders) <==> id in TriggeredIds(s.db.orders)
    {
      assert id in s.db.orders ==> RowFrame(s.db.orders[id], t.db.orders[id]);
    }
    assert TriggeredIds(t.db.orders) == TriggeredIds(s.db.orders);
  }

  lemma PopKeepsInv(s: State, t: State)
    requires Inv(s) && s.batch != [] && t == s.(batch := s.batch[1..])
    ensures Inv(t)
  {
  }

  lemma FetchKeepsInv(s: State, price: real, ids: seq<Id>)
    requires Inv(s) && Enabled(s, Fetch(price, ids))
    ensures Inv(Next(s, Fetch(price, ids)))
  {
  }

  lemma CondsSnoc(spawns: seq<Spawn>, p: Spawn)
    ensures Conds(spawns + [p]) == Conds(spawns) + {p.cond}
  {
    var all := spawns + [p];
    assert all[|spawns|] == p;
    forall x | x in Conds(spawns) ensures x in Conds(all) {
      var i :| 0 <= i < |spawns| && spawns[i].cond == x;
      assert all[i].cond == x;
    }
  }

  lemma FireKeepsSpawns(s: State, newId: Id, at: int)
    requires Inv(s) && Enabled(s, Fire(newId, at))
    ensures SpawnsOk(Next(s, Fire(newId, at)).db)
  {
    var f := s.batch[0];
    var t := Next(s, Fire(newId, at));
    assert FetchedOk(s.db.orders, f);
    var n := |s.db.spawns|;
    forall i | 0 <= i < |t.db.spawns| ensures SpawnOk(t.db.orders, t.db.spawns[i]) {
      if i < n {
        assert t.db.spawns[i] == s.db.spawns[i] && SpawnOk(s.db.orders, s.db.spawns[i]);
      }
    }
    assert f.id !in TriggeredIds(s.db.orders);
    forall i, j | 0 <= i < j < |t.db.spawns|
      ensures t.db.spawns[i].cond != t.db.spawns[j].cond && t.db.spawns[i].order != t.db.spawns[j].order
    {
      assert t.db.spawns[i] == s.db.spawns[i] && SpawnOk(s.db.orders, s.db.spawns[i]);
      assert s.db.spawns[i].cond in Conds(s.db.spawns);
    }
  }

  lemma FireKeepsInv(s: State, newId: Id, at: int)
    requires Inv(s) && Enabled(s, Fire(newId, at))
    ensures Inv(Next(s, Fire(newId, at)))
  {
    var f := s.batch[0];
    var t := Next(s, Fire(newId, at));
    assert FetchedOk(s.db.orders, f);
    FireKeepsSpawns(s, newId, at);
    forall i | 0 <= i < |t.batch| ensures FetchedOk(t.db.orders, t.batch[i]) {
      assert t.batch[i] == s.batch[i + 1] && FetchedOk(s.db.orders, s.batch[i + 1]);
    }
    CondsSnoc(s.db.spawns, Spawn(f.id, newId, s.price));
    assert TriggeredIds(t.db.orders) == TriggeredIds(s.db.orders) + {f.id};
  }

  lemma StepKeepsInv(s: State, a: Action)
    requires Inv(s) && Enabled(s, a)
    ensures Inv(Next(s, a))
  {
    match a
    case Fetch(price, ids) => FetchKeepsInv(s, price, ids);
    case Fire(newId, at) => FireKeepsInv(s, newId, at);
    case Skip => PopKeepsInv(s, Next(s, a));
    case FireFails => PopKeepsInv(s, Next(s, a));
    case _ => UserStep(s, a); UserKeepsInv(s, Next(s, a));
  }

  lemma {:induction false} RunKeepsInv(s: State, run: seq<Action>)
    requires Inv(s) && Valid(s, run)
    ensures Inv(After(s, run))
    decreases |run|
  {
    if run == [] {
    } else {
      StepKeepsInv(s, run[0]);
      RunKeepsInv(Next(s, run[0]), run[1..]);
    }
  }
}
