/** The handlers and the price monitor as the program runs them, on a table updated in place. */
module ConditionalService {
  import opened Prelude
  import opened Trading
  import opened Selection
  import opened Conditional

  /** How the database answers a trigger. Even one that cooperates rejects rows its CHECK
      constraints rule out. */
  datatype Outcome = Commits(at: int, newId: Id) | Aborts

  datatype Reply = Created(id: Id) | CancelDone | BadRequest | NotFound | InternalError

  /** The table after the monitor has looked at one fetched row. */
  function Looked(db: Db, f: Fetched, price: real, o: Outcome): Db
    requires f.id in db.orders
  {
    if Triggers(f.row, price) && o.Commits? then TriggerCommitted(db, f, price, o.at, o.newId) else db
  }

  function LookedAt(db: Db, batch: seq<Fetched>, price: real, outcomes: seq<Outcome>): (r: Db)
    requires |batch| <= |outcomes|
    requires forall i :: 0 <= i < |batch| ==> batch[i].id in db.orders
    ensures r.orders.Keys >= db.orders.Keys
    decreases |batch|
  {
    if batch == [] then db
    else
      var n := |batch| - 1;
      Looked(LookedAt(db, batch[..n], price, outcomes), batch[n], price, outcomes[n])
  }

  /** A plain limit order for deal `c`, column by column. */
  predicate SpawnedFrom(row: TradingOrder, c: Deal, at: int) {
    && row.deal.user == c.user && row.deal.side == c.side && row.deal.energy == c.energy && row.deal.price == c.price
    && row.deal.session == c.session && row.deal.orderType == Limit
    && row.deal.createdAt == at && row.deal.expiresAt == Some(at + 86400)
    && row.filled == 0.0 && row.status == OrderPending && row.trigger.kind == None && row.trigger.status == TriggerPending
  }

  class PriceMonitor {
    var orders: map<Id, TradingOrder>
    var spawns: seq<Spawn>

    constructor ()
      ensures Table() == Db(map[], [])
    {
      orders, spawns := map[], [];
    }

    ghost function Table(): Db
      reads this
    {
      Db(orders, spawns)
    }

    /** Reject bad parameters, otherwise try to insert a pending row; `now` was read before. */
    method CreateConditionalOrder(id: Id, user: UserId, q: Request, now: int) returns (r: Reply)
      requires id !in orders
      modifies this
      ensures r == (if Storable(q) then Created(id) else if Acceptable(q) then InternalError else BadRequest)
      ensures Table() == old(Table()).(orders := if Storable(q) then old(orders)[id := NewRow(user, q, now)] else old(orders))
      ensures r == BadRequest <==>
                q.triggerPrice <= 0.0 || q.energy <= 0.0 || (q.triggerType == TrailingStop && q.trailingOffset == None)
      ensures r == Created(id) ==> id in orders && Holds(orders[id], user, q, now) && orders - {id} == old(orders)
      ensures r != Created(id) ==> orders == old(orders)
    {
      if q.triggerPrice <= 0.0 {
        return BadRequest;
      }
      if q.energy <= 0.0 {
        return BadRequest;
      }
      if q.triggerType == TrailingStop && q.trailingOffset.None? {
        return BadRequest;
      }
      var expiresAt := if q.expiry.Some? then q.expiry.value else now + 7 * DAY;
      var orderType := if q.limitPrice.Some? then Limit else Market;
      var price := q.limitPrice.UnwrapOr(0.0);
      if price <= 0.0 {
        return InternalError;  // chk_price
      }
      orders := orders[id := TradingOrder(
        Deal(user, orderType, q.side, q.energy, price, now, Some(expiresAt), q.session),
        0.0, OrderPending,
        Trigger(Some(q.triggerType), Some(q.triggerPrice), q.trailingOffset, TriggerPending, None))];
      r := Created(id);
    }

    method CancelConditionalOrder(user: UserId, id: Id) returns (r: Reply)
      modifies this
      ensures r == (if Cancellable(old(orders), user, id) then CancelDone else NotFound)
      ensures Table() == old(Table()).(orders :=
                if Cancellable(old(orders), user, id) then old(orders)[id := CancelledRow(old(orders)[id])] else old(orders))
      ensures r == CancelDone <==>
                id in old(orders) && old(orders)[id].deal.user == user && old(orders)[id].trigger.status == TriggerPending
      ensures r == CancelDone ==>
                && id in orders && orders[id].status == OrderCancelled && orders[id].trigger.status == TriggerCancelled
                && orders[id].deal == old(orders)[id].deal && orders[id].filled == old(orders)[id].filled
                && orders[id].trigger.(status := TriggerPending) == old(orders)[id].trigger
                && orders - {id} == old(orders) - {id}
      ensures r != CancelDone ==> r == NotFound && orders == old(orders)
    {
      if id in orders && orders[id].deal.user == user && orders[id].trigger.status == TriggerPending {
        orders := orders[id := orders[id].(status := OrderCancelled, trigger := orders[id].trigger.(status := TriggerCancelled))];
        return CancelDone;
      }
      r := NotFound;
    }

    /** One transaction: mark the conditional order, insert the trading order. */
    method TriggerOrder(f: Fetched, price: real, now: int, newId: Id) returns (ok: bool)
      requires f.id in orders
      modifies this
      ensures ok <==> Insertable(f.row.deal.energy, f.row.deal.price)
      ensures Table() == if ok then TriggerCommitted(old(Table()), f, price, now, newId) else old(Table())
      ensures ok && newId !in old(orders) ==>
                && orders.Keys == old(orders).Keys + {newId} && spawns == old(spawns) + [Spawn(f.id, newId, price)]
                && SpawnedFrom(orders[newId], f.row.deal, now)
                && orders[f.id].trigger.status == Triggered && orders[f.id].trigger.triggeredAt == Some(now)
                && orders[f.id].(trigger := old(orders)[f.id].trigger) == old(orders)[f.id]
                && orders - {f.id, newId} == old(orders) - {f.id}
    {
      var saved := orders;
      var row := orders[f.id];
      orders := orders[f.id := row.(trigger := row.trigger.(status := Triggered, triggeredAt := Some(now)))];
      var d := f.row.deal;
      if d.energy <= 0.0 || d.price <= 0.0 {
        orders := saved;  // chk_energy_amount, chk_price: the transaction rolls back
        return false;
      }
      orders := orders[newId := SpawnedOrder(d.user, d.side, d.energy, d.price, now, d.session)];
      spawns := spawns + [Spawn(f.id, newId, price)];
      ok := true;
    }

    /** The loop of a pass: check each fetched row, trigger it if its condition holds. */
    method LookAt(batch: seq<Fetched>, price: real, outcomes: seq<Outcome>)
      requires |batch| <= |outcomes|
      requires forall i :: 0 <= i < |batch| ==> batch[i].id in orders
      modifies this
      ensures Table() == LookedAt(old(Table()), batch, price, outcomes)
    {
      var i := 0;
      while i < |batch|
        invariant 0 <= i <= |batch|
        invariant Table() == LookedAt(old(Table()), batch[..i], price, outcomes)
      {
        assert batch[..i + 1][..i] == batch[..i];
        var f := batch[i];
        if Fires(f.row, price) && outcomes[i].Commits? {
          var _ := TriggerOrder(f, price, outcomes[i].at, outcomes[i].newId);
        }
        i := i + 1;
      }
      assert batch[..i] == batch;
    }

    /** One pass at a given market price. */
    method CheckAndTriggerOrders(price: real, now: int, outcomes: seq<Outcome>) returns (ids: seq<Id>)
      requires |outcomes| >= BATCH_LIMIT
      modifies this
      ensures price <= 0.0 ==> ids == []
      ensures price > 0.0 ==> IsOldest(PendingKeys(old(orders), now), BATCH_LIMIT, ids)
      ensures |ids| <= BATCH_LIMIT && forall i :: 0 <= i < |ids| ==> ids[i] in old(orders)
      ensures Table() == LookedAt(old(Table()), Snapshots(old(orders), ids), price, outcomes)
    {
      ids := [];
      if price <= 0.0 {
        return;
      }
      ids := SelectOldest(PendingKeys(orders, now), BATCH_LIMIT);
      assert forall i :: 0 <= i < |ids| ==> ids[i] in ids;
      LookAt(Snapshots(orders, ids), price, outcomes);
    }
  }

  // ---------------------------------------------------------------- what a pass triggers

  /** Every attempt commits, under an order id unused so far. */
  ghost predicate FailureFree(orders: map<Id, TradingOrder>, outcomes: seq<Outcome>) {
    && (forall i :: 0 <= i < |outcomes| ==> outcomes[i].Commits? && outcomes[i].newId !in orders)
    && (forall i, j :: 0 <= i < j < |outcomes| ==> outcomes[i].newId != outcomes[j].newId)
  }

  /** What the first `k` rows of a pass have done to a row that existed before it. */
  predicate PassedRow(before: TradingOrder, after: TradingOrder, fires: bool) {
    if fires then
      && after.deal == before.deal && after.trigger.status == Triggered
      && after == Marked(before, after.trigger.triggeredAt.UnwrapOr(0))
    else after == before
  }

  lemma {:induction false} PrefixExact(db: Db, ids: seq<Id>, price: real, outcomes: seq<Outcome>, k: nat, id: Id)
    requires FailureFree(db.orders, outcomes) && Distinct(ids) && k <= |ids| <= |outcomes|
    requires forall i :: 0 <= i < |ids| ==> ids[i] in db.orders
    requires id in db.orders
    ensures var r := LookedAt(db, Snapshots(db.orders, ids)[..k], price, outcomes);
            id in r.orders && PassedRow(db.orders[id], r.orders[id], id in ids[..k] && Triggers(db.orders[id], price))
    decreases k
  {
    var batch := Snapshots(db.orders, ids);
    if k == 0 {
    } else {
      PrefixExact(db, ids, price, outcomes, k - 1, id);
      assert batch[..k][..k - 1] == batch[..k - 1];
      assert ids[..k] == ids[..k - 1] + [ids[k - 1]];
      assert ids[k - 1] !in ids[..k - 1];
      assert outcomes[k - 1].newId != id;
    }
  }

  /** Sound and complete: a failure-free pass marks exactly those among the 100 oldest pending,
      unexpired orders whose condition holds at the pass price and that the table accepts, and
      leaves every other row alone. */
  lemma PassIsExact(db: Db, now: int, ids: seq<Id>, price: real, outcomes: seq<Outcome>, id: Id)
    requires IsOldest(PendingKeys(db.orders, now), BATCH_LIMIT, ids)
    requires FailureFree(db.orders, outcomes) && |outcomes| >= BATCH_LIMIT
    requires id in db.orders
    ensures forall i :: 0 <= i < |ids| ==> ids[i] in db.orders
    ensures var r := LookedAt(db, Snapshots(db.orders, ids), price, outcomes);
            && id in r.orders
            && (id in ids && Triggers(db.orders[id], price) ==>
                  r.orders[id].trigger.status == Triggered && r.orders[id].deal == db.orders[id].deal)
            && (!(id in ids && Triggers(db.orders[id], price)) ==> r.orders[id] == db.orders[id])
  {
    assert forall i :: 0 <= i < |ids| ==> ids[i] in ids;
    PrefixExact(db, ids, price, outcomes, |ids|, id);
    var batch := Snapshots(db.orders, ids);
    assert batch[..|ids|] == batch && ids[..|ids|] == ids;
  }

  /** An eligible order whose condition holds is triggered by the pass if fewer than 100 other
      eligible orders are as old, and is passed over if 100 of them are older. */
  lemma WhoGetsTriggered(db: Db, now: int, ids: seq<Id>, price: real, outcomes: seq<Outcome>, id: Id)
    requires IsOldest(PendingKeys(db.orders, now), BATCH_LIMIT, ids)
    requires FailureFree(db.orders, outcomes) && |outcomes| >= BATCH_LIMIT
    requires id in db.orders && Eligible(db.orders[id], now) && Triggers(db.orders[id], price)
    ensures forall i :: 0 <= i < |ids| ==> ids[i] in db.orders
    ensures var keys := PendingKeys(db.orders, now);
            var r := LookedAt(db, Snapshots(db.orders, ids), price, outcomes);
            && id in r.orders
            && (|NoLater(keys, id)| < BATCH_LIMIT ==> r.orders[id].trigger.status == Triggered)
            && (|Earlier(keys, id)| >= BATCH_LIMIT ==> r.orders[id] == db.orders[id])
  {
    var keys := PendingKeys(db.orders, now);
    PassIsExact(db, now, ids, price, outcomes, id);
    if |NoLater(keys, id)| < BATCH_LIMIT {
      EarlyIsSelected(keys, BATCH_LIMIT, ids, id);
    }
    if |Earlier(keys, id)| >= BATCH_LIMIT {
      LateIsLeftOut(keys, BATCH_LIMIT, ids, id);
    }
  }

  /** A pass looks at pending, unexpired conditional orders, oldest first, 100 at most, and none it
      leaves out is older than one it takes. */
  lemma PassFetches(orders: map<Id, TradingOrder>, now: int, ids: seq<Id>)
    requires IsOldest(PendingKeys(orders, now), BATCH_LIMIT, ids)
    ensures Distinct(ids) && |ids| <= 100
    ensures forall i :: 0 <= i < |ids| ==> ids[i] in orders && Watched(orders[ids[i]], now)
    ensures forall i, j :: 0 <= i < j < |ids| ==> orders[ids[i]].deal.createdAt <= orders[ids[j]].deal.createdAt
    ensures forall id :: id in orders && Watched(orders[id], now) && id !in ids ==>
              |ids| == 100 && forall i :: 0 <= i < |ids| ==> orders[ids[i]].deal.createdAt <= orders[id].deal.createdAt
  {
    var keys := PendingKeys(orders, now);
    forall i | 0 <= i < |ids| ensures ids[i] in orders && Watched(orders[ids[i]], now) {
      var id := ids[i];
      assert id in ids && id in keys;
    }
    forall id | id in orders && Watched(orders[id], now) && id !in ids
      ensures |ids| == 100 && forall i :: 0 <= i < |ids| ==> orders[ids[i]].deal.createdAt <= orders[id].deal.createdAt
    {
      LeftOutMeansFull(keys, BATCH_LIMIT, ids, id);
      forall i | 0 <= i < |ids| ensures orders[ids[i]].deal.createdAt <= orders[id].deal.createdAt {
        var x := ids[i];
        assert x in ids && keys[x] <= keys[id];
      }
    }
  }

  /** A conditional order that has neither fired nor been cancelled and lapses, if at all, after `now`. */
  predicate Watched(row: TradingOrder, now: int) {
    && row.trigger.kind != None && row.trigger.status == TriggerPending
    && (row.deal.expiresAt == None || row.deal.expiresAt.value > now)
  }

  // ---------------------------------------------------------------- from request to spawned order

  /** What the k-th fetched row spawned is there after the pass. */
  lemma {:induction false} PrefixSpawns(db: Db, ids: seq<Id>, price: real, outcomes: seq<Outcome>, k: nat, n: nat)
    requires FailureFree(db.orders, outcomes) && k < n <= |ids| <= |outcomes|
    requires forall i :: 0 <= i < |ids| ==> ids[i] in db.orders
    requires Triggers(db.orders[ids[k]], price)
    ensures var r := LookedAt(db, Snapshots(db.orders, ids)[..n], price, outcomes);
            && outcomes[k].newId in r.orders
            && SpawnedFrom(r.orders[outcomes[k].newId], db.orders[ids[k]].deal, outcomes[k].at)
    decreases n
  {
    var batch := Snapshots(db.orders, ids);
    assert batch[..n][..n - 1] == batch[..n - 1];
    if k == n - 1 {
    } else {
      PrefixSpawns(db, ids, price, outcomes, k, n - 1);
      assert ids[n - 1] != outcomes[k].newId && outcomes[n - 1].newId != outcomes[k].newId;
    }
  }

  lemma NeverPendingAgain(s: State, a: Action, id: Id)
    requires Inv(s) && Enabled(s, a) && id in s.db.orders && s.db.orders[id].trigger.status != TriggerPending
    ensures id in Next(s, a).db.orders && Next(s, a).db.orders[id].trigger.status != TriggerPending
  {
  }

  /** The deal and the condition of a row that stays pending change by edits only. */
  lemma StepKeepsRequest(s: State, a: Action, id: Id)
    requires Inv(s) && Enabled(s, a) && id in s.db.orders && !(a.Edit? && a.id == id)
    requires id in Next(s, a).db.orders && Next(s, a).db.orders[id].trigger.status == TriggerPending
    ensures s.db.orders[id].trigger.status == TriggerPending
    ensures Next(s, a).db.orders[id].deal == s.db.orders[id].deal && Next(s, a).db.orders[id].trigger == s.db.orders[id].trigger
  {
    if s.db.orders[id].trigger.status != TriggerPending {
      NeverPendingAgain(s, a, id);
    }
  }

  lemma {:induction false} StillAsRequested(s: State, run: seq<Action>, id: Id)
    requires Inv(s) && Valid(s, run) && id in s.db.orders
    requires forall i :: 0 <= i < |run| ==> !(run[i].Edit? && run[i].id == id)
    ensures Inv(After(s, run)) && id in After(s, run).db.orders
    ensures After(s, run).db.orders[id].trigger.status == TriggerPending ==>
              && s.db.orders[id].trigger.status == TriggerPending
              && After(s, run).db.orders[id].deal == s.db.orders[id].deal
              && After(s, run).db.orders[id].trigger == s.db.orders[id].trigger
    decreases |run|
  {
    if run == [] {
    } else {
      StepKeepsInv(s, run[0]);
      StepKeepsId(s, run[0], id);
      StillAsRequested(Next(s, run[0]), run[1..], id);
      if Next(s, run[0]).db.orders[id].trigger.status == TriggerPending {
        StepKeepsRequest(s, run[0], id);
      }
    }
  }

  lemma StepKeepsId(s: State, a: Action, id: Id)
    requires Enabled(s, a) && id in s.db.orders
    ensures id in Next(s, a).db.orders
  {
  }

  /** A create stores the request, dated when its clock was read, exactly if every check passes. */
  lemma CreateStores(s: State, id: Id, user: UserId, q: Request, stamp: int)
    requires Enabled(s, Create(id, user, q, stamp))
    ensures var t := Next(s, Create(id, user, q, stamp));
            && (id in t.db.orders <==>
                  && q.triggerPrice > 0.0 && q.energy > 0.0 && q.limitPrice.Some? && q.limitPrice.value > 0.0
                  && !(q.triggerType == TrailingStop && q.trailingOffset == None))
            && (id in t.db.orders ==> Holds(t.db.orders[id], user, q, stamp))
            && t.db.orders - {id} == s.db.orders && t.db.spawns == s.db.spawns && t.batch == s.batch
  {
    StoredAsRequested(user, q, stamp);
  }

  /** When an order fires, in the words of the request. */
  predicate Wanted(q: Request, price: real) {
    || (q.triggerType == StopLoss && q.side == Sell && price <= q.triggerPrice)
    || (q.triggerType == StopLoss && q.side == Buy && price >= q.triggerPrice)
    || (q.triggerType == TakeProfit && q.side == Sell && price >= q.triggerPrice)
    || (q.triggerType == TakeProfit && q.side == Buy && price <= q.triggerPrice)
  }

  /** From request to spawned order. A request is accepted; whatever happens next, the order has not
      been edited and is still pending when a failure-free pass at `price` fetches it. Then the pass
      triggers it exactly if the price has reached the requested trigger in the direction of its kind
      and side, and spawns a limit order of the requested side, amount, limit price and session. */
  lemma RequestIsCarriedOut(s: State, id: Id, user: UserId, q: Request, stamp: int, run: seq<Action>,
                            ids: seq<Id>, k: nat, price: real, outcomes: seq<Outcome>)
    requires Inv(s) && Enabled(s, Create(id, user, q, stamp)) && id in Next(s, Create(id, user, q, stamp)).db.orders
    requires Valid(Next(s, Create(id, user, q, stamp)), run)
    requires forall i :: 0 <= i < |run| ==> !(run[i].Edit? && run[i].id == id)
    requires var t := After(Next(s, Create(id, user, q, stamp)), run);
             && Enabled(t, Fetch(price, ids)) && FailureFree(t.db.orders, outcomes) && |outcomes| >= BATCH_LIMIT
    requires k < |ids| && ids[k] == id
    ensures var db := After(Next(s, Create(id, user, q, stamp)), run).db;
            && (forall i :: 0 <= i < |ids| ==> ids[i] in db.orders)
            && var r := LookedAt(db, Snapshots(db.orders, ids), price, outcomes);
            && id in r.orders
            && (r.orders[id].trigger.status == Triggered <==> Wanted(q, price))
            && (Wanted(q, price) ==>
                  && outcomes[k].newId in r.orders && outcomes[k].newId !in db.orders
                  && var o := r.orders[outcomes[k].newId];
                  && o.deal.user == user && o.deal.side == q.side && o.deal.energy == q.energy
                  && Some(o.deal.price) == q.limitPrice && o.deal.session == q.session && o.deal.orderType == Limit
                  && o.deal.createdAt == outcomes[k].at && o.deal.expiresAt == Some(outcomes[k].at + 86400))
  {
    var s1 := Next(s, Create(id, user, q, stamp));
    StoredAsRequested(user, q, stamp);
    StepKeepsInv(s, Create(id, user, q, stamp));
    StillAsRequested(s1, run, id);
    var t := After(s1, run);
    PassFetches(t.db.orders, t.clock, ids);
    FiresAsWanted(t.db.orders[id], q, price);
    PassIsExact(t.db, t.clock, ids, price, outcomes, id);
    if Wanted(q, price) {
      var batch := Snapshots(t.db.orders, ids);
      PrefixSpawns(t.db, ids, price, outcomes, k, |ids|);
      assert batch[..|ids|] == batch;
    }
  }

  lemma FiresAsWanted(row: TradingOrder, q: Request, price: real)
    requires row.trigger.kind == Some(q.triggerType) && row.trigger.price == Some(q.triggerPrice) && row.deal.side == q.side
    requires row.deal.energy > 0.0 && row.deal.price > 0.0
    ensures Triggers(row, price) <==> Wanted(q, price)
  {
  }

  // ---------------------------------------------------------------- passes are runs

  /** Commits happen in clock order from `now` on, under unused order ids. */
  ghost predicate Plausible(now: int, orders: map<Id, TradingOrder>, outcomes: seq<Outcome>) {
    && (forall i :: 0 <= i < |outcomes| && outcomes[i].Commits? ==> now <= outcomes[i].at && outcomes[i].newId !in orders)
    && (forall i, j :: 0 <= i < j < |outcomes| && outcomes[i].Commits? && outcomes[j].Commits? ==>
          outcomes[i].at <= outcomes[j].at && outcomes[i].newId != outcomes[j].newId)
  }

  /** A row exists after some rows have been looked at only if it did before or one of them spawned it. */
  lemma {:induction false} LookedRows(db: Db, batch: seq<Fetched>, price: real, outcomes: seq<Outcome>, x: Id)
    requires |batch| <= |outcomes|
    requires forall i :: 0 <= i < |batch| ==> batch[i].id in db.orders
    requires x in LookedAt(db, batch, price, outcomes).orders && x !in db.orders
    ensures exists i :: 0 <= i < |batch| && outcomes[i].Commits? && outcomes[i].newId == x
    decreases |batch|
  {
    var n := |batch| - 1;
    if outcomes[n].Commits? && outcomes[n].newId == x {
    } else {
      LookedRows(db, batch[..n], price, outcomes, x);
    }
  }

  /** One row of the loop is one or two steps of the state machine. */
  lemma LookIsRun(s: State, o: Outcome) returns (run: seq<Action>, clock: int)
    requires s.batch != [] && s.batch[0].id in s.db.orders
    requires o.Commits? ==> s.clock <= o.at && o.newId !in s.db.orders
    ensures Valid(s, run) && clock == (if Triggers(s.batch[0].row, s.price) && o.Commits? then o.at else s.clock)
    ensures After(s, run) == State(clock, s.price, Looked(s.db, s.batch[0], s.price, o), s.batch[1..])
  {
    clock := s.clock;
    if !Fires(s.batch[0].row, s.price) {
      run := RunCons(s, Skip, []);
    } else if o.Aborts? || !Triggers(s.batch[0].row, s.price) {
      run := RunCons(s, FireFails, []);
    } else {
      clock := o.at;
      var wait := Tick(o.at - s.clock);
      run := RunCons(Next(s, wait), Fire(o.newId, o.at), []);
      run := RunCons(s, wait, run);
    }
  }

  lemma LookedAtSnoc(db: Db, batch: seq<Fetched>, price: real, outcomes: seq<Outcome>, k: nat)
    requires k < |batch| <= |outcomes|
    requires forall i :: 0 <= i < |batch| ==> batch[i].id in db.orders
    ensures LookedAt(db, batch[..k + 1], price, outcomes)
            == Looked(LookedAt(db, batch[..k], price, outcomes), batch[k], price, outcomes[k])
    ensures batch[k..][1..] == batch[k + 1..] && batch[k..][0] == batch[k]
  {
    assert batch[..k + 1][..k] == batch[..k];
  }

  lemma {:induction false} LoopIsRun(s: State, outcomes: seq<Outcome>, k: nat) returns (run: seq<Action>, clock: int)
    requires Plausible(s.clock, s.db.orders, outcomes) && k <= |s.batch| <= |outcomes|
    requires forall i :: 0 <= i < |s.batch| ==> s.batch[i].id in s.db.orders
    ensures Valid(s, run)
    ensures After(s, run) == State(clock, s.price, LookedAt(s.db, s.batch[..k], s.price, outcomes), s.batch[k..])
    ensures forall j :: k <= j < |outcomes| && outcomes[j].Commits? ==> clock <= outcomes[j].at
    decreases k
  {
    if k == 0 {
      run, clock := [], s.clock;
    } else {
      var first, c := LoopIsRun(s, outcomes, k - 1);
      var t := After(s, first);
      Unspawned(s, outcomes, k - 1);
      LookedAtSnoc(s.db, s.batch, s.price, outcomes, k - 1);
      var second, c' := LookIsRun(t, outcomes[k - 1]);
      RunAppend(s, first, second);
      run, clock := first + second, c';
    }
  }

  lemma Unspawned(s: State, outcomes: seq<Outcome>, k: nat)
    requires Plausible(s.clock, s.db.orders, outcomes) && k < |s.batch| <= |outcomes|
    requires forall i :: 0 <= i < |s.batch| ==> s.batch[i].id in s.db.orders
    ensures outcomes[k].Commits? ==> outcomes[k].newId !in LookedAt(s.db, s.batch[..k], s.price, outcomes).orders
  {
    if outcomes[k].Commits? && outcomes[k].newId in LookedAt(s.db, s.batch[..k], s.price, outcomes).orders {
      LookedRows(s.db, s.batch[..k], s.price, outcomes, outcomes[k].newId);
    }
  }

  /** What `CheckAndTriggerOrders` computes is reached by a run of the state machine, so every
      run theorem holds of it. */
  lemma PassIsRun(s: State, price: real, ids: seq<Id>, outcomes: seq<Outcome>) returns (run: seq<Action>)
    requires Enabled(s, Fetch(price, ids)) && Plausible(s.clock, s.db.orders, outcomes) && |outcomes| >= BATCH_LIMIT
    ensures forall i :: 0 <= i < |ids| ==> ids[i] in s.db.orders
    ensures Valid(s, run) && After(s, run).batch == []
    ensures After(s, run).db == LookedAt(s.db, Snapshots(s.db.orders, ids), price, outcomes)
  {
    assert forall i :: 0 <= i < |ids| ==> ids[i] in ids;
    var t := Next(s, Fetch(price, ids));
    var steps, clock := LoopIsRun(t, outcomes, |t.batch|);
    run := RunCons(s, Fetch(price, ids), steps);
    assert t.batch[..|t.batch|] == t.batch;
  }
}
