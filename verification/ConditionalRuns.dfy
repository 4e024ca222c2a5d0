/** Conditional orders over whole runs: triggered orders and spawned orders correspond one to
    one, a cancel is final unless it lands mid-pass, and old orders can block newer ones. */
module ConditionalRuns {
  import opened Prelude
  import opened Trading
  import opened Selection
  import opened Conditional

  function Orders(spawns: seq<Spawn>): set<Id> {
    set i | 0 <= i < |spawns| :: spawns[i].order
  }

  lemma SpawnCounts(spawns: seq<Spawn>)
    requires forall i, j :: 0 <= i < j < |spawns| ==>
               spawns[i].cond != spawns[j].cond && spawns[i].order != spawns[j].order
    ensures |Conds(spawns)| == |Orders(spawns)| == |spawns|
  {
    var conds := seq(|spawns|, i requires 0 <= i < |spawns| => spawns[i].cond);
    var orders := seq(|spawns|, i requires 0 <= i < |spawns| => spawns[i].order);
    DistinctCard(conds);
    DistinctCard(orders);
    assert Conds(spawns) == SetOf(conds) by {
      forall x | x in SetOf(conds) ensures x in Conds(spawns) {
        var i :| 0 <= i < |conds| && conds[i] == x;
        assert spawns[i].cond == x;
      }
      forall x | x in Conds(spawns) ensures x in SetOf(conds) {
        var i :| 0 <= i < |spawns| && spawns[i].cond == x;
        assert conds[i] == x;
      }
    }
    assert Orders(spawns) == SetOf(orders) by {
      forall x | x in SetOf(orders) ensures x in Orders(spawns) {
        var i :| 0 <= i < |orders| && orders[i] == x;
        assert spawns[i].order == x;
      }
      forall x | x in Orders(spawns) ensures x in SetOf(orders) {
        var i :| 0 <= i < |spawns| && spawns[i].order == x;
        assert orders[i] == x;
      }
    }
  }

  // ---------------------------------------------------------------- amounts and edits

  /** An edit gives an order the amount and the price asked for exactly if both are positive, and
      touches nothing else. */
  lemma EditWrites(s: State, id: Id, energy: real, price: real)
    requires id in s.db.orders
    ensures var o, t := s.db.orders[id], Next(s, Edit(id, energy, price)).db;
            && t.orders.Keys == s.db.orders.Keys && t.orders - {id} == s.db.orders - {id} && t.spawns == s.db.spawns
            && t.orders[id] == o.(deal := o.deal.(energy := t.orders[id].deal.energy, price := t.orders[id].deal.price))
            && (if energy > 0.0 && price > 0.0 then t.orders[id].deal.energy == energy && t.orders[id].deal.price == price
                else t.orders[id] == o)
  {
  }

  predicate SameAmounts(c: Deal, o: Deal) {
    c.energy == o.energy && c.price == o.price
  }

  /** The step does not edit the spawned order `o`, nor the conditional order `c` once a pass has
      fetched it or it has been triggered. Earlier edits of `c` are read by the fetch. */
  ghost predicate KeepsAmounts(s: State, a: Action, c: Id, o: Id) {
    a.Edit? ==> && a.id != o
                && (a.id == c ==> c !in BatchIds(s) && c !in TriggeredIds(s.db.orders))
  }

  ghost predicate AmountsKept(s: State, run: seq<Action>, c: Id, o: Id)
    requires Valid(s, run)
    decreases |run|
  {
    run == [] || (KeepsAmounts(s, run[0], c, o) && AmountsKept(Next(s, run[0]), run[1..], c, o))
  }

  /** Where `o` was spawned for `c` they agree, and a fetched copy of `c` is up to date. */
  ghost predicate Agree(s: State, c: Id, o: Id) {
    && (forall i :: 0 <= i < |s.db.spawns| && s.db.spawns[i].cond == c && s.db.spawns[i].order == o ==>
          c in s.db.orders && o in s.db.orders && SameAmounts(s.db.orders[c].deal, s.db.orders[o].deal))
    && (forall i :: 0 <= i < |s.batch| && s.batch[i].id == c ==>
          c in s.db.orders && SameAmounts(s.db.orders[c].deal, s.batch[i].row.deal))
  }

  lemma UserKeepsAgree(s: State, a: Action, c: Id, o: Id)
    requires Inv(s) && Enabled(s, a) && !IsMonitor(a) && Agree(s, c, o) && KeepsAmounts(s, a, c, o)
    ensures Agree(Next(s, a), c, o)
  {
  }

  lemma MonitorKeepsAgree(s: State, a: Action, c: Id, o: Id)
    requires Inv(s) && Enabled(s, a) && IsMonitor(a) && Agree(s, c, o)
    ensures Agree(Next(s, a), c, o)
  {
  }

  lemma {:induction false} RunKeepsAgree(s: State, run: seq<Action>, c: Id, o: Id)
    requires Inv(s) && Valid(s, run) && Agree(s, c, o) && AmountsKept(s, run, c, o)
    ensures Agree(After(s, run), c, o)
    decreases |run|
  {
    if run == [] {
    } else {
      StepKeepsInv(s, run[0]);
      if IsMonitor(run[0]) {
        MonitorKeepsAgree(s, run[0], c, o);
      } else {
        UserKeepsAgree(s, run[0], c, o);
      }
      RunKeepsAgree(Next(s, run[0]), run[1..], c, o);
    }
  }

  // ---------------------------------------------------------------- triggers and spawned orders

  /** In every run, however creates, cancels, edits and monitor steps interleave: the trigger log is
      a bijection between the orders marked triggered and the orders spawned for them; each pair
      agrees on user, side and session, and on amount and price unless one of them was edited
      after the fetch; the condition of the first held at the logged price. Trailing stops never
      fire. */
  lemma TriggersMatchSpawns(s: State, run: seq<Action>)
    requires Initial(s) && Valid(s, run)
    ensures var db := After(s, run).db;
            && Conds(db.spawns) == TriggeredIds(db.orders)
            && |TriggeredIds(db.orders)| == |Orders(db.spawns)| == |db.spawns|
            && (forall i :: 0 <= i < |db.spawns| ==>
                  && SpawnOk(db.orders, db.spawns[i])
                  && var c, o := db.spawns[i].cond, db.spawns[i].order;
                  (AmountsKept(s, run, c, o) ==> SameAmounts(db.orders[c].deal, db.orders[o].deal)))
            && (forall id :: id in TriggeredIds(db.orders) ==>
                  db.orders[id].trigger.kind.Some? && db.orders[id].trigger.kind.value != TrailingStop)
            && (forall id :: id in db.orders && db.orders[id].trigger.kind.Some? ==>
                  db.orders[id].trigger.price.Some? && db.orders[id].trigger.price.value > 0.0)
  {
    RunKeepsInv(s, run);
    var db := After(s, run).db;
    SpawnCounts(db.spawns);
    forall i | 0 <= i < |db.spawns|
      ensures SpawnOk(db.orders, db.spawns[i])
      ensures var c, o := db.spawns[i].cond, db.spawns[i].order;
              AmountsKept(s, run, c, o) ==> SameAmounts(db.orders[c].deal, db.orders[o].deal)
    {
      var c, o := db.spawns[i].cond, db.spawns[i].order;
      if AmountsKept(s, run, c, o) {
        RunKeepsAgree(s, run, c, o);
      }
    }
    forall id | id in TriggeredIds(db.orders)
      ensures db.orders[id].trigger.kind.Some? && db.orders[id].trigger.kind.value != TrailingStop
    {
      var i :| 0 <= i < |db.spawns| && db.spawns[i].cond == id;
      assert SpawnOk(db.orders, db.spawns[i]);
    }
    forall id | id in db.orders && db.orders[id].trigger.kind.Some?
      ensures db.orders[id].trigger.price.Some? && db.orders[id].trigger.price.value > 0.0
    {
      assert RowOk(db.orders[id]);
    }
  }

  // ---------------------------------------------------------------- cancelling

  /** A cancelled order becomes triggered exactly when the monitor fires it from a batch it was
      fetched into while still pending; no other step undoes a cancel. */
  lemma CancelOverwritten(s: State, a: Action, id: Id)
    requires Inv(s) && Enabled(s, a) && id in s.db.orders && s.db.orders[id].trigger.status == TriggerCancelled
    ensures id in Next(s, a).db.orders
    ensures Next(s, a).db.orders[id].trigger.status != TriggerCancelled <==> a.Fire? && s.batch[0].id == id
    ensures a.Fire? && s.batch[0].id == id ==>
              s.batch[0].row.trigger.status == TriggerPending && Next(s, a).db.orders[id].trigger.status == Triggered
  {
  }

  lemma CancelledStep(s: State, a: Action, id: Id)
    requires Inv(s) && Enabled(s, a) && id in s.db.orders && s.db.orders[id].trigger.status == TriggerCancelled
    requires id !in BatchIds(s)
    ensures var t := Next(s, a);
            id in t.db.orders && t.db.orders[id].trigger == s.db.orders[id].trigger && id !in BatchIds(t)
  {
    var t := Next(s, a);
    if a.Fetch? {
      forall i | 0 <= i < |t.batch| ensures t.batch[i].id != id {
        assert a.ids[i] in a.ids;
      }
    } else if IsMonitor(a) {
      assert forall i :: 0 <= i < |t.batch| ==> t.batch[i] == s.batch[i + 1];
    } else {
      UserStep(s, a);
      assert RowFrame(s.db.orders[id], t.db.orders[id]);
    }
  }

  /** A cancel that does not land between a pass's fetch and its trigger is final. */
  lemma {:induction false} CancelledStays(s: State, run: seq<Action>, id: Id)
    requires Inv(s) && Valid(s, run) && id in s.db.orders && s.db.orders[id].trigger.status == TriggerCancelled
    requires id !in BatchIds(s)
    ensures id in After(s, run).db.orders && After(s, run).db.orders[id].trigger.status == TriggerCancelled
    decreases |run|
  {
    if run == [] {
    } else {
      StepKeepsInv(s, run[0]);
      CancelledStep(s, run[0], id);
      CancelledStays(Next(s, run[0]), run[1..], id);
    }
  }

  predicate Plain(s: State, id: Id) {
    id in s.db.orders && s.db.orders[id].trigger.kind == None
  }

  /** A plain order of `user` still has the column default as its trigger status. */
  predicate StillDefault(s: State, user: UserId, id: Id) {
    Plain(s, id) && s.db.orders[id].deal.user == user ==> s.db.orders[id].trigger.status == TriggerPending
  }

  lemma DefaultStep(s: State, a: Action, user: UserId, id: Id)
    requires Inv(s) && Enabled(s, a) && StillDefault(s, user, id) && a != Cancel(user, id)
    ensures StillDefault(Next(s, a), user, id)
  {
  }

  lemma {:induction false} DefaultStays(s: State, run: seq<Action>, user: UserId, id: Id)
    requires Inv(s) && Valid(s, run) && StillDefault(s, user, id) && Cancel(user, id) !in run
    ensures StillDefault(After(s, run), user, id)
    decreases |run|
  {
    if run == [] {
    } else {
      StepKeepsInv(s, run[0]);
      DefaultStep(s, run[0], user, id);
      DefaultStays(Next(s, run[0]), run[1..], user, id);
    }
  }

  /** The cancel endpoint asks only for `trigger_status = 'pending'`, the column default: in every
      run each plain order, entered by a user or spawned by a service, open or long filled, is
      marked cancelled by the first such request of its owner. */
  lemma CancelReachesPlainOrders(s: State, run: seq<Action>, user: UserId, id: Id)
    requires Initial(s) && Valid(s, run) && Cancel(user, id) !in run
    requires Plain(After(s, run), id) && After(s, run).db.orders[id].deal.user == user
    ensures Next(After(s, run), Cancel(user, id)).db.orders[id].status == OrderCancelled
  {
    DefaultStays(s, run, user, id);
  }

  // ---------------------------------------------------------------- crowding out

  /** At least 100 orders, pending, older than the target and unexpired until `horizon`. */
  ghost predicate Crowded(s: State, target: Id, blockers: set<Id>, horizon: int) {
    && |blockers| >= BATCH_LIMIT && target in s.db.orders && target !in BatchIds(s)
    && s.db.orders[target].trigger.status == TriggerPending
    && forall id :: id in blockers ==> id in s.db.orders && Blocks(s.db.orders[id], s.db.orders[target], horizon)
  }

  predicate Blocks(row: TradingOrder, target: TradingOrder, horizon: int) {
    && row.trigger.kind.Some? && row.trigger.status == TriggerPending
    && row.deal.createdAt < target.deal.createdAt
    && (row.deal.expiresAt.Some? ==> row.deal.expiresAt.value > horizon)
  }

  /** Nobody cancels a blocker or the target, and time stays below the horizon. */
  ghost predicate QuietStep(s: State, a: Action, target: Id, blockers: set<Id>, horizon: int)
    requires Enabled(s, a)
  {
    && (a.Cancel? && Cancellable(s.db.orders, a.user, a.id) ==> a.id != target && a.id !in blockers)
    && Next(s, a).clock <= horizon
  }

  ghost predicate QuietRun(s: State, run: seq<Action>, target: Id, blockers: set<Id>, horizon: int)
    requires Valid(s, run)
    decreases |run|
  {
    run == [] || (&& QuietStep(s, run[0], target, blockers, horizon)
                  && QuietRun(Next(s, run[0]), run[1..], target, blockers, horizon))
  }

  /** No blocker is triggered. */
  ghost predicate NeverFires(s: State, run: seq<Action>, blockers: set<Id>)
    requires Valid(s, run)
    decreases |run|
  {
    run == [] || ((run[0].Fire? ==> s.batch[0].id !in blockers) && NeverFires(Next(s, run[0]), run[1..], blockers))
  }

  lemma CrowdedFetch(s: State, price: real, ids: seq<Id>, target: Id, blockers: set<Id>, horizon: int)
    requires Enabled(s, Fetch(price, ids)) && Crowded(s, target, blockers, horizon) && s.clock <= horizon
    ensures target !in ids
  {
    var keys := PendingKeys(s.db.orders, s.clock);
    if target in ids {
      var earlier := Earlier(keys, target);
      forall id | id in blockers ensures id in earlier {
        assert id in keys;
      }
      SubsetCard(blockers, earlier);
      LateIsLeftOut(keys, BATCH_LIMIT, ids, target);
    }
  }

  lemma CrowdedUser(s: State, a: Action, target: Id, blockers: set<Id>, horizon: int)
    requires Enabled(s, a) && !IsMonitor(a) && Crowded(s, target, blockers, horizon)
    requires QuietStep(s, a, target, blockers, horizon)
    ensures Crowded(Next(s, a), target, blockers, horizon)
  {
  }

  lemma CrowdedMonitor(s: State, a: Action, target: Id, blockers: set<Id>, horizon: int)
    requires Inv(s) && Enabled(s, a) && IsMonitor(a) && Crowded(s, target, blockers, horizon) && s.clock <= horizon
    requires a.Fire? ==> s.batch[0].id !in blockers
    ensures Crowded(Next(s, a), target, blockers, horizon)
  {
    var t := Next(s, a);
    if a.Fetch? {
      CrowdedFetch(s, a.price, a.ids, target, blockers, horizon);
      forall i | 0 <= i < |t.batch| ensures t.batch[i].id != target {
        assert a.ids[i] in a.ids;
      }
    } else {
      assert forall i :: 0 <= i < |t.batch| ==> t.batch[i] == s.batch[i + 1];
      assert s.batch[0].id in BatchIds(s);
    }
  }

  /** The query returns the 100 oldest rows: behind 100 that never fire an order is never
      triggered, whatever the prices and whatever else users do. */
  lemma {:induction false} HundredStuckOrdersBlock(s: State, run: seq<Action>, target: Id, blockers: set<Id>, horizon: int)
    requires Inv(s) && Valid(s, run) && Crowded(s, target, blockers, horizon) && s.clock <= horizon
    requires QuietRun(s, run, target, blockers, horizon) && NeverFires(s, run, blockers)
    ensures target in After(s, run).db.orders && After(s, run).db.orders[target].trigger.status == TriggerPending
    decreases |run|
  {
    if run == [] {
    } else {
      StepKeepsInv(s, run[0]);
      if IsMonitor(run[0]) {
        CrowdedMonitor(s, run[0], target, blockers, horizon);
      } else {
        CrowdedUser(s, run[0], target, blockers, horizon);
      }
      HundredStuckOrdersBlock(Next(s, run[0]), run[1..], target, blockers, horizon);
    }
  }

  ghost predicate AllTrailing(s: State, blockers: set<Id>) {
    forall id :: id in blockers ==> id in s.db.orders && s.db.orders[id].trigger.kind == Some(TrailingStop)
  }

  lemma TrailingStep(s: State, a: Action, blockers: set<Id>)
    requires Inv(s) && Enabled(s, a) && AllTrailing(s, blockers)
    ensures AllTrailing(Next(s, a), blockers) && (a.Fire? ==> s.batch[0].id !in blockers)
  {
  }

  lemma {:induction false} TrailingNeverFires(s: State, run: seq<Action>, blockers: set<Id>)
    requires Inv(s) && Valid(s, run) && AllTrailing(s, blockers)
    ensures NeverFires(s, run, blockers)
    decreases |run|
  {
    if run == [] {
    } else {
      StepKeepsInv(s, run[0]);
      TrailingStep(s, run[0], blockers);
      TrailingNeverFires(Next(s, run[0]), run[1..], blockers);
    }
  }

  /** Trailing stops never fire, so 100 of them block every younger order until one is cancelled
      or expires. */
  lemma TrailingStopsBlock(s: State, run: seq<Action>, target: Id, blockers: set<Id>, horizon: int)
    requires Inv(s) && Valid(s, run) && Crowded(s, target, blockers, horizon) && s.clock <= horizon
    requires QuietRun(s, run, target, blockers, horizon) && AllTrailing(s, blockers)
    ensures target in After(s, run).db.orders && After(s, run).db.orders[target].trigger.status == TriggerPending
  {
    TrailingNeverFires(s, run, blockers);
    HundredStuckOrdersBlock(s, run, target, blockers, horizon);
  }
}
