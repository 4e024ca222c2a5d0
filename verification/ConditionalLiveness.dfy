/** No conditional order starves while fewer than 100 older ones are stuck: a bound on the number
    of monitor passes before it is triggered, over every interleaving. */
module ConditionalLiveness {
  import opened Prelude
  import opened Trading
  import opened Selection
  import opened Conditional

  /** Rows the query could return that were created no later than `d`. */
  function Ahead(s: State, d: int): set<Id> {
    set id | id in s.db.orders && Eligible(s.db.orders[id], s.clock) && s.db.orders[id].deal.createdAt <= d
  }

  /** Rows ahead of the target that can still delay it: not the target, not stuck, and not
      already handed to the current pass. */
  function Rivals(s: State, target: Id, d: int, stuck: set<Id>): set<Id> {
    Ahead(s, d) - ({target} + stuck) - BatchIds(s)
  }

  /** The target is a pending conditional order created at `d`. */
  predicate Waiting(s: State, target: Id, d: int) {
    && target in s.db.orders && s.db.orders[target].deal.createdAt == d
    && s.db.orders[target].trigger.kind.Some? && s.db.orders[target].trigger.status == TriggerPending
  }

  predicate FiresTarget(s: State, a: Action, target: Id) {
    a.Fire? && s.batch != [] && s.batch[0].id == target
  }

  ghost predicate TriggersTarget(s: State, run: seq<Action>, target: Id)
    requires Valid(s, run)
    decreases |run|
  {
    run != [] && (FiresTarget(s, run[0], target) || TriggersTarget(Next(s, run[0]), run[1..], target))
  }

  predicate CancelsTarget(s: State, a: Action, target: Id) {
    a.Cancel? && a.id == target && Cancellable(s.db.orders, a.user, target)
  }

  /** The owner does not cancel the target before it fires. Nothing else is assumed of a run. */
  ghost predicate NotCancelled(s: State, run: seq<Action>, target: Id)
    requires Valid(s, run)
    decreases |run|
  {
    || run == [] || FiresTarget(s, run[0], target)
    || (!CancelsTarget(s, run[0], target) && NotCancelled(Next(s, run[0]), run[1..], target))
  }

  /** A pass that starts before the target expires. */
  predicate Reaches(s: State, a: Action, target: Id) {
    a.Fetch? && target in s.db.orders && Eligible(s.db.orders[target], s.clock)
  }

  /** The number of such passes a run starts. */
  ghost function Passes(s: State, run: seq<Action>, target: Id): nat
    requires Valid(s, run)
    decreases |run|
  {
    if run == [] then 0
    else (if Reaches(s, run[0], target) then 1 else 0) + Passes(Next(s, run[0]), run[1..], target)
  }

  /** What a step costs the target, in places: a whole pass if it is passed over itself, because its
      condition does not hold or its transaction fails; one place if that happens to a row outside
      `stuck`, or if an order is stored that was dated `d` or before. */
  function Delay(s: State, a: Action, target: Id, d: int, stuck: set<Id>): nat
    requires |stuck| < BATCH_LIMIT
  {
    match a
    case Create(_, _, q, stamp) => if Storable(q) && stamp <= d then 1 else 0
    case Skip => PassedOver(s, target, stuck)
    case FireFails => PassedOver(s, target, stuck)
    case _ => 0
  }

  function PassedOver(s: State, target: Id, stuck: set<Id>): nat
    requires |stuck| < BATCH_LIMIT
  {
    if s.batch == [] || s.batch[0].id in stuck then 0
    else if s.batch[0].id == target then BATCH_LIMIT - |stuck| else 1
  }

  ghost function Delays(s: State, run: seq<Action>, target: Id, d: int, stuck: set<Id>): nat
    requires Valid(s, run) && |stuck| < BATCH_LIMIT
    decreases |run|
  {
    if run == [] then 0
    else Delay(s, run[0], target, d, stuck) + Delays(Next(s, run[0]), run[1..], target, d, stuck)
  }

  /** The places still needed to reach the target: one for each rival, and a pass for the target
      itself unless the current one already holds it. */
  function Load(s: State, target: Id, d: int, stuck: set<Id>): nat
    requires |stuck| < BATCH_LIMIT
  {
    |Rivals(s, target, d, stuck)| + (if target in BatchIds(s) then 0 else BATCH_LIMIT - |stuck|)
  }

  // ---------------------------------------------------------------- single steps

  /** Nobody outside the monitor takes the target away or puts a row ahead of it, except by storing
      an order with an old date. */
  lemma UserKeepsAhead(s: State, a: Action, target: Id, d: int)
    requires Enabled(s, a) && !IsMonitor(a) && Waiting(s, target, d) && !CancelsTarget(s, a, target)
    ensures Waiting(Next(s, a), target, d)
    ensures var backdated := a.Create? && Storable(a.request) && a.stamp <= d;
            Ahead(Next(s, a), d) <= Ahead(s, d) + (if backdated then {a.id} else {})
  {
    var t := Next(s, a);
    forall id | id in Ahead(t, d) && !(a.Create? && id == a.id) ensures id in Ahead(s, d) {
      assert t.db.orders[id].deal.createdAt == s.db.orders[id].deal.createdAt;
      assert Eligible(s.db.orders[id], s.clock);
    }
  }

  lemma SameBatchRivals(s: State, t: State, target: Id, d: int, stuck: set<Id>, id: Id)
    requires t.batch == s.batch && Ahead(t, d) <= Ahead(s, d) + {id}
    ensures |Rivals(t, target, d, stuck)| <= |Rivals(s, target, d, stuck)| + 1
    ensures Ahead(t, d) <= Ahead(s, d) ==> |Rivals(t, target, d, stuck)| <= |Rivals(s, target, d, stuck)|
  {
    GrownCard(Ahead(s, d), Ahead(t, d), {target} + stuck, BatchIds(s), id);
  }

  lemma SameBatchLoad(s: State, t: State, target: Id, d: int, stuck: set<Id>, more: nat)
    requires t.batch == s.batch && |stuck| < BATCH_LIMIT
    requires |Rivals(t, target, d, stuck)| <= |Rivals(s, target, d, stuck)| + more
    ensures Load(t, target, d, stuck) <= Load(s, target, d, stuck) + more
  {
  }

  lemma UserKeepsLoad(s: State, a: Action, target: Id, d: int, stuck: set<Id>)
    requires Enabled(s, a) && !IsMonitor(a) && Waiting(s, target, d) && !CancelsTarget(s, a, target)
    requires |stuck| < BATCH_LIMIT
    ensures Waiting(Next(s, a), target, d)
    ensures Load(Next(s, a), target, d, stuck) <= Load(s, target, d, stuck) + Delay(s, a, target, d, stuck)
  {
    var t := Next(s, a);
    UserKeepsAhead(s, a, target, d);
    UserStep(s, a);
    SameBatchRivals(s, t, target, d, stuck, if a.Create? then a.id else target);
    SameBatchLoad(s, t, target, d, stuck, Delay(s, a, target, d, stuck));
  }

  lemma PopIds(s: State, t: State)
    requires s.batch != [] && t.batch == s.batch[1..]
    ensures BatchIds(s) == BatchIds(t) + {s.batch[0].id}
  {
  }

  lemma PopKeepsTarget(s: State, t: State, target: Id)
    requires s.batch != [] && t.batch == s.batch[1..] && s.batch[0].id != target
    ensures target in BatchIds(s) <==> target in BatchIds(t)
  {
    PopIds(s, t);
  }

  lemma PopKeepsRivals(s: State, t: State, target: Id, d: int, stuck: set<Id>)
    requires s.batch != [] && t.batch == s.batch[1..] && Ahead(t, d) <= Ahead(s, d)
    ensures |Rivals(t, target, d, stuck)| <= |Rivals(s, target, d, stuck)| + 1
    ensures s.batch[0].id in {target} + stuck || s.batch[0].id !in Ahead(t, d) ==>
              |Rivals(t, target, d, stuck)| <= |Rivals(s, target, d, stuck)|
  {
    PopIds(s, t);
    PoppedCard(Ahead(s, d), Ahead(t, d), {target} + stuck, BatchIds(s), BatchIds(t), s.batch[0].id);
  }

  lemma FireAhead(s: State, newId: Id, at: int, d: int)
    requires Enabled(s, Fire(newId, at))
    ensures Ahead(Next(s, Fire(newId, at)), d) <= Ahead(s, d) - {s.batch[0].id}
  {
  }

  /** A triggered row is never fetched again, so it stops being a rival. */
  lemma FireKeepsLoad(s: State, newId: Id, at: int, target: Id, d: int, stuck: set<Id>)
    requires Enabled(s, Fire(newId, at)) && Waiting(s, target, d) && |stuck| < BATCH_LIMIT
    requires !FiresTarget(s, Fire(newId, at), target)
    ensures Waiting(Next(s, Fire(newId, at)), target, d)
    ensures Load(Next(s, Fire(newId, at)), target, d, stuck) <= Load(s, target, d, stuck)
  {
    var t := Next(s, Fire(newId, at));
    FireAhead(s, newId, at, d);
    PopKeepsTarget(s, t, target);
    PopKeepsRivals(s, t, target, d, stuck);
  }

  /** A row passed over keeps its place; the target, if it is the one, needs another pass. */
  lemma PassedOverKeepsLoad(s: State, t: State, target: Id, d: int, stuck: set<Id>)
    requires s.batch != [] && t == s.(batch := s.batch[1..]) && target !in stuck && |stuck| < BATCH_LIMIT
    ensures Load(t, target, d, stuck) <= Load(s, target, d, stuck) + PassedOver(s, target, stuck)
  {
    assert Ahead(t, d) == Ahead(s, d);
    PopKeepsRivals(s, t, target, d, stuck);
    if s.batch[0].id != target {
      PopKeepsTarget(s, t, target);
    }
  }

  lemma BatchIdsOf(s: State, price: real, ids: seq<Id>)
    requires Enabled(s, Fetch(price, ids))
    ensures BatchIds(Next(s, Fetch(price, ids))) == SetOf(ids) && BatchIds(s) == {}
  {
    var t := Next(s, Fetch(price, ids));
    forall x | x in ids ensures x in BatchIds(t) {
      var i :| 0 <= i < |ids| && ids[i] == x;
      assert t.batch[i].id == x;
    }
  }

  /** A pass that does not pick the target up takes at least `100 − |stuck|` rivals. */
  lemma FetchTakesRivals(s: State, price: real, ids: seq<Id>, target: Id, d: int, stuck: set<Id>)
    requires Enabled(s, Fetch(price, ids)) && Waiting(s, target, d) && |stuck| < BATCH_LIMIT
    requires Reaches(s, Fetch(price, ids), target) && target !in ids
    ensures |Rivals(Next(s, Fetch(price, ids)), target, d, stuck)| + (BATCH_LIMIT - |stuck|)
            <= |Rivals(s, target, d, stuck)|
  {
    var t := Next(s, Fetch(price, ids));
    var keys := PendingKeys(s.db.orders, s.clock);
    BatchIdsOf(s, price, ids);
    assert target in keys && keys[target] == d;
    LeftOutMeansFull(keys, BATCH_LIMIT, ids, target);
    DistinctCard(ids);
    var taken := SetOf(ids);
    assert forall x :: x in taken ==> x in Ahead(s, d);
    assert Ahead(t, d) == Ahead(s, d);
    TakenRivals(Ahead(s, d) - {target}, taken, stuck);
    assert Rivals(s, target, d, stuck) == Ahead(s, d) - {target} - stuck;
    assert Rivals(t, target, d, stuck) == Ahead(s, d) - {target} - stuck - taken;
  }

  lemma FetchKeepsLoad(s: State, price: real, ids: seq<Id>, target: Id, d: int, stuck: set<Id>)
    requires Enabled(s, Fetch(price, ids)) && Waiting(s, target, d) && |stuck| < BATCH_LIMIT
    ensures var pass := if Reaches(s, Fetch(price, ids), target) then BATCH_LIMIT - |stuck| else 0;
            Load(Next(s, Fetch(price, ids)), target, d, stuck) + pass <= Load(s, target, d, stuck)
  {
    var t := Next(s, Fetch(price, ids));
    BatchIdsOf(s, price, ids);
    SubsetCard(Rivals(t, target, d, stuck), Rivals(s, target, d, stuck));
    if Reaches(s, Fetch(price, ids), target) && target !in ids {
      FetchTakesRivals(s, price, ids, target, d, stuck);
    } else {
      assert target in ids ==> target in PendingKeys(s.db.orders, s.clock);
    }
  }

  /** Every pass that starts before the target expires lowers the load by `100 − |stuck|`, and no
      step raises it by more than its delay. */
  lemma LoadStep(s: State, a: Action, target: Id, d: int, stuck: set<Id>)
    requires Enabled(s, a) && Waiting(s, target, d) && target !in stuck && |stuck| < BATCH_LIMIT
    requires !CancelsTarget(s, a, target) && !FiresTarget(s, a, target)
    ensures Waiting(Next(s, a), target, d)
    ensures Load(Next(s, a), target, d, stuck) + (if Reaches(s, a, target) then BATCH_LIMIT - |stuck| else 0)
            <= Load(s, target, d, stuck) + Delay(s, a, target, d, stuck)
  {
    if a.Fire? {
      FireKeepsLoad(s, a.newId, a.at, target, d, stuck);
    } else if a.Skip? || a.FireFails? {
      PassedOverKeepsLoad(s, Next(s, a), target, d, stuck);
    } else if a.Fetch? {
      FetchKeepsLoad(s, a.price, a.ids, target, d, stuck);
    } else {
      UserKeepsLoad(s, a, target, d, stuck);
    }
  }

  // ---------------------------------------------------------------- whole runs

  lemma CountStep(s: State, run: seq<Action>, target: Id, d: int, stuck: set<Id>, before: nat, after: nat)
    requires Valid(s, run) && run != [] && |stuck| < BATCH_LIMIT
    requires after + (if Reaches(s, run[0], target) then BATCH_LIMIT - |stuck| else 0)
             <= before + Delay(s, run[0], target, d, stuck)
    requires Times(Passes(Next(s, run[0]), run[1..], target), BATCH_LIMIT - |stuck|)
             <= after + Delays(Next(s, run[0]), run[1..], target, d, stuck)
    ensures Times(Passes(s, run, target), BATCH_LIMIT - |stuck|) <= before + Delays(s, run, target, d, stuck)
  {
    var t := Next(s, run[0]);
    CountPass(Reaches(s, run[0], target), Passes(t, run[1..], target), BATCH_LIMIT - |stuck|, before, after,
              Delay(s, run[0], target, d, stuck), Delays(t, run[1..], target, d, stuck));
  }

  /** As long as the target has not been triggered, the passes have had no more places than the load
      at the start and the delays since account for. */
  lemma {:induction false} PassesUseUpRivals(s: State, run: seq<Action>, target: Id, d: int, stuck: set<Id>)
    requires Valid(s, run) && NotCancelled(s, run, target) && !TriggersTarget(s, run, target)
    requires Waiting(s, target, d) && target !in stuck && |stuck| < BATCH_LIMIT
    ensures Times(Passes(s, run, target), BATCH_LIMIT - |stuck|)
            <= Load(s, target, d, stuck) + Delays(s, run, target, d, stuck)
    decreases |run|
  {
    if run == [] {
      TimesStep(0, BATCH_LIMIT - |stuck|);
    } else {
      LoadStep(s, run[0], target, d, stuck);
      PassesUseUpRivals(Next(s, run[0]), run[1..], target, d, stuck);
      CountStep(s, run, target, d, stuck, Load(s, target, d, stuck), Load(Next(s, run[0]), target, d, stuck));
    }
  }

  /** Start from any state with a pending conditional order, and let `stuck` be any set of fewer than
      100 other orders, say those whose condition never holds. Unless its owner cancels it, the
      target has been triggered by the time
          (passes − 1) · (100 − |stuck|) > rivals + delays
      counting the passes before it expires. A price that is elsewhere for a while is no obstacle:
      each row then passed over, the target included, only adds its delay. */
  lemma TriggerBound(s: State, run: seq<Action>, target: Id, stuck: set<Id>)
    requires Valid(s, run) && NotCancelled(s, run, target) && target !in stuck && |stuck| < BATCH_LIMIT
    requires target in s.db.orders && Waiting(s, target, s.db.orders[target].deal.createdAt)
    ensures var d := s.db.orders[target].deal.createdAt;
            || TriggersTarget(s, run, target)
            || Times(Passes(s, run, target), BATCH_LIMIT - |stuck|)
               <= Load(s, target, d, stuck) + Delays(s, run, target, d, stuck)
  {
    if !TriggersTarget(s, run, target) {
      PassesUseUpRivals(s, run, target, s.db.orders[target].deal.createdAt, stuck);
    }
  }
}
