/** No due order starves: a bound on the number of passes before an order runs, over every
    interleaving of scheduler and user steps. */
module RecurringLiveness {
  import opened Prelude
  import opened Trading
  import opened Selection
  import opened Recurring
  import RecurringSafety

  /** Active orders that sort no later than time `d`. */
  function Ahead(orders: map<Id, Order>, d: int): set<Id> {
    set id | id in orders && orders[id].status == Active && orders[id].nextAt <= d
  }

  /** Orders ahead of the target that can still delay it: not the target, not among the
      failing ones, and not already handed to the current pass. */
  function Rivals(s: State, target: Id, d: int, failing: set<Id>): set<Id> {
    Ahead(s.db.orders, d) - ({target} + failing) - BatchIds(s)
  }

  /** The target is active and has been due since `d`. */
  predicate Waiting(s: State, target: Id, d: int) {
    target in s.db.orders && s.db.orders[target].status == Active && s.db.orders[target].nextAt == d <= s.clock
  }

  /** The step cancels or pauses an order of its caller. */
  predicate Withdraws(s: State, a: Action, id: Id) {
    match a
    case User(Cancel(u, x)) => x == id && Owns(s, u, id)
    case User(Pause(u, x)) => x == id && Owns(s, u, id)
    case _ => false
  }

  predicate ExecutesTarget(s: State, a: Action, target: Id) {
    a.Execute? && s.batch != [] && s.batch[0].id == target
  }

  ghost predicate RunsTarget(s: State, run: seq<Action>, target: Id)
    requires Valid(s, run)
    decreases |run|
  {
    run != [] && (ExecutesTarget(s, run[0], target) || RunsTarget(Next(s, run[0]), run[1..], target))
  }

  /** The owner leaves the target alone, at least until it runs. Nothing else is assumed of a run. */
  ghost predicate NotWithdrawn(s: State, run: seq<Action>, target: Id)
    requires Valid(s, run)
    decreases |run|
  {
    || run == [] || ExecutesTarget(s, run[0], target)
    || (!Withdraws(s, run[0], target) && NotWithdrawn(Next(s, run[0]), run[1..], target))
  }

  /** A pass that looks at orders due at `d`. */
  predicate Reaches(a: Action, d: int) {
    a.Fetch? && a.now >= d
  }

  /** The number of such passes a run starts. */
  function Passes(run: seq<Action>, d: int): nat {
    if run == [] then 0 else (if Reaches(run[0], d) then 1 else 0) + Passes(run[1..], d)
  }

  /** A create or resume that takes effect and puts an order ahead of time `d`. */
  predicate Overtakes(s: State, u: UserAction, d: int) {
    match u
    case Create(_, q, stamp) => q.energy > 0.0 && q.intervalValue > 0 && stamp + Interval(q) <= d
    case ResumeWrite(r) =>
      RecurringSafety.Resumes(s, User(u), r.id) && r.stamp + Interval(s.db.orders[r.id].terms) <= d
    case _ => false
  }

  /** What a step costs the target, in places: a whole pass if its own execution fails; one place if
      that of an order outside `failing` does, if an executed order stays ahead because the clock
      was read so long before, or if a user puts an order ahead. */
  function Delay(s: State, a: Action, target: Id, d: int, failing: set<Id>): nat
    requires |failing| < BATCH_LIMIT
  {
    match a
    case Fail(_) =>
      if s.batch == [] || s.batch[0].id in failing then 0
      else if s.batch[0].id == target then BATCH_LIMIT - |failing| else 1
    case Execute(_, at) => if s.batch != [] && at + Interval(s.batch[0].order.terms) <= d then 1 else 0
    case User(u) => if Overtakes(s, u, d) then 1 else 0
    case _ => 0
  }

  ghost function Delays(s: State, run: seq<Action>, target: Id, d: int, failing: set<Id>): nat
    requires Valid(s, run) && |failing| < BATCH_LIMIT
    decreases |run|
  {
    if run == [] then 0
    else Delay(s, run[0], target, d, failing) + Delays(Next(s, run[0]), run[1..], target, d, failing)
  }

  /** The places still needed to reach the target: one for each rival, and a pass for the target
      itself unless the current one already holds it. */
  function Load(s: State, target: Id, d: int, failing: set<Id>): nat
    requires |failing| < BATCH_LIMIT
  {
    |Rivals(s, target, d, failing)| + (if target in BatchIds(s) then 0 else BATCH_LIMIT - |failing|)
  }

  // ---------------------------------------------------------------- single steps

  function Newcomer(u: UserAction): Id
    requires u.Create? || u.ResumeWrite?
  {
    if u.Create? then u.id else u.resume.id
  }

  /** A user step puts at most one order ahead of time `d`, and none unless it overtakes. */
  lemma UserKeepsAhead(s: State, u: UserAction, d: int)
    requires UserEnabled(s, u)
    ensures !Overtakes(s, u, d) ==> Ahead(UserNext(s, u).db.orders, d) <= Ahead(s.db.orders, d)
    ensures Overtakes(s, u, d) ==> Ahead(UserNext(s, u).db.orders, d) <= Ahead(s.db.orders, d) + {Newcomer(u)}
  {
  }

  /** An active order that its owner does not withdraw is left alone by users. */
  lemma StaysAsItIs(s: State, u: UserAction, id: Id)
    requires UserEnabled(s, u) && id in s.db.orders && s.db.orders[id].status == Active && !Withdraws(s, User(u), id)
    ensures id in UserNext(s, u).db.orders && UserNext(s, u).db.orders[id] == s.db.orders[id]
  {
  }

  lemma SameBatchRivals(s: State, t: State, target: Id, d: int, failing: set<Id>, id: Id)
    requires t.batch == s.batch && Ahead(t.db.orders, d) <= Ahead(s.db.orders, d) + {id}
    ensures |Rivals(t, target, d, failing)| <= |Rivals(s, target, d, failing)| + 1
    ensures Ahead(t.db.orders, d) <= Ahead(s.db.orders, d) ==> |Rivals(t, target, d, failing)| <= |Rivals(s, target, d, failing)|
  {
    GrownCard(Ahead(s.db.orders, d), Ahead(t.db.orders, d), {target} + failing, BatchIds(s), id);
  }

  lemma SameBatchLoad(s: State, t: State, target: Id, d: int, failing: set<Id>, more: nat)
    requires t.batch == s.batch && |failing| < BATCH_LIMIT
    requires |Rivals(t, target, d, failing)| <= |Rivals(s, target, d, failing)| + more
    ensures Load(t, target, d, failing) <= Load(s, target, d, failing) + more
  {
  }

  lemma UserKeepsLoad(s: State, u: UserAction, target: Id, d: int, failing: set<Id>)
    requires UserEnabled(s, u) && Waiting(s, target, d) && !Withdraws(s, User(u), target) && |failing| < BATCH_LIMIT
    ensures Waiting(UserNext(s, u), target, d)
    ensures Load(UserNext(s, u), target, d, failing) <= Load(s, target, d, failing) + Delay(s, User(u), target, d, failing)
  {
    var t := UserNext(s, u);
    UserStep(s, u);
    StaysAsItIs(s, u, target);
    UserKeepsAhead(s, u, d);
    SameBatchRivals(s, t, target, d, failing, if u.Create? || u.ResumeWrite? then Newcomer(u) else target);
    SameBatchLoad(s, t, target, d, failing, Delay(s, User(u), target, d, failing));
  }

  lemma PopIds(s: State, t: State)
    requires s.batch != [] && t.batch == s.batch[1..]
    ensures BatchIds(s) == BatchIds(t) + {s.batch[0].id}
  {
  }

  lemma PopKeepsTarget(s: State, t: State, target: Id)
    requires s.batch != [] && t.batch == s.batch[1..] && s.batch[0].id != target
    ensures target in BatchIds(s) <==> target in BatchIds(t)
  {
    PopIds(s, t);
  }

  lemma PopKeepsRivals(s: State, t: State, target: Id, d: int, failing: set<Id>)
    requires s.batch != [] && t.batch == s.batch[1..] && Ahead(t.db.orders, d) <= Ahead(s.db.orders, d) + {s.batch[0].id}
    ensures |Rivals(t, target, d, failing)| <= |Rivals(s, target, d, failing)| + 1
    ensures s.batch[0].id in failing || s.batch[0].id !in Ahead(t.db.orders, d) ==>
              |Rivals(t, target, d, failing)| <= |Rivals(s, target, d, failing)|
  {
    PopIds(s, t);
    PoppedCard(Ahead(s.db.orders, d), Ahead(t.db.orders, d), {target} + failing, BatchIds(s), BatchIds(t), s.batch[0].id);
  }

  /** A row leaves the batch: it becomes a rival again only if it is ahead and not `failing`. */
  lemma PopKeepsLoad(s: State, t: State, target: Id, d: int, failing: set<Id>)
    requires s.batch != [] && t.batch == s.batch[1..] && s.batch[0].id != target && |failing| < BATCH_LIMIT
    requires Ahead(t.db.orders, d) <= Ahead(s.db.orders, d) + {s.batch[0].id}
    ensures Load(t, target, d, failing) <= Load(s, target, d, failing) + 1
    ensures s.batch[0].id in failing || s.batch[0].id !in Ahead(t.db.orders, d) ==>
              Load(t, target, d, failing) <= Load(s, target, d, failing)
  {
    PopKeepsTarget(s, t, target);
    PopKeepsRivals(s, t, target, d, failing);
  }

  /** An executed order moves past the target, so it stops being a rival. */
  lemma ExecuteKeepsLoad(s: State, tid: Id, at: int, target: Id, d: int, failing: set<Id>)
    requires Inv(s) && Enabled(s, Execute(tid, at)) && Waiting(s, target, d) && |failing| < BATCH_LIMIT
    requires !ExecutesTarget(s, Execute(tid, at), target)
    ensures var t := Next(s, Execute(tid, at));
            && Waiting(t, target, d)
            && Load(t, target, d, failing) <= Load(s, target, d, failing) + Delay(s, Execute(tid, at), target, d, failing)
  {
    PopKeepsLoad(s, Next(s, Execute(tid, at)), target, d, failing);
  }

  /** A failed order keeps its place ahead; the target, if it fails, needs another pass. */
  lemma FailKeepsLoad(s: State, recorded: bool, target: Id, d: int, failing: set<Id>)
    requires Enabled(s, Fail(recorded)) && Waiting(s, target, d) && target !in failing && |failing| < BATCH_LIMIT
    ensures var t := Next(s, Fail(recorded));
            && Waiting(t, target, d)
            && Load(t, target, d, failing) <= Load(s, target, d, failing) + Delay(s, Fail(recorded), target, d, failing)
  {
    var t := Next(s, Fail(recorded));
    if s.batch[0].id == target {
      PopIds(s, t);
      SubsetCard(Rivals(t, target, d, failing), Rivals(s, target, d, failing));
    } else {
      PopKeepsLoad(s, t, target, d, failing);
    }
  }

  lemma BatchIdsOf(s: State, t: State, now: int, ids: seq<Id>)
    requires Enabled(s, Fetch(now, ids)) && t == Next(s, Fetch(now, ids))
    ensures BatchIds(t) == SetOf(ids) && BatchIds(s) == {}
  {
    forall x | x in ids ensures x in BatchIds(t) {
      var i :| 0 <= i < |ids| && ids[i] == x;
      assert t.batch[i].id == x;
    }
  }

  /** A pass that does not pick the target up takes at least `50 − |failing|` rivals. */
  lemma FetchTakesRivals(s: State, now: int, ids: seq<Id>, target: Id, d: int, failing: set<Id>)
    requires Enabled(s, Fetch(now, ids)) && Waiting(s, target, d) && |failing| < BATCH_LIMIT
    requires now >= d && target !in ids
    ensures |Rivals(Next(s, Fetch(now, ids)), target, d, failing)| + (BATCH_LIMIT - |failing|)
            <= |Rivals(s, target, d, failing)|
  {
    var t := Next(s, Fetch(now, ids));
    var keys := DueKeys(s.db.orders, now);
    BatchIdsOf(s, t, now, ids);
    LeftOutMeansFull(keys, BATCH_LIMIT, ids, target);
    DistinctCard(ids);
    var taken := SetOf(ids);
    assert forall x :: x in taken ==> x in Ahead(s.db.orders, d);
    TakenRivals(Ahead(s.db.orders, d) - {target}, taken, failing);
    assert Rivals(s, target, d, failing) == Ahead(s.db.orders, d) - {target} - failing;
    assert Rivals(t, target, d, failing) == Ahead(s.db.orders, d) - {target} - failing - taken;
  }

  lemma FetchKeepsLoad(s: State, now: int, ids: seq<Id>, target: Id, d: int, failing: set<Id>)
    requires Enabled(s, Fetch(now, ids)) && Waiting(s, target, d) && |failing| < BATCH_LIMIT
    ensures Load(Next(s, Fetch(now, ids)), target, d, failing) + (if now >= d then BATCH_LIMIT - |failing| else 0)
            <= Load(s, target, d, failing)
  {
    var t := Next(s, Fetch(now, ids));
    BatchIdsOf(s, t, now, ids);
    SubsetCard(Rivals(t, target, d, failing), Rivals(s, target, d, failing));
    if now >= d && target !in ids {
      FetchTakesRivals(s, now, ids, target, d, failing);
    } else {
      assert now < d ==> target !in DueKeys(s.db.orders, now);
    }
  }

  /** Every pass that reaches the target's due time lowers the load by `50 − |failing|`, and no step
      raises it by more than its delay. */
  lemma LoadStep(s: State, a: Action, target: Id, d: int, failing: set<Id>)
    requires Inv(s) && Enabled(s, a) && Waiting(s, target, d) && target !in failing && |failing| < BATCH_LIMIT
    requires !Withdraws(s, a, target) && !ExecutesTarget(s, a, target)
    ensures Waiting(Next(s, a), target, d)
    ensures Load(Next(s, a), target, d, failing) + (if Reaches(a, d) then BATCH_LIMIT - |failing| else 0)
            <= Load(s, target, d, failing) + Delay(s, a, target, d, failing)
  {
    match a
    case User(u) => UserKeepsLoad(s, u, target, d, failing);
    case Execute(tid, at) => ExecuteKeepsLoad(s, tid, at, target, d, failing);
    case Fail(recorded) => FailKeepsLoad(s, recorded, target, d, failing);
    case Fetch(now, ids) => FetchKeepsLoad(s, now, ids, target, d, failing);
    case Tick(_) => assert BatchIds(Next(s, a)) == BatchIds(s);
  }

  // ---------------------------------------------------------------- whole runs

  lemma CountStep(s: State, run: seq<Action>, target: Id, d: int, failing: set<Id>, before: nat, after: nat)
    requires Valid(s, run) && run != [] && |failing| < BATCH_LIMIT
    requires after + (if Reaches(run[0], d) then BATCH_LIMIT - |failing| else 0)
             <= before + Delay(s, run[0], target, d, failing)
    requires Times(Passes(run[1..], d), BATCH_LIMIT - |failing|)
             <= after + Delays(Next(s, run[0]), run[1..], target, d, failing)
    ensures Times(Passes(run, d), BATCH_LIMIT - |failing|) <= before + Delays(s, run, target, d, failing)
  {
    CountPass(Reaches(run[0], d), Passes(run[1..], d), BATCH_LIMIT - |failing|, before, after,
              Delay(s, run[0], target, d, failing), Delays(Next(s, run[0]), run[1..], target, d, failing));
  }

  /** As long as the target has not run, the passes have had no more places than the load at the
      start and the delays since account for. */
  lemma {:induction false} PassesUseUpRivals(s: State, run: seq<Action>, target: Id, d: int, failing: set<Id>)
    requires Inv(s) && Valid(s, run) && NotWithdrawn(s, run, target) && !RunsTarget(s, run, target)
    requires Waiting(s, target, d) && target !in failing && |failing| < BATCH_LIMIT
    ensures Times(Passes(run, d), BATCH_LIMIT - |failing|)
            <= Load(s, target, d, failing) + Delays(s, run, target, d, failing)
    decreases |run|
  {
    if run == [] {
      TimesStep(0, BATCH_LIMIT - |failing|);
    } else {
      StepKeepsInv(s, run[0]);
      LoadStep(s, run[0], target, d, failing);
      PassesUseUpRivals(Next(s, run[0]), run[1..], target, d, failing);
      CountStep(s, run, target, d, failing, Load(s, target, d, failing), Load(Next(s, run[0]), target, d, failing));
    }
  }

  /** Starvation freedom. Start from any reachable state in which the target is active and due, and
      let `failing` be any set of fewer than 50 other orders, say those that fail at every attempt.
      Unless its owner withdraws it, the target has run by the time
          (passes − 1) · (50 − |failing|) > rivals + delays
      (or without the − 1, if the current pass already holds it). Failures outside `failing`, the
      target's own included, are no obstacle: each only adds its delay. */
  lemma StarvationFreedom(s: State, run: seq<Action>, target: Id, failing: set<Id>)
    requires Inv(s) && Valid(s, run) && NotWithdrawn(s, run, target)
    requires target in s.db.orders && s.db.orders[target].status == Active && s.db.orders[target].nextAt <= s.clock
    requires target !in failing && |failing| < BATCH_LIMIT
    ensures var d := s.db.orders[target].nextAt;
            || RunsTarget(s, run, target)
            || Times(Passes(run, d), BATCH_LIMIT - |failing|)
               <= Load(s, target, d, failing) + Delays(s, run, target, d, failing)
  {
    if !RunsTarget(s, run, target) {
      PassesUseUpRivals(s, run, target, s.db.orders[target].nextAt, failing);
    }
  }

  // ---------------------------------------------------------------- the bound of 50 is tight

  /** `blockers` are active and sort strictly before the target, which no pass has picked up. */
  ghost predicate Blocked(s: State, target: Id, d: int, blockers: set<Id>) {
    && target !in blockers && Waiting(s, target, d) && target !in BatchIds(s)
    && forall id :: id in blockers ==> id in s.db.orders && s.db.orders[id].status == Active && s.db.orders[id].nextAt < d
  }

  /** Nobody withdraws a blocker or the target; users may do anything else. */
  predicate LeavesAlone(s: State, a: Action, target: Id, blockers: set<Id>) {
    !Withdraws(s, a, target) && forall id :: id in blockers ==> !Withdraws(s, a, id)
  }

  ghost predicate AllLeaveAlone(s: State, run: seq<Action>, target: Id, blockers: set<Id>)
    requires Valid(s, run)
    decreases |run|
  {
    run == [] || (&& LeavesAlone(s, run[0], target, blockers)
                  && AllLeaveAlone(Next(s, run[0]), run[1..], target, blockers))
  }

  /** In addition no blocker's execution succeeds. */
  ghost predicate OnlyFailures(s: State, run: seq<Action>, target: Id, blockers: set<Id>)
    requires Valid(s, run)
    decreases |run|
  {
    run == [] || (&& LeavesAlone(s, run[0], target, blockers)
                  && (run[0].Execute? ==> s.batch[0].id !in blockers)
                  && OnlyFailures(Next(s, run[0]), run[1..], target, blockers))
  }

  lemma BlockedFetch(s: State, now: int, ids: seq<Id>, target: Id, d: int, blockers: set<Id>)
    requires Inv(s) && Enabled(s, Fetch(now, ids)) && Blocked(s, target, d, blockers) && |blockers| >= BATCH_LIMIT
    ensures Blocked(Next(s, Fetch(now, ids)), target, d, blockers)
  {
    var keys := DueKeys(s.db.orders, now);
    if target in keys {
      var earlier := Earlier(keys, target);
      forall id | id in blockers ensures id in earlier {
        assert id in keys;
      }
      SubsetCard(blockers, earlier);
      LateIsLeftOut(keys, BATCH_LIMIT, ids, target);
    }
    BatchIdsOf(s, Next(s, Fetch(now, ids)), now, ids);
  }

  lemma BlockedUser(s: State, u: UserAction, target: Id, d: int, blockers: set<Id>)
    requires UserEnabled(s, u) && Blocked(s, target, d, blockers) && LeavesAlone(s, User(u), target, blockers)
    ensures Blocked(UserNext(s, u), target, d, blockers)
  {
    var t := UserNext(s, u);
    UserStep(s, u);
    assert BatchIds(t) == BatchIds(s);
    StaysAsItIs(s, u, target);
    forall id | id in blockers ensures id in t.db.orders && t.db.orders[id] == s.db.orders[id] {
      StaysAsItIs(s, u, id);
    }
  }

  lemma BlockedPop(s: State, a: Action, target: Id, d: int, blockers: set<Id>)
    requires Enabled(s, a) && (a.Execute? || a.Fail?) && Blocked(s, target, d, blockers)
    requires a.Execute? ==> s.batch[0].id !in blockers
    ensures Blocked(Next(s, a), target, d, blockers) && !ExecutesTarget(s, a, target)
  {
  }

  lemma BlockedStep(s: State, a: Action, target: Id, d: int, blockers: set<Id>)
    requires Inv(s) && Enabled(s, a) && Blocked(s, target, d, blockers) && |blockers| >= BATCH_LIMIT
    requires LeavesAlone(s, a, target, blockers) && (a.Execute? ==> s.batch[0].id !in blockers)
    ensures Blocked(Next(s, a), target, d, blockers) && !ExecutesTarget(s, a, target)
  {
    if a.Fetch? {
      BlockedFetch(s, a.now, a.ids, target, d, blockers);
    } else if a.Execute? || a.Fail? {
      BlockedPop(s, a, target, d, blockers);
    } else if a.User? {
      BlockedUser(s, a.request, target, d, blockers);
    } else {
      assert BatchIds(Next(s, a)) == BatchIds(s);
    }
  }

  /** With 50 failing orders strictly ahead the target never runs, however many passes start and
      whatever else users do. */
  lemma {:induction false} FiftyFailingOrdersBlock(s: State, run: seq<Action>, target: Id, d: int, blockers: set<Id>)
    requires Inv(s) && Valid(s, run) && OnlyFailures(s, run, target, blockers)
    requires Blocked(s, target, d, blockers) && |blockers| >= BATCH_LIMIT
    ensures !RunsTarget(s, run, target)
    decreases |run|
  {
    if run == [] {
    } else {
      StepKeepsInv(s, run[0]);
      BlockedStep(s, run[0], target, d, blockers);
      FiftyFailingOrdersBlock(Next(s, run[0]), run[1..], target, d, blockers);
    }
  }

  /** Orders without a positive price always fail. */
  ghost predicate AllPriceless(s: State, blockers: set<Id>) {
    forall id :: id in blockers ==> id in s.db.orders && PriceOf(s.db.orders[id].terms) <= 0.0
  }

  lemma {:induction false} PricelessOnlyFail(s: State, run: seq<Action>, target: Id, blockers: set<Id>)
    requires Inv(s) && Valid(s, run) && AllPriceless(s, blockers)
    requires AllLeaveAlone(s, run, target, blockers)
    ensures OnlyFailures(s, run, target, blockers)
    decreases |run|
  {
    if run == [] {
    } else {
      StepKeepsInv(s, run[0]);
      forall id | id in blockers
        ensures id in Next(s, run[0]).db.orders && PriceOf(Next(s, run[0]).db.orders[id].terms) <= 0.0
        ensures run[0].Execute? ==> s.batch[0].id != id
      {
        RecurringSafety.PricelessStep(s, run[0], id);
      }
      PricelessOnlyFail(Next(s, run[0]), run[1..], target, blockers);
    }
  }

  /** Nothing has to go wrong for an order to starve: behind 50 orders without a price, which any
      user can create, it never runs until one of them is cancelled or paused. */
  lemma PricelessOrdersBlock(s: State, run: seq<Action>, target: Id, d: int, blockers: set<Id>)
    requires Inv(s) && Valid(s, run) && AllPriceless(s, blockers)
    requires Blocked(s, target, d, blockers) && |blockers| >= BATCH_LIMIT
    requires AllLeaveAlone(s, run, target, blockers)
    ensures !RunsTarget(s, run, target)
  {
    PricelessOnlyFail(s, run, target, blockers);
    FiftyFailingOrdersBlock(s, run, target, d, blockers);
  }
}
