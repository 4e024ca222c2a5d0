/** The scheduler as the program runs it: tables updated in place, one loop per pass. */
module RecurringService {
  import opened Prelude
  import opened Trading
  import opened Selection
  import opened Recurring

  /** How the database answers the attempt on one fetched row, and when. `Commits` is a database
      that cooperates: it still rejects rows its CHECK constraints rule out. */
  datatype Outcome =
    | Commits(at: int, tid: Id)
    | Aborts(at: int, recorded: bool)

  /** The tables after one attempt. */
  function Attempted(db: Db, row: Row, o: Outcome): Db
    requires row.id in db.orders
  {
    match o
    case Commits(at, tid) =>
      if Executable(row.order.terms) then Executed(db, row, at, tid) else FailureRecorded(db, row.id, at)
    case Aborts(at, recorded) => if recorded then FailureRecorded(db, row.id, at) else db
  }

  /** The tables after the attempts on `rows`, in order. */
  function Attempts(db: Db, rows: seq<Row>, outcomes: seq<Outcome>): (r: Db)
    requires |rows| <= |outcomes|
    requires forall i :: 0 <= i < |rows| ==> rows[i].id in db.orders
    ensures r.orders.Keys == db.orders.Keys
    decreases |rows|
  {
    if rows == [] then db
    else
      var n := |rows| - 1;
      Attempted(Attempts(db, rows[..n], outcomes), rows[n], outcomes[n])
  }

  class Scheduler {
    var orders: map<Id, Order>
    var trading: map<Id, TradingOrder>
    var log: seq<Execution>

    constructor ()
      ensures Tables() == Db(map[], map[], [])
    {
      orders, trading, log := map[], map[], [];
    }

    ghost function Tables(): Db
      reads this
    {
      Db(orders, trading, log)
    }

    /** One transaction: spawn a trading order, advance the row, record the success. It fails if
        the table rejects the trading order, which has no price if the user gave none. */
    method ExecuteOrder(row: Row, now: int, tid: Id) returns (ok: bool)
      requires row.id in orders
      modifies this
      ensures ok <==> Executable(row.order.terms)
      ensures Tables() == if ok then Executed(old(Tables()), row, now, tid) else old(Tables())
      ensures ok ==> Spans(row.order.terms.intervalType, row.order.terms.intervalValue, orders[row.id].nextAt - now)
    {
      var o := row.order.terms;
      var price := match o.side {
        case Buy => o.maxPrice.UnwrapOr(0.0)
        case Sell => o.minPrice.UnwrapOr(0.0)
      };
      if o.energy <= 0.0 || price <= 0.0 {
        return false;  // chk_energy_amount, chk_price
      }
      trading := trading[tid := SpawnedOrder(o.user, o.side, o.energy, price, now, o.session)];

      var next := match o.intervalType {
        case Hourly => now + HOUR * o.intervalValue
        case Daily => now + DAY * o.intervalValue
        case Weekly => now + 7 * DAY * o.intervalValue
        case Monthly => now + DAY * (30 * o.intervalValue)
      };
      var newTotal := row.order.total + 1;
      var newStatus := Active;
      if o.maxExecutions.Some? && newTotal >= o.maxExecutions.value {
        newStatus := Completed;
      }
      orders := orders[row.id := orders[row.id].(nextAt := next, lastAt := Some(now), total := newTotal, status := newStatus)];
      log := log + [Success(row.id, tid, now, o.energy, price)];
      ok := true;
    }

    method RecordFailure(id: Id, now: int)
      modifies this`log
      ensures Tables() == FailureRecorded(old(Tables()), id, now)
      ensures log == old(log) + [Failure(id, now)]
    {
      log := log + [Failure(id, now)];
    }

    /** The loop of a pass: attempt each fetched row and go on after a failure. */
    method AttemptAll(rows: seq<Row>, outcomes: seq<Outcome>)
      requires |rows| <= |outcomes|
      requires forall i :: 0 <= i < |rows| ==> rows[i].id in orders
      modifies this
      ensures Tables() == Attempts(old(Tables()), rows, outcomes)
    {
      var i := 0;
      while i < |rows|
        invariant 0 <= i <= |rows|
        invariant Tables() == Attempts(old(Tables()), rows[..i], outcomes)
      {
        assert rows[..i + 1][..i] == rows[..i];
        match outcomes[i] {
          case Commits(at, tid) =>
            var ok := ExecuteOrder(rows[i], at, tid);
            if !ok {
              RecordFailure(rows[i].id, at);
            }
          case Aborts(at, recorded) =>
            if recorded {
              RecordFailure(rows[i].id, at);
            }
        }
        i := i + 1;
      }
      assert rows[..i] == rows;
    }

    /** One pass: fetch at most 50 due orders, oldest first, and attempt each of them. */
    method ProcessDueOrders(now: int, outcomes: seq<Outcome>) returns (ids: seq<Id>)
      requires |outcomes| >= BATCH_LIMIT
      modifies this
      ensures IsOldest(DueKeys(old(orders), now), BATCH_LIMIT, ids)
      ensures forall i :: 0 <= i < |ids| ==> ids[i] in old(orders)
      ensures Tables() == Attempts(old(Tables()), Snapshots(old(orders), ids), outcomes)
    {
      ids := SelectOldest(DueKeys(orders, now), BATCH_LIMIT);
      assert forall i :: 0 <= i < |ids| ==> ids[i] in ids;
      AttemptAll(Snapshots(orders, ids), outcomes);
    }
  }

  // ---------------------------------------------------------------- passes are runs

  /** Outcomes happen in clock order, no earlier than `now`, and name unused order ids. */
  ghost predicate Plausible(now: int, trading: set<Id>, outcomes: seq<Outcome>) {
    && (forall i :: 0 <= i < |outcomes| ==> now <= outcomes[i].at)
    && (forall i, j :: 0 <= i < j < |outcomes| ==> outcomes[i].at <= outcomes[j].at)
    && (forall i :: 0 <= i < |outcomes| && outcomes[i].Commits? ==> outcomes[i].tid !in trading)
    && (forall i, j :: 0 <= i < j < |outcomes| && outcomes[i].Commits? && outcomes[j].Commits? ==>
          outcomes[i].tid != outcomes[j].tid)
  }

  function ClockAfter(now: int, outcomes: seq<Outcome>, k: nat): int
    requires k <= |outcomes|
  {
    if k == 0 then now else outcomes[k - 1].at
  }

  /** A trading order exists after some attempts only if it existed before or one of them committed it. */
  lemma {:induction false} AttemptsTrading(db: Db, rows: seq<Row>, outcomes: seq<Outcome>, x: Id)
    requires |rows| <= |outcomes|
    requires forall i :: 0 <= i < |rows| ==> rows[i].id in db.orders
    requires x in Attempts(db, rows, outcomes).trading && x !in db.trading
    ensures exists i :: 0 <= i < |rows| && outcomes[i].Commits? && outcomes[i].tid == x
    decreases |rows|
  {
    var n := |rows| - 1;
    if outcomes[n].Commits? && outcomes[n].tid == x {
    } else {
      AttemptsTrading(db, rows[..n], outcomes, x);
    }
  }

  /** One attempt is two steps of the state machine: wait until it happens, then run or fail. */
  lemma AttemptIsRun(s: State, o: Outcome) returns (run: seq<Action>)
    requires s.batch != [] && s.batch[0].id in s.db.orders && s.batch[0].order.nextAt <= s.clock <= o.at
    requires o.Commits? ==> o.tid !in s.db.trading
    ensures Valid(s, run)
    ensures After(s, run) == State(o.at, Attempted(s.db, s.batch[0], o), s.batch[1..], s.resumes)
  {
    var wait := Tick(o.at - s.clock);
    var step := if o.Aborts? then Fail(o.recorded)
                else if Executable(s.batch[0].order.terms) then Execute(o.tid, o.at) else Fail(true);
    run := RunCons(Next(s, wait), step, []);
    run := RunCons(s, wait, run);
  }

  lemma StillUnused(s: State, outcomes: seq<Outcome>, k: nat)
    requires Plausible(s.clock, s.db.trading.Keys, outcomes) && k < |s.batch| <= |outcomes|
    requires forall i :: 0 <= i < |s.batch| ==> s.batch[i].id in s.db.orders
    ensures outcomes[k].Commits? ==> outcomes[k].tid !in Attempts(s.db, s.batch[..k], outcomes).trading
  {
    if outcomes[k].Commits? && outcomes[k].tid in Attempts(s.db, s.batch[..k], outcomes).trading {
      AttemptsTrading(s.db, s.batch[..k], outcomes, outcomes[k].tid);
    }
  }

  lemma AttemptsSnoc(db: Db, rows: seq<Row>, outcomes: seq<Outcome>, k: nat)
    requires k < |rows| <= |outcomes|
    requires forall i :: 0 <= i < |rows| ==> rows[i].id in db.orders
    ensures Attempts(db, rows[..k + 1], outcomes) == Attempted(Attempts(db, rows[..k], outcomes), rows[k], outcomes[k])
    ensures rows[k..][1..] == rows[k + 1..] && rows[k..][0] == rows[k]
  {
    assert rows[..k + 1][..k] == rows[..k];
  }

  /** From the state after `k` attempts to the state after `k + 1`. */
  lemma NextAttemptIsRun(s: State, t: State, outcomes: seq<Outcome>, k: nat) returns (run: seq<Action>)
    requires Plausible(s.clock, s.db.trading.Keys, outcomes) && k < |s.batch| <= |outcomes|
    requires forall i :: 0 <= i < |s.batch| ==> s.batch[i].id in s.db.orders && s.batch[i].order.nextAt <= s.clock
    requires t == State(ClockAfter(s.clock, outcomes, k), Attempts(s.db, s.batch[..k], outcomes), s.batch[k..], s.resumes)
    ensures Valid(t, run)
    ensures After(t, run) ==
            State(outcomes[k].at, Attempts(s.db, s.batch[..k + 1], outcomes), s.batch[k + 1..], s.resumes)
  {
    StillUnused(s, outcomes, k);
    AttemptsSnoc(s.db, s.batch, outcomes, k);
    run := AttemptIsRun(t, outcomes[k]);
  }

  lemma {:induction false} LoopIsRun(s: State, outcomes: seq<Outcome>, k: nat) returns (run: seq<Action>)
    requires Plausible(s.clock, s.db.trading.Keys, outcomes) && k <= |s.batch| <= |outcomes|
    requires forall i :: 0 <= i < |s.batch| ==> s.batch[i].id in s.db.orders && s.batch[i].order.nextAt <= s.clock
    ensures Valid(s, run)
    ensures After(s, run) ==
            State(ClockAfter(s.clock, outcomes, k), Attempts(s.db, s.batch[..k], outcomes), s.batch[k..], s.resumes)
    decreases k
  {
    if k == 0 {
      run := [];
    } else {
      var first := LoopIsRun(s, outcomes, k - 1);
      var second := NextAttemptIsRun(s, After(s, first), outcomes, k - 1);
      RunAppend(s, first, second);
      run := first + second;
    }
  }

  /** What `ProcessDueOrders` computes is reached by a run of the state machine, so every
      run theorem holds of it. */
  lemma PassIsRun(s: State, now: int, ids: seq<Id>, outcomes: seq<Outcome>) returns (run: seq<Action>)
    requires s.batch == [] && Enabled(s, Fetch(now, ids))
    requires Plausible(s.clock, s.db.trading.Keys, outcomes) && |outcomes| >= BATCH_LIMIT
    ensures forall i :: 0 <= i < |ids| ==> ids[i] in s.db.orders
    ensures Valid(s, run)
    ensures After(s, run).db == Attempts(s.db, Snapshots(s.db.orders, ids), outcomes)
    ensures After(s, run).batch == []
  {
    assert forall i :: 0 <= i < |ids| ==> ids[i] in ids;
    var t := Next(s, Fetch(now, ids));
    var steps := LoopIsRun(t, outcomes, |t.batch|);
    run := RunCons(s, Fetch(now, ids), steps);
    assert t.batch[..|t.batch|] == t.batch;
  }
}
