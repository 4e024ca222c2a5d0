/** The recurring-order scheduler: one loop that fetches a bounded batch of due rows and
    runs one transaction per row, while users create, cancel, pause and resume orders. */
module Recurring {
  import opened Prelude
  import opened Trading
  import opened Selection

  const BATCH_LIMIT := 50

  datatype IntervalType = Hourly | Daily | Weekly | Monthly
  datatype Status = Active | Paused | Completed | Cancelled

  /** The columns set when the order is created; no statement ever updates them. */
  datatype Terms = Terms(
    user: UserId,
    side: Side,
    energy: real,
    maxPrice: Option<real>,
    minPrice: Option<real>,
    intervalType: IntervalType,
    intervalValue: int,
    maxExecutions: Option<int>,
    session: Option<string>)

  datatype Order = Order(terms: Terms, nextAt: int, lastAt: Option<int>, status: Status, total: int)

  /** A row of `recurring_order_executions`. */
  datatype Execution =
    | Success(recurring: Id, trading: Id, at: int, energy: real, price: real)
    | Failure(recurring: Id, at: int)

  datatype Db = Db(orders: map<Id, Order>, trading: map<Id, TradingOrder>, log: seq<Execution>)

  /** A row as the scheduler fetched it; the table may have moved on since. */
  datatype Row = Row(id: Id, order: Order)

  function Unit(t: IntervalType): (r: int)
    ensures r > 0
  {
    match t
    case Hourly => HOUR
    case Daily => DAY
    case Weekly => 7 * DAY
    case Monthly => 30 * DAY
  }

  function Interval(o: Terms): (r: int)
    ensures o.intervalValue > 0 ==> r > 0
  {
    Unit(o.intervalType) * o.intervalValue
  }

  /** `seconds` are `value` hours, days, weeks or months of 30 days. */
  predicate Spans(t: IntervalType, value: int, seconds: int) {
    match t
    case Hourly => seconds == 3600 * value
    case Daily => seconds == 86400 * value
    case Weekly => seconds == 604800 * value
    case Monthly => seconds == 2592000 * value
  }

  lemma IntervalSpans(o: Terms)
    ensures Spans(o.intervalType, o.intervalValue, Interval(o))
  {
  }

  function PriceOf(o: Terms): real {
    match o.side
    case Buy => o.maxPrice.UnwrapOr(0.0)
    case Sell => o.minPrice.UnwrapOr(0.0)
  }

  /** Whether the INSERT of the spawned order passes the table's CHECK constraints. */
  predicate Executable(o: Terms) {
    Insertable(o.energy, PriceOf(o))
  }

  function StatusAfter(newTotal: int, maxExecutions: Option<int>): Status {
    if maxExecutions.Some? && newTotal >= maxExecutions.value then Completed else Active
  }

  /** The row after the scheduler's UPDATE, whose new values come from the fetched copy. */
  function Advanced(current: Order, fetched: Order, now: int): Order {
    Order(current.terms,
          now + Interval(fetched.terms),
          Some(now),
          StatusAfter(fetched.total + 1, fetched.terms.maxExecutions),
          fetched.total + 1)
  }

  /** The committed effect of one execution. */
  function Executed(db: Db, row: Row, now: int, tid: Id): Db
    requires row.id in db.orders
  {
    var o := row.order.terms;
    Db(db.orders[row.id := Advanced(db.orders[row.id], row.order, now)],
       db.trading[tid := SpawnedOrder(o.user, o.side, o.energy, PriceOf(o), now, o.session)],
       db.log + [Success(row.id, tid, now, o.energy, PriceOf(o))])
  }

  function FailureRecorded(db: Db, id: Id, now: int): Db {
    db.(log := db.log + [Failure(id, now)])
  }

  function DueKeys(orders: map<Id, Order>, now: int): map<Id, int> {
    map id | id in orders && orders[id].status == Active && orders[id].nextAt <= now :: orders[id].nextAt
  }

  function Snapshots(orders: map<Id, Order>, ids: seq<Id>): seq<Row>
    requires forall i :: 0 <= i < |ids| ==> ids[i] in orders
  {
    seq(|ids|, i requires 0 <= i < |ids| => Row(ids[i], orders[ids[i]]))
  }

  // ---------------------------------------------------------------- the state machine

  /** A resume request between its SELECT, where it reads the clock, and its UPDATE. */
  datatype Resume = Resume(user: UserId, id: Id, stamp: int)

  /** `batch` holds the fetched rows the current pass has not reached yet. */
  datatype State = State(clock: int, db: Db, batch: seq<Row>, resumes: multiset<Resume>)

  /** Steps of users and of the rest of the gateway. A create request has read the clock, at
      `stamp`, some time before its INSERT. */
  datatype UserAction =
    | Create(id: Id, request: Terms, stamp: int)
    | Cancel(user: UserId, id: Id)
    | Pause(user: UserId, id: Id)
    | ResumeRead(user: UserId, id: Id)
    | ResumeWrite(resume: Resume)
    | OtherOrder(tid: Id, row: TradingOrder)
    | Match(tid: Id, filled: real, newStatus: OrderStatus)
    | Edit(tid: Id, energy: real, price: real)

  /** A pass reads the clock before its query, and again before each transaction. */
  datatype Action =
    | Tick(dt: nat)
    | User(request: UserAction)
    | Fetch(now: int, ids: seq<Id>)
    | Execute(tid: Id, at: int)
    | Fail(recorded: bool)

  predicate UserEnabled(s: State, a: UserAction) {
    match a
    case Create(id, _, stamp) => id !in s.db.orders && stamp <= s.clock
    case ResumeWrite(r) => r in s.resumes
    case OtherOrder(tid, row) => tid !in s.db.trading && Insertable(row.deal.energy, row.deal.price)
    case _ => true
  }

  ghost predicate Enabled(s: State, a: Action) {
    match a
    case Tick(_) => true
    case User(u) => UserEnabled(s, u)
    case Fetch(now, ids) => s.batch == [] && now <= s.clock && IsOldest(DueKeys(s.db.orders, now), BATCH_LIMIT, ids)
    case Execute(tid, at) =>
      && s.batch != [] && s.batch[0].id in s.db.orders && s.batch[0].order.nextAt <= at <= s.clock
      && Executable(s.batch[0].order.terms) && tid !in s.db.trading
    case Fail(_) => s.batch != []
  }

  function WithOrder(s: State, id: Id, o: Order): State {
    s.(db := s.db.(orders := s.db.orders[id := o]))
  }

  function WithTrading(s: State, tid: Id, row: TradingOrder): State {
    s.(db := s.db.(trading := s.db.trading[tid := row]))
  }

  predicate Owns(s: State, user: UserId, id: Id) {
    id in s.db.orders && s.db.orders[id].terms.user == user
  }

  function UserNext(s: State, a: UserAction): State
    requires UserEnabled(s, a)
  {
    match a
    case Create(id, q, stamp) =>
      // the handler rejects a non-positive amount, the table a non-positive interval; neither looks at the prices
      if q.energy <= 0.0 || q.intervalValue <= 0 then s
      else WithOrder(s, id, Order(q, stamp + Interval(q), None, Active, 0))
    case Cancel(u, id) =>
      if Owns(s, u, id) && s.db.orders[id].status !in {Cancelled, Completed}
      then WithOrder(s, id, s.db.orders[id].(status := Cancelled)) else s
    case Pause(u, id) =>
      if Owns(s, u, id) && s.db.orders[id].status == Active
      then WithOrder(s, id, s.db.orders[id].(status := Paused)) else s
    case ResumeRead(u, id) =>
      if Owns(s, u, id) then s.(resumes := s.resumes + multiset{Resume(u, id, s.clock)}) else s
    case ResumeWrite(r) =>
      var t := s.(resumes := s.resumes - multiset{r});
      if Owns(s, r.user, r.id) && s.db.orders[r.id].status == Paused
      then WithOrder(t, r.id, s.db.orders[r.id].(status := Active, nextAt := r.stamp + Interval(s.db.orders[r.id].terms)))
      else t
    case OtherOrder(tid, row) => WithTrading(s, tid, row)
    case Match(tid, filled, st) =>
      if tid in s.db.trading then WithTrading(s, tid, s.db.trading[tid].(filled := filled, status := st)) else s
    case Edit(tid, energy, price) =>
      if tid in s.db.trading && Insertable(energy, price)
      then WithTrading(s, tid, Edited(s.db.trading[tid], energy, price)) else s
  }

  ghost function Next(s: State, a: Action): State
    requires Enabled(s, a)
  {
    match a
    case Tick(dt) => s.(clock := s.clock + dt)
    case User(u) => UserNext(s, u)
    case Fetch(_, ids) => s.(batch := Snapshots(s.db.orders, ids))
    case Execute(tid, at) => s.(db := Executed(s.db, s.batch[0], at, tid), batch := s.batch[1..])
    case Fail(recorded) =>
      s.(db := if recorded then FailureRecorded(s.db, s.batch[0].id, s.clock) else s.db, batch := s.batch[1..])
  }

  ghost predicate Valid(s: State, run: seq<Action>)
    decreases |run|
  {
    run == [] || (Enabled(s, run[0]) && Valid(Next(s, run[0]), run[1..]))
  }

  ghost function After(s: State, run: seq<Action>): State
    requires Valid(s, run)
    decreases |run|
  {
    if run == [] then s else After(Next(s, run[0]), run[1..])
  }

  lemma RunCons(s: State, a: Action, rest: seq<Action>) returns (run: seq<Action>)
    requires Enabled(s, a) && Valid(Next(s, a), rest)
    ensures run == [a] + rest && Valid(s, run) && After(s, run) == After(Next(s, a), rest)
  {
    run := [a] + rest;
    assert run[1..] == rest;
  }

  lemma {:induction false} RunAppend(s: State, a: seq<Action>, b: seq<Action>)
    requires Valid(s, a) && Valid(After(s, a), b)
    ensures Valid(s, a + b) && After(s, a + b) == After(After(s, a), b)
    decreases |a|
  {
    if a == [] {
      assert a + b == b;
    } else {
      RunAppend(Next(s, a[0]), a[1..], b);
      assert (a + b)[1..] == a[1..] + b;
    }
  }

  ghost predicate Initial(s: State) {
    s.db.orders == map[] && s.db.log == [] && s.batch == [] && s.resumes == multiset{}
  }

  // ---------------------------------------------------------------- what every step keeps

  ghost predicate BatchOk(s: State) {
    && (forall i, j :: 0 <= i < j < |s.batch| ==> s.batch[i].id != s.batch[j].id)
    && (forall i :: 0 <= i < |s.batch| ==> RowOk(s, s.batch[i]))
  }

  function IdsOf(rows: seq<Row>): set<Id> {
    set i | 0 <= i < |rows| :: rows[i].id
  }

  function BatchIds(s: State): set<Id> {
    IdsOf(s.batch)
  }

  ghost predicate RowOk(s: State, row: Row) {
    && row.id in s.db.orders
    && var cur := s.db.orders[row.id];
    && cur.terms == row.order.terms
    && cur.total == row.order.total
    && cur.lastAt == row.order.lastAt
    && cur.status != Completed
    && row.order.status == Active
    && row.order.nextAt <= s.clock
  }

  function Successes(log: seq<Execution>, id: Id): nat {
    if log == [] then 0
    else
      var e := log[|log| - 1];
      Successes(log[..|log| - 1], id) + (if e.Success? && e.recurring == id then 1 else 0)
  }

  ghost predicate CountsOk(db: Db) {
    && (forall id :: id in db.orders ==> db.orders[id].total == Successes(db.log, id))
    && (forall i :: 0 <= i < |db.log| ==> db.log[i].recurring in db.orders)
  }

  /** The limit the scheduler enforces: at least one execution always happens. */
  function Ceiling(maxExecutions: int): int {
    if maxExecutions < 1 then 1 else maxExecutions
  }

  ghost predicate LimitOk(o: Order) {
    && o.terms.energy > 0.0 && o.terms.intervalValue > 0
    && o.total >= 0
    && (PriceOf(o.terms) <= 0.0 ==> o.total == 0)
    && (o.terms.maxExecutions.Some? ==> o.total <= Ceiling(o.terms.maxExecutions.value))
    && (o.terms.maxExecutions.Some? && o.status != Completed ==> o.total < Ceiling(o.terms.maxExecutions.value))
    && (o.status == Completed ==> o.terms.maxExecutions.Some? && o.total == Ceiling(o.terms.maxExecutions.value))
  }

  ghost predicate LimitsOk(db: Db) {
    forall id :: id in db.orders ==> LimitOk(db.orders[id])
  }

  /** A limit order placed for recurring order `o`; its amount and price may have been edited since. */
  predicate Mirrors(t: Deal, o: Terms) {
    && t.user == o.user && t.side == o.side && t.session == o.session && t.orderType == Limit
    && t.energy > 0.0 && t.price > 0.0
    && t.expiresAt == Some(t.createdAt + DAY)
  }

  /** What `o` asks for: its amount, at the limit price of its side. */
  predicate Asks(o: Terms, energy: real, price: real) {
    energy == o.energy && (if o.side == Buy then o.maxPrice else o.minPrice) == Some(price)
  }

  ghost predicate EntryOk(db: Db, e: Execution) {
    e.Success? ==>
      && e.recurring in db.orders
      && e.trading in db.trading
      && Mirrors(db.trading[e.trading].deal, db.orders[e.recurring].terms)
      && Asks(db.orders[e.recurring].terms, e.energy, e.price)
      && e.at == db.trading[e.trading].deal.createdAt
  }

  /** Success records name distinct trading orders, each carrying out its recurring order. */
  ghost predicate SpawnsOk(db: Db) {
    && (forall i :: 0 <= i < |db.log| ==> EntryOk(db, db.log[i]))
    && (forall i, j :: 0 <= i < j < |db.log| && db.log[i].Success? && db.log[j].Success? ==>
          db.log[i].trading != db.log[j].trading)
  }

  ghost predicate Inv(s: State) {
    BatchOk(s) && CountsOk(s.db) && LimitsOk(s.db) && SpawnsOk(s.db)
  }

  lemma {:induction false} NoSuccesses(log: seq<Execution>, id: Id)
    requires forall i :: 0 <= i < |log| ==> log[i].recurring != id
    ensures Successes(log, id) == 0
  {
    if log == [] {
    } else {
      NoSuccesses(log[..|log| - 1], id);
    }
  }

  /** What a user or the rest of the gateway may do to the tables between scheduler steps. */
  ghost predicate UserFrame(s: State, t: State) {
    && t.batch == s.batch && t.db.log == s.db.log && t.clock >= s.clock
    && (forall id :: id in s.db.orders ==> id in t.db.orders && OrderFrame(s.db.orders[id], t.db.orders[id]))
    && (forall id :: id in t.db.orders && id !in s.db.orders ==> FreshOrder(t.db.orders[id]))
    && (forall x :: x in s.db.trading ==> x in t.db.trading && DealFrame(s.db.trading[x].deal, t.db.trading[x].deal))
  }

  ghost predicate OrderFrame(o: Order, p: Order) {
    && p.terms == o.terms && p.total == o.total && p.lastAt == o.lastAt
    && (p.status == Completed <==> o.status == Completed)
    && (o.status == Cancelled ==> p.status == Cancelled)
    && (p.nextAt != o.nextAt ==> o.status == Paused && p.status == Active)
  }

  ghost predicate FreshOrder(o: Order) {
    o.terms.energy > 0.0 && o.terms.intervalValue > 0 && o.total == 0 && o.lastAt == None && o.status == Active
  }

  lemma OrderEditFrame(s: State, id: Id, o: Order)
    requires if id in s.db.orders then OrderFrame(s.db.orders[id], o) else FreshOrder(o)
    ensures UserFrame(s, WithOrder(s, id, o))
  {
  }

  lemma TradingEditFrame(s: State, tid: Id, row: TradingOrder)
    requires tid in s.db.trading ==> DealFrame(s.db.trading[tid].deal, row.deal)
    ensures UserFrame(s, WithTrading(s, tid, row))
  {
  }

  lemma UserStep(s: State, a: UserAction)
    requires UserEnabled(s, a)
    ensures UserFrame(s, UserNext(s, a))
  {
    var t := UserNext(s, a);
    match a
    case Create(id, _, _) => if t != s { OrderEditFrame(s, id, t.db.orders[id]); }
    case Cancel(_, id) => if t != s { OrderEditFrame(s, id, t.db.orders[id]); }
    case Pause(_, id) => if t != s { OrderEditFrame(s, id, t.db.orders[id]); }
    case ResumeRead(_, _) =>
    case ResumeWrite(r) => if t.db != s.db { OrderEditFrame(s, r.id, t.db.orders[r.id]); }
    case OtherOrder(tid, row) => TradingEditFrame(s, tid, row);
    case Match(tid, _, _) => if t != s { TradingEditFrame(s, tid, t.db.trading[tid]); }
    case Edit(tid, _, _) => if t != s { TradingEditFrame(s, tid, t.db.trading[tid]); }
  }

  lemma UserKeepsCounts(s: State, t: State)
    requires CountsOk(s.db) && UserFrame(s, t)
    ensures CountsOk(t.db)
  {
    forall id | id in t.db.orders ensures t.db.orders[id].total == Successes(t.db.log, id) {
      if id !in s.db.orders {
        NoSuccesses(s.db.log, id);
      }
    }
  }

  lemma UserKeepsSpawns(s: State, t: State)
    requires SpawnsOk(s.db) && UserFrame(s, t)
    ensures SpawnsOk(t.db)
  {
  }

  lemma UserKeepsInv(s: State, t: State)
    requires Inv(s) && UserFrame(s, t)
    ensures Inv(t)
  {
    forall i | 0 <= i < |t.batch| ensures RowOk(t, t.batch[i]) {
      assert RowOk(s, s.batch[i]);
    }
    UserKeepsCounts(s, t);
    UserKeepsSpawns(s, t);
  }

  lemma FetchKeepsInv(s: State, now: int, ids: seq<Id>)
    requires Inv(s) && Enabled(s, Fetch(now, ids))
    ensures Inv(Next(s, Fetch(now, ids)))
  {
  }

  /** Appending a record for a known order keeps counts and spawned orders in step. */
  lemma ExecuteKeepsCounts(s: State, tid: Id, at: int)
    requires BatchOk(s) && CountsOk(s.db) && Enabled(s, Execute(tid, at))
    ensures CountsOk(Next(s, Execute(tid, at)).db)
  {
  }

  lemma ExecuteKeepsSpawns(s: State, tid: Id, at: int)
    requires BatchOk(s) && SpawnsOk(s.db) && Enabled(s, Execute(tid, at))
    ensures SpawnsOk(Next(s, Execute(tid, at)).db)
  {
    var t := Next(s, Execute(tid, at));
    var n := |s.db.log|;
    assert RowOk(s, s.batch[0]);
    forall i | 0 <= i < |t.db.log| ensures EntryOk(t.db, t.db.log[i]) {
      if i < n {
        assert t.db.log[i] == s.db.log[i] && EntryOk(s.db, s.db.log[i]);
      }
    }
    forall i, j | 0 <= i < j < |t.db.log| && t.db.log[i].Success? && t.db.log[j].Success?
      ensures t.db.log[i].trading != t.db.log[j].trading
    {
      assert t.db.log[i] == s.db.log[i] && EntryOk(s.db, s.db.log[i]);
    }
  }

  lemma ExecuteKeepsInv(s: State, tid: Id, at: int)
    requires Inv(s) && Enabled(s, Execute(tid, at))
    ensures Inv(Next(s, Execute(tid, at)))
  {
    var t := Next(s, Execute(tid, at));
    assert RowOk(s, s.batch[0]);
    forall i | 0 <= i < |t.batch| ensures RowOk(t, t.batch[i]) {
      assert t.batch[i] == s.batch[i + 1] && RowOk(s, s.batch[i + 1]);
    }
    ExecuteKeepsCounts(s, tid, at);
    ExecuteKeepsSpawns(s, tid, at);
  }

  lemma FailKeepsInv(s: State, recorded: bool)
    requires Inv(s) && Enabled(s, Fail(recorded))
    ensures Inv(Next(s, Fail(recorded)))
  {
  }

  lemma StepKeepsInv(s: State, a: Action)
    requires Inv(s) && Enabled(s, a)
    ensures Inv(Next(s, a))
  {
    match a
    case Fetch(now, ids) => FetchKeepsInv(s, now, ids);
    case Execute(tid, at) => ExecuteKeepsInv(s, tid, at);
    case Fail(recorded) => FailKeepsInv(s, recorded);
    case User(u) => UserStep(s, u); UserKeepsInv(s, UserNext(s, u));
    case Tick(_) => UserKeepsInv(s, Next(s, a));
  }

  lemma {:induction false} RunKeepsInv(s: State, run: seq<Action>)
    requires Inv(s) && Valid(s, run)
    ensures Inv(After(s, run))
    decreases |run|
  {
    if run == [] {
    } else {
      StepKeepsInv(s, run[0]);
      RunKeepsInv(Next(s, run[0]), run[1..]);
    }
  }
}
