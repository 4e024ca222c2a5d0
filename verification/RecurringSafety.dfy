/** Safety of the recurring scheduler over whole runs: exact execution counts, the limit
    that is really enforced, spacing of executions, the fate of cancelled and paused orders, and
    orders without a price. */
module RecurringSafety {
  import opened Prelude
  import opened Trading
  import opened Selection
  import opened Recurring

  /** The trading orders spawned for one recurring order. */
  function SpawnedBy(log: seq<Execution>, id: Id): set<Id> {
    set i | 0 <= i < |log| && log[i].Success? && log[i].recurring == id :: log[i].trading
  }

  ghost predicate DistinctSpawns(log: seq<Execution>) {
    forall i, j :: 0 <= i < j < |log| && log[i].Success? && log[j].Success? ==> log[i].trading != log[j].trading
  }

  lemma SpawnedBySnoc(log: seq<Execution>, e: Execution, id: Id)
    ensures SpawnedBy(log + [e], id) ==
            SpawnedBy(log, id) + (if e.Success? && e.recurring == id then {e.trading} else {})
  {
    var all := log + [e];
    forall x | x in SpawnedBy(log, id) ensures x in SpawnedBy(all, id) {
      var i :| 0 <= i < |log| && log[i].Success? && log[i].recurring == id && log[i].trading == x;
      assert all[i] == log[i];
    }
    assert all[|log|] == e;
  }

  lemma {:induction false} SpawnedCount(log: seq<Execution>, id: Id)
    requires DistinctSpawns(log)
    ensures |SpawnedBy(log, id)| == Successes(log, id)
  {
    if log == [] {
      assert SpawnedBy(log, id) == {};
    } else {
      var n := |log| - 1;
      assert log == log[..n] + [log[n]];
      SpawnedCount(log[..n], id);
      SpawnedBySnoc(log[..n], log[n], id);
    }
  }

  lemma DisjointSpawns(log: seq<Execution>, a: Id, b: Id)
    requires DistinctSpawns(log) && a != b
    ensures SpawnedBy(log, a) !! SpawnedBy(log, b)
  {
  }

  predicate Edits(a: Action, x: Id) {
    a.User? && a.request.Edit? && a.request.tid == x
  }

  predicate NeverEdited(run: seq<Action>, x: Id) {
    forall i :: 0 <= i < |run| ==> !Edits(run[i], x)
  }

  /** Trading order `x` still has the amount and price its success record names. */
  ghost predicate AsOrdered(db: Db, x: Id) {
    forall i :: 0 <= i < |db.log| && db.log[i].Success? && db.log[i].trading == x ==>
      x in db.trading && db.trading[x].deal.energy == db.log[i].energy && db.trading[x].deal.price == db.log[i].price
  }

  lemma ExecuteKeepsAsOrdered(s: State, tid: Id, at: int, x: Id)
    requires Inv(s) && Enabled(s, Execute(tid, at)) && AsOrdered(s.db, x)
    ensures AsOrdered(Next(s, Execute(tid, at)).db, x)
  {
    var db := Next(s, Execute(tid, at)).db;
    forall i | 0 <= i < |db.log| && db.log[i].Success? && db.log[i].trading == x
      ensures x in db.trading && db.trading[x].deal.energy == db.log[i].energy && db.trading[x].deal.price == db.log[i].price
    {
      if i < |s.db.log| {
        assert db.log[i] == s.db.log[i] && EntryOk(s.db, s.db.log[i]);
      }
    }
  }

  lemma DealKept(s: State, u: UserAction, x: Id)
    requires UserEnabled(s, u) && x in s.db.trading && !Edits(User(u), x)
    ensures x in UserNext(s, u).db.trading && UserNext(s, u).db.trading[x].deal == s.db.trading[x].deal
    ensures UserNext(s, u).db.log == s.db.log
  {
  }

  lemma StepKeepsAsOrdered(s: State, a: Action, x: Id)
    requires Inv(s) && Enabled(s, a) && AsOrdered(s.db, x) && !Edits(a, x)
    ensures AsOrdered(Next(s, a).db, x)
  {
    if a.Execute? {
      ExecuteKeepsAsOrdered(s, a.tid, a.at, x);
    } else {
      var db := Next(s, a).db;
      forall i | 0 <= i < |db.log| && db.log[i].Success? && db.log[i].trading == x
        ensures x in db.trading && db.trading[x].deal.energy == db.log[i].energy && db.trading[x].deal.price == db.log[i].price
      {
        assert db.log[i] == s.db.log[i] && EntryOk(s.db, s.db.log[i]);
        if a.User? {
          DealKept(s, a.request, x);
        }
      }
    }
  }

  lemma {:induction false} UneditedStaysAsOrdered(s: State, run: seq<Action>, x: Id)
    requires Inv(s) && Valid(s, run) && AsOrdered(s.db, x) && NeverEdited(run, x)
    ensures AsOrdered(After(s, run).db, x)
    decreases |run|
  {
    if run == [] {
    } else {
      StepKeepsInv(s, run[0]);
      StepKeepsAsOrdered(s, run[0], x);
      UneditedStaysAsOrdered(Next(s, run[0]), run[1..], x);
    }
  }

  /** A trading order spawned in a run carries out its recurring order. */
  lemma SpawnedCarriesOut(s: State, run: seq<Action>, id: Id, x: Id)
    requires Initial(s) && Valid(s, run) && id in After(s, run).db.orders && x in SpawnedBy(After(s, run).db.log, id)
    ensures var db := After(s, run).db; var o := db.orders[id].terms;
            && x in db.trading && Mirrors(db.trading[x].deal, o)
            && (NeverEdited(run, x) ==> Asks(o, db.trading[x].deal.energy, db.trading[x].deal.price))
  {
    RunKeepsInv(s, run);
    var db := After(s, run).db;
    var i :| 0 <= i < |db.log| && db.log[i].Success? && db.log[i].recurring == id && db.log[i].trading == x;
    assert EntryOk(db, db.log[i]);
    if NeverEdited(run, x) {
      UneditedStaysAsOrdered(s, run, x);
    }
  }

  /** In every run from an empty table, whatever users do and whenever: an order has executed
      exactly as often as it has success records and spawned trading orders, each of which
      carries out that order and no other, with its amount and limit price unless the user has
      edited it since; it never executes beyond its limit, where a limit below one counts as
      one; it is completed exactly when the limit is reached. */
  lemma ExecutionAccounting(s: State, run: seq<Action>, id: Id)
    requires Initial(s) && Valid(s, run) && id in After(s, run).db.orders
    ensures var db := After(s, run).db; var o := db.orders[id];
            && o.total == Successes(db.log, id) == |SpawnedBy(db.log, id)|
            && (forall x :: x in SpawnedBy(db.log, id) ==>
                  && x in db.trading && Mirrors(db.trading[x].deal, o.terms)
                  && (NeverEdited(run, x) ==> Asks(o.terms, db.trading[x].deal.energy, db.trading[x].deal.price)))
            && (forall i :: 0 <= i < |db.log| && db.log[i].Success? && db.log[i].recurring == id ==>
                  Asks(o.terms, db.log[i].energy, db.log[i].price))
            && (forall other :: other != id ==> SpawnedBy(db.log, id) !! SpawnedBy(db.log, other))
            && (o.terms.maxExecutions.Some? ==>
                  && o.total <= Ceiling(o.terms.maxExecutions.value)
                  && (o.status == Completed <==> o.total == Ceiling(o.terms.maxExecutions.value)))
            && (o.terms.maxExecutions.None? ==> o.status != Completed)
  {
    RunKeepsInv(s, run);
    var db := After(s, run).db;
    SpawnedCount(db.log, id);
    forall x | x in SpawnedBy(db.log, id)
      ensures && x in db.trading && Mirrors(db.trading[x].deal, db.orders[id].terms)
              && (NeverEdited(run, x) ==> Asks(db.orders[id].terms, db.trading[x].deal.energy, db.trading[x].deal.price))
    {
      SpawnedCarriesOut(s, run, id, x);
    }
    forall i | 0 <= i < |db.log| && db.log[i].Success? && db.log[i].recurring == id
      ensures Asks(db.orders[id].terms, db.log[i].energy, db.log[i].price)
    {
      assert EntryOk(db, db.log[i]);
    }
    forall other | other != id ensures SpawnedBy(db.log, id) !! SpawnedBy(db.log, other) {
      DisjointSpawns(db.log, id, other);
    }
  }

  // ---------------------------------------------------------------- what a step writes

  /** The spawned order, column by column. */
  predicate FreshDeal(t: TradingOrder, o: Terms, at: int) {
    && t.deal.user == o.user && t.deal.side == o.side && t.deal.session == o.session && t.deal.orderType == Limit
    && Asks(o, t.deal.energy, t.deal.price)
    && t.deal.createdAt == at && t.deal.expiresAt == Some(at + 86400)
    && t.filled == 0.0 && t.status == OrderPending && t.trigger.kind == None && t.trigger.status == TriggerPending
  }

  /** An execution moves its order on by exactly its interval from the clock reading, counts it, and
      adds one trading order and one record; no other row changes. */
  lemma ExecutionWrites(s: State, tid: Id, at: int)
    requires Inv(s) && Enabled(s, Execute(tid, at))
    ensures var id, t := s.batch[0].id, Next(s, Execute(tid, at)).db; var o := s.db.orders[id];
            && t.orders.Keys == s.db.orders.Keys && (forall x :: x in t.orders && x != id ==> t.orders[x] == s.db.orders[x])
            && Spans(o.terms.intervalType, o.terms.intervalValue, t.orders[id].nextAt - at)
            && t.orders[id].lastAt == Some(at) && t.orders[id].total == o.total + 1 && t.orders[id].terms == o.terms
            && t.trading.Keys == s.db.trading.Keys + {tid} && FreshDeal(t.trading[tid], o.terms, at)
            && (forall x :: x in s.db.trading ==> t.trading[x] == s.db.trading[x])
            && |t.log| == |s.db.log| + 1 && t.log[..|s.db.log|] == s.db.log
            && t.log[|s.db.log|] == Success(id, tid, at, t.trading[tid].deal.energy, t.trading[tid].deal.price)
  {
    assert RowOk(s, s.batch[0]);
    IntervalSpans(s.batch[0].order.terms);
  }

  /** A create stores the request as it came, due one interval after its clock reading, exactly if
      amount and interval are positive. */
  lemma CreateWrites(s: State, id: Id, q: Terms, stamp: int)
    requires Enabled(s, User(Create(id, q, stamp)))
    ensures var t := Next(s, User(Create(id, q, stamp))).db;
            && (id in t.orders <==> q.energy > 0.0 && q.intervalValue >= 1)
            && (id in t.orders ==>
                  && t.orders.Keys == s.db.orders.Keys + {id} && t.orders[id].terms == q && t.orders[id].status == Active
                  && t.orders[id].total == 0 && t.orders[id].lastAt == None
                  && Spans(q.intervalType, q.intervalValue, t.orders[id].nextAt - stamp))
            && (forall x :: x in s.db.orders ==> x in t.orders && t.orders[x] == s.db.orders[x])
            && t.trading == s.db.trading && t.log == s.db.log
  {
    IntervalSpans(q);
  }

  /** Exactly the owner's cancel of an active or paused order, pause of an active one and resume of a
      paused one change a status; a resume moves the order on by its interval from its clock reading. */
  lemma RequestsWrite(s: State, u: UserAction, id: Id)
    requires UserEnabled(s, u) && id in s.db.orders
    ensures id in UserNext(s, u).db.orders
    ensures var o, p := s.db.orders[id], UserNext(s, u).db.orders[id]; var owner := o.terms.user;
            && p == o.(status := p.status, nextAt := p.nextAt)
            && (if u == Cancel(owner, id) && o.status in {Active, Paused} then p.status == Cancelled && p.nextAt == o.nextAt
                else if u == Pause(owner, id) && o.status == Active then p.status == Paused && p.nextAt == o.nextAt
                else if u.ResumeWrite? && u.resume.user == owner && u.resume.id == id && o.status == Paused then
                  p.status == Active && Spans(o.terms.intervalType, o.terms.intervalValue, p.nextAt - u.resume.stamp)
                else p == o)
  {
    IntervalSpans(s.db.orders[id].terms);
    if u.Cancel? && Owns(s, u.user, id) && u.id == id {
      assert s.db.orders[id].status in {Active, Paused} <==> s.db.orders[id].status !in {Cancelled, Completed} by {
        assert s.db.orders[id].status.Active? || s.db.orders[id].status.Paused?
               || s.db.orders[id].status.Completed? || s.db.orders[id].status.Cancelled?;
      }
    }
  }

  /** A resume request that finds its order remembers the clock; no other request does. */
  lemma ResumeReads(s: State, u: UserAction)
    requires UserEnabled(s, u) && u.ResumeRead?
    ensures UserNext(s, u) == s.(resumes := UserNext(s, u).resumes)
    ensures UserNext(s, u).resumes == if u.id in s.db.orders && s.db.orders[u.id].terms.user == u.user
                                      then s.resumes + multiset{Resume(u.user, u.id, s.clock)} else s.resumes
  {
  }

  /** A pass fetches active orders due at its clock reading, earliest first, 50 at most, and none it
      leaves out is due before one it takes. */
  lemma PassFetches(orders: map<Id, Order>, now: int, ids: seq<Id>)
    requires IsOldest(DueKeys(orders, now), BATCH_LIMIT, ids)
    ensures Distinct(ids) && |ids| <= 50
    ensures forall i :: 0 <= i < |ids| ==> ids[i] in orders && orders[ids[i]].status == Active && orders[ids[i]].nextAt <= now
    ensures forall i, j :: 0 <= i < j < |ids| ==> orders[ids[i]].nextAt <= orders[ids[j]].nextAt
    ensures forall id :: id in orders && orders[id].status == Active && orders[id].nextAt <= now && id !in ids ==>
              |ids| == 50 && forall i :: 0 <= i < |ids| ==> orders[ids[i]].nextAt <= orders[id].nextAt
  {
    var keys := DueKeys(orders, now);
    assert forall i :: 0 <= i < |ids| ==> ids[i] in ids && ids[i] in keys;
    forall id | id in orders && orders[id].status == Active && orders[id].nextAt <= now && id !in ids
      ensures |ids| == 50 && forall i :: 0 <= i < |ids| ==> orders[ids[i]].nextAt <= orders[id].nextAt
    {
      LeftOutMeansFull(keys, BATCH_LIMIT, ids, id);
      forall i | 0 <= i < |ids| ensures orders[ids[i]].nextAt <= orders[id].nextAt {
        var x := ids[i];
        assert x in ids && keys[x] <= keys[id];
      }
    }
  }

  // ---------------------------------------------------------------- runs step by step

  lemma SingleDue(orders: map<Id, Order>, now: int, id: Id)
    requires orders.Keys == {id} && orders[id].status == Active && orders[id].nextAt <= now
    ensures IsOldest(DueKeys(orders, now), BATCH_LIMIT, [id])
  {
    var keys := DueKeys(orders, now);
    assert keys.Keys == {id};
    assert |keys| == |keys.Keys|;
  }

  /** A pass over a table with one order, due and active. */
  function OnePass(now: int, tid: Id): seq<Action> {
    [Fetch(now, [1]), Execute(tid, now)]
  }

  lemma OnePassRuns(s: State, o: Order, tid: Id)
    requires s.db.orders == map[1 := o] && s.batch == [] && tid !in s.db.trading
    requires o.status == Active && o.nextAt <= s.clock && Executable(o.terms)
    ensures Valid(s, OnePass(s.clock, tid))
    ensures var t := After(s, OnePass(s.clock, tid));
            && t.db == Executed(s.db, Row(1, o), s.clock, tid)
            && t.clock == s.clock && t.batch == [] && t.resumes == s.resumes
  {
    SingleDue(s.db.orders, s.clock, 1);
    var t := Next(s, Fetch(s.clock, [1]));
    assert t.batch == [Row(1, o)];
    var run := RunCons(t, Execute(tid, s.clock), []);
    run := RunCons(s, Fetch(s.clock, [1]), run);
    assert run == OnePass(s.clock, tid);
  }

  /** One order created and, an interval later, executed. */
  function FirstExecution(q: Terms, clock: int): seq<Action>
    requires q.intervalValue > 0
  {
    [User(Create(1, q, clock)), Tick(Interval(q))] + OnePass(clock + Interval(q), 7)
  }

  /** A limit below one does not stop the first execution, so `max_executions` itself is an
      upper bound in every run exactly when it is at least one. */
  lemma LimitBelowOneStillExecutes(s: State, q: Terms)
    requires Initial(s) && 7 !in s.db.trading
    requires Executable(q) && q.intervalValue > 0 && q.maxExecutions.Some? && q.maxExecutions.value < 1
    ensures Valid(s, FirstExecution(q, s.clock))
    ensures 1 in After(s, FirstExecution(q, s.clock)).db.orders
    ensures var o := After(s, FirstExecution(q, s.clock)).db.orders[1];
            o.terms == q && o.total == 1 > q.maxExecutions.value && o.status == Completed
  {
    var s1 := Next(s, User(Create(1, q, s.clock)));
    var s2 := Next(s1, Tick(Interval(q)));
    OnePassRuns(s2, Order(q, s2.clock, None, Active, 0), 7);
    var run := RunCons(s1, Tick(Interval(q)), OnePass(s2.clock, 7));
    run := RunCons(s, User(Create(1, q, s.clock)), run);
    assert run == FirstExecution(q, s.clock);
  }

  // ---------------------------------------------------------------- cancelled and paused orders

  /** The UPDATE is keyed by id only: a cancelled order loses that status exactly when the
      scheduler executes it from a batch it was already part of. */
  lemma CancelOverwritten(s: State, a: Action, id: Id)
    requires Inv(s) && Enabled(s, a) && id in s.db.orders && s.db.orders[id].status == Cancelled
    ensures id in Next(s, a).db.orders
    ensures Next(s, a).db.orders[id].status != Cancelled <==> a.Execute? && s.batch[0].id == id
  {
    if a.User? {
      UserStep(s, a.request);
    }
  }

  /** The resume write finds a paused order of its caller, so it does update a row. */
  predicate Resumes(s: State, a: Action, id: Id) {
    && a.User? && a.request.ResumeWrite? && a.request.resume.id == id
    && Owns(s, a.request.resume.user, id) && s.db.orders[id].status == Paused
  }

  lemma PausedUserStep(s: State, u: UserAction, id: Id)
    requires UserEnabled(s, u) && id in s.db.orders && s.db.orders[id].status == Paused
    ensures id in UserNext(s, u).db.orders
    ensures UserNext(s, u).db.orders[id].status in {Active, Completed} <==> Resumes(s, User(u), id)
    ensures UserNext(s, u).db.orders[id].status == Cancelled <==> u == Cancel(s.db.orders[id].terms.user, id)
  {
  }

  /** A pause can be overwritten the same way: a paused order becomes active or completed exactly when a resume takes
      effect on it or the scheduler executes it from its batch, and only its owner cancels it. */
  lemma PauseOverwritten(s: State, a: Action, id: Id)
    requires Inv(s) && Enabled(s, a) && id in s.db.orders && s.db.orders[id].status == Paused
    ensures id in Next(s, a).db.orders
    ensures Next(s, a).db.orders[id].status in {Active, Completed} <==>
              Resumes(s, a, id) || (a.Execute? && s.batch[0].id == id)
    ensures Next(s, a).db.orders[id].status == Cancelled <==> a == User(Cancel(s.db.orders[id].terms.user, id))
  {
    if a.User? {
      PausedUserStep(s, a.request, id);
    }
  }

  lemma CancelledStep(s: State, a: Action, id: Id)
    requires Inv(s) && Enabled(s, a) && id in s.db.orders && s.db.orders[id].status == Cancelled
    requires id !in BatchIds(s)
    ensures var t := Next(s, a); id in t.db.orders && t.db.orders[id] == s.db.orders[id] && id !in BatchIds(t)
  {
    var t := Next(s, a);
    match a
    case User(u) => UserStep(s, u);
    case Fetch(_, ids) =>
      forall i | 0 <= i < |t.batch| ensures t.batch[i].id != id {
        assert ids[i] in ids;
      }
    case Execute(_, _) => assert forall i :: 0 <= i < |t.batch| ==> t.batch[i] == s.batch[i + 1];
    case Fail(_) => assert forall i :: 0 <= i < |t.batch| ==> t.batch[i] == s.batch[i + 1];
    case Tick(_) =>
  }

  /** A cancel that does not land mid-pass on a fetched order is final: the row never changes again. */
  lemma {:induction false} CancelledStays(s: State, run: seq<Action>, id: Id)
    requires Inv(s) && Valid(s, run) && id in s.db.orders && s.db.orders[id].status == Cancelled
    requires id !in BatchIds(s)
    ensures id in After(s, run).db.orders && After(s, run).db.orders[id] == s.db.orders[id]
    decreases |run|
  {
    if run == [] {
    } else {
      StepKeepsInv(s, run[0]);
      CancelledStep(s, run[0], id);
      CancelledStays(Next(s, run[0]), run[1..], id);
    }
  }

  // ---------------------------------------------------------------- spacing

  ghost predicate OrderSpaced(o: Order, clock: int) {
    o.lastAt.Some? ==> o.lastAt.value <= clock && o.nextAt >= o.lastAt.value + Interval(o.terms)
  }

  ghost predicate RowSpaced(o: Order) {
    o.lastAt.Some? ==> o.nextAt >= o.lastAt.value + Interval(o.terms)
  }

  predicate SameOrder(e: Execution, f: Execution) {
    e.Success? && f.Success? && e.recurring == f.recurring
  }

  /** Success records of one order lie at least one interval apart. */
  ghost predicate LogSpaced(db: Db) {
    && (forall i :: 0 <= i < |db.log| && db.log[i].Success? ==> RecordedBefore(db, db.log[i]))
    && (forall i, j :: 0 <= i < j < |db.log| && SameOrder(db.log[i], db.log[j]) ==> Apart(db, db.log[i], db.log[j]))
  }

  ghost predicate RecordedBefore(db: Db, e: Execution) {
    e.recurring in db.orders && db.orders[e.recurring].lastAt.Some? && e.at <= db.orders[e.recurring].lastAt.value
  }

  ghost predicate Apart(db: Db, e: Execution, f: Execution) {
    e.recurring in db.orders && f.at >= e.at + Interval(db.orders[e.recurring].terms)
  }

  ghost predicate Spaced(s: State) {
    && (forall id :: id in s.db.orders ==> OrderSpaced(s.db.orders[id], s.clock))
    && (forall i :: 0 <= i < |s.batch| ==> RowSpaced(s.batch[i].order))
    && LogSpaced(s.db)
  }

  /** A resume write is stale when it takes effect on an order that was executed after the
      request read the clock. */
  predicate StaleResume(s: State, a: Action) {
    && a.User? && a.request.ResumeWrite?
    && var r := a.request.resume;
    && Resumes(s, a, r.id) && s.db.orders[r.id].lastAt.Some? && r.stamp < s.db.orders[r.id].lastAt.value
  }

  ghost predicate NoStaleResume(s: State, run: seq<Action>)
    requires Valid(s, run)
    decreases |run|
  {
    run == [] || (!StaleResume(s, run[0]) && NoStaleResume(Next(s, run[0]), run[1..]))
  }

  lemma FrameKeepsLogSpaced(s: State, t: State)
    requires LogSpaced(s.db) && UserFrame(s, t)
    ensures LogSpaced(t.db)
  {
  }

  lemma UserKeepsSpacing(s: State, a: UserAction)
    requires Inv(s) && Spaced(s) && UserEnabled(s, a) && !StaleResume(s, User(a))
    ensures Spaced(UserNext(s, a))
  {
    var t := UserNext(s, a);
    UserStep(s, a);
    FrameKeepsLogSpaced(s, t);
    forall id | id in t.db.orders ensures OrderSpaced(t.db.orders[id], t.clock) {
      if id in s.db.orders {
        assert OrderFrame(s.db.orders[id], t.db.orders[id]) && OrderSpaced(s.db.orders[id], s.clock);
      }
    }
  }

  lemma FetchKeepsSpacing(s: State, now: int, ids: seq<Id>)
    requires Spaced(s) && Enabled(s, Fetch(now, ids))
    ensures Spaced(Next(s, Fetch(now, ids)))
  {
  }

  lemma ExecuteKeepsLogSpaced(s: State, tid: Id, at: int)
    requires Inv(s) && Spaced(s) && Enabled(s, Execute(tid, at))
    ensures LogSpaced(Next(s, Execute(tid, at)).db)
  {
    var row := s.batch[0];
    assert RowOk(s, row) && RowSpaced(row.order);
    var db := Next(s, Execute(tid, at)).db;
    var n := |s.db.log|;
    forall i | 0 <= i < |db.log| && db.log[i].Success? ensures RecordedBefore(db, db.log[i]) {
      if i < n {
        assert db.log[i] == s.db.log[i] && RecordedBefore(s.db, s.db.log[i]);
        assert OrderSpaced(s.db.orders[row.id], s.clock);
      }
    }
    forall i, j | 0 <= i < j < |db.log| && SameOrder(db.log[i], db.log[j])
      ensures Apart(db, db.log[i], db.log[j])
    {
      assert db.log[i] == s.db.log[i] && RecordedBefore(s.db, s.db.log[i]);
      if j < n {
        assert db.log[j] == s.db.log[j] && Apart(s.db, s.db.log[i], s.db.log[j]);
      }
    }
  }

  lemma FailKeepsSpacing(s: State, recorded: bool)
    requires Inv(s) && Spaced(s) && Enabled(s, Fail(recorded))
    ensures Spaced(Next(s, Fail(recorded)))
  {
  }

  lemma StepKeepsSpacing(s: State, a: Action)
    requires Inv(s) && Spaced(s) && Enabled(s, a) && !StaleResume(s, a)
    ensures Spaced(Next(s, a))
  {
    var t := Next(s, a);
    match a
    case User(u) => UserKeepsSpacing(s, u);
    case Fetch(now, ids) => FetchKeepsSpacing(s, now, ids);
    case Execute(tid, at) =>
      ExecuteKeepsLogSpaced(s, tid, at);
      assert forall i :: 0 <= i < |t.batch| ==> t.batch[i] == s.batch[i + 1];
      assert RowOk(s, s.batch[0]);
    case Fail(recorded) => FailKeepsSpacing(s, recorded);
    case Tick(_) => FrameKeepsLogSpaced(s, t);
  }

  lemma {:induction false} RunKeepsSpacing(s: State, run: seq<Action>)
    requires Inv(s) && Spaced(s) && Valid(s, run) && NoStaleResume(s, run)
    ensures Spaced(After(s, run))
    decreases |run|
  {
    if run == [] {
    } else {
      StepKeepsInv(s, run[0]);
      StepKeepsSpacing(s, run[0]);
      RunKeepsSpacing(Next(s, run[0]), run[1..]);
    }
  }

  /** In every run without a stale resume, any two executions of one order lie at least one
      interval apart, even with pauses, cancels and resumes landing mid-pass. */
  lemma ExecutionsAreSpaced(s: State, run: seq<Action>, i: nat, j: nat)
    requires Initial(s) && Valid(s, run) && NoStaleResume(s, run)
    requires i < j < |After(s, run).db.log|
    requires SameOrder(After(s, run).db.log[i], After(s, run).db.log[j])
    ensures var db := After(s, run).db;
            && db.log[i].recurring in db.orders
            && db.log[j].at - db.log[i].at >= Interval(db.orders[db.log[i].recurring].terms)
            && Spans(db.orders[db.log[i].recurring].terms.intervalType, db.orders[db.log[i].recurring].terms.intervalValue,
                     Interval(db.orders[db.log[i].recurring].terms))
  {
    RunKeepsSpacing(s, run);
    IntervalSpans(After(s, run).db.orders[After(s, run).db.log[i].recurring].terms);
    var db := After(s, run).db;
    assert Apart(db, db.log[i], db.log[j]);
  }

  /** A resume that takes effect keeps the order's next execution an interval after its last
      one exactly when it is not stale. */
  lemma ResumeSpacingExact(s: State, r: Resume)
    requires Inv(s) && Spaced(s) && UserEnabled(s, ResumeWrite(r))
    requires Owns(s, r.user, r.id) && s.db.orders[r.id].status == Paused
    ensures OrderSpaced(UserNext(s, ResumeWrite(r)).db.orders[r.id], s.clock) <==> !StaleResume(s, User(ResumeWrite(r)))
  {
  }

  /** A resume request that reads the clock, is overtaken by an execution and a pause, and then
      writes: the order runs twice at the same instant. */
  function OvertakenResume(q: Terms, clock: int): seq<Action>
    requires q.intervalValue > 0
  {
    ExecutedMeanwhile(q, clock) + ResumedLate(Resume(q.user, 1, clock), clock + Interval(q))
  }

  function AskedToResume(q: Terms, clock: int): seq<Action>
    requires q.intervalValue > 0
  {
    [User(Create(1, q, clock)), User(ResumeRead(q.user, 1)), Tick(Interval(q))]
  }

  function ExecutedMeanwhile(q: Terms, clock: int): seq<Action>
    requires q.intervalValue > 0
  {
    AskedToResume(q, clock) + OnePass(clock + Interval(q), 7)
  }

  function ResumedLate(r: Resume, now: int): seq<Action> {
    [User(Pause(r.user, 1)), User(ResumeWrite(r))] + OnePass(now, 8)
  }

  /** The limit, if any, leaves room for a second execution. */
  predicate Repeats(q: Terms) {
    q.maxExecutions.Some? ==> q.maxExecutions.value > 1
  }

  /** The only order is due now, and a resume request read the clock an interval ago. */
  predicate AboutToRun(s: State, q: Terms, r: Resume) {
    && r.user == q.user && r.id == 1 && r.stamp + Interval(q) == s.clock && r in s.resumes
    && s.batch == [] && s.db.log == []
    && s.db.orders == map[1 := Order(q, s.clock, None, Active, 0)]
  }

  /** The same order just after it ran. */
  predicate JustRan(s: State, q: Terms, r: Resume) {
    && r.user == q.user && r.id == 1 && r.stamp + Interval(q) == s.clock && r in s.resumes
    && s.batch == [] && s.db.log == [Success(1, 7, s.clock, q.energy, PriceOf(q))]
    && s.db.orders == map[1 := Order(q, s.clock + Interval(q), Some(s.clock), Active, 1)]
  }

  lemma AskedToResumeRuns(s: State, q: Terms)
    requires Initial(s) && q.energy > 0.0 && q.intervalValue > 0
    ensures Valid(s, AskedToResume(q, s.clock))
    ensures AboutToRun(After(s, AskedToResume(q, s.clock)), q, Resume(q.user, 1, s.clock))
    ensures After(s, AskedToResume(q, s.clock)).db.trading == s.db.trading
  {
    var s1 := Next(s, User(Create(1, q, s.clock)));
    var s2 := Next(s1, User(ResumeRead(q.user, 1)));
    assert s2 == State(s.clock, Db(map[1 := Order(q, s.clock + Interval(q), None, Active, 0)], s.db.trading, []), [],
                       multiset{Resume(q.user, 1, s.clock)});
    var run := RunCons(s2, Tick(Interval(q)), []);
    run := RunCons(s1, User(ResumeRead(q.user, 1)), run);
    run := RunCons(s, User(Create(1, q, s.clock)), run);
    assert run == AskedToResume(q, s.clock);
  }

  lemma FirstRun(s: State, q: Terms, r: Resume)
    requires AboutToRun(s, q, r) && 7 !in s.db.trading && Executable(q) && Repeats(q)
    ensures Valid(s, OnePass(s.clock, 7)) && JustRan(After(s, OnePass(s.clock, 7)), q, r)
    ensures After(s, OnePass(s.clock, 7)).db.trading.Keys == s.db.trading.Keys + {7}
  {
    OnePassRuns(s, s.db.orders[1], 7);
  }

  lemma PausedThenResumed(s: State, q: Terms, r: Resume)
    requires JustRan(s, q, r)
    ensures var s1 := Next(s, User(Pause(r.user, 1)));
            && Enabled(s1, User(ResumeWrite(r)))
            && var s2 := Next(s1, User(ResumeWrite(r)));
            && s2.db == s.db.(orders := map[1 := Order(q, s.clock, Some(s.clock), Active, 1)])
            && s2.clock == s.clock && s2.batch == []
  {
    var s1 := Next(s, User(Pause(r.user, 1)));
    assert s1.db.orders == map[1 := Order(q, s.clock + Interval(q), Some(s.clock), Paused, 1)];
  }

  lemma ResumedLateRuns(s: State, q: Terms, r: Resume)
    requires JustRan(s, q, r) && 8 !in s.db.trading && Executable(q)
    ensures Valid(s, ResumedLate(r, s.clock))
    ensures After(s, ResumedLate(r, s.clock)).db.log == s.db.log + [Success(1, 8, s.clock, q.energy, PriceOf(q))]
  {
    PausedThenResumed(s, q, r);
    var s1 := Next(s, User(Pause(r.user, 1)));
    var s2 := Next(s1, User(ResumeWrite(r)));
    OnePassRuns(s2, s2.db.orders[1], 8);
    var run := RunCons(s1, User(ResumeWrite(r)), OnePass(s.clock, 8));
    run := RunCons(s, User(Pause(r.user, 1)), run);
    assert run == ResumedLate(r, s.clock);
  }

  lemma ExecutedMeanwhileRuns(s: State, q: Terms)
    requires Initial(s) && 7 !in s.db.trading && Executable(q) && q.intervalValue > 0 && Repeats(q)
    ensures Valid(s, ExecutedMeanwhile(q, s.clock))
    ensures var t := After(s, ExecutedMeanwhile(q, s.clock));
            && JustRan(t, q, Resume(q.user, 1, s.clock)) && t.clock == s.clock + Interval(q)
            && t.db.trading.Keys == s.db.trading.Keys + {7}
  {
    AskedToResumeRuns(s, q);
    var s1 := After(s, AskedToResume(q, s.clock));
    FirstRun(s1, q, Resume(q.user, 1, s.clock));
    RunAppend(s, AskedToResume(q, s.clock), OnePass(s1.clock, 7));
  }

  lemma StaleResumeBreaksSpacing(s: State, q: Terms)
    requires Initial(s) && 7 !in s.db.trading && 8 !in s.db.trading
    requires Executable(q) && q.intervalValue > 0 && Repeats(q)
    ensures Valid(s, OvertakenResume(q, s.clock))
    ensures var db := After(s, OvertakenResume(q, s.clock)).db;
            && |db.log| == 2 && SameOrder(db.log[0], db.log[1])
            && db.log[1].at == db.log[0].at < db.log[0].at + Interval(q)
  {
    var r := Resume(q.user, 1, s.clock);
    ExecutedMeanwhileRuns(s, q);
    var t := After(s, ExecutedMeanwhile(q, s.clock));
    ResumedLateRuns(t, q, r);
    RunAppend(s, ExecutedMeanwhile(q, s.clock), ResumedLate(r, t.clock));
  }

  // ---------------------------------------------------------------- orders without a price

  /** The spawned order must have a positive price, so an execution without one cannot commit. */
  lemma PricelessStep(s: State, a: Action, id: Id)
    requires Inv(s) && Enabled(s, a) && id in s.db.orders && PriceOf(s.db.orders[id].terms) <= 0.0
    ensures id in Next(s, a).db.orders && Next(s, a).db.orders[id].terms == s.db.orders[id].terms
    ensures a.Execute? ==> s.batch[0].id != id
  {
    if a.User? {
      UserStep(s, a.request);
    } else if a.Execute? {
      assert RowOk(s, s.batch[0]);
    }
  }

  lemma {:induction false} PricelessStays(s: State, run: seq<Action>, id: Id)
    requires Inv(s) && Valid(s, run) && id in s.db.orders && PriceOf(s.db.orders[id].terms) <= 0.0
    ensures Inv(After(s, run)) && id in After(s, run).db.orders
    ensures After(s, run).db.orders[id].terms == s.db.orders[id].terms
    decreases |run|
  {
    if run == [] {
    } else {
      StepKeepsInv(s, run[0]);
      PricelessStep(s, run[0], id);
      PricelessStays(Next(s, run[0]), run[1..], id);
    }
  }

  /** A request without a positive price for its side is accepted, but in every run that follows
      its order never executes: whenever its turn comes the attempt can only fail. */
  lemma PricelessNeverExecutes(s: State, id: Id, q: Terms, stamp: int, run: seq<Action>)
    requires Inv(s) && id !in s.db.orders && stamp <= s.clock
    requires q.energy > 0.0 && q.intervalValue > 0 && PriceOf(q) <= 0.0
    requires Valid(Next(s, User(Create(id, q, stamp))), run)
    ensures Next(s, User(Create(id, q, stamp))).db.orders[id] == Order(q, stamp + Interval(q), None, Active, 0)
    ensures var t := After(Next(s, User(Create(id, q, stamp))), run);
            && id in t.db.orders && t.db.orders[id].terms == q
            && t.db.orders[id].total == 0 == Successes(t.db.log, id) && t.db.orders[id].status != Completed
            && (t.batch != [] && t.batch[0].id == id ==> forall tid, at :: !Enabled(t, Execute(tid, at)))
  {
    var s1 := Next(s, User(Create(id, q, stamp)));
    StepKeepsInv(s, User(Create(id, q, stamp)));
    PricelessStays(s1, run, id);
    var t := After(s1, run);
    assert LimitOk(t.db.orders[id]);
    if t.batch != [] && t.batch[0].id == id {
      assert RowOk(t, t.batch[0]);
    }
  }
}
