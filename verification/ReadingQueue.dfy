/** The meter-reading work queue: any number of workers pop tasks from a shared queue, retry a
    failed task at most twice, then move it to a dead-letter queue. */
module ReadingQueue {
  import opened Prelude

  const MAX_ATTEMPTS := 3

  /** A submitted reading, without the retry counter that travels with it. */
  datatype Body = Body(serial: string, params: string, request: string)

  datatype Task = Task(body: Body, retries: nat)

  datatype Slot = Idle | Busy(task: Task)

  /** `queue` is pushed at its end and popped at its front. `done` and `lost` are not stored
      anywhere by the program; they only say what became of a task. */
  datatype State = State(queue: seq<Task>, workers: seq<Slot>, done: seq<Task>, dead: seq<Task>, lost: seq<Task>)

  datatype Action =
    | Submit(body: Body, pushed: bool)
    | Pop(w: nat)
    | PopUnreadable(w: nat)
    | Succeed(w: nat)
    | Fail(w: nat, pushed: bool)

  predicate IsBusy(s: State, w: nat) {
    w < |s.workers| && s.workers[w].Busy?
  }

  predicate Enabled(s: State, a: Action) {
    match a
    case Submit(_, _) => true
    case Pop(w) => w < |s.workers| && s.workers[w].Idle? && s.queue != []
    case PopUnreadable(w) => w < |s.workers| && s.workers[w].Idle? && s.queue != []
    case Succeed(w) => IsBusy(s, w)
    case Fail(w, _) => IsBusy(s, w)
  }

  /** Where a task goes after a failed attempt. */
  function Failed(s: State, t: Task, pushed: bool): State {
    var u := t.(retries := t.retries + 1);
    if !pushed then s.(lost := s.lost + [u])
    else if u.retries < MAX_ATTEMPTS then s.(queue := s.queue + [u])
    else s.(dead := s.dead + [u])
  }

  function Next(s: State, a: Action): State
    requires Enabled(s, a)
  {
    match a
    case Submit(b, pushed) => if pushed then s.(queue := s.queue + [Task(b, 0)]) else s
    case Pop(w) => s.(queue := s.queue[1..], workers := s.workers[w := Busy(s.queue[0])])
    case PopUnreadable(w) => s.(queue := s.queue[1..], lost := s.lost + [s.queue[0]])
    case Succeed(w) => s.(workers := s.workers[w := Idle], done := s.done + [s.workers[w].task])
    case Fail(w, pushed) => Failed(s.(workers := s.workers[w := Idle]), s.workers[w].task, pushed)
  }

  predicate Valid(s: State, run: seq<Action>)
    decreases |run|
  {
    run == [] || (Enabled(s, run[0]) && Valid(Next(s, run[0]), run[1..]))
  }

  function After(s: State, run: seq<Action>): State
    requires Valid(s, run)
    decreases |run|
  {
    if run == [] then s else After(Next(s, run[0]), run[1..])
  }

  predicate Initial(s: State) {
    && s.queue == [] && s.done == [] && s.dead == [] && s.lost == []
    && forall w :: 0 <= w < |s.workers| ==> s.workers[w] == Idle
  }

  // ---------------------------------------------------------------- weighing tasks

  /** What to add up, over the tasks of one body or over all tasks: the tasks themselves, or
      the attempts made on them. */
  datatype Measure = Count(only: Option<Body>) | Attempts(only: Option<Body>)

  predicate Picks(m: Measure, b: Body) {
    m.only.None? || m.only.value == b
  }

  /** A task that succeeded had one attempt more than its counter says. */
  function Weight(m: Measure, t: Task, succeeded: bool): nat {
    if !Picks(m, t.body) then 0
    else match m
      case Count(_) => 1
      case Attempts(_) => t.retries + if succeeded then 1 else 0
  }

  function Sum(m: Measure, ts: seq<Task>, succeeded: bool): nat {
    if ts == [] then 0
    else Sum(m, ts[..|ts| - 1], succeeded) + Weight(m, ts[|ts| - 1], succeeded)
  }

  function SlotWeight(m: Measure, s: Slot): nat {
    if s.Busy? then Weight(m, s.task, false) else 0
  }

  function InFlight(m: Measure, ws: seq<Slot>): nat {
    if ws == [] then 0 else InFlight(m, ws[..|ws| - 1]) + SlotWeight(m, ws[|ws| - 1])
  }

  function Live(m: Measure, s: State): nat {
    Sum(m, s.queue, false) + InFlight(m, s.workers)
  }

  function Total(m: Measure, s: State): nat {
    Live(m, s) + Sum(m, s.done, true) + Sum(m, s.dead, false) + Sum(m, s.lost, false)
  }

  lemma SumSnoc(m: Measure, ts: seq<Task>, t: Task, succeeded: bool)
    ensures Sum(m, ts + [t], succeeded) == Sum(m, ts, succeeded) + Weight(m, t, succeeded)
  {
  }

  lemma {:induction false} SumTail(m: Measure, ts: seq<Task>, succeeded: bool)
    requires ts != []
    ensures Sum(m, ts, succeeded) == Weight(m, ts[0], succeeded) + Sum(m, ts[1..], succeeded)
  {
    var n := |ts| - 1;
    if n == 0 {
      assert ts[..0] == [] && ts[1..] == [];
    } else {
      SumTail(m, ts[..n], succeeded);
      assert ts[..n][1..] == ts[1..][..n - 1];
    }
  }

  lemma {:induction false} SlotUpdate(m: Measure, ws: seq<Slot>, w: nat, x: Slot)
    requires w < |ws|
    ensures InFlight(m, ws[w := x]) == InFlight(m, ws) - SlotWeight(m, ws[w]) + SlotWeight(m, x)
    decreases |ws|
  {
    var n := |ws| - 1;
    if w == n {
      assert ws[w := x][..n] == ws[..n];
    } else {
      SlotUpdate(m, ws[..n], w, x);
      assert ws[w := x][..n] == ws[..n][w := x];
    }
  }

  // ---------------------------------------------------------------- single steps

  /** What one step adds to a total: a submission adds a task, an attempt adds an attempt. */
  function Gain(m: Measure, s: State, a: Action): nat
    requires Enabled(s, a)
  {
    match a
    case Submit(b, pushed) => if m.Count? && pushed && Picks(m, b) then 1 else 0
    case Succeed(w) => if m.Attempts? && Picks(m, s.workers[w].task.body) then 1 else 0
    case Fail(w, _) => if m.Attempts? && Picks(m, s.workers[w].task.body) then 1 else 0
    case _ => 0
  }

  lemma FailGain(m: Measure, s: State, t: Task, pushed: bool)
    ensures Total(m, Failed(s, t, pushed)) == Total(m, s) + Weight(m, t, true)
  {
    var u := t.(retries := t.retries + 1);
    assert Weight(m, u, false) == Weight(m, t, true);
    if !pushed {
      SumSnoc(m, s.lost, u, false);
    } else if u.retries < MAX_ATTEMPTS {
      SumSnoc(m, s.queue, u, false);
    } else {
      SumSnoc(m, s.dead, u, false);
    }
  }

  lemma PopGain(m: Measure, s: State, w: nat)
    requires Enabled(s, Pop(w))
    ensures Total(m, Next(s, Pop(w))) == Total(m, s) == Total(m, Next(s, PopUnreadable(w)))
  {
    SumTail(m, s.queue, false);
    SlotUpdate(m, s.workers, w, Busy(s.queue[0]));
    SumSnoc(m, s.lost, s.queue[0], false);
  }

  lemma FreedWeight(m: Measure, s: State, w: nat)
    requires IsBusy(s, w)
    ensures Total(m, s.(workers := s.workers[w := Idle])) + Weight(m, s.workers[w].task, false) == Total(m, s)
  {
    SlotUpdate(m, s.workers, w, Idle);
  }

  lemma SucceedGain(m: Measure, s: State, w: nat)
    requires IsBusy(s, w)
    ensures Total(m, Next(s, Succeed(w))) == Total(m, s) + Gain(m, s, Succeed(w))
  {
    FreedWeight(m, s, w);
    SumSnoc(m, s.done, s.workers[w].task, true);
  }

  lemma FinishGain(m: Measure, s: State, w: nat, pushed: bool)
    requires IsBusy(s, w)
    ensures Total(m, Next(s, Fail(w, pushed))) == Total(m, s) + Gain(m, s, Fail(w, pushed))
  {
    FreedWeight(m, s, w);
    FailGain(m, s.(workers := s.workers[w := Idle]), s.workers[w].task, pushed);
  }

  lemma StepGain(m: Measure, s: State, a: Action)
    requires Enabled(s, a)
    ensures Total(m, Next(s, a)) == Total(m, s) + Gain(m, s, a)
  {
    match a
    case Submit(b, _) => SumSnoc(m, s.queue, Task(b, 0), false);
    case Pop(w) => PopGain(m, s, w);
    case PopUnreadable(w) => PopGain(m, s, w);
    case Succeed(w) => SucceedGain(m, s, w);
    case Fail(w, pushed) => FinishGain(m, s, w, pushed);
  }

  function Gains(m: Measure, s: State, run: seq<Action>): nat
    requires Valid(s, run)
    decreases |run|
  {
    if run == [] then 0 else Gain(m, s, run[0]) + Gains(m, Next(s, run[0]), run[1..])
  }

  lemma {:induction false} RunGain(m: Measure, s: State, run: seq<Action>)
    requires Valid(s, run)
    ensures Total(m, After(s, run)) == Total(m, s) + Gains(m, s, run)
    decreases |run|
  {
    if run == [] {
    } else {
      StepGain(m, s, run[0]);
      RunGain(m, Next(s, run[0]), run[1..]);
    }
  }

  // ---------------------------------------------------------------- retry counters

  ghost predicate CountersOk(s: State) {
    && (forall i :: 0 <= i < |s.queue| ==> s.queue[i].retries < MAX_ATTEMPTS)
    && (forall w :: 0 <= w < |s.workers| && s.workers[w].Busy? ==> s.workers[w].task.retries < MAX_ATTEMPTS)
    && (forall i :: 0 <= i < |s.done| ==> s.done[i].retries < MAX_ATTEMPTS)
    && (forall i :: 0 <= i < |s.dead| ==> s.dead[i].retries == MAX_ATTEMPTS)
    && (forall i :: 0 <= i < |s.lost| ==> s.lost[i].retries <= MAX_ATTEMPTS)
  }

  lemma StepKeepsCounters(s: State, a: Action)
    requires CountersOk(s) && Enabled(s, a)
    ensures CountersOk(Next(s, a))
  {
  }

  lemma {:induction false} RunKeepsCounters(s: State, run: seq<Action>)
    requires CountersOk(s) && Valid(s, run)
    ensures CountersOk(After(s, run))
    decreases |run|
  {
    if run == [] {
    } else {
      StepKeepsCounters(s, run[0]);
      RunKeepsCounters(Next(s, run[0]), run[1..]);
    }
  }

  lemma {:induction false} SumBound(b: Option<Body>, ts: seq<Task>, succeeded: bool)
    requires forall i :: 0 <= i < |ts| ==> ts[i].retries + (if succeeded then 1 else 0) <= MAX_ATTEMPTS
    ensures Sum(Attempts(b), ts, succeeded) <= MAX_ATTEMPTS * Sum(Count(b), ts, succeeded)
  {
    if ts == [] {
    } else {
      SumBound(b, ts[..|ts| - 1], succeeded);
    }
  }

  lemma {:induction false} FlightBound(b: Option<Body>, ws: seq<Slot>)
    requires forall w :: 0 <= w < |ws| && ws[w].Busy? ==> ws[w].task.retries < MAX_ATTEMPTS
    ensures InFlight(Attempts(b), ws) <= MAX_ATTEMPTS * InFlight(Count(b), ws)
  {
    if ws == [] {
    } else {
      FlightBound(b, ws[..|ws| - 1]);
    }
  }

  lemma TotalBound(b: Option<Body>, s: State)
    requires CountersOk(s)
    ensures Total(Attempts(b), s) <= MAX_ATTEMPTS * Total(Count(b), s)
  {
    SumBound(b, s.queue, false);
    FlightBound(b, s.workers);
    SumBound(b, s.done, true);
    SumBound(b, s.dead, false);
    SumBound(b, s.lost, false);
  }

  lemma {:induction false} IdleFlight(m: Measure, ws: seq<Slot>)
    requires forall w :: 0 <= w < |ws| ==> ws[w] == Idle
    ensures InFlight(m, ws) == 0
  {
    if ws == [] {
    } else {
      IdleFlight(m, ws[..|ws| - 1]);
    }
  }

  // ---------------------------------------------------------------- whole runs

  /** Conservation, for any number of workers and any interleaving: the submissions of a body
      that were accepted are exactly accounted for as queued, in flight, done, dead-lettered or
      lost to a failed push or an unreadable pop. */
  lemma TaskConservation(s: State, run: seq<Action>, b: Body)
    requires Initial(s) && Valid(s, run)
    ensures var m := Count(Some(b)); var t := After(s, run);
            Gains(m, s, run) ==
            Sum(m, t.queue, false) + InFlight(m, t.workers) + Sum(m, t.done, true) + Sum(m, t.dead, false) + Sum(m, t.lost, false)
  {
    var m := Count(Some(b));
    RunGain(m, s, run);
    IdleFlight(m, s.workers);
  }

  /** Exact accounting of attempts: a task waiting or in flight has used as many attempts as its
      counter says, a completed one has used one more, a dead-lettered one exactly three; hence
      no accepted submission is attempted more than three times. */
  lemma AttemptsAccounted(s: State, run: seq<Action>, b: Body)
    requires Initial(s) && Valid(s, run)
    ensures var m := Attempts(Some(b)); var t := After(s, run);
            && Gains(m, s, run) == Live(m, t) + Sum(m, t.done, true) + Sum(m, t.dead, false) + Sum(m, t.lost, false)
            && Gains(m, s, run) <= 3 * Gains(Count(Some(b)), s, run)
            && (forall i :: 0 <= i < |t.dead| ==> t.dead[i].retries == 3)
            && (forall i :: 0 <= i < |t.queue| ==> t.queue[i].retries <= 2)
  {
    RunGain(Attempts(Some(b)), s, run);
    RunGain(Count(Some(b)), s, run);
    IdleFlight(Attempts(Some(b)), s.workers);
    IdleFlight(Count(Some(b)), s.workers);
    RunKeepsCounters(s, run);
    TotalBound(Some(b), After(s, run));
  }

  function PushedBy(s: State, a: Action): seq<Task>
    requires Enabled(s, a)
  {
    match a
    case Submit(b, pushed) => if pushed then [Task(b, 0)] else []
    case Fail(w, pushed) =>
      var t := s.workers[w].task;
      if pushed && t.retries + 1 < MAX_ATTEMPTS then [t.(retries := t.retries + 1)] else []
    case _ => []
  }

  /** Everything a run pushes to the work queue, in order. */
  function Pushes(s: State, run: seq<Action>): seq<Task>
    requires Valid(s, run)
    decreases |run|
  {
    if run == [] then [] else PushedBy(s, run[0]) + Pushes(Next(s, run[0]), run[1..])
  }

  function Pops(run: seq<Action>): nat {
    if run == [] then 0 else (if IsPop(run[0]) then 1 else 0) + Pops(run[1..])
  }

  predicate IsPop(a: Action) {
    a.Pop? || a.PopUnreadable?
  }

  lemma QueueStep(s: State, a: Action, rest: seq<Task>)
    requires Enabled(s, a)
    ensures IsPop(a) ==> s.queue != [] && Next(s, a).queue + rest == (s.queue + (PushedBy(s, a) + rest))[1..]
    ensures !IsPop(a) ==> Next(s, a).queue + rest == s.queue + (PushedBy(s, a) + rest)
  {
  }

  /** First in, first out, whatever the interleaving: after k pops the queue holds what was in it
      and what was pushed since, in that order, without the first k. A task at position i is the
      one the (i+1)-st pop takes, so no task is overtaken, retried ones included. */
  lemma {:induction false} FirstInFirstOut(s: State, run: seq<Action>)
    requires Valid(s, run)
    ensures Pops(run) <= |s.queue| + |Pushes(s, run)|
    ensures After(s, run).queue == (s.queue + Pushes(s, run))[Pops(run)..]
    decreases |run|
  {
    if run == [] {
      assert s.queue + Pushes(s, run) == s.queue;
    } else {
      var t := Next(s, run[0]);
      var rest := Pushes(t, run[1..]);
      FirstInFirstOut(t, run[1..]);
      QueueStep(s, run[0], rest);
    }
  }

  /** Attempts left on the tasks that are waiting or in flight. */
  function Potential(s: State): int {
    MAX_ATTEMPTS * Live(Count(None), s) - Live(Attempts(None), s)
  }

  function IsAttempt(a: Action): nat {
    if a.Succeed? || a.Fail? then 1 else 0
  }

  function AttemptCount(run: seq<Action>): nat {
    if run == [] then 0 else IsAttempt(run[0]) + AttemptCount(run[1..])
  }

  predicate NoSubmissions(run: seq<Action>) {
    forall i :: 0 <= i < |run| ==> !run[i].Submit?
  }

  lemma PotentialNonNegative(s: State)
    requires CountersOk(s)
    ensures 0 <= Potential(s) <= MAX_ATTEMPTS * Live(Count(None), s)
  {
    SumBound(None, s.queue, false);
    FlightBound(None, s.workers);
  }

  lemma FailPotential(s: State, t: Task, pushed: bool)
    requires t.retries < MAX_ATTEMPTS
    ensures Potential(Failed(s, t, pushed)) <= Potential(s) + MAX_ATTEMPTS - t.retries - 1
  {
  }

  lemma PotentialDrops(s: State, a: Action)
    requires CountersOk(s) && Enabled(s, a) && !a.Submit?
    ensures Potential(Next(s, a)) + IsAttempt(a) <= Potential(s)
    ensures a.PopUnreadable? ==> Potential(Next(s, a)) < Potential(s)
  {
    var c, n := Count(None), Attempts(None);
    match a {
      case Pop(w) =>
        SumTail(c, s.queue, false);
        SumTail(n, s.queue, false);
        SlotUpdate(c, s.workers, w, Busy(s.queue[0]));
        SlotUpdate(n, s.workers, w, Busy(s.queue[0]));
      case PopUnreadable(w) =>
        SumTail(c, s.queue, false);
        SumTail(n, s.queue, false);
      case Succeed(w) =>
        SlotUpdate(c, s.workers, w, Idle);
        SlotUpdate(n, s.workers, w, Idle);
      case Fail(w, pushed) =>
        SlotUpdate(c, s.workers, w, Idle);
        SlotUpdate(n, s.workers, w, Idle);
        FailPotential(s.(workers := s.workers[w := Idle]), s.workers[w].task, pushed);
    }
  }

  /** Progress: once submissions stop, n live tasks are worked off in at most 3n attempts, in
      any interleaving of any number of workers. */
  lemma {:induction false} DrainsInThreeAttemptsEach(s: State, run: seq<Action>)
    requires CountersOk(s) && Valid(s, run) && NoSubmissions(run)
    ensures AttemptCount(run) + Potential(After(s, run)) <= Potential(s)
    ensures AttemptCount(run) <= 3 * Live(Count(None), s)
    decreases |run|
  {
    PotentialNonNegative(s);
    if run == [] {
    } else {
      var t := Next(s, run[0]);
      PotentialDrops(s, run[0]);
      StepKeepsCounters(s, run[0]);
      assert forall i :: 0 <= i < |run[1..]| ==> run[1..][i] == run[i + 1];
      DrainsInThreeAttemptsEach(t, run[1..]);
      RunKeepsCounters(t, run[1..]);
      PotentialNonNegative(After(t, run[1..]));
    }
  }

  // ---------------------------------------------------------------- a worker

  datatype Outcome = Unreadable | Succeeds | Fails(pushed: bool)

  /** One worker's view: the shared queues, updated in place by each turn of its loop. */
  class Worker {
    var queue: seq<Task>
    var done: seq<Task>
    var dead: seq<Task>
    var lost: seq<Task>

    constructor ()
      ensures View() == State([], [Idle], [], [], [])
    {
      queue, done, dead, lost := [], [], [], [];
    }

    ghost function View(): State
      reads this
    {
      State(queue, [Idle], done, dead, lost)
    }

    /** One turn of the loop: pop, process, and on failure re-queue or dead-letter. */
    method Turn(o: Outcome) returns (popped: bool)
      modifies this
      ensures popped == (old(queue) != [])
      ensures !popped ==> View() == old(View())
      ensures popped ==> View() == Turned(old(View()), o)
      ensures popped ==>
                var task, again := old(queue)[0], old(queue)[0].(retries := old(queue)[0].retries + 1);
                match o
                case Unreadable => queue == old(queue)[1..] && lost == old(lost) + [task] && unchanged(`done, `dead)
                case Succeeds => queue == old(queue)[1..] && done == old(done) + [task] && unchanged(`dead, `lost)
                case Fails(false) => queue == old(queue)[1..] && lost == old(lost) + [again] && unchanged(`done, `dead)
                case Fails(true) =>
                  if again.retries < 3 then queue == old(queue)[1..] + [again] && unchanged(`done, `dead, `lost)
                  else queue == old(queue)[1..] && dead == old(dead) + [again] && unchanged(`done, `lost)
    {
      if queue == [] {
        return false;
      }
      var task := queue[0];
      queue := queue[1..];
      match o {
        case Unreadable => lost := lost + [task];
        case Succeeds => done := done + [task];
        case Fails(pushed) =>
          task := task.(retries := task.retries + 1);
          if task.retries < MAX_ATTEMPTS {
            if pushed {
              queue := queue + [task];
            } else {
              lost := lost + [task];
            }
          } else {
            if pushed {
              dead := dead + [task];
            } else {
              lost := lost + [task];
            }
          }
      }
      popped := true;
    }

    /** A lone worker empties the queue after at most three attempts per task. */
    method Drain(outcomes: nat -> Outcome) returns (attempts: nat)
      requires CountersOk(View())
      modifies this
      ensures queue == [] && CountersOk(View())
      ensures attempts <= 3 * |old(queue)|
      ensures forall b :: Total(Count(Some(b)), View()) == old(Total(Count(Some(b)), View()))
    {
      attempts := 0;
      ghost var start := View();
      var turn := 0;
      CountAll(queue);
      PotentialNonNegative(View());
      while queue != []
        invariant CountersOk(View())
        invariant attempts + Potential(View()) <= Potential(start)
        invariant forall b :: Total(Count(Some(b)), View()) == Total(Count(Some(b)), start)
        decreases Potential(View())
      {
        var o := outcomes(turn);
        ghost var before := View();
        var _ := Turn(o);
        TurnKeeps(before, o);
        if !o.Unreadable? {
          attempts := attempts + 1;
        }
        turn := turn + 1;
        PotentialNonNegative(View());
      }
      PotentialNonNegative(View());
    }
  }

  /** The pop and the finishing step of one turn. */
  ghost function Turned(s: State, o: Outcome): State
    requires s.queue != [] && s.workers == [Idle]
  {
    match o
    case Unreadable => Next(s, PopUnreadable(0))
    case Succeeds => Next(Next(s, Pop(0)), Succeed(0))
    case Fails(pushed) => Next(Next(s, Pop(0)), Fail(0, pushed))
  }

  lemma TurnKeeps(s: State, o: Outcome)
    requires s.queue != [] && s.workers == [Idle] && CountersOk(s)
    ensures CountersOk(Turned(s, o))
    ensures Potential(Turned(s, o)) + (if o.Unreadable? then 0 else 1) <= Potential(s)
    ensures Potential(Turned(s, o)) < Potential(s)
    ensures forall b :: Total(Count(Some(b)), Turned(s, o)) == Total(Count(Some(b)), s)
  {
    if o.Unreadable? {
      PopKeeps(s, PopUnreadable(0));
    } else {
      PopKeeps(s, Pop(0));
      FinishKeeps(Next(s, Pop(0)), if o.Succeeds? then Succeed(0) else Fail(0, o.pushed));
    }
  }

  lemma PopKeeps(s: State, a: Action)
    requires CountersOk(s) && Enabled(s, a) && (a.Pop? || a.PopUnreadable?)
    ensures CountersOk(Next(s, a)) && Potential(Next(s, a)) + (if a.Pop? then 0 else 1) <= Potential(s)
    ensures forall b :: Total(Count(Some(b)), Next(s, a)) == Total(Count(Some(b)), s)
  {
    StepKeepsCounters(s, a);
    PotentialDrops(s, a);
    forall b ensures Total(Count(Some(b)), Next(s, a)) == Total(Count(Some(b)), s) {
      StepGain(Count(Some(b)), s, a);
    }
  }

  lemma FinishKeeps(s: State, a: Action)
    requires CountersOk(s) && Enabled(s, a) && (a.Succeed? || a.Fail?)
    ensures CountersOk(Next(s, a)) && Potential(Next(s, a)) + 1 <= Potential(s)
    ensures forall b :: Total(Count(Some(b)), Next(s, a)) == Total(Count(Some(b)), s)
  {
    StepKeepsCounters(s, a);
    PotentialDrops(s, a);
    forall b ensures Total(Count(Some(b)), Next(s, a)) == Total(Count(Some(b)), s) {
      StepGain(Count(Some(b)), s, a);
    }
  }

  lemma {:induction false} CountAll(ts: seq<Task>)
    ensures Sum(Count(None), ts, false) == |ts|
  {
    if ts == [] {
    } else {
      CountAll(ts[..|ts| - 1]);
    }
  }
}
