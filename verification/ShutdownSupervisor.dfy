/**
  `supervise_shutdown`: stop background work at once, let consumers drain until a
  deadline, cancel what is left, and return only when everything is done. Between two
  awaits the supervisor runs alone; during an await any task may finish, anyone may
  cancel any task or withdraw a cancellation, as an expiring timeout does, and time
  passes.
 */
module ShutdownSupervisor {
  import opened Common

  const SECOND: Time := 1_000_000_000
  const DRAIN_TIMEOUT: Time := 20 * SECOND
  const CLEANUP_TIMEOUT: Time := 10 * SECOND

  type TaskId = nat

  /** `cancelledAt` lists the moments the supervisor itself cancelled it. */
  datatype Task = Task(done: bool, cancelling: nat, cancelledAt: seq<Time>)

  type Tasks = map<TaskId, Task>

  /** What other code may do to tasks: finish them, cancel them, withdraw cancellations. */
  predicate Evolves(a: Tasks, b: Tasks) {
    a.Keys == b.Keys && forall t | t in a :: (a[t].done ==> b[t].done) && a[t].cancelledAt == b[t].cancelledAt
  }

  lemma EvolvesKeepsKeys(a: Tasks, b: Tasks)
    requires Evolves(a, b)
    ensures a.Keys == b.Keys
  {
  }

  function Ids(list: seq<TaskId>): set<TaskId> {
    set t | t in list
  }

  predicate AllDone(tasks: Tasks, ids: set<TaskId>) {
    forall t | t in ids && t in tasks :: tasks[t].done
  }

  /** `cancel_once` acts on a task that is neither done nor being cancelled. */
  predicate Cancellable(task: Task) {
    !task.done && task.cancelling == 0
  }

  /** Every cancellable task of `ids` gets one cancellation. */
  function Cancelled(tasks: Tasks, ids: set<TaskId>, now: Time): Tasks {
    map t | t in tasks ::
      if t in ids && Cancellable(tasks[t]) then Task(false, 1, tasks[t].cancelledAt + [now]) else tasks[t]
  }

  /** The tasks as they were when an await returned. */
  datatype Moment = Moment(now: Time, tasks: Tasks)

  class Loop {
    var now: Time
    var stopSet: bool
    var tasks: Tasks
    /** One entry for each await of the supervisor that returned. */
    ghost var awaited: seq<Moment>

    method AwaitStop()
      modifies this
      ensures stopSet && now >= old(now) && Evolves(old(tasks), tasks)
      ensures awaited == old(awaited) + [Moment(now, tasks)]
    {
      assert Evolves(tasks, tasks);
      var later: Time, after: Tasks :| later >= now && Evolves(tasks, after);
      now, tasks, stopSet := later, after, true;
      awaited := awaited + [Moment(now, tasks)];
    }

    /** `asyncio.wait(ids, timeout=…)`: back when all are done or the timer is due. */
    method Wait(ids: set<TaskId>, deadline: Time) returns (pending: set<TaskId>)
      requires ids <= tasks.Keys
      modifies this`now, this`tasks, this`awaited
      ensures now >= old(now) && Evolves(old(tasks), tasks)
      ensures awaited == old(awaited) + [Moment(now, tasks)]
      ensures pending == set t | t in ids && !tasks[t].done
      ensures AllDone(tasks, ids) || now >= deadline
    {
      assert Evolves(tasks, tasks);
      var after: Tasks :| Evolves(tasks, after);
      var passed: int :| passed >= 0;
      var later := passed + if AllDone(after, ids) then now else Max(now, deadline);
      EvolvesKeepsKeys(tasks, after);
      now, tasks := later, after;
      awaited := awaited + [Moment(now, tasks)];
      assert ids <= tasks.Keys;
      pending := set t | t in ids && !tasks[t].done;
    }

    /** `asyncio.wait(ids)`: back when all are done. */
    method WaitAll(ids: set<TaskId>)
      requires ids <= tasks.Keys
      modifies this`now, this`tasks, this`awaited
      ensures now >= old(now) && Evolves(old(tasks), tasks) && AllDone(tasks, ids)
      ensures awaited == old(awaited) + [Moment(now, tasks)]
    {
      var finished := map t | t in tasks :: tasks[t].(done := true);
      assert Evolves(tasks, finished) && AllDone(finished, ids);
      var later: Time, after: Tasks :| later >= now && Evolves(tasks, after) && AllDone(after, ids);
      now, tasks := later, after;
      awaited := awaited + [Moment(now, tasks)];
    }

    /** `cancel_once`: leave a finished task and a cancellation already in progress alone. */
    method CancelOnce(t: TaskId)
      requires t in tasks
      modifies this`tasks
      ensures tasks == Cancelled(old(tasks), {t}, now)
    {
      if !tasks[t].done && tasks[t].cancelling == 0 {
        tasks := tasks[t := Task(false, 1, tasks[t].cancelledAt + [now])];
      }
    }

    /** `for task in ids: cancel_once(task)`, with no await in between. */
    method CancelEach(ids: seq<TaskId>)
      requires forall i | 0 <= i < |ids| :: ids[i] in tasks
      modifies this`tasks
      ensures tasks == Cancelled(old(tasks), Ids(ids), now)
      ensures tasks.Keys == old(tasks).Keys
    {
      for i := 0 to |ids|
        invariant tasks.Keys == old(tasks).Keys
        invariant tasks == Cancelled(old(tasks), Ids(ids[..i]), now)
      {
        CancelOnce(ids[i]);
        CancelOneMore(old(tasks), ids, i, now);
      }
      assert ids[..|ids|] == ids;
    }
  }

  lemma CancelOneMore(tasks: Tasks, ids: seq<TaskId>, i: nat, now: Time)
    requires i < |ids|
    ensures Cancelled(Cancelled(tasks, Ids(ids[..i]), now), {ids[i]}, now)
            == Cancelled(tasks, Ids(ids[..i + 1]), now)
  {
    assert ids[..i + 1] == ids[..i] + [ids[i]];
    assert Ids(ids[..i + 1]) == Ids(ids[..i]) + {ids[i]};
  }

  /**
    What the supervisor does between its first two awaits and its end: it cancels the
    background tasks at the stop and the consumers when the drain wait is over, which is
    when all consumers are done or the drain timeout has passed, and ends when all are done.
   */
  ghost predicate Supervised(
      consumers: set<TaskId>, background: set<TaskId>, stop: Moment, drained: Moment, end: Moment)
  {
    && stop.now <= drained.now <= end.now
    && Evolves(Cancelled(stop.tasks, background, stop.now), drained.tasks)
    && (AllDone(drained.tasks, consumers) || drained.now >= stop.now + DRAIN_TIMEOUT)
    && Evolves(Cancelled(drained.tasks, consumers, drained.now), end.tasks)
    && AllDone(end.tasks, consumers + background)
  }

  function Unfinished(tasks: Tasks, ids: set<TaskId>): set<TaskId> {
    set t | t in ids && t in tasks && !tasks[t].done
  }

  /**
    The awaits of the final join: none if everything is done, one if it gets done in time,
    and a second one after a warning that so many tasks have outlived the deadline.
   */
  ghost predicate Joined(start: Tasks, waits: seq<Moment>, ids: set<TaskId>, deadline: Time, warned: nat) {
    && |waits| == (if Unfinished(start, ids) == {} then 0 else if warned == 0 then 1 else 2)
    && (waits == [] ==> warned == 0)
    && (waits != [] ==> warned == |Unfinished(waits[0].tasks, ids)| && (warned == 0 || waits[0].now >= deadline))
  }

  // ----- What follows in every schedule

  /** The cancellation a round of `cancel_once` gives to one task. */
  function Given(m: Moment, ids: set<TaskId>, t: TaskId): seq<Time>
    requires t in m.tasks
  {
    if t in ids && Cancellable(m.tasks[t]) then [m.now] else []
  }

  /**
    A listed task gets the supervisor's cancellation exactly when it is neither done nor
    being cancelled at that moment: background tasks at the stop, consumers at the end of
    the drain wait, nobody else and at no other time.
   */
  lemma CancellationsAre(
      consumers: set<TaskId>, background: set<TaskId>, stop: Moment, drained: Moment, end: Moment, t: TaskId)
    requires Supervised(consumers, background, stop, drained, end) && t in stop.tasks
    ensures t in drained.tasks && t in end.tasks
    ensures end.tasks[t].cancelledAt
         == stop.tasks[t].cancelledAt + Given(stop, background, t) + Given(drained, consumers, t)
  {
    assert t in Cancelled(stop.tasks, background, stop.now);
    assert t in Cancelled(drained.tasks, consumers, drained.now);
  }

  /**
    At most one cancellation for a task that is not on both lists; a background task only
    at the stop, a consumer only after the drain timeout.
   */
  lemma CancelledAtMostOnce(
      consumers: set<TaskId>, background: set<TaskId>, stop: Moment, drained: Moment, end: Moment, t: TaskId)
    requires Supervised(consumers, background, stop, drained, end) && t in stop.tasks
    requires stop.tasks[t].cancelledAt == [] && !(t in consumers && t in background)
    ensures t in end.tasks && |end.tasks[t].cancelledAt| <= 1
    ensures end.tasks[t].cancelledAt != [] ==>
              || (t in background && end.tasks[t].cancelledAt[0] == stop.now)
              || (t in consumers && end.tasks[t].cancelledAt[0] == drained.now >= stop.now + DRAIN_TIMEOUT)
  {
    CancellationsAre(consumers, background, stop, drained, end, t);
  }

  /**
    Not everybody who outlives the stop is asked to end by the supervisor: a background task
    whose own timeout expires as the stop arrives is being cancelled, so it is passed over;
    the timeout withdraws that cancellation, and the background task ends in its own time.
   */
  lemma WithdrawnIsNotAsked(t: TaskId, c: TaskId, stop: Time, later: Time)
    requires t != c && stop <= later
    ensures
      var consumer := Task(true, 0, []);
      var atStop := Moment(stop, map[t := Task(false, 1, []), c := consumer]);
      var drained := Moment(later, map[t := Task(false, 0, []), c := consumer]);
      var end := Moment(later, map[t := Task(true, 0, []), c := consumer]);
      && Supervised({c}, {t}, atStop, drained, end)
      && !drained.tasks[t].done && end.tasks[t].cancelledAt == []
  {
    var consumer := Task(true, 0, []);
    var tasks := map[t := Task(false, 1, []), c := consumer];
    assert Cancelled(tasks, {t}, stop) == tasks;
    var drained := map[t := Task(false, 0, []), c := consumer];
    assert Cancelled(drained, {c}, later) == drained;
  }

  /** Asked to end: a cancellation in progress, or none needed. */
  predicate Asked(tasks: Tasks, ids: set<TaskId>) {
    forall t | t in ids && t in tasks :: tasks[t].done || tasks[t].cancelling > 0
  }

  /** Right after each round of cancellations nobody on its list is left unasked. */
  lemma CancelledAreAsked(tasks: Tasks, ids: set<TaskId>, now: Time)
    ensures Asked(Cancelled(tasks, ids, now), ids)
  {
  }

  // ----- The supervisor

  /**
    In every schedule the supervisor is a run of `Supervised`, from the return of its first
    await. Waiting for no consumers at all is an error of `asyncio.wait`, raised after the
    background tasks were cancelled.
   */
  method SuperviseShutdown(loop: Loop, consumers: seq<TaskId>, background: seq<TaskId>)
    returns (raised: bool, warned: nat)
    requires Ids(consumers) <= loop.tasks.Keys && Ids(background) <= loop.tasks.Keys
    modifies loop
    ensures loop.stopSet && (raised <==> consumers == [])
    ensures |loop.awaited| > |old(loop.awaited)| && old(loop.awaited) <= loop.awaited
    ensures var stop := loop.awaited[|old(loop.awaited)|];
            && stop.now >= old(loop.now) && Evolves(old(loop.tasks), stop.tasks)
            && (raised ==> loop.tasks == Cancelled(stop.tasks, Ids(background), stop.now))
            && (!raised ==> |loop.awaited| > |old(loop.awaited)| + 1)
            && (!raised ==>
                  Supervised(Ids(consumers), Ids(background), stop, loop.awaited[|old(loop.awaited)| + 1],
                             Moment(loop.now, loop.tasks)))
            && (!raised ==>
                  var drained := loop.awaited[|old(loop.awaited)| + 1];
                  Joined(Cancelled(drained.tasks, Ids(consumers), drained.now), loop.awaited[|old(loop.awaited)| + 2..],
                         Ids(consumers) + Ids(background), stop.now + 30 * SECOND, warned))
  {
    hide Cancelled, Evolves, Joined, AllDone;
    var ours, others := Ids(consumers), Ids(background);
    loop.AwaitStop();
    EvolvesKeepsKeys(old(loop.tasks), loop.tasks);
    var drainDeadline := loop.now + DRAIN_TIMEOUT;
    var cleanupDeadline := drainDeadline + CLEANUP_TIMEOUT;
    loop.CancelEach(background);
    if consumers == [] {
      return true, 0;
    }
    ghost var before := loop.tasks;
    var pending := loop.Wait(ours, drainDeadline);
    EvolvesKeepsKeys(before, loop.tasks);
    ghost var drained := loop.tasks;
    var late := Listed(pending);
    assert forall i | 0 <= i < |late| :: late[i] in Ids(late);
    CancelTheLate(drained, ours, pending, loop.now);
    loop.CancelEach(late);
    ghost var awaits := loop.awaited;
    warned := JoinAll(loop, ours + others, cleanupDeadline);
    assert loop.awaited[..|awaits|] == awaits;
    raised := false;
  }

  /** Of the consumers only the pending ones are cancellable. */
  lemma CancelTheLate(tasks: Tasks, ids: set<TaskId>, pending: set<TaskId>, now: Time)
    requires ids <= tasks.Keys && pending == set t | t in ids && !tasks[t].done
    ensures Cancelled(tasks, pending, now) == Cancelled(tasks, ids, now)
  {
  }

  lemma EvolvesTwice(a: Tasks, b: Tasks, c: Tasks)
    requires Evolves(a, b) && Evolves(b, c)
    ensures Evolves(a, c)
  {
  }

  /** Wait until everything is done, with a warning at the cleanup deadline. */
  method JoinAll(loop: Loop, ids: set<TaskId>, deadline: Time) returns (warned: nat)
    requires ids <= loop.tasks.Keys
    modifies loop`now, loop`tasks, loop`awaited
    ensures loop.now >= old(loop.now) && old(loop.awaited) <= loop.awaited
    ensures Evolves(old(loop.tasks), loop.tasks) && AllDone(loop.tasks, ids)
    ensures Joined(old(loop.tasks), loop.awaited[|old(loop.awaited)|..], ids, deadline, warned)
  {
    warned := 0;
    var remaining := set t | t in ids && !loop.tasks[t].done;
    if remaining != {} {
      remaining := loop.Wait(remaining, deadline);
    }
    EvolvesKeepsKeys(old(loop.tasks), loop.tasks);
    assert remaining == Unfinished(loop.tasks, ids);
    assert forall t | t in ids :: t in loop.tasks && (loop.tasks[t].done || t in remaining);
    if remaining != {} {
      warned := |remaining|;
      ghost var before := loop.tasks;
      loop.WaitAll(remaining);
      EvolvesTwice(old(loop.tasks), before, loop.tasks);
    }
  }

  /** The members of a set, in some order. */
  method Listed(ids: set<TaskId>) returns (list: seq<TaskId>)
    ensures Ids(list) == ids
  {
    list := [];
    var rest := ids;
    while rest != {}
      invariant rest <= ids && Ids(list) == ids - rest
      decreases |rest|
    {
      var t :| t in rest;
      assert Ids(list + [t]) == Ids(list) + {t};
      list, rest := list + [t], rest - {t};
    }
  }
}
