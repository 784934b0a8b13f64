/**
  Ownership of SIGTERM and SIGINT around `asyncio.run`.

  A Python signal handler interrupts the main thread between two bytecodes and runs to
  its end before the main thread goes on; a second signal can interrupt the handler. The
  machine below has one step for each stretch that nothing can interrupt.
 */
module SignalOwner {
  import opened Common

  datatype Handler = Idle | Entered(signum: int) | TimerStarted

  datatype Owner = Owner(
    stopping: bool,
    closed: bool,
    loopBound: bool,          // self._loop is set
    stopBound: bool,          // self._stop is set
    bound: bool,              // bind returned
    loopClosed: bool,
    handler: Handler,
    queued: bool,             // a stop.set callback waits in the loop
    stopSet: bool,            // the bound event
    timers: nat,              // process timers ever started
    armed: bool,
    exitStatus: Option<int>,  // what the timer would exit with
    previousHandlers: bool,   // the original handlers are back
    first: Option<int>)       // the first signal that arrived before closing

  const FRESH := Owner(false, false, false, false, false, false, Idle, false, false, 0, false, None, false, None)

  datatype Step =
    | Signal(signum: int)     // handler entry: test and set `_stopping`
    | StartTimer
    | Schedule                // call_soon_threadsafe(stop.set), and return
    | BindLoop | BindStop | BindCheck
    | LoopTurn                // the loop runs its queued callbacks
    | LoopClose
    | Close

  predicate Enabled(o: Owner, step: Step) {
    match step
    case Signal(_) => true
    case StartTimer => o.handler.Entered?
    case Schedule => o.handler.TimerStarted?
    case BindLoop => o.handler.Idle? && !o.loopBound && !o.closed
    case BindStop => o.handler.Idle? && o.loopBound && !o.stopBound && !o.closed
    case BindCheck => o.handler.Idle? && o.stopBound && !o.bound && !o.closed
    case LoopTurn => o.handler.Idle? && !o.loopClosed
    case LoopClose => o.handler.Idle? && !o.closed
    case Close => o.handler.Idle? && !o.closed
  }

  function Next(o: Owner, step: Step): Owner {
    if !Enabled(o, step) then o else
    match step
    case Signal(signum) =>
      var o := if o.closed || o.first.Some? then o else o.(first := Some(signum));
      if o.stopping || o.closed then o else o.(stopping := true, handler := Entered(signum))
    case StartTimer =>
      o.(timers := o.timers + 1, armed := true, exitStatus := Some(128 + o.handler.signum), handler := TimerStarted)
    case Schedule =>
      o.(handler := Idle, queued := o.queued || (o.loopBound && o.stopBound && !o.loopClosed))
    case BindLoop => o.(loopBound := true)
    case BindStop => o.(stopBound := true)
    case BindCheck => o.(bound := true, stopSet := o.stopSet || o.stopping)
    case LoopTurn => o.(stopSet := o.stopSet || o.queued, queued := false)
    case LoopClose => o.(loopClosed := true, queued := false)
    case Close => o.(closed := true, armed := false, previousHandlers := true)
  }

  function Run(o: Owner, steps: seq<Step>): Owner {
    if steps == [] then o else Next(Run(o, steps[..|steps| - 1]), steps[|steps| - 1])
  }

  /** Some signal of the run arrived while the owner was not closed. */
  ghost predicate RequestedBeforeClose(steps: seq<Step>) {
    exists i | 0 <= i < |steps| :: steps[i].Signal? && !Run(FRESH, steps[..i]).closed
  }

  predicate Inv(o: Owner) {
    && (o.stopping <==> o.first.Some?)
    && (o.bound ==> o.stopBound) && (o.stopBound ==> o.loopBound)
    && (o.queued ==> o.stopping && o.stopBound) && (o.stopSet ==> o.stopping && o.stopBound)
    && (o.closed ==> o.handler.Idle? && o.previousHandlers)
    && (o.armed <==> o.timers == 1 && !o.closed)
    && (match o.handler
        case Idle =>
          && o.timers == (if o.stopping then 1 else 0)
          && (o.stopping && o.bound && !o.loopClosed ==> o.stopSet || o.queued)
        case Entered(signum) => o.timers == 0 && o.first == Some(signum)
        case TimerStarted => o.timers == 1 && o.stopping)
    && (o.timers == 1 ==> o.first.Some? && o.exitStatus == Some(128 + o.first.value))
  }

  predicate InHandler(step: Step) {
    step.Signal? || step.StartTimer? || step.Schedule?
  }

  lemma HandlerKeepsInv(o: Owner, step: Step)
    requires Inv(o) && InHandler(step)
    ensures Inv(Next(o, step))
    ensures Next(o, step).first.Some? <==> o.first.Some? || (step.Signal? && !o.closed)
  {
  }

  lemma MainKeepsInv(o: Owner, step: Step)
    requires Inv(o) && !InHandler(step)
    ensures Inv(Next(o, step)) && Next(o, step).first == o.first
  {
  }

  lemma NextKeepsInv(o: Owner, step: Step)
    requires Inv(o)
    ensures Inv(Next(o, step))
    ensures Next(o, step).first.Some? <==> o.first.Some? || (step.Signal? && !o.closed)
  {
    hide Inv, Next;
    if InHandler(step) {
      HandlerKeepsInv(o, step);
    } else {
      MainKeepsInv(o, step);
    }
  }

  lemma RequestedOneMore(front: seq<Step>, last: Step)
    ensures RequestedBeforeClose(front + [last])
            <==> RequestedBeforeClose(front) || (last.Signal? && !Run(FRESH, front).closed)
  {
    hide Run;
    var steps := front + [last];
    assert steps[..|front|] == front;
    assert forall i | 0 <= i < |front| :: steps[..i] == front[..i] && steps[i] == front[i];
    if RequestedBeforeClose(front) {
      var i :| 0 <= i < |front| && front[i].Signal? && !Run(FRESH, front[..i]).closed;
      assert steps[i].Signal? && !Run(FRESH, steps[..i]).closed;
    }
    if last.Signal? && !Run(FRESH, front).closed {
      assert steps[|front|].Signal? && !Run(FRESH, steps[..|front|]).closed;
    }
  }

  lemma {:induction false} RunKeepsInv(steps: seq<Step>)
    ensures Inv(Run(FRESH, steps))
    ensures Run(FRESH, steps).first.Some? <==> RequestedBeforeClose(steps)
  {
    if steps != [] {
      var front, last := steps[..|steps| - 1], steps[|steps| - 1];
      hide Next, Inv, RequestedBeforeClose;
      RunKeepsInv(front);
      NextKeepsInv(Run(FRESH, front), last);
      RequestedOneMore(front, last);
      assert front + [last] == steps;
    }
  }

  /**
    For every order of signals, bind, loop turns and closing: once no handler is running,
    exactly one process timer was started if a stop was requested before closing and none
    otherwise, with the status of the first signal; the timer stays armed until close;
    and while the bound loop lives, its next turn leaves the event set exactly when a stop
    was requested.
   */
  lemma StopReachesEvent(steps: seq<Step>)
    ensures
      var o := Run(FRESH, steps);
      && (o.timers <= 1)
      && (o.handler.Idle? ==> (o.timers == 1 <==> RequestedBeforeClose(steps)))
      && (o.timers == 1 ==> o.first.Some? && o.exitStatus == Some(128 + o.first.value))
      && (o.armed <==> o.timers == 1 && !o.closed)
      && (o.closed ==> o.previousHandlers)
      && (o.handler.Idle? && o.bound && !o.loopClosed ==>
            (Next(o, LoopTurn).stopSet <==> RequestedBeforeClose(steps)))
      && (o.stopSet ==> RequestedBeforeClose(steps))
  {
    RunKeepsInv(steps);
  }

  /** Repeated signals neither restart the timer nor change its status. */
  lemma RepeatedSignalIsIgnored(steps: seq<Step>, signum: int)
    ensures var o := Run(FRESH, steps); o.stopping || o.closed ==> Run(FRESH, steps + [Signal(signum)]) == o
  {
    RunKeepsInv(steps);
    assert (steps + [Signal(signum)])[..|steps|] == steps;
  }

  /** What an uninterrupted handler leaves behind. */
  function Handled(o: Owner, signum: int): Owner {
    if o.stopping || o.closed then o
    else o.(stopping := true, first := Some(signum), timers := o.timers + 1, armed := true,
            exitStatus := Some(128 + signum), queued := o.queued || (o.loopBound && o.stopBound && !o.loopClosed))
  }

  lemma HandlerRuns(o: Owner, signum: int)
    requires Inv(o) && o.handler.Idle?
    ensures Run(o, [Signal(signum), StartTimer, Schedule]) == Handled(o, signum) && Inv(Handled(o, signum))
  {
    Unroll3(o, Signal(signum), StartTimer, Schedule);
    hide Run;
  }

  /** The object of the source; a method call that nothing interrupts is a run of the machine. */
  class SignalOwnership {
    var stopping: bool
    var closed: bool
    var loopBound: bool
    var stopBound: bool
    var queued: bool
    var stopSet: bool
    var loopClosed: bool
    var timers: nat
    var armed: bool
    var exitStatus: Option<int>
    var previousHandlers: bool
    ghost var first: Option<int>

    ghost function View(): Owner
      reads this
    {
      Owner(stopping, closed, loopBound, stopBound, stopBound, loopClosed, Idle, queued, stopSet, timers, armed,
            exitStatus, previousHandlers, first)
    }

    ghost predicate Valid()
      reads this
    {
      Inv(View())
    }

    constructor ()
      ensures View() == FRESH && Valid()
    {
      stopping, closed, loopBound, stopBound, queued, stopSet, loopClosed := false, false, false, false, false, false, false;
      timers, armed, exitStatus, previousHandlers, first := 0, false, None, false, None;
    }

    method Bind()
      requires Valid() && !closed && !loopBound
      modifies this
      ensures View() == Run(old(View()), [BindLoop, BindStop, BindCheck]) && Valid()
    {
      Unroll3(View(), BindLoop, BindStop, BindCheck);
      loopBound, stopBound := true, true;
      if stopping {
        stopSet := true;
      }
    }

    method RequestStop(signum: int)
      requires Valid()
      modifies this
      ensures View() == Run(old(View()), [Signal(signum), StartTimer, Schedule]) && Valid()
    {
      HandlerRuns(View(), signum);
      hide Run, Inv, Next;
      if stopping || closed {
        return;
      }
      stopping := true;
      first := Some(signum);
      timers, armed, exitStatus := timers + 1, true, Some(128 + signum);
      if loopBound && stopBound && !loopClosed {
        queued := true;
      }
    }

    method Close()
      requires Valid() && !closed
      modifies this
      ensures View() == Next(old(View()), Step.Close) && Valid()
    {
      closed := true;
      armed := false;
      previousHandlers := true;
    }
  }

  lemma Unroll3(o: Owner, a: Step, b: Step, c: Step)
    ensures Run(o, [a, b, c]) == Next(Next(Next(o, a), b), c)
  {
    hide Next;
    var one, two, three := [a], [a, b], [a, b, c];
    assert three[..2] == two && two[..1] == one && one[..0] == [];
    assert Run(o, one) == Next(o, a);
    assert Run(o, two) == Next(Next(o, a), b);
  }
}
