/**
  `stop_during_startup`: a watcher task cancels its parent when a stop arrives before
  the body of the context manager is ready. Every order of stop, readiness, external
  cancellations, withdrawals, watcher wake-up and body exit is a run of the machine below.
  Each step is a stretch between two awaits. A withdrawal is what an expired timeout inside
  the body does with the cancellation it requested itself; nothing keeps a body from
  withdrawing the watcher's request instead.
 */
module StartupCancellation {
  import opened Common

  datatype Watcher = Watching | Returned | CancelRequested | Cancelled

  /** How the body left the context manager, as its caller sees it. */
  datatype Exit = Normal | OtherError | Swallowed | Reraised

  /** `since` counts the external cancellations outstanding when the final gather was entered. */
  datatype Parent =
    | InBody
    | Joining(exit: Exit, since: nat)
    | Left(exit: Exit, since: nat)

  datatype State = State(
    parent: Parent,
    watcher: Watcher,
    stopSet: bool,
    ready: bool,
    cancelling: nat,                   // parent.cancelling()
    pending: bool,                     // a CancelledError will be thrown at the parent's next await
    initiated: bool,                   // initiated_cancel
    // what happened, for the statements below
    external: nat,                     // outstanding cancellations of the parent by anyone else
    own: bool,                         // the watcher's cancellation is outstanding
    withdrawn: bool,                   // the body withdrew the watcher's cancellation
    watcherCancels: nat,
    atExit: Option<Snapshot>)          // when a CancelledError reached the except clause

  datatype Snapshot = Snapshot(initiated: bool, own: bool, external: nat)

  const FRESH := State(InBody, Watching, false, false, 0, false, false, 0, false, false, 0, None)

  datatype Step =
    | SetStop
    | SetReady
    | ExternalCancel
    | Delivered                        // the body gets a CancelledError and handles it
    | Withdraw(own: bool)              // the body calls uncancel, for the watcher's request or for another
    | WatcherWakes                     // stop.wait() returned, or the watcher's own cancellation
    | BodyReturns
    | BodyFails
    | BodyCancelled(taken: bool)       // a CancelledError leaves the body: the pending one, or another
    | Joined                           // the gather returned
    | JoinInterrupted                  // a cancellation broke the gather

  predicate Enabled(s: State, step: Step) {
    match step
    case SetStop => true
    case SetReady => s.parent.InBody?
    case ExternalCancel => !s.parent.Left?
    case Delivered => s.parent.InBody? && s.pending
    case Withdraw(own) => s.parent.InBody? && if own then s.own else s.external > 0
    case WatcherWakes => (s.watcher.Watching? && s.stopSet) || s.watcher.CancelRequested?
    case BodyReturns => s.parent.InBody?
    case BodyFails => s.parent.InBody?
    case BodyCancelled(taken) => s.parent.InBody? && (taken ==> s.pending)
    case Joined => s.parent.Joining? && !s.pending && (s.watcher.Returned? || s.watcher.Cancelled?)
    case JoinInterrupted => s.parent.Joining? && s.pending
  }

  /** The `finally` clause up to its await. */
  function Leave(s: State, exit: Exit): State {
    s.(parent := Joining(exit, s.external), watcher := if s.watcher.Watching? then CancelRequested else s.watcher)
  }

  /** `uncancel`: the last one also clears a cancellation that was not thrown yet. */
  function Uncancel(s: State, own: bool): State
    requires s.cancelling > 0 && (!own ==> s.external > 0)
  {
    s.(cancelling := s.cancelling - 1, pending := s.pending && s.cancelling > 1,
       own := s.own && !own, external := if own then s.external else s.external - 1)
  }

  /** The `except` clause. */
  function Catch(s: State): State {
    var s := s.(atExit := Some(Snapshot(s.initiated, s.own, s.external)));
    if s.initiated && s.cancelling == 1 && (s.own || s.external > 0) then Leave(Uncancel(s, s.own), Swallowed)
    else Leave(s, Reraised)
  }

  function Next(s: State, step: Step): State {
    if !Enabled(s, step) then s else
    match step
    case SetStop => s.(stopSet := true)
    case SetReady => s.(ready := true)
    case ExternalCancel => s.(cancelling := s.cancelling + 1, external := s.external + 1, pending := true)
    case Delivered => s.(pending := false)
    case Withdraw(own) =>
      if s.cancelling == 0 then s else Uncancel(s, own).(withdrawn := s.withdrawn || own)
    case WatcherWakes =>
      if s.watcher.CancelRequested? then s.(watcher := Cancelled)
      else if !s.ready && s.cancelling == 0 then
        s.(watcher := Returned, initiated := true, own := true, cancelling := s.cancelling + 1, pending := true,
           watcherCancels := s.watcherCancels + 1)
      else s.(watcher := Returned)
    case BodyReturns => Leave(s, Normal)
    case BodyFails => Leave(s, OtherError)
    case BodyCancelled(taken) => Catch(s.(pending := s.pending && !taken))
    case Joined => s.(parent := Left(s.parent.exit, s.parent.since))
    case JoinInterrupted => s.(parent := Left(Reraised, s.parent.since), pending := false)
  }

  function Run(s: State, steps: seq<Step>): State {
    if steps == [] then s else Next(Run(s, steps[..|steps| - 1]), steps[|steps| - 1])
  }

  // ----- The invariant

  /** The answer of the `except` clause, from what was outstanding when the error reached it. */
  predicate Answers(exit: Exit, at: Snapshot) {
    if at.initiated && at.external + (if at.own then 1 else 0) == 1 then exit.Swallowed? else exit.Reraised?
  }

  predicate Inv(s: State) {
    && s.cancelling == s.external + (if s.own then 1 else 0)
    && s.watcherCancels == (if s.initiated then 1 else 0)
    && (s.own || s.withdrawn ==> s.initiated)
    && (s.atExit.Some? && s.atExit.value.own ==> s.atExit.value.initiated)
    && (s.initiated ==> s.watcher.Returned? && s.stopSet)
    && (s.pending && s.parent.InBody? ==> s.cancelling > 0)
    && (s.parent.InBody? ==>
          && s.atExit.None? && !s.watcher.CancelRequested? && !s.watcher.Cancelled?
          && (s.own <==> s.initiated && !s.withdrawn))
    && (!s.parent.InBody? ==> !s.watcher.Watching?)
    && (s.parent.Joining? ==>
          && s.external >= s.parent.since && (s.external > s.parent.since ==> s.pending)
          && (s.atExit.Some? <==> s.parent.exit.Swallowed? || s.parent.exit.Reraised?)
          && (s.atExit.Some? ==> Answers(s.parent.exit, s.atExit.value))
          && (s.parent.exit.Swallowed? ==> s.parent.since == 0 && !s.own)
          && (s.parent.exit.Normal? ==> (s.own <==> s.initiated && !s.withdrawn)))
    && (s.parent.Left? && !s.parent.exit.Reraised? ==>
          && s.external == s.parent.since
          && (s.atExit.Some? ==> Answers(s.parent.exit, s.atExit.value))
          && (s.parent.exit.Swallowed? ==> s.atExit.Some? && s.parent.since == 0 && !s.own))
  }

  predicate InBodyStep(step: Step) {
    step.Delivered? || step.Withdraw? || step.WatcherWakes? || step.ExternalCancel? || step.SetStop? || step.SetReady?
  }

  lemma BodyStepKeepsInv(s: State, step: Step)
    requires Inv(s) && InBodyStep(step)
    ensures Inv(Next(s, step))
  {
  }

  lemma ExitStepKeepsInv(s: State, step: Step)
    requires Inv(s) && !InBodyStep(step)
    ensures Inv(Next(s, step))
  {
  }

  lemma {:induction false} RunKeepsInv(steps: seq<Step>)
    ensures Inv(Run(FRESH, steps))
  {
    if steps != [] {
      var front, last := Run(FRESH, steps[..|steps| - 1]), steps[|steps| - 1];
      RunKeepsInv(steps[..|steps| - 1]);
      hide Next, Inv;
      if InBodyStep(last) {
        BodyStepKeepsInv(front, last);
      } else {
        ExitStepKeepsInv(front, last);
      }
    }
  }

  // ----- Results

  /**
    The watcher cancels its parent at most once in a run. A step does it exactly when the
    watcher wakes after a stop with the body not ready and no cancellation in progress.
   */
  lemma WatcherCancelsOnce(steps: seq<Step>, step: Step)
    ensures
      var s, s' := Run(FRESH, steps), Next(Run(FRESH, steps), step);
      && s.watcherCancels <= 1
      && (s'.watcherCancels != s.watcherCancels <==>
            step.WatcherWakes? && s.watcher.Watching? && s.stopSet && !s.ready && s.cancelling == 0)
  {
    hide Run;
    RunKeepsInv(steps);
  }

  /** Step `i` reports readiness. */
  ghost predicate Reports(steps: seq<Step>, i: nat)
    requires i < |steps|
  {
    steps[i].SetReady? && Run(FRESH, steps[..i]).parent.InBody?
  }

  /** Readiness was reported, or a stop requested, in the first `n` steps. */
  ghost predicate ReadyBefore(steps: seq<Step>, n: nat)
    requires n <= |steps|
  {
    exists i | 0 <= i < n :: Reports(steps, i)
  }

  ghost predicate StoppedBefore(steps: seq<Step>, n: nat)
    requires n <= |steps|
  {
    exists i | 0 <= i < n :: steps[i].SetStop?
  }

  lemma {:induction false} ReadyTells(steps: seq<Step>, n: nat)
    requires n <= |steps|
    ensures Run(FRESH, steps[..n]).ready <==> ReadyBefore(steps, n)
  {
    hide Next;
    if n == 0 {
      assert steps[..0] == [];
    } else {
      hide Run;
      RunUpTo(steps, n);
      ReadyTells(steps, n - 1);
      FlagsStep(Run(FRESH, steps[..n - 1]), steps[n - 1]);
      ReadyOneMore(steps, n);
      hide ReadyBefore;
    }
  }

  lemma ReadyOneMore(steps: seq<Step>, n: nat)
    requires 0 < n <= |steps|
    ensures ReadyBefore(steps, n) <==>
            ReadyBefore(steps, n - 1) || (steps[n - 1].SetReady? && Run(FRESH, steps[..n - 1]).parent.InBody?)
  {
    hide Run;
    assert Reports(steps, n - 1) <==> steps[n - 1].SetReady? && Run(FRESH, steps[..n - 1]).parent.InBody?;
    hide Reports;
  }

  lemma {:induction false} StopTells(steps: seq<Step>, n: nat)
    requires n <= |steps|
    ensures Run(FRESH, steps[..n]).stopSet <==> StoppedBefore(steps, n)
  {
    hide Next;
    if n == 0 {
      assert steps[..0] == [];
    } else {
      hide Run;
      RunUpTo(steps, n);
      StopTells(steps, n - 1);
      FlagsStep(Run(FRESH, steps[..n - 1]), steps[n - 1]);
    }
  }

  lemma RunUpTo(steps: seq<Step>, n: nat)
    requires 0 < n <= |steps|
    ensures Run(FRESH, steps[..n]) == Next(Run(FRESH, steps[..n - 1]), steps[n - 1])
  {
    hide Next;
    assert steps[..n][..n - 1] == steps[..n - 1];
  }

  lemma FlagsStep(s: State, step: Step)
    ensures Next(s, step).ready <==> s.ready || (step.SetReady? && s.parent.InBody?)
    ensures Next(s, step).stopSet <==> s.stopSet || step.SetStop?
  {
    hide Uncancel, Catch, Leave;
    if step.BodyReturns? || step.BodyFails? || step.BodyCancelled? || step.Withdraw? {
      LeavingKeepsFlags(s, step);
    }
  }

  lemma LeavingKeepsFlags(s: State, step: Step)
    requires step.BodyReturns? || step.BodyFails? || step.BodyCancelled? || step.Withdraw?
    ensures Next(s, step).ready == s.ready && Next(s, step).stopSet == s.stopSet
  {
  }

  /** The watcher never cancels without a stop before, nor after readiness was reported. */
  lemma WatcherCancelsInTime(steps: seq<Step>, n: nat)
    requires n < |steps|
    requires Run(FRESH, steps[..n + 1]).watcherCancels != Run(FRESH, steps[..n]).watcherCancels
    ensures StoppedBefore(steps, n) && !ReadyBefore(steps, n)
  {
    hide Next, Run;
    ReadyTells(steps, n);
    StopTells(steps, n);
    RunUpTo(steps, n + 1);
    WatcherCancelsOnce(steps[..n], steps[n]);
  }

  /**
    A CancelledError that leaves the body is swallowed exactly when the watcher has
    cancelled and one cancellation is outstanding. While the watcher's own is outstanding,
    that means that nobody else's is; then only later external ones remain on the parent.
   */
  lemma OnlyOwnCancellationIsSwallowed(steps: seq<Step>)
    ensures
      var s := Run(FRESH, steps);
      s.parent.Joining? && s.atExit.Some? ==>
        var at := s.atExit.value;
        && (s.parent.exit.Swallowed? <==> at.initiated && at.external + (if at.own then 1 else 0) == 1)
        && (at.own ==> (s.parent.exit.Swallowed? <==> at.external == 0))
        && (s.parent.exit.Swallowed? ==> s.parent.since == 0 && s.cancelling == s.external)
  {
    hide Run, Next;
    RunKeepsInv(steps);
  }

  /**
    An outstanding cancellation by anyone else is reraised, unless it is the only one and
    the body withdrew the watcher's; one that arrives in the final gather always is.
   */
  lemma ExternalCancellationIsKept(steps: seq<Step>)
    ensures
      var s := Run(FRESH, steps);
      && (s.parent.Joining? && s.atExit.Some? && s.atExit.value.external > 0 ==>
            (s.parent.exit.Reraised? <==>
               !(s.atExit.value.initiated && !s.atExit.value.own && s.atExit.value.external == 1)))
      && (s.parent.Joining? && s.external > s.parent.since ==> Next(s, Joined) == s)
      && (s.parent.Left? && s.external > s.parent.since ==> s.parent.exit.Reraised?)
  {
    hide Run;
    RunKeepsInv(steps);
  }

  /** The state after each of `steps`, from the beginning. */
  ghost predicate Path(steps: seq<Step>, states: seq<State>) {
    && |states| == |steps| + 1 && states[0] == FRESH
    && forall i | 0 <= i < |steps| :: Next(states[i], steps[i]) == states[i + 1]
  }

  lemma {:induction false} PathIsRun(steps: seq<Step>, states: seq<State>)
    requires Path(steps, states)
    ensures Run(FRESH, steps) == states[|steps|]
  {
    hide Next;
    if steps != [] {
      var n := |steps| - 1;
      PathIsRun(steps[..n], states[..n + 1]);
    }
  }

  /** The exception happens: the watcher's request is withdrawn and an external one swallowed in its place. */
  lemma ExternalCancellationTakenForOwn()
    ensures
      var s := Run(FRESH, [SetStop, WatcherWakes, Delivered, Withdraw(true), ExternalCancel, BodyCancelled(true)]);
      && s.parent == Joining(Swallowed, 0) && s.atExit == Some(Snapshot(true, false, 1)) && s.cancelling == 0
  {
    hide Run;
    var s1 := FRESH.(stopSet := true);
    var s2 := s1.(watcher := Returned, initiated := true, own := true, cancelling := 1, pending := true, watcherCancels := 1);
    var s3 := s2.(pending := false);
    var s4 := s3.(own := false, cancelling := 0, withdrawn := true);
    var s5 := s4.(external := 1, cancelling := 1, pending := true);
    var s6 := s4.(parent := Joining(Swallowed, 0), atExit := Some(Snapshot(true, false, 1)));
    PathIsRun([SetStop, WatcherWakes, Delivered, Withdraw(true), ExternalCancel, BodyCancelled(true)],
              [FRESH, s1, s2, s3, s4, s5, s6]);
  }

  /**
    A stop can pass startup by: the watcher wakes while a timeout of the body is expiring,
    leaves it alone, and the timeout withdraws its cancellation.
   */
  lemma StopPassesExpiringTimeout()
    ensures Run(FRESH, [ExternalCancel, SetStop, WatcherWakes, Delivered, Withdraw(false)])
         == FRESH.(stopSet := true, watcher := Returned)
  {
    hide Run;
    var s1 := FRESH.(external := 1, cancelling := 1, pending := true);
    var s2 := s1.(stopSet := true);
    var s3 := s2.(watcher := Returned);
    var s4 := s3.(pending := false);
    PathIsRun([ExternalCancel, SetStop, WatcherWakes, Delivered, Withdraw(false)],
              [FRESH, s1, s2, s3, s4, FRESH.(stopSet := true, watcher := Returned)]);
  }

  // ----- How the body leaves

  /** Step `i` takes the parent out of the body. */
  ghost predicate LeavesAt(steps: seq<Step>, i: nat) {
    i < |steps| && Run(FRESH, steps[..i]).parent.InBody? && !Run(FRESH, steps[..i + 1]).parent.InBody?
  }

  /** A cancellation breaks the final gather after step `i`. */
  ghost predicate Interrupted(steps: seq<Step>, i: nat) {
    exists j | i < j < |steps| :: Breaks(steps, j)
  }

  ghost predicate Breaks(steps: seq<Step>, j: nat)
    requires j < |steps|
  {
    steps[j].JoinInterrupted? && Run(FRESH, steps[..j]).parent.Joining? && Run(FRESH, steps[..j]).pending
  }

  function ExitOf(parent: Parent): Option<Exit> {
    match parent
    case InBody => None
    case Joining(exit, _) => Some(exit)
    case Left(exit, _) => Some(exit)
  }

  lemma LeavingStep(s: State, step: Step)
    requires Inv(s) && s.parent.InBody? && !Next(s, step).parent.InBody?
    ensures step.BodyReturns? || step.BodyFails? || step.BodyCancelled?
    ensures ExitOf(Next(s, step).parent) == Some(
              if step.BodyReturns? then Normal
              else if step.BodyFails? then OtherError
              else if s.initiated && s.external + (if s.own then 1 else 0) == 1 then Swallowed
              else Reraised)
  {
  }

  lemma OutsideStep(s: State, step: Step)
    requires !s.parent.InBody?
    ensures var s' := Next(s, step);
            && !s'.parent.InBody?
            && ExitOf(s'.parent) == if step.JoinInterrupted? && s.parent.Joining? && s.pending then Some(Reraised)
                                    else ExitOf(s.parent)
  {
    hide Uncancel, Catch, Leave;
  }

  lemma InterruptedOneMore(front: seq<Step>, last: Step, i: nat)
    requires i < |front|
    ensures Interrupted(front + [last], i) <==> Interrupted(front, i) || Breaks(front + [last], |front|)
  {
    hide Run;
    var steps := front + [last];
    forall j | i < j < |front|
      ensures Breaks(steps, j) <==> Breaks(front, j)
    {
      assert steps[..j] == front[..j] && steps[j] == front[j];
    }
  }

  /**
    The way out is the body's own: it returns normally, its error leaves, and a
    cancellation is swallowed or reraised, unless a cancellation breaks the final gather,
    which is then raised in any case.
   */
  lemma {:induction false} ExitIsTheBodys(steps: seq<Step>, i: nat)
    requires LeavesAt(steps, i)
    ensures
      var at, exit := Run(FRESH, steps[..i]), ExitOf(Run(FRESH, steps).parent);
      && (steps[i].BodyReturns? || steps[i].BodyFails? || steps[i].BodyCancelled?)
      && (Interrupted(steps, i) ==> exit == Some(Reraised))
      && (!Interrupted(steps, i) ==>
            && (exit == Some(Normal) <==> steps[i].BodyReturns?)
            && (exit == Some(OtherError) <==> steps[i].BodyFails?)
            && (exit == Some(Swallowed) <==>
                  steps[i].BodyCancelled? && at.initiated && at.external + (if at.own then 1 else 0) == 1)
            && exit.Some?)
  {
    hide Next, Inv;
    var n := |steps| - 1;
    var front := steps[..n];
    if i == n {
      assert steps[..i + 1] == steps;
      RunKeepsInv(front);
      LeavingStep(Run(FRESH, front), steps[n]);
    } else {
      assert front[..i] == steps[..i] && front[..i + 1] == steps[..i + 1];
      ExitIsTheBodys(front, i);
      InterruptedOneMore(front, steps[n], i);
      assert front + [steps[n]] == steps;
      OutsideStep(Run(FRESH, front), steps[n]);
    }
  }

  /** A body that finishes although the watcher asked it to stop leaves that request counted, unless it withdrew it. */
  lemma IgnoredRequestStaysCounted(steps: seq<Step>)
    ensures
      var s := Run(FRESH, steps);
      s.parent.Joining? && s.parent.exit.Normal? && s.initiated ==>
        s.cancelling == s.external + (if s.withdrawn then 0 else 1)
  {
    hide Run, Next;
    RunKeepsInv(steps);
  }
}
