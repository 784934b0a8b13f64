/**
  The wake-up protocol between the database, the LISTEN bridge and the sweeper.

  Receipts commit and notify at any moment; the bridge connects, issues LISTEN, sets the
  wake flag once, and then sets it for every notification it receives; it can lose its
  connection, and with it undelivered notifications, at any moment; the sweeper clears
  the flag once per round, gives every provider its turn, and blocks on the flag. All of
  these steps interleave freely. `clock` orders them.
 */
module WakeProtocol {
  import opened Common

  datatype Listener =
    | Offline          // no connection, or connected before LISTEN took effect
    | Installed        // LISTEN took effect; the flag is not set yet
    | Receiving        // in the notification loop

  /** What became of a provider's turn in the latest round. */
  datatype Turn =
    | Pending
    | Cooling                          // skipped
    | InScan(start: nat)
    | Failed(start: nat)
    | Drained(start: nat)              // no error, fewer rows than the limit
    | Full(start: nat)

  datatype Phase =
    | Top                              // about to clear the flag
    | Providers(index: nat)            // about to look at this provider
    | Tail                             // rules refresh and maintenance
    | Blocked                          // waiting on the flag or a deadline

  datatype State = State(
    clock: nat,
    // sweeper
    phase: Phase,
    immediate: bool,
    wake: bool,
    turns: seq<Turn>,
    roundStart: nat,
    // bridge
    listener: Listener,
    undelivered: nat,
    // database: for every provider, when its latest receipt committed
    lastCommit: seq<Option<nat>>)

  datatype Outcome = Error | NotFull | IsFull

  datatype Step =
    | Commit(provider: nat)
    | Listen | PostListenSet | Deliver | Disconnect
    | Clear
    | SkipCooling
    | ScanStart
    | ScanEnd(outcome: Outcome)
    | ProvidersDone(rulesFull: bool)
    | Decide
    | WakeUp                           // the flag is set
    | Expire                           // a deadline passed

  predicate Enabled(s: State, step: Step) {
    match step
    case Commit(p) => p < |s.lastCommit|
    case Listen => s.listener.Offline?
    case PostListenSet => s.listener.Installed?
    case Deliver => s.listener.Receiving? && s.undelivered > 0
    case Disconnect => !s.listener.Offline?
    case Clear => s.phase.Top?
    case SkipCooling => s.phase.Providers? && s.phase.index < |s.turns| && s.turns[s.phase.index].Pending?
    case ScanStart => s.phase.Providers? && s.phase.index < |s.turns| && s.turns[s.phase.index].Pending?
    case ScanEnd(_) => s.phase.Providers? && s.phase.index < |s.turns| && s.turns[s.phase.index].InScan?
    case ProvidersDone(_) => s.phase.Providers? && s.phase.index >= |s.turns|
    case Decide => s.phase.Tail?
    case WakeUp => s.phase.Blocked? && s.wake
    case Expire => s.phase.Blocked?
  }

  function Effect(s: State, step: Step): State
    requires Enabled(s, step)
  {
    match step
    case Commit(p) =>
      // NOTIFY is delivered at commit, to the connections that LISTEN at that moment.
      s.(lastCommit := s.lastCommit[p := Some(s.clock)],
         undelivered := if s.listener.Offline? then s.undelivered else s.undelivered + 1)
    case Listen => s.(listener := Installed, undelivered := 0)
    case PostListenSet => s.(listener := Receiving, wake := true)
    case Deliver => s.(undelivered := s.undelivered - 1, wake := true)
    case Disconnect => s.(listener := Offline, undelivered := 0)
    case Clear =>
      s.(wake := false, immediate := false, phase := Providers(0), roundStart := s.clock,
         turns := seq(|s.turns|, _ => Pending))
    case SkipCooling =>
      s.(turns := s.turns[s.phase.index := Cooling], phase := Providers(s.phase.index + 1))
    case ScanStart => s.(turns := s.turns[s.phase.index := InScan(s.clock)])
    case ScanEnd(outcome) =>
      var start := s.turns[s.phase.index].start;
      var turn := match outcome case Error => Failed(start) case NotFull => Drained(start) case IsFull => Full(start);
      s.(turns := s.turns[s.phase.index := turn],
         phase := Providers(s.phase.index + 1),
         immediate := s.immediate || outcome.IsFull?)
    case ProvidersDone(rulesFull) => s.(phase := Tail, immediate := s.immediate || rulesFull)
    case Decide => s.(phase := if s.immediate then Top else Blocked)
    case WakeUp => s.(phase := Top)
    case Expire => s.(phase := Top)
  }

  /** One step; a step that is not enabled only lets time pass. */
  function Next(s: State, step: Step): State {
    var s' := if Enabled(s, step) then Effect(s, step) else s;
    s'.(clock := s.clock + 1)
  }

  function Run(s: State, steps: seq<Step>): State {
    if steps == [] then s else Next(Run(s, steps[..|steps| - 1]), steps[|steps| - 1])
  }

  /** A worker starts: nothing is connected, and receipts may already be there. */
  predicate Initial(s: State) {
    && s.phase == Top && !s.immediate && !s.wake
    && |s.turns| == |s.lastCommit|
    && s.listener == Offline && s.undelivered == 0
    && s.roundStart <= s.clock
    && forall p | 0 <= p < |s.lastCommit| && s.lastCommit[p].Some? :: s.lastCommit[p].value < s.clock
  }

  // ----- The invariant

  /** A receipt committed since the flag was last cleared. */
  ghost predicate NewsSinceClear(s: State) {
    exists p | 0 <= p < |s.lastCommit| :: s.lastCommit[p].Some? && s.lastCommit[p].value >= s.roundStart
  }

  /** News since the last clear is on its way: the flag, a notification, or a reconnect will bring it. */
  ghost predicate NewsIsComing(s: State) {
    s.wake || s.undelivered > 0 || !s.listener.Receiving?
  }

  /** A turn taken in this round: never before the flag was cleared. */
  predicate TurnInRound(s: State, turn: Turn) {
    match turn
    case Pending => true
    case Cooling => true
    case InScan(start) => s.roundStart <= start < s.clock
    case Failed(start) => s.roundStart <= start < s.clock
    case Drained(start) => s.roundStart <= start < s.clock
    case Full(start) => s.roundStart <= start < s.clock && s.immediate
  }

  /** Some scan of this round came back with a full batch. */
  ghost predicate SomeFull(s: State) {
    exists p | 0 <= p < |s.turns| :: s.turns[p].Full?
  }

  function TurnsDone(s: State): nat {
    match s.phase
    case Top => 0
    case Providers(index) => Min(index, |s.turns|)
    case Tail => |s.turns|
    case Blocked => |s.turns|
  }

  ghost predicate RoundInv(s: State) {
    !s.phase.Top? ==>
      && (forall p | 0 <= p < |s.turns| :: TurnInRound(s, s.turns[p]))
      && (forall p | 0 <= p < TurnsDone(s) :: !s.turns[p].Pending? && !s.turns[p].InScan?)
      && (NewsSinceClear(s) ==> NewsIsComing(s))
      && (s.phase.Blocked? ==> !s.immediate)
      && (s.phase.Providers? && s.immediate ==> SomeFull(s))
  }

  ghost predicate Inv(s: State) {
    && |s.turns| == |s.lastCommit|
    && s.roundStart <= s.clock
    && (forall p | 0 <= p < |s.lastCommit| && s.lastCommit[p].Some? :: s.lastCommit[p].value < s.clock)
    && RoundInv(s)
  }

  lemma SweeperKeepsInv(s: State, step: Step)
    requires Inv(s) && Enabled(s, step)
    requires !(step.Commit? || step.Listen? || step.PostListenSet? || step.Deliver? || step.Disconnect?)
    ensures Inv(Next(s, step))
  {
    var s' := Next(s, step);
    assert NewsSinceClear(s') && !step.Clear? ==> NewsSinceClear(s);
    if step.ScanEnd? {
      assert s'.turns[s.phase.index].Full? <==> step.outcome.IsFull?;
    }
    if SomeFull(s) && s'.phase.Providers? && !step.Clear? {
      var p :| 0 <= p < |s.turns| && s.turns[p].Full?;
      assert s'.turns[p].Full?;
    }
    if step.Clear? {
      assert !NewsSinceClear(s');
    }
  }

  lemma BridgeKeepsInv(s: State, step: Step)
    requires Inv(s) && Enabled(s, step)
    requires step.Commit? || step.Listen? || step.PostListenSet? || step.Deliver? || step.Disconnect?
    ensures Inv(Next(s, step))
  {
  }

  lemma NextKeepsInv(s: State, step: Step)
    requires Inv(s)
    ensures Inv(Next(s, step))
  {
    if Enabled(s, step) {
      if step.Commit? || step.Listen? || step.PostListenSet? || step.Deliver? || step.Disconnect? {
        BridgeKeepsInv(s, step);
      } else {
        SweeperKeepsInv(s, step);
      }
    } else {
      assert NewsSinceClear(Next(s, step)) ==> NewsSinceClear(s);
    }
  }

  lemma {:induction false} RunKeepsInv(s: State, steps: seq<Step>)
    requires Inv(s)
    ensures Inv(Run(s, steps))
  {
    if steps != [] {
      RunKeepsInv(s, steps[..|steps| - 1]);
      NextKeepsInv(Run(s, steps[..|steps| - 1]), steps[|steps| - 1]);
    }
  }

  // ----- What the steps of a run say

  /** The turn of a provider in the latest round, read off the steps; `at` is the step that began its scan. */
  datatype Seen = NotYet | Skipped | Begun(at: nat) | Ended(at: nat, outcome: Outcome)

  /** How step number `n`, taken in state `s`, changes what is seen of provider `p`. */
  function SeenNext(s: State, step: Step, p: nat, seen: Seen, n: nat): Seen {
    if !Enabled(s, step) then seen
    else if step.Clear? then NotYet
    else if !s.phase.Providers? || s.phase.index != p then seen
    else if step.SkipCooling? then Skipped
    else if step.ScanStart? then Begun(n)
    else if step.ScanEnd? && seen.Begun? then Ended(seen.at, step.outcome)
    else seen
  }

  function TurnSeen(s: State, steps: seq<Step>, p: nat): Seen {
    if steps == [] then NotYet else
    var n := |steps| - 1;
    SeenNext(Run(s, steps[..n]), steps[n], p, TurnSeen(s, steps[..n], p), n)
  }

  /** A turn of the state is what the steps say, with times counted from `since`. */
  predicate Tells(turn: Turn, seen: Seen, since: nat) {
    match turn
    case Pending => seen.NotYet?
    case Cooling => seen.Skipped?
    case InScan(start) => seen.Begun? && start == since + seen.at
    case Failed(start) => seen.Ended? && seen.outcome.Error? && start == since + seen.at
    case Drained(start) => seen.Ended? && seen.outcome.NotFull? && start == since + seen.at
    case Full(start) => seen.Ended? && seen.outcome.IsFull? && start == since + seen.at
  }

  lemma StepTells(s: State, step: Step, p: nat, seen: Seen, since: nat, n: nat)
    requires s.clock == since + n && p < |s.turns|
    requires !s.phase.Top? ==> Tells(s.turns[p], seen, since)
    ensures var s' := Next(s, step);
            p < |s'.turns| && (!s'.phase.Top? ==> Tells(s'.turns[p], SeenNext(s, step, p, seen, n), since))
  {
  }

  lemma {:induction false} ClockCounts(s: State, steps: seq<Step>)
    ensures Run(s, steps).clock == s.clock + |steps|
  {
    if steps != [] {
      ClockCounts(s, steps[..|steps| - 1]);
      hide Enabled, Effect;
    }
  }

  lemma {:induction false} TurnsTell(s: State, steps: seq<Step>, p: nat)
    requires Initial(s) && p < |s.lastCommit|
    ensures var end := Run(s, steps);
            p < |end.turns| && (!end.phase.Top? ==> Tells(end.turns[p], TurnSeen(s, steps, p), s.clock))
  {
    if steps != [] {
      hide Next, SeenNext;
      var n := |steps| - 1;
      TurnsTell(s, steps[..n], p);
      ClockCounts(s, steps[..n]);
      StepTells(Run(s, steps[..n]), steps[n], p, TurnSeen(s, steps[..n], p), s.clock, n);
    }
  }

  lemma StepRecords(s: State, step: Step, p: nat)
    requires p < |s.lastCommit|
    ensures var s' := Next(s, step);
            && p < |s'.lastCommit|
            && (step == Commit(p) ==> s'.lastCommit[p] == Some(s.clock))
            && (step != Commit(p) ==> s'.lastCommit[p] == s.lastCommit[p])
  {
  }

  /** Every commit of the run is on record, the latest with its time. */
  lemma {:induction false} CommitsAreRecorded(s: State, steps: seq<Step>, i: nat, p: nat)
    requires p < |s.lastCommit| && i < |steps| && steps[i] == Commit(p)
    ensures var end := Run(s, steps);
            p < |end.lastCommit| && end.lastCommit[p].Some? && end.lastCommit[p].value >= s.clock + i
  {
    hide Next;
    var n := |steps| - 1;
    var front := steps[..n];
    ProvidersStay(s, front);
    ClockCounts(s, front);
    StepRecords(Run(s, front), steps[n], p);
    if i < n {
      CommitsAreRecorded(s, front, i, p);
    }
  }

  lemma {:induction false} ProvidersStay(s: State, steps: seq<Step>)
    ensures |Run(s, steps).lastCommit| == |s.lastCommit|
    ensures |Run(s, steps).turns| == |s.turns|
  {
    if steps != [] {
      ProvidersStay(s, steps[..|steps| - 1]);
    }
  }

  /** The sweeper waits, nothing wakes it, and nothing is on its way. */
  predicate Quiet(s: State) {
    s.phase.Blocked? && !s.wake && s.listener.Receiving? && s.undelivered == 0
  }

  /**
    No lost wake-up. In any reachable state where the sweeper is blocked with the flag
    clear, the bridge is past its post-LISTEN set and no notification is undelivered,
    every provider was skipped while cooling, or its scan failed, or its latest scan saw
    less than a full batch and began after every commit of a receipt of that provider.
   */
  lemma NoLostWakeup(s: State, steps: seq<Step>, p: nat)
    requires Initial(s) && p < |s.lastCommit|
    ensures Quiet(Run(s, steps)) ==>
      match TurnSeen(s, steps, p)
      case NotYet => false
      case Skipped => true
      case Begun(_) => false
      case Ended(at, Error) => true
      case Ended(at, NotFull) => forall i | 0 <= i < |steps| && steps[i] == Commit(p) :: i < at
      case Ended(at, IsFull) => false
  {
    RunKeepsInv(s, steps);
    TurnsTell(s, steps, p);
    var end, seen := Run(s, steps), TurnSeen(s, steps, p);
    if Quiet(end) {
      assert !NewsSinceClear(end);
      assert !end.turns[p].Full?;
      hide Run, TurnSeen;
      if seen.Ended? && seen.outcome.NotFull? {
        forall i | 0 <= i < |steps| && steps[i] == Commit(p)
          ensures i < seen.at
        {
          CommitsAreRecorded(s, steps, i, p);
        }
      }
    }
  }

  /** A round that is over goes on at once exactly if the rules or some scan came back full, and else blocks. */
  lemma BlocksUnlessFull(s: State, steps: seq<Step>, rulesFull: bool)
    requires Initial(s) && Enabled(Run(s, steps), ProvidersDone(rulesFull))
    ensures
      var end, after := Run(s, steps), Run(s, steps + [ProvidersDone(rulesFull), Decide]);
      && (after.phase.Top? <==> rulesFull || SomeFull(end))
      && (after.phase.Blocked? <==> !(rulesFull || SomeFull(end)))
      && after.wake == end.wake && after.turns == end.turns
  {
    RunKeepsInv(s, steps);
    RunTwoMore(s, steps, ProvidersDone(rulesFull), Decide);
  }

  /** A blocked sweeper starts another round when the flag is set or a deadline passes, with the flag cleared. */
  lemma BlockedStartsAgain(s: State, steps: seq<Step>, step: Step)
    requires Initial(s) && Run(s, steps).phase.Blocked? && (step.WakeUp? || step.Expire?)
    ensures
      var end, after := Run(s, steps), Run(s, steps + [step, Clear]);
      (step.Expire? || end.wake) ==>
        && after.phase == Providers(0) && !after.wake
        && forall p | 0 <= p < |after.turns| :: after.turns[p].Pending?
  {
    RunTwoMore(s, steps, step, Clear);
  }

  lemma RunTwoMore(s: State, steps: seq<Step>, a: Step, b: Step)
    ensures Run(s, steps + [a, b]) == Next(Next(Run(s, steps), a), b)
  {
    hide Next;
    var longer := steps + [a, b];
    assert longer[..|steps| + 1] == steps + [a] && (steps + [a])[..|steps|] == steps;
    assert Run(s, steps + [a]) == Next(Run(s, steps), a);
  }

  // ----- The quiet state is reachable

  /** The bridge is receiving, and the first `n` providers of the round have been drained. */
  ghost predicate DrainedSoFar(s: State, n: nat) {
    && s.phase == Providers(n) && !s.wake && !s.immediate && s.listener.Receiving? && s.undelivered == 0
    && n <= |s.turns|
    && forall p | 0 <= p < |s.turns| :: if p < n then s.turns[p].Drained? else s.turns[p].Pending?
  }

  lemma {:induction false} DrainFirst(s: State, n: nat) returns (steps: seq<Step>)
    requires Initial(s) && n <= |s.turns|
    ensures DrainedSoFar(Run(s, steps), n) && |Run(s, steps).turns| == |s.turns|
  {
    if n == 0 {
      steps := [Listen] + [PostListenSet, Clear];
      RunOne(s, Listen);
      RunTwoMore(s, [Listen], PostListenSet, Clear);
      hide Run;
    } else {
      var before := DrainFirst(s, n - 1);
      steps := before + [ScanStart, ScanEnd(NotFull)];
      RunTwoMore(s, before, ScanStart, ScanEnd(NotFull));
      hide Run;
    }
  }

  /** From every start the sweeper can come to rest, all providers drained. */
  lemma QuietIsReachable(s: State) returns (steps: seq<Step>)
    requires Initial(s)
    ensures Quiet(Run(s, steps)) && forall turn | turn in Run(s, steps).turns :: turn.Drained?
  {
    var before := DrainFirst(s, |s.turns|);
    steps := before + [ProvidersDone(false), Decide];
    RunTwoMore(s, before, ProvidersDone(false), Decide);
    hide Run;
  }

  /**
    The hint gets through: from any reachable blocked state with undelivered or missing
    news, the bridge alone can take steps that leave the sweeper ready to wake.
   */
  lemma HintReachesSweeper(s: State, steps: seq<Step>)
    requires Initial(s)
    ensures
      var end := Run(s, steps);
      end.phase.Blocked? && NewsSinceClear(end) ==>
        exists more: seq<Step> :: |more| <= 2 && (forall i | 0 <= i < |more| :: BridgeStep(more[i]))
          && Enabled(Run(end, more), WakeUp)
  {
    RunKeepsInv(s, steps);
    hide Run;
    var end := Run(s, steps);
    if end.phase.Blocked? && NewsSinceClear(end) {
      RunNone(end);
      if end.wake {
        assert Enabled(Run(end, []), WakeUp);
      } else if end.listener.Receiving? {
        RunOne(end, Deliver);
        assert Enabled(Run(end, [Deliver]), WakeUp);
      } else if end.listener.Installed? {
        RunOne(end, PostListenSet);
        assert Enabled(Run(end, [PostListenSet]), WakeUp);
      } else {
        RunTwoMore(end, [], Listen, PostListenSet);
        assert [] + [Listen, PostListenSet] == [Listen, PostListenSet];
        assert Enabled(Run(end, [Listen, PostListenSet]), WakeUp);
      }
    }
  }

  lemma RunNone(s: State)
    ensures Run(s, []) == s
  {
  }

  predicate BridgeStep(step: Step) {
    step.Listen? || step.PostListenSet? || step.Deliver?
  }

  lemma RunOne(s: State, step: Step)
    ensures Run(s, [step]) == Next(s, step)
  {
  }
}
