/**
  The webhook replay scheduler: rounds over the providers with error cooldowns, hourly
  maintenance and a bounded sleep. The clock, the scans and the wake hints are arbitrary;
  every round appends what it did to a trace, and the results are about all traces.
 */
module SweepSchedule {
  import opened Common

  const SECOND: Time := 1_000_000_000
  const MAINTENANCE_INTERVAL: Time := 3600 * SECOND

  datatype Provider = Provider(name: string, hasReviver: bool)

  /** What a scan brings back: nothing when it raised, else its error count and fullness. */
  datatype ScanResult = Crashed | Scanned(errorCount: nat, full: bool)

  const RULES_REFRESH_BATCH := 20

  /** One piece of work of a maintenance pass. */
  datatype Call = Purge(index: nat) | Revive(index: nat)

  /** What came back from outside, and when. */
  datatype Answer =
    | ScanAnswer(result: ScanResult, at: Time)
    | RulesAnswer(count: nat)
    | CallAnswer(call: Call, at: Time)

  datatype Event =
    | Skip(round: nat, index: nat, at: Time)
    | Scan(round: nat, index: nat, start: Time, result: ScanResult, done: Time, end: Time)
    | Rules(count: Option<nat>)                      // none without a refresher
    | Maintain(start: Time, calls: seq<Answer>, end: Time)
    | Idle(at: Time)
    | Yield
    | Wait(start: Time, timeout: Time, end: Time)

  // ----- The sleep

  /** `min(poll_interval, next_maintenance - now, *deadlines)`, cut at zero. */
  function Timeout(poll: Time, nextMaintenance: Time, now: Time, cooldowns: seq<Time>): Time {
    Max(0, Nearest(Min(poll, nextMaintenance - now), now, cooldowns))
  }

  function Nearest(bound: Time, now: Time, cooldowns: seq<Time>): Time {
    if cooldowns == [] then bound
    else if cooldowns[0] > now then Nearest(Min(bound, cooldowns[0] - now), now, cooldowns[1..])
    else Nearest(bound, now, cooldowns[1..])
  }

  lemma {:induction false} NearestIsGreatestLowerBound(bound: Time, now: Time, cooldowns: seq<Time>)
    ensures Nearest(bound, now, cooldowns) <= bound
    ensures forall i | 0 <= i < |cooldowns| && cooldowns[i] > now :: Nearest(bound, now, cooldowns) <= cooldowns[i] - now
    ensures || Nearest(bound, now, cooldowns) == bound
            || exists i | 0 <= i < |cooldowns| :: cooldowns[i] > now && Nearest(bound, now, cooldowns) == cooldowns[i] - now
  {
    if cooldowns != [] {
      var rest := cooldowns[1..];
      var next := if cooldowns[0] > now then Min(bound, cooldowns[0] - now) else bound;
      NearestIsGreatestLowerBound(next, now, rest);
      forall i | 0 <= i < |cooldowns| && cooldowns[i] > now
        ensures Nearest(bound, now, cooldowns) <= cooldowns[i] - now
      {
        if i > 0 { assert cooldowns[i] == rest[i - 1]; }
      }
      if Nearest(next, now, rest) != next {
        var i :| 0 <= i < |rest| && rest[i] > now && Nearest(next, now, rest) == rest[i] - now;
        assert cooldowns[i + 1] == rest[i];
      }
    }
  }

  /** The bounds of every sleep: it starts at `now` and may last `timeout`. */
  ghost predicate SleepBounds(poll: Time, nextMaintenance: Time, now: Time, cooldowns: seq<Time>, timeout: Time) {
    && 0 <= timeout <= poll
    && timeout <= Max(0, nextMaintenance - now)
    && (forall i | 0 <= i < |cooldowns| && cooldowns[i] > now :: timeout <= cooldowns[i] - now)
  }

  /** `Timeout` is the longest sleep within the bounds. */
  lemma TimeoutIsLongest(poll: Time, nextMaintenance: Time, now: Time, cooldowns: seq<Time>, timeout: Time)
    requires poll > 0
    ensures SleepBounds(poll, nextMaintenance, now, cooldowns, Timeout(poll, nextMaintenance, now, cooldowns))
    ensures SleepBounds(poll, nextMaintenance, now, cooldowns, timeout)
            ==> timeout <= Timeout(poll, nextMaintenance, now, cooldowns)
  {
    NearestIsGreatestLowerBound(Min(poll, nextMaintenance - now), now, cooldowns);
  }

  /**
    A cooldown that has lapsed when the sleep starts is not among its deadlines, so the
    provider skipped earlier in the round waits for the other bounds.
   */
  lemma {:induction false} LapsedCooldownIsIgnored(
      poll: Time, nextMaintenance: Time, now: Time, cooldowns: seq<Time>, i: nat, lapsed: Time)
    requires i < |cooldowns| && cooldowns[i] <= now && lapsed <= now
    ensures Timeout(poll, nextMaintenance, now, cooldowns[i := lapsed]) == Timeout(poll, nextMaintenance, now, cooldowns)
  {
    NearestIgnores(Min(poll, nextMaintenance - now), now, cooldowns, i, lapsed);
  }

  lemma {:induction false} NearestIgnores(bound: Time, now: Time, cooldowns: seq<Time>, i: nat, lapsed: Time)
    requires i < |cooldowns| && cooldowns[i] <= now && lapsed <= now
    ensures Nearest(bound, now, cooldowns[i := lapsed]) == Nearest(bound, now, cooldowns)
    decreases |cooldowns|
  {
    var changed := cooldowns[i := lapsed];
    if i == 0 {
      assert changed[1..] == cooldowns[1..];
    } else {
      assert changed[1..] == cooldowns[1..][i - 1 := lapsed];
      NearestIgnores(if cooldowns[0] > now then Min(bound, cooldowns[0] - now) else bound, now, cooldowns[1..], i - 1, lapsed);
    }
  }

  // ----- What a trace says

  type Trace = seq<Event>

  predicate IsTurn(e: Event) {
    e.Skip? || e.Scan?
  }

  /** A scan that raised or counted errors. */
  predicate FailedScan(e: Event) {
    e.Scan? && match e.result case Crashed => true case Scanned(errorCount, _) => errorCount > 0
  }

  /** A batch that came back full: of a scan without errors, or of the rules. */
  predicate FullBatch(e: Event) {
    || (e.Scan? && e.result.Scanned? && e.result.errorCount == 0 && e.result.full)
    || (e.Rules? && e.count == Some(RULES_REFRESH_BATCH))
  }

  predicate EndsRound(e: Event) {
    e.Yield? || e.Wait?
  }

  /** A failed scan puts its provider off for a poll interval from its end. */
  function Cooldown(poll: Time, trace: Trace, p: nat): Time {
    if trace == [] then 0 else
    var last := trace[|trace| - 1];
    if FailedScan(last) && last.index == p then last.end + poll
    else Cooldown(poll, trace[..|trace| - 1], p)
  }

  function Cooldowns(poll: Time, trace: Trace, n: nat): seq<Time> {
    seq(n, p requires 0 <= p < n => Cooldown(poll, trace, p))
  }

  /** Maintenance is due an hour after the end of the last one, and at once at the start. */
  function NextDue(trace: Trace): Time {
    if trace == [] then 0 else
    var last := trace[|trace| - 1];
    if last.Maintain? then last.end + MAINTENANCE_INTERVAL else NextDue(trace[..|trace| - 1])
  }

  /** The rounds that ended. */
  function Rounds(trace: Trace): nat {
    if trace == [] then 0
    else Rounds(trace[..|trace| - 1]) + if EndsRound(trace[|trace| - 1]) then 1 else 0
  }

  /** The turns taken in the current round. */
  function Turns(trace: Trace): nat {
    if trace == [] then 0 else
    var last := trace[|trace| - 1];
    if EndsRound(last) then 0 else Turns(trace[..|trace| - 1]) + if IsTurn(last) then 1 else 0
  }

  /** Some batch of the current round was full, so there may be more to do at once. */
  function More(trace: Trace): bool {
    if trace == [] then false else
    var last := trace[|trace| - 1];
    if EndsRound(last) then false
    else More(trace[..|trace| - 1]) || FullBatch(last)
  }

  datatype Stage = Scanning | Refreshed | Maintained

  function StageAfter(e: Event): Stage {
    if e.Rules? then Refreshed else if e.Maintain? || e.Idle? then Maintained else Scanning
  }

  function StageOf(trace: Trace): Stage {
    if trace == [] then Scanning else StageAfter(trace[|trace| - 1])
  }

  /** The last moment the trace tells of. */
  function LastTime(trace: Trace): Time {
    if trace == [] then 0 else
    match trace[|trace| - 1]
    case Skip(_, _, at) => at
    case Scan(_, _, _, _, _, end) => end
    case Maintain(_, _, end) => end
    case Idle(at) => at
    case Wait(_, _, end) => end
    case _ => LastTime(trace[..|trace| - 1])
  }

  /** The work of a pass: every provider is purged and, with a reviver, revived. */
  function CallsFor(providers: seq<Provider>, n: nat): seq<Call>
    requires n <= |providers|
  {
    if n == 0 then [] else
    CallsFor(providers, n - 1) + [Purge(n - 1)] + if providers[n - 1].hasReviver then [Revive(n - 1)] else []
  }

  function CallsIn(answers: seq<Answer>): seq<Call> {
    if answers == [] then [] else
    var front, last := CallsIn(answers[..|answers| - 1]), answers[|answers| - 1];
    if last.CallAnswer? then front + [last.call] else front
  }

  /** Only calls, and none answered later than `end`. */
  predicate CallsBy(answers: seq<Answer>, end: Time) {
    forall i | 0 <= i < |answers| :: answers[i].CallAnswer? && answers[i].at <= end
  }

  /** The answers a trace tells of, in order. */
  function AnswersIn(trace: Trace): seq<Answer> {
    if trace == [] then [] else
    AnswersIn(trace[..|trace| - 1]) + AnswersOf(trace[|trace| - 1])
  }

  function AnswersOf(e: Event): seq<Answer> {
    match e
    case Scan(_, _, _, result, done, _) => [ScanAnswer(result, done)]
    case Rules(Some(count)) => [RulesAnswer(count)]
    case Maintain(_, calls, _) => calls
    case _ => []
  }

  /**
    What may happen next: the providers in order, each scanned unless it cools; the rules;
    maintenance of every provider, cooling or not, if it is due; and then another round at
    once if a batch was full, else a sleep.
   */
  predicate Allowed(providers: seq<Provider>, poll: Time, trace: Trace, e: Event) {
    match e
    case Skip(round, index, at) =>
      && StageOf(trace) == Scanning && round == Rounds(trace) && index == Turns(trace) < |providers|
      && LastTime(trace) <= at && 0 <= at < Cooldown(poll, trace, index)
    case Scan(round, index, start, _, done, end) =>
      && StageOf(trace) == Scanning && round == Rounds(trace) && index == Turns(trace) < |providers|
      && LastTime(trace) <= start <= done <= end && Cooldown(poll, trace, index) <= start
    case Rules(_) => StageOf(trace) == Scanning && Turns(trace) == |providers|
    case Maintain(start, calls, end) =>
      && StageOf(trace) == Refreshed && LastTime(trace) <= start <= end && NextDue(trace) <= start
      && CallsIn(calls) == CallsFor(providers, |providers|) && CallsBy(calls, end)
    case Idle(at) => StageOf(trace) == Refreshed && LastTime(trace) <= at && 0 <= at < NextDue(trace)
    case Yield => StageOf(trace) == Maintained && More(trace)
    case Wait(start, timeout, end) =>
      && StageOf(trace) == Maintained && !More(trace)
      && timeout == Timeout(poll, NextDue(trace), start, Cooldowns(poll, trace, |providers|))
      && LastTime(trace) <= start <= end <= start + timeout
  }

  ghost predicate Legal(providers: seq<Provider>, poll: Time, trace: Trace) {
    forall j | 0 <= j < |trace| :: Allowed(providers, poll, trace[..j], trace[j])
  }

  lemma AppendLegal(providers: seq<Provider>, poll: Time, trace: Trace, e: Event)
    requires Legal(providers, poll, trace) && Allowed(providers, poll, trace, e)
    ensures Legal(providers, poll, trace + [e])
  {
    hide Allowed;
    var longer := trace + [e];
    forall j | 0 <= j < |longer|
      ensures Allowed(providers, poll, longer[..j], longer[j])
    {
      assert longer[..j] == trace[..j];
    }
    assert longer[..|trace|] == trace;
  }

  lemma PrefixLegal(providers: seq<Provider>, poll: Time, trace: Trace, n: nat)
    requires Legal(providers, poll, trace) && n <= |trace|
    ensures Legal(providers, poll, trace[..n])
  {
    hide Allowed;
    forall j | 0 <= j < n
      ensures Allowed(providers, poll, trace[..n][..j], trace[..n][j])
    {
      assert trace[..n][..j] == trace[..j];
    }
  }

  lemma LastStep(providers: seq<Provider>, poll: Time, trace: Trace)
    requires Legal(providers, poll, trace) && trace != []
    ensures Legal(providers, poll, trace[..|trace| - 1])
    ensures Allowed(providers, poll, trace[..|trace| - 1], trace[|trace| - 1])
  {
    hide Allowed;
    PrefixLegal(providers, poll, trace, |trace| - 1);
  }

  // ----- Consequences for every legal trace

  predicate Earlier(r: nat, i: nat, r': nat, i': nat) {
    r < r' || (r == r' && i < i')
  }

  /** The past of a legal trace lies before its present. */
  lemma {:induction false} TurnsAreBehind(providers: seq<Provider>, poll: Time, trace: Trace, i: nat)
    requires Legal(providers, poll, trace) && i < |trace| && IsTurn(trace[i])
    ensures Earlier(trace[i].round, trace[i].index, Rounds(trace), Turns(trace))
  {
    hide Legal, Timeout, Cooldowns, CallsFor, CallsIn, CallsBy, More, NextDue, Cooldown;
    var front := trace[..|trace| - 1];
    LastStep(providers, poll, trace);
    if i < |front| {
      TurnsAreBehind(providers, poll, front, i);
    }
  }

  /** Turns come in the order of rounds, and of providers within a round. */
  lemma TurnsInOrder(providers: seq<Provider>, poll: Time, trace: Trace, i: nat, j: nat)
    requires Legal(providers, poll, trace) && i < j < |trace| && IsTurn(trace[i]) && IsTurn(trace[j])
    ensures Earlier(trace[i].round, trace[i].index, trace[j].round, trace[j].index)
  {
    PrefixLegal(providers, poll, trace, j);
    TurnsAreBehind(providers, poll, trace[..j], i);
    assert Allowed(providers, poll, trace[..j], trace[j]);
  }

  /** A failed scan still holds its provider back at the end of the trace. */
  lemma {:induction false} FailureHoldsBack(providers: seq<Provider>, poll: Time, trace: Trace, i: nat)
    requires poll > 0 && Legal(providers, poll, trace) && i < |trace| && FailedScan(trace[i])
    ensures trace[i].end + poll <= Cooldown(poll, trace, trace[i].index)
  {
    hide Legal, Timeout, Cooldowns, CallsFor, CallsIn, CallsBy, More, NextDue, Rounds, Turns, StageOf;
    var front := trace[..|trace| - 1];
    LastStep(providers, poll, trace);
    if i < |front| {
      FailureHoldsBack(providers, poll, front, i);
    }
  }

  /** Whatever hints arrive, a provider is not scanned for a poll interval after a failed scan. */
  lemma CooldownIsKept(providers: seq<Provider>, poll: Time, trace: Trace, i: nat, j: nat)
    requires poll > 0 && Legal(providers, poll, trace) && i < j < |trace|
    requires FailedScan(trace[i]) && trace[j].Scan? && trace[j].index == trace[i].index
    ensures trace[i].done + poll <= trace[i].end + poll <= trace[j].start
  {
    assert Allowed(providers, poll, trace[..i], trace[i]);
    PrefixLegal(providers, poll, trace, j);
    FailureHoldsBack(providers, poll, trace[..j], i);
    assert Allowed(providers, poll, trace[..j], trace[j]);
  }

  lemma {:induction false} CooldownHasCause(poll: Time, trace: Trace, p: nat, at: Time) returns (i: nat)
    requires 0 <= at < Cooldown(poll, trace, p)
    ensures i < |trace| && FailedScan(trace[i]) && trace[i].index == p && at < trace[i].end + poll
  {
    var last := trace[|trace| - 1];
    if FailedScan(last) && last.index == p {
      i := |trace| - 1;
    } else {
      i := CooldownHasCause(poll, trace[..|trace| - 1], p, at);
    }
  }

  /** A provider is skipped only while the cooldown of one of its failed scans runs. */
  lemma SkipIsJustified(providers: seq<Provider>, poll: Time, trace: Trace, j: nat) returns (i: nat)
    requires Legal(providers, poll, trace) && j < |trace| && trace[j].Skip?
    ensures i < j && FailedScan(trace[i]) && trace[i].index == trace[j].index
    ensures trace[j].at < trace[i].end + poll
  {
    assert Allowed(providers, poll, trace[..j], trace[j]);
    i := CooldownHasCause(poll, trace[..j], trace[j].index, trace[j].at);
  }

  /** Between two scans of a provider in consecutive rounds, any other provider is scanned at most once. */
  lemma Fair(providers: seq<Provider>, poll: Time, trace: Trace, i: nat, j: nat, k: nat, l: nat)
    requires Legal(providers, poll, trace) && i < k < l < j < |trace|
    requires trace[i].Scan? && trace[j].Scan? && trace[i].index == trace[j].index
    requires trace[j].round == trace[i].round + 1
    requires trace[k].Scan? && trace[l].Scan?
    ensures trace[k].index != trace[l].index
  {
    TurnsInOrder(providers, poll, trace, i, k);
    TurnsInOrder(providers, poll, trace, k, l);
    TurnsInOrder(providers, poll, trace, l, j);
  }

  lemma {:induction false} AllTurnsTaken(providers: seq<Provider>, poll: Time, trace: Trace)
    requires Legal(providers, poll, trace)
    ensures Turns(trace) <= |providers|
    ensures StageOf(trace) != Scanning ==> Turns(trace) == |providers|
  {
    if trace != [] {
      hide Legal, Timeout, Cooldowns, CallsFor, CallsIn, CallsBy, More, NextDue, Cooldown, Rounds;
      LastStep(providers, poll, trace);
      AllTurnsTaken(providers, poll, trace[..|trace| - 1]);
    }
  }

  ghost predicate HadTurn(trace: Trace, round: nat, index: nat) {
    exists i | 0 <= i < |trace| :: IsTurn(trace[i]) && trace[i].round == round && trace[i].index == index
  }

  /** Every provider had its turn in every finished round, and the first ones in the current round. */
  lemma {:induction false} TurnWasTaken(providers: seq<Provider>, poll: Time, trace: Trace, r: nat, p: nat)
    requires Legal(providers, poll, trace) && p < |providers|
    requires r < Rounds(trace) || (r == Rounds(trace) && p < Turns(trace))
    ensures HadTurn(trace, r, p)
  {
    hide Legal, Timeout, Cooldowns, CallsFor, CallsIn, CallsBy, More, NextDue, Cooldown;
    var front, last := trace[..|trace| - 1], trace[|trace| - 1];
    LastStep(providers, poll, trace);
    if IsTurn(last) && last.round == r && last.index == p {
      assert IsTurn(trace[|front|]);
    } else {
      AllTurnsTaken(providers, poll, front);
      TurnWasTaken(providers, poll, front, r, p);
      var i :| 0 <= i < |front| && IsTurn(front[i]) && front[i].round == r && front[i].index == p;
      assert trace[i] == front[i];
    }
  }

  /** A provider is scanned in every finished round before which none of its scans failed. */
  lemma HealthyIsScanned(providers: seq<Provider>, poll: Time, trace: Trace, r: nat, p: nat)
    requires Legal(providers, poll, trace) && r < Rounds(trace) && p < |providers|
    requires forall i | 0 <= i < |trace| && FailedScan(trace[i]) && trace[i].index == p :: trace[i].round >= r
    ensures exists i | 0 <= i < |trace| :: trace[i].Scan? && trace[i].round == r && trace[i].index == p
  {
    hide Legal;
    TurnWasTaken(providers, poll, trace, r, p);
    var i :| 0 <= i < |trace| && IsTurn(trace[i]) && trace[i].round == r && trace[i].index == p;
    if trace[i].Skip? {
      var k := SkipIsJustified(providers, poll, trace, i);
      TurnsInOrder(providers, poll, trace, k, i);
    }
  }

  lemma {:induction false} TimeAscends(providers: seq<Provider>, poll: Time, trace: Trace, n: nat)
    requires Legal(providers, poll, trace) && n <= |trace|
    ensures LastTime(trace[..n]) <= LastTime(trace)
  {
    if n == |trace| {
      assert trace[..n] == trace;
    } else {
      hide Legal, Timeout, Cooldowns, CallsFor, CallsIn, CallsBy, More, Cooldown, Rounds, Turns, StageOf, NextDue;
      var front := trace[..|trace| - 1];
      LastStep(providers, poll, trace);
      TimeAscends(providers, poll, front, n);
      assert front[..n] == trace[..n];
    }
  }

  lemma {:induction false} CooldownStays(poll: Time, trace: Trace, n: nat, p: nat)
    requires n <= |trace|
    requires forall i | n <= i < |trace| :: !(trace[i].Scan? && trace[i].index == p)
    ensures Cooldown(poll, trace, p) == Cooldown(poll, trace[..n], p)
  {
    if n == |trace| {
      assert trace[..n] == trace;
    } else {
      var front := trace[..|trace| - 1];
      CooldownStays(poll, front, n, p);
      assert front[..n] == trace[..n];
    }
  }

  /**
    A provider that is skipped while it cools, and whose cooldown has lapsed when the sleep
    of that round starts, sleeps at most one poll interval and is scanned in the next round.
   */
  lemma LapsedIsScannedNext(providers: seq<Provider>, poll: Time, trace: Trace, j: nat, k: nat, l: nat)
    requires poll > 0 && Legal(providers, poll, trace) && j < k < l < |trace|
    requires trace[j].Skip? && trace[k].Wait? && IsTurn(trace[l])
    requires trace[l].index == trace[j].index && trace[l].round == trace[j].round + 1
    requires Cooldown(poll, trace[..j], trace[j].index) <= trace[k].start
    ensures trace[k].end <= trace[k].start + poll
    ensures trace[l].Scan?
  {
    hide Legal, Timeout, Cooldowns, CallsFor, CallsIn, CallsBy, More, Rounds, Turns, StageOf, NextDue, Cooldown;
    var p, before := trace[j].index, trace[..l];
    SleepIsBounded(providers, poll, trace, k);
    forall i | j <= i < l
      ensures !(before[i].Scan? && before[i].index == p)
    {
      if i > j && trace[i].Scan? && trace[i].index == p {
        TurnsInOrder(providers, poll, trace, j, i);
        TurnsInOrder(providers, poll, trace, i, l);
      }
    }
    CooldownStays(poll, before, j, p);
    assert before[..j] == trace[..j];
    EventIsAllowed(providers, poll, trace, l);
    EventIsAllowed(providers, poll, trace, k);
    PrefixLegal(providers, poll, trace, l);
    TimeAscends(providers, poll, before, k + 1);
    assert before[..k + 1] == trace[..k + 1];
    assert LastTime(trace[..k + 1]) == trace[k].end;
  }

  lemma EventIsAllowed(providers: seq<Provider>, poll: Time, trace: Trace, j: nat)
    requires Legal(providers, poll, trace) && j < |trace|
    ensures Allowed(providers, poll, trace[..j], trace[j])
  {
  }

  lemma {:induction false} MaintenanceHoldsBack(providers: seq<Provider>, poll: Time, trace: Trace, i: nat)
    requires Legal(providers, poll, trace) && i < |trace| && trace[i].Maintain?
    ensures trace[i].end + MAINTENANCE_INTERVAL <= NextDue(trace)
  {
    hide Legal, Timeout, Cooldowns, CallsFor, CallsIn, CallsBy, More, Cooldown, Rounds, Turns, StageOf;
    var front := trace[..|trace| - 1];
    LastStep(providers, poll, trace);
    if i < |front| {
      MaintenanceHoldsBack(providers, poll, front, i);
    }
  }

  /** Maintenance passes are at least an hour apart. */
  lemma MaintenanceIsHourly(providers: seq<Provider>, poll: Time, trace: Trace, i: nat, j: nat)
    requires Legal(providers, poll, trace) && i < j < |trace| && trace[i].Maintain? && trace[j].Maintain?
    ensures trace[i].end + MAINTENANCE_INTERVAL <= trace[j].start
  {
    hide Legal;
    PrefixLegal(providers, poll, trace, j);
    MaintenanceHoldsBack(providers, poll, trace[..j], i);
    EventIsAllowed(providers, poll, trace, j);
  }

  /** Every pass purges every provider, cooling or not, revives where there is a reviver, and does nothing else. */
  lemma MaintenanceCoversEveryone(providers: seq<Provider>, poll: Time, trace: Trace, j: nat)
    requires Legal(providers, poll, trace) && j < |trace| && trace[j].Maintain?
    ensures forall p: nat :: Purge(p) in CallsIn(trace[j].calls) <==> p < |providers|
    ensures forall p: nat :: Revive(p) in CallsIn(trace[j].calls) <==> p < |providers| && providers[p].hasReviver
    ensures forall i | 0 <= i < |trace[j].calls| :: trace[j].calls[i].CallAnswer? && trace[j].calls[i].at <= trace[j].end
  {
    EventIsAllowed(providers, poll, trace, j);
    CallsAre(providers, |providers|);
  }

  lemma {:induction false} CallsAre(providers: seq<Provider>, n: nat)
    requires n <= |providers|
    ensures forall p: nat :: Purge(p) in CallsFor(providers, n) <==> p < n
    ensures forall p: nat :: Revive(p) in CallsFor(providers, n) <==> p < n && providers[p].hasReviver
  {
    if n != 0 {
      CallsAre(providers, n - 1);
    }
  }

  lemma {:induction false} DueHasCause(trace: Trace, at: Time) returns (i: nat)
    requires 0 <= at < NextDue(trace)
    ensures i < |trace| && trace[i].Maintain? && at < trace[i].end + MAINTENANCE_INTERVAL
  {
    if trace[|trace| - 1].Maintain? {
      i := |trace| - 1;
    } else {
      i := DueHasCause(trace[..|trace| - 1], at);
    }
  }

  /** A round goes without maintenance only within an hour of an earlier pass. */
  lemma IdleIsJustified(providers: seq<Provider>, poll: Time, trace: Trace, j: nat) returns (i: nat)
    requires Legal(providers, poll, trace) && j < |trace| && trace[j].Idle?
    ensures i < j && trace[i].Maintain? && trace[j].at < trace[i].end + MAINTENANCE_INTERVAL
  {
    assert Allowed(providers, poll, trace[..j], trace[j]);
    i := DueHasCause(trace[..j], trace[j].at);
  }

  /**
    Every sleep ends within a poll interval, by the next maintenance, and by the end of the
    cooldown of any provider whose failed scan still holds it back when the sleep starts;
    it is the longest sleep that does, and comes only after a round without a full batch.
   */
  lemma SleepIsBounded(providers: seq<Provider>, poll: Time, trace: Trace, j: nat)
    requires poll > 0 && Legal(providers, poll, trace) && j < |trace| && trace[j].Wait?
    ensures var w, before := trace[j], trace[..j];
            && w.end <= w.start + poll
            && w.end <= Max(w.start, NextDue(before))
            && (forall p | 0 <= p < |providers| && Cooldown(poll, before, p) > w.start ::
                  w.end <= Cooldown(poll, before, p))
            && (forall longer: Time | longer > w.timeout ::
                  !SleepBounds(poll, NextDue(before), w.start, Cooldowns(poll, before, |providers|), longer))
            && !More(before)
  {
    var w, before := trace[j], trace[..j];
    var cooldowns := Cooldowns(poll, before, |providers|);
    assert Allowed(providers, poll, before, w);
    TimeoutIsLongest(poll, NextDue(before), w.start, cooldowns, 0);
    forall longer: Time
      ensures longer > w.timeout ==> !SleepBounds(poll, NextDue(before), w.start, cooldowns, longer)
    {
      TimeoutIsLongest(poll, NextDue(before), w.start, cooldowns, longer);
    }
    forall p | 0 <= p < |providers| && Cooldown(poll, before, p) > w.start
      ensures w.end <= Cooldown(poll, before, p)
    {
      assert cooldowns[p] == Cooldown(poll, before, p);
    }
  }

  // ----- The scheduler

  class Clock {
    var now: Time

    /** A reading of the monotonic clock. */
    method Read() returns (t: Time)
      modifies this
      ensures t == now && now >= old(now)
    {
      var passed: int :| passed >= 0;
      now := now + passed;
      return now;
    }

    /** Time passes in a sleep that a hint may end early; the timer fires when it is due. */
    method Advance(timeout: Time)
      requires timeout >= 0
      modifies this
      ensures old(now) <= now <= old(now) + timeout
    {
      var passed: int :| 0 <= passed <= timeout;
      now := now + passed;
    }
  }

  lemma CooldownsAfter(poll: Time, trace: Trace, e: Event, n: nat)
    ensures FailedScan(e) && e.index < n ==>
              Cooldowns(poll, trace + [e], n) == Cooldowns(poll, trace, n)[e.index := e.end + poll]
    ensures !(FailedScan(e)) ==> Cooldowns(poll, trace + [e], n) == Cooldowns(poll, trace, n)
  {
  }

  lemma CallsByLater(calls: seq<Answer>, at: Time, later: Time)
    requires CallsBy(calls, at) && at <= later
    ensures CallsBy(calls, later)
  {
  }

  lemma CooldownAt(poll: Time, trace: Trace, n: nat, p: nat)
    requires p < n
    ensures |Cooldowns(poll, trace, n)| == n && Cooldowns(poll, trace, n)[p] == Cooldown(poll, trace, p)
  {
  }

  lemma AfterEvent(trace: Trace, e: Event)
    ensures NextDue(trace + [e]) == if e.Maintain? then e.end + MAINTENANCE_INTERVAL else NextDue(trace)
    ensures Rounds(trace + [e]) == Rounds(trace) + if EndsRound(e) then 1 else 0
    ensures Turns(trace + [e]) == if EndsRound(e) then 0 else Turns(trace) + if IsTurn(e) then 1 else 0
    ensures More(trace + [e]) ==
            (!EndsRound(e)
             && (More(trace) || FullBatch(e)))
    ensures StageOf(trace + [e]) == StageAfter(e)
    ensures e.Rules? || e.Yield? ==> LastTime(trace + [e]) == LastTime(trace)
    ensures AnswersIn(trace + [e]) == AnswersIn(trace) + AnswersOf(e)
  {
  }

  class Sweeper {
    const providers: seq<Provider>
    const poll: Time
    const clock: Clock
    var cooldowns: seq<Time>
    var nextMaintenance: Time
    const hasRules: bool
    ghost var trace: Trace
    /** Everything that came back from outside, in order. */
    ghost var answers: seq<Answer>

    /** The run so far is legal, and the variables say what it says. */
    ghost predicate Valid()
      reads this, clock
    {
      && poll > 0 && clock.now >= 0
      && Legal(providers, poll, trace)
      && cooldowns == Cooldowns(poll, trace, |providers|)
      && nextMaintenance == NextDue(trace)
      && LastTime(trace) <= clock.now
      && AnswersIn(trace) == answers
    }

    constructor (providers: seq<Provider>, poll: Time, hasRules: bool, clock: Clock)
      requires poll > 0 && clock.now >= 0
      ensures Valid() && this.providers == providers && this.poll == poll && this.clock == clock
      ensures this.hasRules == hasRules && trace == []
    {
      this.providers, this.poll, this.hasRules, this.clock := providers, poll, hasRules, clock;
      cooldowns := seq(|providers|, _ => 0);
      nextMaintenance := 0;
      trace, answers := [], [];
    }

    /** Append an event that may happen now. */
    ghost method Record(e: Event)
      requires Legal(providers, poll, trace) && Allowed(providers, poll, trace, e)
      modifies this`trace
      ensures trace == old(trace) + [e] && Legal(providers, poll, trace)
    {
      AppendLegal(providers, poll, trace, e);
      trace := trace + [e];
    }

    /** The turn of one provider in the current round. */
    method TakeTurn(index: nat) returns (full: bool)
      requires Valid() && StageOf(trace) == Scanning && index == Turns(trace) < |providers|
      modifies this`cooldowns, this`trace, this`answers, clock
      ensures Valid() && |trace| == |old(trace)| + 1 && old(trace) <= trace
      ensures StageOf(trace) == Scanning && Turns(trace) == index + 1 && Rounds(trace) == old(Rounds(trace))
      ensures More(trace) <==> old(More(trace)) || full
    {
      hide Legal, Rounds, Turns, More, StageOf, Cooldowns, Cooldown, NextDue, AnswersIn;
      CooldownAt(poll, trace, |providers|, index);
      var start := clock.Read();
      full := false;
      if start < cooldowns[index] {
        ghost var e := Skip(Rounds(trace), index, start);
        CooldownsAfter(poll, trace, e, |providers|);
        AfterEvent(trace, e);
        Record(e);
        return;
      }
      var result := ScanOnce();
      ghost var done := clock.now;
      var end := clock.Read();
      ghost var e := Scan(Rounds(trace), index, start, result, done, end);
      CooldownsAfter(poll, trace, e, |providers|);
      AfterEvent(trace, e);
      Record(e);
      if result.Crashed? || result.errorCount != 0 {
        cooldowns := cooldowns[index := end + poll];
      } else if result.full {
        full := true;
      }
    }

    /** `_scan_once`: any outcome, at any later time. */
    method ScanOnce() returns (result: ScanResult)
      modifies this`answers, clock
      ensures clock.now >= old(clock.now) && answers == old(answers) + [ScanAnswer(result, clock.now)]
    {
      result := *;
      var now := clock.Read();
      answers := answers + [ScanAnswer(result, now)];
    }

    /** `refresh_rules_once`: any count. */
    method RefreshOnce() returns (count: nat)
      modifies this`answers
      ensures answers == old(answers) + [RulesAnswer(count)]
    {
      count :| count >= 0;
      answers := answers + [RulesAnswer(count)];
    }

    /** `purge_once` or `revive_once`. */
    method DoCall(call: Call)
      modifies this`answers, clock
      ensures clock.now >= old(clock.now) && answers == old(answers) + [CallAnswer(call, clock.now)]
    {
      var now := clock.Read();
      answers := answers + [CallAnswer(call, now)];
    }

    /** The rules refresh, if there is a refresher. */
    method Refresh() returns (full: bool)
      requires Valid() && StageOf(trace) == Scanning && Turns(trace) == |providers|
      modifies this`trace, this`answers
      ensures Valid() && old(trace) <= trace && StageOf(trace) == Refreshed && Rounds(trace) == old(Rounds(trace))
      ensures trace[|trace| - 1].Rules? && (trace[|trace| - 1].count.Some? <==> hasRules)
      ensures More(trace) <==> old(More(trace)) || full
    {
      hide Legal, Rounds, Turns, More, StageOf, Cooldowns, NextDue, AnswersIn;
      full := false;
      ghost var e := Rules(None);
      if hasRules {
        var count := RefreshOnce();
        e := Rules(Some(count));
        full := count == RULES_REFRESH_BATCH;
      }
      CooldownsAfter(poll, trace, e, |providers|);
      AfterEvent(trace, e);
      Record(e);
    }

    /** The calls of a pass, one provider after another. */
    method CallEveryone() returns (ghost calls: seq<Answer>)
      modifies this`answers, clock
      ensures clock.now >= old(clock.now) && answers == old(answers) + calls
      ensures CallsIn(calls) == CallsFor(providers, |providers|) && CallsBy(calls, clock.now)
    {
      calls := [];
      for i := 0 to |providers|
        invariant clock.now >= old(clock.now) && answers == old(answers) + calls
        invariant CallsIn(calls) == CallsFor(providers, i) && CallsBy(calls, clock.now)
      {
        ghost var before := calls;
        DoCall(Purge(i));
        calls := calls + [CallAnswer(Purge(i), clock.now)];
        assert calls[..|before|] == before;
        if providers[i].hasReviver {
          DoCall(Revive(i));
          calls := calls + [CallAnswer(Revive(i), clock.now)];
        }
      }
    }

    /** If it is due, purge every provider, cooling or not, and revive where there is a reviver. */
    method Maintenance()
      requires Valid() && StageOf(trace) == Refreshed
      modifies this`nextMaintenance, this`trace, this`answers, clock
      ensures Valid() && old(trace) <= trace && StageOf(trace) == Maintained && Rounds(trace) == old(Rounds(trace))
      ensures More(trace) == old(More(trace))
    {
      hide Legal, Rounds, Turns, More, StageOf, Cooldowns, NextDue, AnswersIn, CallsIn, CallsFor, CallsBy;
      var start := clock.Read();
      if start < nextMaintenance {
        CooldownsAfter(poll, trace, Idle(start), |providers|);
        AfterEvent(trace, Idle(start));
        Record(Idle(start));
        return;
      }
      ghost var calls := CallEveryone();
      ghost var done := clock.now;
      var end := clock.Read();
      CallsByLater(calls, done, end);
      ghost var e := Maintain(start, calls, end);
      CooldownsAfter(poll, trace, e, |providers|);
      AfterEvent(trace, e);
      Record(e);
      nextMaintenance := end + MAINTENANCE_INTERVAL;
    }

    /** Go on at once after a full batch; else sleep until a hint or the nearest deadline. */
    method Rest(immediate: bool)
      requires Valid() && StageOf(trace) == Maintained && (immediate <==> More(trace))
      modifies this`trace, clock
      ensures Valid() && old(trace) <= trace && StageOf(trace) == Scanning
      ensures Rounds(trace) == old(Rounds(trace)) + 1 && Turns(trace) == 0 && !More(trace)
    {
      hide Legal, Rounds, Turns, More, StageOf, Cooldowns, NextDue, AnswersIn;
      if immediate {
        CooldownsAfter(poll, trace, Yield, |providers|);
        AfterEvent(trace, Yield);
        Record(Yield);
      } else {
        var now := clock.Read();
        var timeout := Timeout(poll, nextMaintenance, now, cooldowns);
        clock.Advance(timeout);
        ghost var e := Wait(now, timeout, clock.now);
        CooldownsAfter(poll, trace, e, |providers|);
        AfterEvent(trace, e);
        Record(e);
      }
    }

    /** One iteration of the endless loop. */
    method Round()
      requires Valid() && StageOf(trace) == Scanning && Turns(trace) == 0 && !More(trace)
      modifies this`cooldowns, this`nextMaintenance, this`trace, this`answers, clock
      ensures Valid() && old(trace) <= trace
      ensures StageOf(trace) == Scanning && Turns(trace) == 0 && !More(trace)
      ensures Rounds(trace) == old(Rounds(trace)) + 1
    {
      hide Legal, StageOf, Turns, More, Rounds;
      var immediate := false;
      for index := 0 to |providers|
        invariant Valid() && old(trace) <= trace
        invariant StageOf(trace) == Scanning && Turns(trace) == index && Rounds(trace) == old(Rounds(trace))
        invariant immediate <==> More(trace)
      {
        var full := TakeTurn(index);
        immediate := immediate || full;
      }
      var full := Refresh();
      immediate := immediate || full;
      Maintenance();
      Rest(immediate);
    }

    /** Any number of rounds is a legal run. */
    method Sweep(rounds: nat)
      requires Valid() && trace == []
      modifies this`cooldowns, this`nextMaintenance, this`trace, this`answers, clock
      ensures Valid() && Legal(providers, poll, trace) && Rounds(trace) == rounds
    {
      for r := 0 to rounds
        invariant Valid() && Rounds(trace) == r
        invariant StageOf(trace) == Scanning && Turns(trace) == 0 && !More(trace)
      {
        Round();
      }
    }
  }

  datatype Refusal = IntervalNotPositive

  /** `sweep_providers_forever`, observed for a number of rounds. */
  method SweepProviders(providers: seq<Provider>, poll: Time, hasRules: bool, clock: Clock, rounds: nat)
    returns (r: Option<Refusal>, ghost trace: Trace)
    requires clock.now >= 0
    modifies clock
    ensures r.None? <==> poll > 0
    ensures r.None? ==> Legal(providers, poll, trace) && Rounds(trace) == rounds
  {
    if poll <= 0 {
      return Some(IntervalNotPositive), [];
    }
    var sweeper := new Sweeper(providers, poll, hasRules, clock);
    sweeper.Sweep(rounds);
    return None, sweeper.trace;
  }
}
