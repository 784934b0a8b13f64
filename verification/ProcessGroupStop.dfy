/** Taking an owned process group down: identify the child, escalate, or fail closed. */
module ProcessGroupStop {
  import opened Common
  import opened ProcessOwnership
  import opened ProcessGroup

  /** The unreaped handle proves the direct child; its metadata must prove its group. */
  method IdentifyChild(world: World, record: Record, process: Process, deadline: Time, ghost f: Frame)
    returns (r: Option<Failure>)
    requires Good(world.trace, f) && Linked(record, world.trace, deadline, f)
    requires f.start.identity == "" && f.child == Some(process.pid)
    modifies world`now, world`trace, record`identity, record`members, process
    ensures Good(world.trace, f) && Linked(record, world.trace, deadline, f)
    ensures SameSignals(old(world.trace), world.trace)
    ensures world.now >= old(world.now)
    ensures r.Some? || process.exited.Some? ==>
              record.identity == old(record.identity) && record.members == old(record.members)
    ensures r.Some? ==> Explained(r.value, world.trace, world.now, f)
    ensures r.None? ==> Settled(world.trace, f)
    ensures r.None? && process.exited.None? ==> Last(world.trace, Identified(process.pid, record.identity))
  {
    hide Good, Signals, ChildSignals, Known, Settled, Limit;
    var polled := world.PollChild(process, f);
    if polled.Some? {
      return None;
    }
    var birth := world.Identity(process.pid, deadline, f);
    if birth.Err? {
      return Some(birth.error);
    }
    polled := world.PollChild(process, f);
    if polled.Some? {
      return None;
    }
    if birth.value == "" {
      return Some(IdentityUnavailable);
    }
    var group := world.GroupOf(process.pid, f);
    if group != Some(record.pgid) {
      return Some(if group.None? then NoSuchProcess else IdentityUnavailable);
    }
    record.identity := birth.value;
    var members := if record.members.Some? then record.members.value else map[];
    record.members := Some(members[process.pid := birth.value]);
    world.Log(Identified(process.pid, birth.value), f);
    return None;
  }

  /**
    The fallback signals the direct child only, never the group: the same three signals, as
    long as the child has not exited and the deadline has not passed.
   */
  method ReapChild(world: World, record: Record, process: Process, deadline: Time, ghost f: Frame)
    returns (r: Option<Failure>)
    requires Good(world.trace, f) && Linked(record, world.trace, deadline, f) && ChildSignals(world.trace) == []
    requires Limit(world.trace).None?
    modifies world`now, world`trace, record`exit, process
    ensures Good(world.trace, f) && Linked(record, world.trace, deadline, f)
    ensures Signals(world.trace) == old(Signals(world.trace))
    ensures world.now >= old(world.now) && old(world.trace) <= world.trace
    ensures ChildSignals(world.trace) <= ESCALATION
    ensures r.None? ==> process.exited.Some?
    ensures r.Some? ==> r.value == DeadlineExhausted || r.value == ChildSurvived
    ensures r == Some(DeadlineExhausted) ==> world.now >= deadline
    ensures r == Some(ChildSurvived) ==> ChildSignals(world.trace) == ESCALATION && process.exited.None?
    ensures record.exit == process.exited
  {
    hide Good, Signals, ChildSignals, Known, Settled, Limit;
    var n := 0;
    var polled := world.PollChild(process, f);
    while n < |ESCALATION| && polled.None?
      invariant 0 <= n <= |ESCALATION|
      invariant Good(world.trace, f) && Linked(record, world.trace, deadline, f)
      invariant world.now >= old(world.now) && old(world.trace) <= world.trace
      invariant Signals(world.trace) == old(Signals(world.trace)) && ChildSignals(world.trace) == ESCALATION[..n]
      invariant polled == process.exited && Last(world.trace, ChildSeen(polled.None?)) && Limit(world.trace).None?
    {
      assert ESCALATION[..n + 1] == ESCALATION[..n] + [ESCALATION[n]];
      var left := world.Remaining(deadline);
      if left.None? {
        record.exit := process.Poll();
        return Some(DeadlineExhausted);
      }
      world.SignalChild(ESCALATION[n], f);
      left := world.Remaining(deadline);
      if left.None? {
        record.exit := process.Poll();
        return Some(DeadlineExhausted);
      }
      world.WaitFor(Min(CHILD_PATIENCE[n], left.value), f);
      polled := world.PollChild(process, f);
      n := n + 1;
    }
    assert ESCALATION[..|ESCALATION|] == ESCALATION;
    record.exit := polled;
    return if polled.None? then Some(ChildSurvived) else None;
  }

  /** Every observed member must still be in the group when the signal goes out. */
  method CheckGroup(world: World, record: Record, live: set<Pid>, deadline: Time, ghost f: Frame)
    returns (r: Option<Failure>)
    requires Good(world.trace, f) && Ties(record, world.trace, deadline, f) && live != {}
    requires world.trace != [] && var e := world.trace[|world.trace| - 1];
             e.Verdict? && e.owned && e.current.Keys == live
    modifies world`now, world`trace
    ensures Good(world.trace, f) && Ties(record, world.trace, deadline, f)
    ensures SameSignals(old(world.trace), world.trace)
    ensures world.now >= old(world.now)
    ensures r.None? ==> exists i: nat :: Cleared(world.trace, i, record.pgid)
    ensures r.Some? ==> Explained(r.value, world.trace, world.now, f)
  {
    hide Good, Signals, ChildSignals, Known, Settled, Limit;
    ghost var i: nat := |world.trace| - 1;
    ghost var e := world.trace[i];
    var rest := live;
    while rest != {}
      invariant rest <= live && i < |world.trace|
      invariant Good(world.trace, f) && Ties(record, world.trace, deadline, f)
      invariant SameSignals(old(world.trace), world.trace)
      invariant world.now >= old(world.now)
      invariant world.trace[i] == e
      invariant forall k | i < k < |world.trace| :: world.trace[k].GroupSeen?
      invariant forall pid | pid in live && pid !in rest :: GroupSeen(pid, Some(record.pgid)) in world.trace[i + 1..]
      decreases |rest|
    {
      HasMember(rest);
      var pid :| pid in rest;
      var left := world.Remaining(deadline);
      if left.None? {
        return Some(DeadlineExhausted);
      }
      ghost var before := world.trace;
      var group := world.GroupOf(pid, f);
      if group != Some(record.pgid) {
        return Some(if group.None? then NoSuchProcess else GroupChanged);
      }
      assert world.trace[i + 1..] == before[i + 1..] + [GroupSeen(pid, Some(record.pgid))];
      rest := rest - {pid};
    }
    assert e.current != map[];
    assert Cleared(world.trace, i, record.pgid);
    return None;
  }

  /** What the group did within one phase of the escalation. */
  datatype Phase = Emptied | StillThere | Broken(failure: Failure)

  /** The last event is a verdict over an empty group. */
  ghost predicate SeenEmpty(trace: Trace) {
    trace != [] && var e := trace[|trace| - 1]; e.Verdict? && e.owned && e.current == map[]
  }

  /** A verdict over an owned group that is not empty. */
  predicate SeenAlive(e: Event) {
    e.Verdict? && e.owned && e.current != map[]
  }

  /**
    What was seen from event `w` on: the group alive at every observation, and there was one
    unless nothing happened at all.
   */
  ghost predicate AliveSince(trace: Trace, w: nat) {
    && w <= |trace|
    && (forall i | w <= i < |trace| && trace[i].Verdict? :: SeenAlive(trace[i]))
    && (w < |trace| ==> exists i | w <= i < |trace| :: trace[i].Verdict?)
  }

  /** Why a phase that began at event `w` ended as it did. */
  ghost predicate PhaseExplained(phase: Phase, trace: Trace, w: nat, now: Time, f: Frame) {
    match phase
    case Emptied => SeenEmpty(trace)
    case StillThere => AliveSince(trace, w)
    case Broken(failure) => Explained(failure, trace, now, f)
  }

  /** Give the direct child a moment to exit. */
  method WaitForChild(world: World, process: Process, phaseLeft: Time, deadline: Time, ghost f: Frame)
    returns (expired: bool)
    requires Good(world.trace, f) && deadline == f.deadline && phaseLeft > 0 && Brief(world.trace, phaseLeft)
    modifies world`now, world`trace, process
    ensures Good(world.trace, f)
    ensures Quiet(f, old(world.trace), world.trace)
    ensures world.now >= old(world.now) && old(world.trace) <= world.trace
    ensures NoVerdicts(world.trace, |old(world.trace)|)
    ensures expired ==> world.now >= deadline
    ensures process.exited.Some? ==> world.trace == old(world.trace)
    ensures process.exited.None? && !expired ==>
              |world.trace| == |old(world.trace)| + 1 && world.trace[|old(world.trace)|].Wait?
  {
    hide Good, Signals, ChildSignals, Known, Settled, Limit;
    var polled := process.Poll();
    if polled.Some? {
      return false;
    }
    var left := world.Remaining(deadline);
    if left.None? {
      return true;
    }
    world.WaitFor(Min(Min(100 * MILLISECOND, phaseLeft), left.value), f);
    return false;
  }

  /** A short sleep, if the phase lasts. */
  method Doze(world: World, until: Time, deadline: Time, ghost f: Frame) returns (expired: bool)
    requires Good(world.trace, f) && deadline == f.deadline && Limit(world.trace) == Some(until)
    modifies world`now, world`trace
    ensures Good(world.trace, f) && Quiet(f, old(world.trace), world.trace)
    ensures world.now >= old(world.now) && old(world.trace) <= world.trace
    ensures expired ==> world.now >= deadline
    ensures !expired ==> Slept(old(world.trace), world.trace)
    ensures !expired ==> if world.trace == old(world.trace) then world.now >= until else world.now > old(world.now)
  {
    hide Good, Signals, ChildSignals, Known, Settled, Limit;
    var phaseLeft := world.PhaseLeft(until, f);
    if phaseLeft.None? {
      return false;
    }
    var left := world.Remaining(deadline);
    if left.None? {
      return true;
    }
    world.Sleep(Min(Min(50 * MILLISECOND, phaseLeft.value), left.value), f);
    return false;
  }

  /** Nothing, or a look at the clock and a sleep. */
  predicate Slept(a: Trace, b: Trace) {
    a == b || (|b| == |a| + 2 && a <= b && b[|a|].Look? && b[|a| + 1].Wait?)
  }

  /** One look at the group, and a short sleep if it is still there and the phase lasts. */
  method LookOnce(world: World, record: Record, process: Process?, until: Time, deadline: Time, ghost f: Frame)
    returns (phase: Phase)
    requires Good(world.trace, f) && Ties(record, world.trace, deadline, f) && Limit(world.trace) == Some(until)
    modifies world`now, world`trace, record`members, record`remaining, process
    ensures Good(world.trace, f) && Ties(record, world.trace, deadline, f)
    ensures SameSignals(old(world.trace), world.trace)
    ensures world.now >= old(world.now) && old(world.trace) <= world.trace
    ensures PhaseExplained(phase, world.trace, |old(world.trace)|, world.now, f)
    ensures phase.StillThere? ==> world.now > old(world.now) || world.now >= until
  {
    hide Good, Signals, ChildSignals, Known, Settled, Limit, Explained, NoVerdicts, AliveSince, SeenEmpty, MergedInto, Extends, Slept;
    ghost var before := world.trace;
    NothingSince(before);
    NoneYet(before);
    var phaseLeft := world.PhaseLeft(until, f);
    if phaseLeft.None? {
      return StillThere;
    }
    NoVerdictsOneMore(before, Look(world.now), |before|);
    ghost var begun := world.trace;
    NoneYet(begun);
    if process != null {
      var expired := WaitForChild(world, process, phaseLeft.value, deadline, f);
      if expired {
        LateIsExplained(world.trace, world.now, f);
        return Broken(DeadlineExhausted);
      }
    }
    NoVerdictsJoin(begun, world.trace, |before|);
    ghost var waited := world.trace;
    var r := RetainOwned(world, record, deadline, f);
    if r.Err? {
      return Broken(r.error);
    }
    if |r.value| == 0 {
      AdoptedNobody(world.trace);
      return Emptied;
    }
    LookedAndAlive(before, waited, world.trace);
    ghost var looked := world.trace;
    var expired := Doze(world, until, deadline, f);
    if expired {
      LateIsExplained(world.trace, world.now, f);
      return Broken(DeadlineExhausted);
    }
    SleptAfter(looked, world.trace, |before|);
    return StillThere;
  }

  lemma AdoptedNobody(trace: Trace)
    requires trace != [] && var e := trace[|trace| - 1]; e.Verdict? && e.owned && |e.current| == 0
    ensures SeenEmpty(trace)
  {
  }

  lemma LookedAndAlive(before: Trace, waited: Trace, trace: Trace)
    requires before <= waited <= trace && |waited| < |trace| && NoVerdicts(waited, |before|)
    requires NoVerdicts(trace[..|trace| - 1], |waited|)
    requires var e := trace[|trace| - 1]; e.Verdict? && e.owned && |e.current| != 0
    ensures AliveSince(trace, |before|)
  {
    var n := |trace| - 1;
    forall i | |before| <= i < n
      ensures !trace[i].Verdict?
    {
      if i < |waited| {
        assert waited[i] == trace[i];
      } else {
        assert trace[..n][i] == trace[i];
      }
    }
  }

  lemma SleptAfter(a: Trace, b: Trace, w: nat)
    requires AliveSince(a, w) && w < |a| && Slept(a, b)
    ensures AliveSince(b, w)
  {
    var i :| w <= i < |a| && a[i].Verdict?;
    assert b[i].Verdict?;
    forall j | w <= j < |b| && b[j].Verdict?
      ensures SeenAlive(b[j])
    {
      assert a[j] == b[j];
    }
  }

  /**
    Watch the group until it is empty or the phase of the signal just sent is over, and
    not a moment less; from its beginning on the group was seen alive at every look, unless
    it was found empty in the end or the watch broke off.
   */
  method WatchPhase(world: World, record: Record, process: Process?, seconds: Time, deadline: Time, ghost f: Frame)
    returns (phase: Phase)
    requires Good(world.trace, f) && Ties(record, world.trace, deadline, f)
    requires 0 < |Signals(world.trace)| <= |PATIENCE| && seconds == PATIENCE[|Signals(world.trace)| - 1]
    modifies world`now, world`trace, record`members, record`remaining, process
    ensures Good(world.trace, f) && Ties(record, world.trace, deadline, f)
    ensures Signals(world.trace) == old(Signals(world.trace)) && ChildSignals(world.trace) == old(ChildSignals(world.trace))
    ensures world.now >= old(world.now)
    ensures old(world.trace) <= world.trace && |old(world.trace)| < |world.trace| && world.trace[|old(world.trace)|].Watch?
    ensures PhaseExplained(phase, world.trace, |old(world.trace)| + 1, world.now, f)
    ensures phase.StillThere? ==> world.now >= Min(deadline, old(world.now) + seconds)
  {
    hide Good, Signals, ChildSignals, Known, Settled, Limit, Explained, SeenEmpty, AliveSince;
    var t := world.Monotonic();
    var until := Min(deadline, t + seconds);
    world.BeginPhase(until, f);
    ghost var w := |world.trace|;
    NothingSince(world.trace);
    t := world.Monotonic();
    while t < until
      invariant Good(world.trace, f) && Ties(record, world.trace, deadline, f) && Limit(world.trace) == Some(until)
      invariant Signals(world.trace) == old(Signals(world.trace))
      invariant ChildSignals(world.trace) == old(ChildSignals(world.trace))
      invariant old(world.now) <= t <= world.now
      invariant old(world.trace) <= world.trace && w <= |world.trace| && world.trace[w - 1].Watch?
      invariant AliveSince(world.trace, w)
      decreases until - t
    {
      ghost var before := world.trace;
      phase := LookOnce(world, record, process, until, deadline, f);
      if !phase.StillThere? {
        return;
      }
      AliveLonger(before, world.trace, w);
      t := world.Monotonic();
    }
    phase := StillThere;
  }

  lemma NothingSince(trace: Trace)
    ensures AliveSince(trace, |trace|)
  {
  }

  lemma AliveLonger(a: Trace, b: Trace, w: nat)
    requires a <= b && AliveSince(a, w) && AliveSince(b, |a|)
    ensures AliveSince(b, w)
  {
    forall i | w <= i < |b| && b[i].Verdict?
      ensures SeenAlive(b[i])
    {
      if i < |a| {
        assert a[i] == b[i];
      }
    }
    if w < |a| {
      var i :| w <= i < |a| && a[i].Verdict?;
      assert b[i].Verdict?;
    }
  }

  /** The group was just signalled, or was gone when it was to be. */
  ghost predicate Struck(trace: Trace) {
    trace != [] && (trace[|trace| - 1].GroupSignal? || SeenEmpty(trace))
  }

  /** Signal a group whose live members were just attributed. */
  method Strike(world: World, record: Record, live: set<Pid>, sig: Sig, deadline: Time, ghost f: Frame)
    returns (failure: Option<Failure>)
    requires Good(world.trace, f) && Ties(record, world.trace, deadline, f) && live != {}
    requires world.trace != [] && var e := world.trace[|world.trace| - 1];
             e.Verdict? && e.owned && e.current.Keys == live
    modifies world`now, world`trace, record`members, record`remaining
    ensures Good(world.trace, f) && Ties(record, world.trace, deadline, f)
    ensures ChildSignals(world.trace) == old(ChildSignals(world.trace))
    ensures world.now >= old(world.now)
    ensures failure.Some? ==> Explained(failure.value, world.trace, world.now, f)
    ensures failure.None? ==> Struck(world.trace)
    ensures || Signals(world.trace) == old(Signals(world.trace)) + [sig]
            || (failure.Some? && Signals(world.trace) == old(Signals(world.trace)))
  {
    hide Good, Signals, ChildSignals, Known, Settled, Limit, Cleared, NoVerdicts, MergedInto, Extends;
    failure := CheckGroup(world, record, live, deadline, f);
    if failure.Some? {
      return;
    }
    var left := world.Remaining(deadline);
    if left.None? {
      return Some(DeadlineExhausted);
    }
    var existed := world.SignalGroup(record.pgid, sig, f);
    if !existed {
      var again := RetainOwned(world, record, deadline, f);
      if again.Err? {
        return Some(again.error);
      }
      if |again.value| != 0 {
        return Some(SignalLost);
      }
    }
    return None;
  }

  /** The group outlived a signal: in the phase after it was struck it was seen alive whenever it was looked at. */
  ghost predicate Survived(trace: Trace) {
    exists w: nat | w < |trace| :: Struck(trace[..w]) && trace[w].Watch? && AliveSince(trace, w + 1)
  }

  /** One level of the escalation: observe, signal if the group is attributed, watch. */
  method Escalate(world: World, record: Record, process: Process?, n: nat, deadline: Time, ghost f: Frame)
    returns (phase: Phase)
    requires Good(world.trace, f) && Ties(record, world.trace, deadline, f)
    requires n < |ESCALATION| && Signals(world.trace) == ESCALATION[..n]
    modifies world`now, world`trace, record`members, record`remaining, process
    ensures Good(world.trace, f) && Ties(record, world.trace, deadline, f)
    ensures ChildSignals(world.trace) == old(ChildSignals(world.trace))
    ensures world.now >= old(world.now)
    ensures phase.StillThere? || PhaseExplained(phase, world.trace, 0, world.now, f)
    ensures phase.StillThere? ==> Survived(world.trace)
    ensures phase.StillThere? ==> world.now >= Min(deadline, old(world.now) + PATIENCE[n])
    ensures || Signals(world.trace) == ESCALATION[..n + 1]
            || (!phase.StillThere? && Signals(world.trace) == ESCALATION[..n])
  {
    hide Good, Signals, ChildSignals, Known, Settled, Limit, Explained, AliveSince, SeenEmpty, NoVerdicts, MergedInto, Extends;
    var r := RetainOwned(world, record, deadline, f);
    if r.Err? {
      return Broken(r.error);
    }
    if |r.value| == 0 {
      AdoptedNobody(world.trace);
      return Emptied;
    }
    assert r.value.Keys != {};
    assert ESCALATION[..n + 1] == ESCALATION[..n] + [ESCALATION[n]];
    var failure := Strike(world, record, r.value.Keys, ESCALATION[n], deadline, f);
    if failure.Some? {
      return Broken(failure.value);
    }
    ghost var struck := world.trace;
    phase := WatchPhase(world, record, process, PATIENCE[n], deadline, f);
    assert world.trace[..|struck|] == struck;
  }

  /** The time the first `n` phases take if none of them ends early. */
  function Patience(n: nat): Time
    requires n <= |PATIENCE|
  {
    if n == 0 then 0 else Patience(n - 1) + PATIENCE[n - 1]
  }

  /** The whole escalation. */
  method EscalateAll(world: World, record: Record, process: Process?, deadline: Time, ghost f: Frame)
    returns (phase: Phase)
    requires Good(world.trace, f) && Ties(record, world.trace, deadline, f) && Signals(world.trace) == []
    modifies world`now, world`trace, record`members, record`remaining, process
    ensures Good(world.trace, f) && Ties(record, world.trace, deadline, f)
    ensures ChildSignals(world.trace) == old(ChildSignals(world.trace))
    ensures world.now >= old(world.now)
    ensures Signals(world.trace) <= ESCALATION
    ensures phase.StillThere? || PhaseExplained(phase, world.trace, 0, world.now, f)
    ensures phase.StillThere? ==>
      Survived(world.trace) && Signals(world.trace) == ESCALATION && world.now >= Min(deadline, old(world.now) + Patience(3))
  {
    hide Good, Signals, ChildSignals, Known, Settled, Limit, PhaseExplained, Survived;
    for n := 0 to |ESCALATION|
      invariant Good(world.trace, f) && Ties(record, world.trace, deadline, f)
      invariant Signals(world.trace) == ESCALATION[..n] && (n == 0 || Survived(world.trace))
      invariant ChildSignals(world.trace) == old(ChildSignals(world.trace))
      invariant world.now >= old(world.now) && world.now >= Min(deadline, old(world.now) + Patience(n))
    {
      phase := Escalate(world, record, process, n, deadline, f);
      if !phase.StillThere? {
        return;
      }
    }
    assert ESCALATION[..|ESCALATION|] == ESCALATION;
    phase := StillThere;
  }

  /** A failure has its reason at some point of the run. */
  ghost predicate Caused(failure: Failure, trace: Trace, now: Time, f: Frame) {
    match failure
    case GroupSurvived => Signals(trace) == ESCALATION && Survived(trace)
    case ChildSurvived => ChildSignals(trace) == ESCALATION
    case _ => exists n: nat | n <= |trace| :: Explained(failure, trace[..n], now, f)
  }

  lemma CausedNow(failure: Failure, trace: Trace, now: Time, f: Frame)
    requires Explained(failure, trace, now, f)
    ensures Caused(failure, trace, now, f)
    ensures failure != GroupSurvived && failure != ChildSurvived
  {
    assert trace[..|trace|] == trace;
  }

  lemma PhaseIsCaused(phase: Phase, trace: Trace, now: Time, f: Frame)
    requires phase.StillThere? || PhaseExplained(phase, trace, 0, now, f)
    ensures phase.Emptied? ==> SeenEmpty(trace)
    ensures phase.Broken? ==> phase.failure != GroupSurvived && Caused(phase.failure, trace, now, f)
  {
    hide Explained, Caused;
    if phase.Broken? {
      CausedNow(phase.failure, trace, now, f);
    }
  }

  lemma CausedByReaping(failure: Failure, trace: Trace, now: Time, f: Frame)
    requires failure == DeadlineExhausted || failure == ChildSurvived
    requires failure == DeadlineExhausted ==> now >= f.deadline
    requires failure == ChildSurvived ==> ChildSignals(trace) == ESCALATION
    ensures Caused(failure, trace, now, f)
  {
    if failure == DeadlineExhausted {
      CausedNow(failure, trace, now, f);
    }
  }

  lemma CausedBefore(
      failure: Failure, trace: Trace, then': Time, later: Trace, now: Time, f: Frame)
    requires Explained(failure, trace, then', f) && trace <= later && then' <= now
    ensures Caused(failure, later, now, f)
    ensures failure != GroupSurvived && failure != ChildSurvived
  {
    assert later[..|trace|] == trace;
  }

  /** Identify the direct child; one that cannot be identified is reaped, and the failure kept. */
  method IdentifyOrReap(world: World, record: Record, process: Process, deadline: Time, ghost f: Frame)
    returns (r: Option<Failure>)
    requires world.trace == [] && Linked(record, world.trace, deadline, f)
    requires f.start.identity == "" && f.child == Some(process.pid)
    modifies world`now, world`trace, record`identity, record`members, record`exit, process
    ensures Good(world.trace, f) && Linked(record, world.trace, deadline, f) && Signals(world.trace) == []
    ensures world.now >= old(world.now)
    ensures ChildSignals(world.trace) <= ESCALATION && (r.None? ==> ChildSignals(world.trace) == [])
    ensures r.Some? ==> r.value != GroupSurvived && Caused(r.value, world.trace, world.now, f)
    ensures r.None? ==> Settled(world.trace, f)
    ensures r.None? && process.exited.None? ==> Last(world.trace, Identified(process.pid, record.identity))
    ensures r.Some? || process.exited.Some? ==>
              record.identity == old(record.identity) && record.members == old(record.members)
    ensures r.Some? ==> record.exit == process.exited
    ensures r.Some? && record.exit.None? ==> r.value == DeadlineExhausted || r.value == ChildSurvived
  {
    NothingYet(f);
    hide Good, Signals, ChildSignals, Known, Settled, Limit, Explained, Caused;
    r := IdentifyChild(world, record, process, deadline, f);
    if r.Some? {
      ghost var trace, then' := world.trace, world.now;
      var worse := ReapChild(world, record, process, deadline, f);
      CausedBefore(r.value, trace, then', world.trace, world.now, f);
      if worse.Some? {
        CausedByReaping(worse.value, world.trace, world.now, f);
        r := worse;
      }
    }
  }

  /** What a call of `stop_owned` is judged against. */
  ghost function FrameOf(record: Record, process: Process?, deadline: Time): Frame
    reads record
  {
    Frame(deadline, record.pgid, if process == null then None else Some(process.pid), record.Knows())
  }

  /**
    Stop an owned group under one deadline. In every environment: the group is signalled
    only right after an observation that attributed all its live members to those the
    record retained, from its start, its identified child or an earlier such observation;
    it receives SIGINT, SIGTERM and SIGKILL in this order, each at most once; every probe,
    wait and signal follows a clock reading before the deadline, and no probe or wait may
    outlast it. The group is recorded as empty exactly when the method returns normally,
    which it does on an observation of an empty group. Every failure has its reason in the
    run: the deadline passed, a probe failed, the group was not owned, or it outlived the
    whole escalation. A direct child that cannot be identified gets the signals itself, and
    the group none. In the end the record knows what the run says, and no more.
   */
  method StopOwned(world: World, record: Record, process: Process?, deadline: Time)
    returns (r: Option<Failure>)
    requires world.trace == []
    modifies world`now, world`trace, record, process
    ensures Good(world.trace, old(FrameOf(record, process, deadline)))
    ensures record.Knows() == Known(old(record.Knows()), world.trace)
    ensures Signals(world.trace) <= ESCALATION && ChildSignals(world.trace) <= ESCALATION
    ensures ChildSignals(world.trace) != [] ==> Signals(world.trace) == [] && r.Some?
    ensures ChildSignals(world.trace) != [] && record.exit.None? ==>
              r.value == DeadlineExhausted || r.value == ChildSurvived
    ensures record.groupEmpty <==> r.None?
    ensures r.None? ==> SeenEmpty(world.trace)
    ensures r.Some? ==> Caused(r.value, world.trace, world.now, old(FrameOf(record, process, deadline)))
    ensures r == Some(GroupSurvived) ==> world.now >= Min(deadline, old(world.now) + Patience(3))
    ensures old(record.identity) != "" || process == null ==>
              Extends(old(record.Knows().Retained()), record.Knows().Retained())
  {
    ghost var f := FrameOf(record, process, deadline);
    hide Good, Signals, ChildSignals, Known, Settled, Limit, Explained, Caused, SeenEmpty, Patience, Extends;
    NothingYet(f);
    record.groupEmpty := false;
    r := StopKnown(world, record, process, deadline, f);
    WithoutIdentification(world.trace, f);
    if r.None? {
      record.groupEmpty := true;
    }
  }

  /** Identify the direct child if nothing is known of it, and take the group down. */
  method StopKnown(world: World, record: Record, process: Process?, deadline: Time, ghost f: Frame)
    returns (r: Option<Failure>)
    requires world.trace == [] && Linked(record, world.trace, deadline, f)
    requires record.identity == f.start.identity
    requires f.child == if process == null then None else Some(process.pid)
    modifies world`now, world`trace, record`identity, record`members, record`remaining, record`exit, process
    ensures Good(world.trace, f) && Linked(record, world.trace, deadline, f)
    ensures Signals(world.trace) <= ESCALATION && ChildSignals(world.trace) <= ESCALATION
    ensures ChildSignals(world.trace) != [] ==> Signals(world.trace) == [] && r.Some?
    ensures ChildSignals(world.trace) != [] && record.exit.None? ==>
              r.value == DeadlineExhausted || r.value == ChildSurvived
    ensures r.None? ==> SeenEmpty(world.trace)
    ensures r.Some? ==> Caused(r.value, world.trace, world.now, f)
    ensures r == Some(GroupSurvived) ==> world.now >= Min(deadline, old(world.now) + Patience(3))
  {
    hide Good, Signals, ChildSignals, Known, Settled, Limit, Explained, Caused, SeenEmpty, Patience;
    NothingYet(f);
    if process != null && record.identity == "" {
      r := IdentifyOrReap(world, record, process, deadline, f);
      if r.Some? {
        return;
      }
    }
    ChildIsSettled(world.trace, f);
    r := TakeDown(world, record, process, deadline, f);
  }

  /** The escalation, and what its end means. */
  method TakeDown(world: World, record: Record, process: Process?, deadline: Time, ghost f: Frame)
    returns (r: Option<Failure>)
    requires Good(world.trace, f) && Ties(record, world.trace, deadline, f) && Signals(world.trace) == []
    modifies world`now, world`trace, record`members, record`remaining, process
    ensures Good(world.trace, f) && Ties(record, world.trace, deadline, f)
    ensures ChildSignals(world.trace) == old(ChildSignals(world.trace)) && Signals(world.trace) <= ESCALATION
    ensures r.None? ==> SeenEmpty(world.trace)
    ensures r.Some? ==> Caused(r.value, world.trace, world.now, f)
    ensures r == Some(GroupSurvived) ==> world.now >= Min(deadline, old(world.now) + Patience(3))
  {
    hide Good, Signals, ChildSignals, Known, Settled, Limit, Explained, Caused, SeenEmpty, Patience, Survived, PhaseExplained;
    var phase := EscalateAll(world, record, process, deadline, f);
    PhaseIsCaused(phase, world.trace, world.now, f);
    match phase {
      case Emptied =>
        return None;
      case Broken(failure) =>
        return Some(failure);
      case StillThere =>
        SurvivalIsCaused(world.trace, world.now, f);
        return Some(GroupSurvived);
    }
  }

  lemma WithoutIdentification(trace: Trace, f: Frame)
    requires Good(trace, f)
    ensures f.start.identity != "" || f.child.None? ==> Extends(f.start.Retained(), Known(f.start, trace).Retained())
  {
    if f.start.identity != "" || f.child.None? {
      forall i | 0 <= i < |trace|
        ensures !trace[i].Identified?
      {
        assert Allowed(trace[..i], trace[i], f);
      }
      KnownOnlyGrows(trace, f);
    }
  }

  lemma ChildIsSettled(trace: Trace, f: Frame)
    ensures f.start.identity != "" || f.child.None? ==> Settled(trace, f)
  {
  }

  lemma NothingYet(f: Frame)
    ensures Good([], f) && Signals([]) == [] && ChildSignals([]) == [] && Known(f.start, []) == f.start
    ensures Limit([]) == None
  {
  }

  lemma SurvivalIsCaused(trace: Trace, now: Time, f: Frame)
    requires Signals(trace) == ESCALATION && Survived(trace)
    ensures Caused(GroupSurvived, trace, now, f)
  {
  }
}
