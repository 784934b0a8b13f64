/**
  The owned process group of a launched command: probing it, adopting its members, and
  taking it down with one absolute deadline over every probe, wait and signal. The process
  table, the clock and the answers of the operating system are arbitrary.
 */
module ProcessGroup {
  import opened Common
  import opened ProcessOwnership

  const MILLISECOND: Time := 1_000_000
  const SECOND: Time := 1_000_000_000

  datatype Sig = SIGINT | SIGTERM | SIGKILL

  const ESCALATION: seq<Sig> := [SIGINT, SIGTERM, SIGKILL]
  const PATIENCE: seq<Time> := [8 * SECOND, 4 * SECOND, 3 * SECOND]
  const CHILD_PATIENCE: seq<Time> := [200 * MILLISECOND, 200 * MILLISECOND, 2 * SECOND]

  /** No probe may take longer, whatever time is left. */
  const PROBE_TIMEOUT: Time := 2 * SECOND

  datatype Failure =
    | DeadlineExhausted
    | ProbeFailed
    | Refused(refusal: Refusal)
    | GroupChanged
    | NoSuchProcess
    | IdentityUnavailable
    | SignalLost                           // no group to signal, yet members are observed again
    | GroupSurvived
    | ChildSurvived

  // ----- What is recorded about a run

  /** `at` is the last clock reading before the action. */
  datatype Event =
    | Probe(at: Time, timeout: Time)
    | ProbeError
    | Listing(parents: map<Pid, Pid>, at: Time)
    | BirthSeen(pid: Pid, birth: Birth, at: Time)
    | Verdict(retained: map<Pid, Birth>, parents: map<Pid, Pid>, current: map<Pid, Birth>, owned: bool, at: Time)
    | Identified(pid: Pid, birth: Birth)
    | ChildSeen(alive: bool)               // the direct child was polled
    | Watch(at: Time, until: Time)         // a phase of the escalation begins
    | Look(at: Time)                       // and is not over yet
    | Wait(at: Time, timeout: Time)
    | GroupSeen(pid: Pid, group: Option<int>)
    | GroupSignal(pgid: int, sig: Sig, at: Time)
    | ChildSignal(sig: Sig, at: Time)      // to the unreaped direct child only

  type Trace = seq<Event>

  predicate InTime(e: Event, deadline: Time) {
    match e
    case Probe(at, timeout) => at < deadline && timeout == Min(PROBE_TIMEOUT, deadline - at)
    case Listing(_, at) => at < deadline
    case BirthSeen(_, _, at) => at < deadline
    case Wait(at, timeout) => at < deadline && 0 < timeout && at + timeout <= deadline
    case Verdict(_, _, _, owned, at) => owned ==> at < deadline
    case GroupSignal(_, _, at) => at < deadline
    case ChildSignal(_, at) => at < deadline
    case _ => true
  }

  /** The members with a birth among the answers, each answer replacing the one before. */
  function Alive(answers: Trace): map<Pid, Birth> {
    if answers == [] then map[] else
    var front, last := Alive(answers[..|answers| - 1]), answers[|answers| - 1];
    if !last.BirthSeen? then front
    else if last.birth == "" then front - {last.pid}
    else front[last.pid := last.birth]
  }

  function Asked(answers: Trace): set<Pid> {
    set i | 0 <= i < |answers| && answers[i].BirthSeen? :: answers[i].pid
  }

  /**
    A verdict rests on the listing at `i` and on nothing but the births of the listed
    members after it: all of them were asked for, those alive are the current ones, and
    the verdict says whether this group is owned.
   */
  ghost predicate Founded(trace: Trace, i: nat, e: Event)
    requires e.Verdict?
  {
    && i < |trace| && trace[i].Listing? && trace[i].parents == e.parents
    && (forall k | i < k < |trace| :: trace[k].Probe? || trace[k].BirthSeen?)
    && Asked(trace[i + 1..]) == e.parents.Keys
    && Alive(trace[i + 1..]) == e.current
    && (e.owned <==> Owned(e.retained, e.parents, e.current))
  }

  /**
    The group may be signalled: the event at `i` is a verdict that a non-empty group is
    owned, and since then each of its members was seen in the group and nothing else
    happened.
   */
  ghost predicate Cleared(trace: Trace, i: nat, pgid: int) {
    && i < |trace| && trace[i].Verdict? && trace[i].owned && trace[i].current != map[]
    && (forall k | i < k < |trace| :: trace[k].GroupSeen?)
    && (forall pid | pid in trace[i].current :: GroupSeen(pid, Some(pgid)) in trace[i + 1..])
  }

  /** What a record says about its group: the identity of the child, and the members if any were retained. */
  datatype Knowledge = Knowledge(pid: Pid, identity: Birth, members: Option<map<Pid, Birth>>)
  {
    function Retained(): map<Pid, Birth> {
      if members.Some? then members.value else map[pid := identity]
    }
  }

  /** An owned verdict retains the live members; identifying the child retains the child. */
  function Learn(k: Knowledge, e: Event): Knowledge {
    if e.Verdict? && e.owned then k.(members := Some(k.Retained() + e.current))
    else if e.Identified? then
      k.(identity := e.birth, members := Some((if k.members.Some? then k.members.value else map[])[e.pid := e.birth]))
    else k
  }

  /** What is known after a trace. */
  function Known(start: Knowledge, trace: Trace): Knowledge {
    if trace == [] then start else Learn(Known(start, trace[..|trace| - 1]), trace[|trace| - 1])
  }

  /** The direct child was identified, or found to have exited. */
  predicate Tried(trace: Trace) {
    exists i | 0 <= i < |trace| :: trace[i].Identified? || trace[i] == ChildSeen(false)
  }

  /** What a run is judged against: its deadline and group, its direct child, and what was known at its start. */
  datatype Frame = Frame(deadline: Time, pgid: int, child: Option<Pid>, start: Knowledge)

  /**
    The direct child is identified, if nothing was known of it, by a birth and then its
    group, seen just before, and by not having exited in between.
   */
  ghost predicate Recognized(trace: Trace, e: Event, f: Frame)
    requires e.Identified?
  {
    && f.start.identity == "" && f.child == Some(e.pid) && e.birth != ""
    && |trace| >= 3 && trace[|trace| - 2..] == [ChildSeen(true), GroupSeen(e.pid, Some(f.pgid))]
    && var seen := trace[|trace| - 3]; seen.BirthSeen? && seen.pid == e.pid && seen.birth == e.birth
  }

  /** A child of which nothing was known comes first. */
  predicate Settled(trace: Trace, f: Frame) {
    f.start.identity != "" || f.child.None? || Tried(trace)
  }

  /** The end of the phase of the escalation that began last. */
  function Limit(trace: Trace): Option<Time> {
    if trace == [] then None else
    if trace[|trace| - 1].Watch? then Some(trace[|trace| - 1].until) else Limit(trace[..|trace| - 1])
  }

  /** A phase lasts as long as the signal just sent deserves, within the deadline. */
  predicate Patient(trace: Trace, e: Event, f: Frame)
    requires e.Watch?
  {
    var n := |Signals(trace)|;
    0 < n <= |PATIENCE| && e.until == Min(f.deadline, e.at + PATIENCE[n - 1])
  }

  /** A wait within a phase follows a look at the clock, and is not to outlast the phase then left. */
  predicate Brief(trace: Trace, timeout: Time) {
    Limit(trace).Some? ==>
      trace != [] && var e := trace[|trace| - 1]; e.Look? && timeout <= Limit(trace).value - e.at
  }

  /**
    A verdict compares the observed group with the members retained at that moment, and no
    others, once the direct child is settled.
   */
  ghost predicate Allowed(trace: Trace, e: Event, f: Frame) {
    && InTime(e, f.deadline)
    && (e.Verdict? ==>
          && Settled(trace, f) && e.retained == Known(f.start, trace).Retained()
          && exists i: nat :: Founded(trace, i, e))
    && (e.Identified? ==> Recognized(trace, e, f))
    && (e.GroupSignal? ==> e.pgid == f.pgid && exists i: nat :: Cleared(trace, i, f.pgid))
    && (e.ChildSignal? ==> Last(trace, ChildSeen(true)))
    && (e.Watch? ==> Patient(trace, e, f))
    && (e.Look? ==> Limit(trace).Some? && e.at < Limit(trace).value)
    && (e.Wait? ==> Brief(trace, e.timeout))
  }

  /** Every event was allowed when it happened. */
  ghost predicate Good(trace: Trace, f: Frame) {
    forall j | 0 <= j < |trace| :: Allowed(trace[..j], trace[j], f)
  }

  /** The signals sent to the group, in order. */
  function Signals(trace: Trace): seq<Sig> {
    if trace == [] then [] else
    var front, last := Signals(trace[..|trace| - 1]), trace[|trace| - 1];
    if last.GroupSignal? then front + [last.sig] else front
  }

  /** The signals sent to the direct child, in order. */
  function ChildSignals(trace: Trace): seq<Sig> {
    if trace == [] then [] else
    var front, last := ChildSignals(trace[..|trace| - 1]), trace[|trace| - 1];
    if last.ChildSignal? then front + [last.sig] else front
  }

  predicate SameSignals(a: Trace, b: Trace) {
    Signals(a) == Signals(b) && ChildSignals(a) == ChildSignals(b) && Limit(a) == Limit(b)
  }

  /** Nothing signalled, no phase begun and nothing learned in between. */
  predicate Quiet(f: Frame, a: Trace, b: Trace) {
    SameSignals(a, b) && Known(f.start, a) == Known(f.start, b) && (Settled(a, f) ==> Settled(b, f))
  }

  /** Nothing was judged from event `from` on. */
  predicate NoVerdicts(trace: Trace, from: nat) {
    forall i | from <= i < |trace| :: !trace[i].Verdict?
  }

  lemma NoVerdictsJoin(a: Trace, b: Trace, from: nat)
    requires from <= |a| && a <= b && NoVerdicts(a, from) && NoVerdicts(b, |a|)
    ensures NoVerdicts(b, from)
  {
    forall i | from <= i < |b|
      ensures !b[i].Verdict?
    {
      if i < |a| {
        assert a[i] == b[i];
      }
    }
  }

  lemma NoVerdictsOneMore(trace: Trace, e: Event, from: nat)
    requires NoVerdicts(trace, from) && !e.Verdict?
    ensures NoVerdicts(trace + [e], from)
  {
  }

  /** A probe was answered with this birth. */
  predicate Answered(a: Trace, b: Trace, pid: Pid, birth: Birth) {
    && |b| == |a| + 2 && a <= b && b[|a|].Probe?
    && b[|a| + 1].BirthSeen? && b[|a| + 1].pid == pid && b[|a| + 1].birth == birth
  }

  predicate Last(trace: Trace, e: Event) {
    trace != [] && trace[|trace| - 1] == e
  }

  lemma SettledStays(trace: Trace, e: Event, f: Frame)
    ensures Settled(trace, f) || e.Identified? || e == ChildSeen(false) ==> Settled(trace + [e], f)
  {
    assert (trace + [e])[|trace|] == e;
    if Tried(trace) {
      var i :| 0 <= i < |trace| && (trace[i].Identified? || trace[i] == ChildSeen(false));
      assert (trace + [e])[i] == trace[i];
    }
  }

  lemma AppendGood(trace: Trace, e: Event, f: Frame)
    requires Good(trace, f) && Allowed(trace, e, f)
    ensures Good(trace + [e], f)
    ensures Signals(trace + [e]) == if e.GroupSignal? then Signals(trace) + [e.sig] else Signals(trace)
    ensures ChildSignals(trace + [e]) == if e.ChildSignal? then ChildSignals(trace) + [e.sig] else ChildSignals(trace)
    ensures Limit(trace + [e]) == if e.Watch? then Some(e.until) else Limit(trace)
    ensures Known(f.start, trace + [e]) == Learn(Known(f.start, trace), e)
    ensures Settled(trace, f) || e.Identified? || e == ChildSeen(false) ==> Settled(trace + [e], f)
  {
    SettledStays(trace, e, f);
    hide Allowed, Settled;
    var longer := trace + [e];
    assert longer[..|trace|] == trace;
    forall j | 0 <= j < |longer|
      ensures Allowed(longer[..j], longer[j], f)
    {
      if j < |trace| {
        assert longer[..j] == trace[..j] && longer[j] == trace[j];
      }
    }
  }

  /** Why a step fails, as the last event or the clock shows; surviving all signals is no failure of one step. */
  ghost predicate Explained(failure: Failure, trace: Trace, now: Time, f: Frame) {
    match failure
    case DeadlineExhausted => now >= f.deadline
    case ProbeFailed => Last(trace, ProbeError)
    case Refused(_) => trace != [] && var e := trace[|trace| - 1]; e.Verdict? && !e.owned
    case GroupChanged =>
      trace != [] && var e := trace[|trace| - 1]; e.GroupSeen? && e.group.Some? && e.group != Some(f.pgid)
    case NoSuchProcess => trace != [] && var e := trace[|trace| - 1]; e.GroupSeen? && e.group.None?
    case IdentityUnavailable =>
      || (|trace| > 1 && Last(trace, ChildSeen(true)) && var e := trace[|trace| - 2]; e.BirthSeen? && e.birth == "")
      || (trace != [] && var e := trace[|trace| - 1]; e.GroupSeen? && e.group.Some? && e.group != Some(f.pgid))
    case SignalLost => trace != [] && var e := trace[|trace| - 1]; e.Verdict? && e.owned && e.current != map[]
    case GroupSurvived => false
    case ChildSurvived => false
  }

  // ----- The world

  class World {
    var now: Time
    ghost var trace: Trace

    method Monotonic() returns (t: Time)
      modifies this`now
      ensures t == now >= old(now)
    {
      var passed: int :| passed >= 0;
      now := now + passed;
      return now;
    }

    /** `remaining`: the time left, or the exhausted deadline. */
    method Remaining(deadline: Time) returns (left: Option<Time>)
      modifies this`now
      ensures now >= old(now)
      ensures left == if now < deadline then Some(deadline - now) else None
    {
      var t := Monotonic();
      return if deadline - t <= 0 then None else Some(deadline - t);
    }

    ghost method Log(e: Event, f: Frame)
      requires Good(trace, f) && Allowed(trace, e, f)
      modifies this`trace
      ensures trace == old(trace) + [e] && Good(trace, f)
      ensures Signals(trace) == if e.GroupSignal? then Signals(old(trace)) + [e.sig] else Signals(old(trace))
      ensures ChildSignals(trace)
              == if e.ChildSignal? then ChildSignals(old(trace)) + [e.sig] else ChildSignals(old(trace))
      ensures Limit(trace) == if e.Watch? then Some(e.until) else Limit(old(trace))
      ensures Known(f.start, trace) == Learn(Known(f.start, old(trace)), e)
      ensures Settled(old(trace), f) || e.Identified? || e == ChildSeen(false) ==> Settled(trace, f)
    {
      AppendGood(trace, e, f);
      trace := trace + [e];
    }

    /** An event that needs no reason. */
    ghost method Note(e: Event, f: Frame)
      requires Good(trace, f) && InTime(e, f.deadline)
      requires !e.Verdict? && !e.Identified? && !e.GroupSignal? && !e.ChildSignal? && !e.Watch?
      requires e.Look? ==> Limit(trace).Some? && e.at < Limit(trace).value
      requires e.Wait? ==> Brief(trace, e.timeout)
      modifies this`trace
      ensures trace == old(trace) + [e] && Good(trace, f) && Quiet(f, old(trace), trace)
      ensures e == ChildSeen(false) ==> Settled(trace, f)
    {
      hide Good, Known, Signals, ChildSignals, Settled, Limit;
      Log(e, f);
    }

    /** `ps` over all processes, cut down to one group: pid to parent pid, if the command succeeds in time. */
    method ListGroup(timeout: Time, pgid: int, ghost f: Frame)
      returns (timedOut: bool, r: Option<map<Pid, Pid>>)
      requires Good(trace, f) && now < f.deadline && timeout == Min(PROBE_TIMEOUT, f.deadline - now)
      modifies this`now, this`trace
      ensures Good(trace, f) && now >= old(now) && Quiet(f, old(trace), trace) && old(trace) <= trace
      ensures timedOut ==> Last(trace, ProbeError)
      ensures NoVerdicts(trace, |old(trace)|)
    {
      hide Good, Signals, ChildSignals, Known, Settled, Limit;
      Note(Probe(now, timeout), f);
      var _ := Monotonic();
      timedOut, r := *, *;
      if timedOut {
        Note(ProbeError, f);
      }
    }

    /** `identity`: the birth of one process, empty when it is gone. */
    method Identity(pid: Pid, deadline: Time, ghost f: Frame) returns (r: Result<Birth, Failure>)
      requires Good(trace, f) && deadline == f.deadline
      modifies this`now, this`trace
      ensures Good(trace, f) && now >= old(now) && Quiet(f, old(trace), trace) && old(trace) <= trace
      ensures NoVerdicts(trace, |old(trace)|)
      ensures r.Ok? ==> now < deadline && Answered(old(trace), trace, pid, r.value)
      ensures r.Err? ==> Explained(r.error, trace, now, f) && !r.error.Refused?
    {
      hide Good, Signals, ChildSignals, Known, Settled, Limit;
      var left := Remaining(deadline);
      if left.None? {
        return Err(DeadlineExhausted);
      }
      Note(Probe(now, Min(PROBE_TIMEOUT, left.value)), f);
      var _ := Monotonic();
      var answer: Option<Birth> := *;
      match answer {
        case None =>
          Note(ProbeError, f);
          return Err(ProbeFailed);
        case Some(birth) =>
          left := Remaining(deadline);
          if left.None? {
            return Err(DeadlineExhausted);
          }
          Note(BirthSeen(pid, birth, now), f);
          return Ok(birth);
      }
    }

    /** `poll` of the direct child. */
    method PollChild(process: Process, ghost f: Frame) returns (exited: Option<int>)
      requires Good(trace, f)
      modifies this`trace, process
      ensures exited == process.exited && (old(process.exited).Some? ==> exited == old(process.exited))
      ensures trace == old(trace) + [ChildSeen(exited.None?)]
      ensures Good(trace, f) && Quiet(f, old(trace), trace) && (exited.Some? ==> Settled(trace, f))
    {
      hide Good, Signals, ChildSignals, Known, Settled, Limit;
      exited := process.Poll();
      Note(ChildSeen(exited.None?), f);
    }

    /** `getpgid`: the group of a process, if it exists. */
    method GroupOf(pid: Pid, ghost f: Frame) returns (r: Option<int>)
      requires Good(trace, f) && now < f.deadline
      modifies this`now, this`trace
      ensures now >= old(now) && trace == old(trace) + [GroupSeen(pid, r)]
      ensures Good(trace, f) && Quiet(f, old(trace), trace)
    {
      hide Good, Signals, ChildSignals, Known, Settled, Limit;
      r := *;
      Note(GroupSeen(pid, r), f);
      var _ := Monotonic();
    }

    /** `killpg`; the answer says whether the group existed. */
    method SignalGroup(pgid: int, sig: Sig, ghost f: Frame) returns (existed: bool)
      requires Good(trace, f) && now < f.deadline
      requires pgid == f.pgid && exists i: nat :: Cleared(trace, i, pgid)
      modifies this`trace
      ensures trace == old(trace) + [GroupSignal(pgid, sig, now)] && Good(trace, f)
      ensures Signals(trace) == old(Signals(trace)) + [sig] && ChildSignals(trace) == old(ChildSignals(trace))
      ensures Known(f.start, trace) == Known(f.start, old(trace)) && (Settled(old(trace), f) ==> Settled(trace, f))
    {
      hide Good, Cleared, Known, Signals, ChildSignals, Settled, Limit;
      Log(GroupSignal(pgid, sig, now), f);
      existed := *;
    }

    /** The signal goes to a child that has just been found alive. */
    method SignalChild(sig: Sig, ghost f: Frame)
      requires Good(trace, f) && now < f.deadline && Last(trace, ChildSeen(true))
      modifies this`now, this`trace
      ensures Good(trace, f) && old(trace) <= trace && now >= old(now) && Limit(trace) == Limit(old(trace))
      ensures Signals(trace) == old(Signals(trace)) && ChildSignals(trace) == old(ChildSignals(trace)) + [sig]
      ensures Known(f.start, trace) == Known(f.start, old(trace)) && (Settled(old(trace), f) ==> Settled(trace, f))
    {
      hide Good, Known, Signals, ChildSignals, Settled, Limit;
      Log(ChildSignal(sig, now), f);
      var _ := Monotonic();
    }

    /** A phase of the escalation begins. */
    ghost method BeginPhase(until: Time, f: Frame)
      requires Good(trace, f) && Patient(trace, Watch(now, until), f)
      modifies this`trace
      ensures trace == old(trace) + [Watch(now, until)] && Good(trace, f) && Limit(trace) == Some(until)
      ensures Signals(trace) == old(Signals(trace)) && ChildSignals(trace) == old(ChildSignals(trace))
      ensures Known(f.start, trace) == Known(f.start, old(trace)) && (Settled(old(trace), f) ==> Settled(trace, f))
    {
      hide Good, Known, Signals, ChildSignals, Settled, Limit, Patient;
      Log(Watch(now, until), f);
    }

    /** `phase_left`: the time left in the phase, if any. */
    method PhaseLeft(until: Time, ghost f: Frame) returns (left: Option<Time>)
      requires Good(trace, f) && Limit(trace) == Some(until)
      modifies this`now, this`trace
      ensures now >= old(now) && left == if now < until then Some(until - now) else None
      ensures trace == if left.Some? then old(trace) + [Look(now)] else old(trace)
      ensures Good(trace, f) && Quiet(f, old(trace), trace)
    {
      hide Good, Signals, ChildSignals, Known, Settled, Limit;
      var t := Monotonic();
      if until - t <= 0 {
        return None;
      }
      Note(Look(t), f);
      return Some(until - t);
    }

    /** A wait that may end early. */
    method WaitFor(timeout: Time, ghost f: Frame)
      requires Good(trace, f) && 0 < timeout <= f.deadline - now
      requires Brief(trace, timeout)
      modifies this`now, this`trace
      ensures now >= old(now) && trace == old(trace) + [Wait(old(now), timeout)]
      ensures Good(trace, f) && Quiet(f, old(trace), trace)
    {
      hide Good, Signals, ChildSignals, Known, Settled, Limit;
      Note(Wait(now, timeout), f);
      var _ := Monotonic();
    }

    /** A sleep lasts at least as long as asked. */
    method Sleep(duration: Time, ghost f: Frame)
      requires Good(trace, f) && 0 < duration <= f.deadline - now
      requires Brief(trace, duration)
      modifies this`now, this`trace
      ensures now >= old(now) + duration && trace == old(trace) + [Wait(old(now), duration)]
      ensures Good(trace, f) && Quiet(f, old(trace), trace)
    {
      hide Good, Signals, ChildSignals, Known, Settled, Limit;
      Note(Wait(now, duration), f);
      now := now + duration;
      var _ := Monotonic();
    }
  }

  /** The handle of the direct child; `poll` may find that it has exited. */
  class Process {
    const pid: Pid
    var exited: Option<int>

    method Poll() returns (r: Option<int>)
      modifies this
      ensures r == exited && (old(exited).Some? ==> exited == old(exited))
    {
      if exited.None? {
        exited := *;
      }
      return exited;
    }
  }

  class Record {
    const pid: Pid
    const pgid: int
    var identity: Birth
    var members: Option<map<Pid, Birth>>
    var remaining: map<Pid, Birth>
    var groupEmpty: bool
    var exit: Option<int>

    function Knows(): Knowledge
      reads this
    {
      Knowledge(pid, identity, members)
    }
  }

  /** The record says what the trace says. */
  ghost predicate Linked(record: Record, trace: Trace, deadline: Time, f: Frame)
    reads record
  {
    record.pgid == f.pgid && deadline == f.deadline && record.Knows() == Known(f.start, trace)
  }

  /** And the direct child is settled. */
  ghost predicate Ties(record: Record, trace: Trace, deadline: Time, f: Frame)
    reads record
  {
    Linked(record, trace, deadline, f) && Settled(trace, f)
  }

  /** `b` keeps every member of `a` with its birth. */
  predicate Extends(a: map<Pid, Birth>, b: map<Pid, Birth>) {
    forall pid | pid in a :: pid in b && b[pid] == a[pid]
  }

  // ----- retain_owned

  /** The births asked for since the listing at `i`. */
  ghost predicate Gathered(trace: Trace, i: nat, asked: set<Pid>, current: map<Pid, Birth>) {
    && i < |trace|
    && (forall k | i < k < |trace| :: trace[k].Probe? || trace[k].BirthSeen?)
    && Asked(trace[i + 1..]) == asked
    && Alive(trace[i + 1..]) == current
    && current.Keys <= asked
  }

  lemma GatherNothing(trace: Trace)
    requires trace != []
    ensures Gathered(trace, |trace| - 1, {}, map[])
  {
  }

  lemma GatherOneMore(
      trace: Trace, longer: Trace, i: nat, asked: set<Pid>, current: map<Pid, Birth>, pid: Pid, birth: Birth)
    requires Gathered(trace, i, asked, current) && pid !in asked && Answered(trace, longer, pid, birth)
    ensures Gathered(longer, i, asked + {pid}, if birth == "" then current else current[pid := birth])
  {
    var probe, seen, answers := longer[|trace|], longer[|trace| + 1], trace[i + 1..];
    var mid := answers + [probe];
    assert longer[i + 1..] == mid + [seen];
    assert (mid + [seen])[..|mid|] == mid && mid[..|answers|] == answers;
    assert Alive(mid) == Alive(answers);
    assert current - {pid} == current;
    var all := mid + [seen];
    forall x
      ensures x in Asked(all) <==> x in asked + {pid}
    {
      if x in Asked(answers) {
        var k :| 0 <= k < |answers| && answers[k].BirthSeen? && answers[k].pid == x;
        assert all[k] == answers[k];
      }
      assert all[|mid|] == seen;
    }
  }

  lemma QuietSelf(f: Frame, a: Trace)
    ensures Quiet(f, a, a)
  {
  }

  lemma QuietJoin(f: Frame, a: Trace, b: Trace, c: Trace)
    requires Quiet(f, a, b) && Quiet(f, b, c)
    ensures Quiet(f, a, c)
  {
    hide Known, Signals, ChildSignals, Settled, Limit;
  }

  lemma NoneYet(trace: Trace)
    ensures NoVerdicts(trace, |trace|)
  {
  }

  /** Probe the birth of every listed member; those already gone are dropped. */
  method Births(world: World, parents: map<Pid, Pid>, deadline: Time, ghost f: Frame)
    returns (r: Result<map<Pid, Birth>, Failure>)
    requires Good(world.trace, f) && deadline == f.deadline && world.trace != []
    modifies world`now, world`trace
    ensures Good(world.trace, f) && world.now >= old(world.now)
    ensures Quiet(f, old(world.trace), world.trace)
    ensures r.Err? ==> Explained(r.error, world.trace, world.now, f) && !r.error.Refused?
    ensures old(world.trace) <= world.trace
    ensures NoVerdicts(world.trace, |old(world.trace)|)
    ensures r.Ok? ==> Gathered(world.trace, |old(world.trace)| - 1, parents.Keys, r.value)
  {
    hide Good, Signals, ChildSignals, Known, Settled, Limit, Gathered, Explained, NoVerdicts, Quiet;
    NoneYet(world.trace);
    QuietSelf(f, world.trace);
    var current: map<Pid, Birth> := map[];
    var rest := parents.Keys;
    ghost var i: nat := |world.trace| - 1;
    GatherNothing(world.trace);
    assert parents.Keys - rest == {};
    while rest != {}
      invariant rest <= parents.Keys && old(world.trace) <= world.trace
      invariant NoVerdicts(world.trace, |old(world.trace)|)
      invariant Good(world.trace, f) && world.now >= old(world.now)
      invariant Quiet(f, old(world.trace), world.trace)
      invariant Gathered(world.trace, i, parents.Keys - rest, current)
      decreases |rest|
    {
      HasMember(rest);
      var pid :| pid in rest;
      ghost var before := world.trace;
      var birth := world.Identity(pid, deadline, f);
      NoVerdictsJoin(before, world.trace, |old(world.trace)|);
      QuietJoin(f, old(world.trace), before, world.trace);
      if birth.Err? {
        return Err(birth.error);
      }
      GatherOneMore(before, world.trace, i, parents.Keys - rest, current, pid, birth.value);
      assert parents.Keys - rest + {pid} == parents.Keys - (rest - {pid});
      rest := rest - {pid};
      if birth.value != "" {
        current := current[pid := birth.value];
      }
    }
    assert parents.Keys - rest == parents.Keys;
    return Ok(current);
  }

  lemma VerdictIsFounded(
      trace: Trace, i: nat, retained: map<Pid, Birth>, parents: map<Pid, Pid>, current: map<Pid, Birth>, owned: bool,
      at: Time, f: Frame)
    requires Settled(trace, f) && (owned ==> at < f.deadline)
    requires Gathered(trace, i, parents.Keys, current) && trace[i].Listing? && trace[i].parents == parents
    requires retained == Known(f.start, trace).Retained()
    requires owned <==> Owned(retained, parents, current)
    ensures Allowed(trace, Verdict(retained, parents, current, owned, at), f)
  {
    assert Founded(trace, i, Verdict(retained, parents, current, owned, at));
  }

  /** The verdict that ends a successful `retain_owned`. */
  ghost predicate Adopted(trace: Trace, retained: map<Pid, Birth>, current: map<Pid, Birth>) {
    trace != [] && var e := trace[|trace| - 1];
    e.Verdict? && e.owned && e.retained == retained && e.current == current
  }

  /** The live members join those retained before, or the child alone if none were. */
  ghost predicate MergedInto(
      before: Option<map<Pid, Birth>>, pid: Pid, identity: Birth, current: map<Pid, Birth>,
      after: Option<map<Pid, Birth>>)
  {
    after == Some((if before.Some? then before.value else map[pid := identity]) + current)
  }

  /** List the group and probe the birth of every member. */
  method Observe(world: World, pgid: int, deadline: Time, ghost f: Frame)
    returns (failure: Option<Failure>, parents: map<Pid, Pid>, current: map<Pid, Birth>, ghost i: nat)
    requires Good(world.trace, f) && deadline == f.deadline
    modifies world`now, world`trace
    ensures Good(world.trace, f) && world.now >= old(world.now) && Quiet(f, old(world.trace), world.trace)
    ensures old(world.trace) <= world.trace && NoVerdicts(world.trace, |old(world.trace)|)
    ensures failure.Some? ==> Explained(failure.value, world.trace, world.now, f)
    ensures failure.None? ==>
      && Gathered(world.trace, i, parents.Keys, current) && i < |world.trace|
      && world.trace[i].Listing? && world.trace[i].parents == parents
  {
    hide Good, Signals, ChildSignals, Known, Settled, Limit, Gathered, NoVerdicts;
    parents, current, i := map[], map[], 0;
    NoneYet(world.trace);
    var left := world.Remaining(deadline);
    if left.None? {
      return Some(DeadlineExhausted), parents, current, i;
    }
    var timedOut, listing := world.ListGroup(Min(PROBE_TIMEOUT, left.value), pgid, f);
    if timedOut {
      return Some(ProbeFailed), parents, current, i;
    }
    left := world.Remaining(deadline);
    if left.None? {
      return Some(DeadlineExhausted), parents, current, i;
    }
    if listing.None? {
      NoVerdictsOneMore(world.trace, ProbeError, |old(world.trace)|);
      world.Note(ProbeError, f);
      return Some(ProbeFailed), parents, current, i;
    }
    parents, i := listing.value, |world.trace|;
    NoVerdictsOneMore(world.trace, Listing(parents, world.now), |old(world.trace)|);
    world.Note(Listing(parents, world.now), f);
    ghost var listed := world.trace;
    var births := Births(world, parents, deadline, f);
    NoVerdictsJoin(listed, world.trace, |old(world.trace)|);
    if births.Err? {
      return Some(births.error), parents, current, i;
    }
    assert world.trace[i] == listed[i];
    return None, parents, births.value, i;
  }

  /**
    Adopt the live members of the group. Success means that the observed group is owned by
    the members retained so far; then they take in the live ones, and no pid changes its
    birth. A refusal means that it is not owned. On any failure the record is untouched.
   */
  method RetainOwned(world: World, record: Record, deadline: Time, ghost f: Frame)
    returns (r: Result<map<Pid, Birth>, Failure>)
    requires Good(world.trace, f) && Ties(record, world.trace, deadline, f)
    modifies world`now, world`trace, record`members, record`remaining
    ensures Good(world.trace, f) && Ties(record, world.trace, deadline, f)
    ensures world.now >= old(world.now) && SameSignals(old(world.trace), world.trace)
    ensures old(world.trace) <= world.trace && (r.Ok? ==> |old(world.trace)| < |world.trace|)
    ensures world.trace != [] ==> NoVerdicts(world.trace[..|world.trace| - 1], |old(world.trace)|)
    ensures r.Ok? ==>
      && Adopted(world.trace, old(record.Knows().Retained()), r.value)
      && record.remaining == r.value
      && MergedInto(old(record.members), record.pid, record.identity, r.value, record.members)
    ensures Extends(old(record.Knows().Retained()), record.Knows().Retained())
    ensures r.Err? ==> record.members == old(record.members) && record.remaining == old(record.remaining)
    ensures r.Err? ==> Explained(r.error, world.trace, world.now, f)
  {
    hide Owned, Good, Signals, ChildSignals, Known, Settled, Limit, Gathered, Allowed, NoVerdicts, Explained;
    var failure, parents, current, i := Observe(world, record.pgid, deadline, f);
    NoVerdictsFront(world.trace, |old(world.trace)|);
    if failure.Some? {
      return Err(failure.value);
    }
    ghost var gathered := world.trace;
    GatheredKeys(world.trace, i, parents.Keys, current);
    var retained := record.Knows().Retained();
    var merged := Attribute(parents, current, retained);
    if merged.Err? {
      VerdictIsFounded(world.trace, i, retained, parents, current, false, world.now, f);
      world.Log(Verdict(retained, parents, current, false, world.now), f);
      assert world.trace[..|world.trace| - 1] == gathered;
      RefusalIsExplained(merged.error, world.trace, world.now, f);
      return Err(Refused(merged.error));
    }
    var left := world.Remaining(deadline);
    if left.None? {
      LateIsExplained(world.trace, world.now, f);
      return Err(DeadlineExhausted);
    }
    OwnedExtends(retained, parents, current);
    record.members := Some(merged.value);
    record.remaining := current;
    VerdictIsFounded(world.trace, i, retained, parents, current, true, world.now, f);
    world.Log(Verdict(retained, parents, current, true, world.now), f);
    assert world.trace[..|world.trace| - 1] == gathered;
    return Ok(current);
  }

  lemma LateIsExplained(trace: Trace, now: Time, f: Frame)
    requires now >= f.deadline
    ensures Explained(DeadlineExhausted, trace, now, f)
  {
  }

  lemma RefusalIsExplained(refusal: Refusal, trace: Trace, now: Time, f: Frame)
    requires trace != [] && trace[|trace| - 1].Verdict? && !trace[|trace| - 1].owned
    ensures Explained(Refused(refusal), trace, now, f)
  {
  }

  lemma NoVerdictsFront(trace: Trace, from: nat)
    requires NoVerdicts(trace, from)
    ensures trace != [] ==> NoVerdicts(trace[..|trace| - 1], from)
  {
  }

  lemma GatheredKeys(trace: Trace, i: nat, asked: set<Pid>, current: map<Pid, Birth>)
    requires Gathered(trace, i, asked, current)
    ensures current.Keys <= asked
  {
  }

  lemma OwnedExtends(retained: map<Pid, Birth>, parents: map<Pid, Pid>, current: map<Pid, Birth>)
    requires Owned(retained, parents, current)
    ensures Extends(retained, retained + current)
  {
  }

  // ----- What every good trace promises

  lemma LastAllowed(trace: Trace, f: Frame)
    requires Good(trace, f) && trace != []
    ensures Good(trace[..|trace| - 1], f) && Allowed(trace[..|trace| - 1], trace[|trace| - 1], f)
  {
    hide Allowed;
    var front := trace[..|trace| - 1];
    forall j | 0 <= j < |front|
      ensures Allowed(front[..j], front[j], f)
    {
      assert front[..j] == trace[..j];
    }
  }

  /** Members are only added, and keep their births, unless the direct child is identified in between. */
  lemma {:induction false} KnownOnlyGrows(trace: Trace, f: Frame)
    requires Good(trace, f) && forall i | 0 <= i < |trace| :: !trace[i].Identified?
    ensures Extends(f.start.Retained(), Known(f.start, trace).Retained())
  {
    if trace != [] {
      hide Good, Owned;
      var front, e := trace[..|trace| - 1], trace[|trace| - 1];
      LastAllowed(trace, f);
      KnownOnlyGrows(front, f);
      if e.Verdict? && e.owned {
        OwnedExtends(e.retained, e.parents, e.current);
      }
    }
  }

  /** How a pid came to be retained under a birth, at event `i` of the trace. */
  ghost predicate Admitted(trace: Trace, i: nat, f: Frame, pid: Pid, birth: Birth) {
    && i < |trace|
    && (|| trace[i] == Identified(pid, birth)
        || (&& trace[i].Verdict? && trace[i].owned && pid in trace[i].current && trace[i].current[pid] == birth
            && trace[i].retained == Known(f.start, trace[..i]).Retained()
            && Owned(trace[i].retained, trace[i].parents, trace[i].current)))
  }

  /**
    Nobody is retained by being seen: every member was retained at the start under that
    birth, is the identified child, or was live in a group owned by the members before it.
   */
  lemma {:induction false} MembersHaveOrigin(trace: Trace, f: Frame, pid: Pid)
    requires Good(trace, f) && pid in Known(f.start, trace).Retained()
    ensures var birth := Known(f.start, trace).Retained()[pid];
            || (pid in f.start.Retained() && f.start.Retained()[pid] == birth)
            || exists i: nat :: Admitted(trace, i, f, pid, birth)
  {
    if trace != [] {
      hide Good, Owned;
      var n := |trace| - 1;
      var front, e := trace[..n], trace[n];
      var birth := Known(f.start, trace).Retained()[pid];
      LastAllowed(trace, f);
      if pid in Known(f.start, front).Retained() && Known(f.start, front).Retained()[pid] == birth {
        MembersHaveOrigin(front, f, pid);
        if i: nat :| Admitted(front, i, f, pid, birth) {
          assert front[..i] == trace[..i];
          assert Admitted(trace, i, f, pid, birth);
        }
      } else {
        assert Admitted(trace, n, f, pid, birth);
      }
    }
  }

  /**
    A group is signalled only right after an observation that attributed every live member
    to those retained at that moment, and after each of them was seen in the group.
   */
  lemma SignalledGroupIsOwned(trace: Trace, f: Frame, j: nat) returns (i: nat)
    requires Good(trace, f) && j < |trace| && trace[j].GroupSignal?
    ensures trace[j].pgid == f.pgid && trace[j].at < f.deadline
    ensures i < j && trace[i].Verdict? && trace[i].current != map[]
    ensures trace[i].retained == Known(f.start, trace[..i]).Retained() && Settled(trace[..i], f)
    ensures Owned(trace[i].retained, trace[i].parents, trace[i].current)
    ensures forall pid | pid in trace[i].current :: GroupSeen(pid, Some(f.pgid)) in trace[i + 1..j]
  {
    hide Owned;
    assert Allowed(trace[..j], trace[j], f);
    i :| Cleared(trace[..j], i, f.pgid);
    assert Allowed(trace[..i], trace[i], f);
    assert trace[..j][i + 1..] == trace[i + 1..j];
  }

  lemma {:induction false} LimitIs(trace: Trace, i: nat)
    requires i < |trace| && trace[i].Watch? && forall k | i < k < |trace| :: !trace[k].Watch?
    ensures Limit(trace) == Some(trace[i].until)
  {
    if i < |trace| - 1 {
      LimitIs(trace[..|trace| - 1], i);
    }
  }

  /**
    A phase of the escalation lasts 8, 4 or 3 seconds after the first, second or third
    signal, or until the deadline; in it every wait follows a reading of the clock before
    its end, and is given no more than the time then left.
   */
  lemma WaitsStayInPhase(trace: Trace, f: Frame, i: nat, j: nat)
    requires Good(trace, f) && i < j < |trace| && trace[i].Watch? && trace[j].Wait?
    requires forall k | i < k < j :: !trace[k].Watch?
    ensures var n, at, until := |Signals(trace[..i])|, trace[i].at, trace[i].until;
            && 1 <= n <= 3
            && until == Min(f.deadline, at + (if n == 1 then 8 else if n == 2 then 4 else 3) * SECOND)
    ensures trace[j - 1].Look? && trace[j - 1].at < trace[i].until
    ensures 0 < trace[j].timeout <= trace[i].until - trace[j - 1].at
  {
    hide Signals, Limit;
    assert Allowed(trace[..i], trace[i], f) && Allowed(trace[..j], trace[j], f);
    LimitIs(trace[..j], i);
    assert trace[..j][j - 1] == trace[j - 1];
  }
}
