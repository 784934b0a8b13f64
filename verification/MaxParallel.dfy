/** The most runs in progress at one moment, by a sweep over sorted start and finish events. */
module MaxParallel {
  import opened Common

  type Instant = real

  /** A row of the report; a run that has not started or finished has no time for it. */
  datatype RunRow = RunRow(started: Option<Instant>, finished: Option<Instant>)

  datatype Event = Event(at: Instant, delta: int)

  /** Python's order on `(time, delta)` tuples: at equal times the finish comes first. */
  predicate NotAfter(a: Event, b: Event) {
    a.at < b.at || (a.at == b.at && a.delta <= b.delta)
  }

  predicate Sorted(events: seq<Event>) {
    forall i, j | 0 <= i < j < |events| :: NotAfter(events[i], events[j])
  }

  predicate Unit(events: seq<Event>) {
    forall i | 0 <= i < |events| :: events[i].delta == 1 || events[i].delta == -1
  }

  /** Starts minus finishes up to and including `t`. */
  function Net(events: seq<Event>, t: Instant): int {
    if events == [] then 0
    else Net(events[..|events| - 1], t) + if events[|events| - 1].at <= t then events[|events| - 1].delta else 0
  }

  function Sum(events: seq<Event>): int {
    if events == [] then 0 else Sum(events[..|events| - 1]) + events[|events| - 1].delta
  }

  // ----- `sorted(events)`

  function Insert(e: Event, events: seq<Event>): seq<Event> {
    if events == [] || NotAfter(events[|events| - 1], e) then events + [e]
    else Insert(e, events[..|events| - 1]) + [events[|events| - 1]]
  }

  function Sort(events: seq<Event>): seq<Event> {
    if events == [] then [] else Insert(events[|events| - 1], Sort(events[..|events| - 1]))
  }

  lemma NetAppend(events: seq<Event>, e: Event, t: Instant)
    ensures Net(events + [e], t) == Net(events, t) + if e.at <= t then e.delta else 0
  {
  }

  lemma {:induction false} InsertAdds(e: Event, events: seq<Event>)
    ensures multiset(Insert(e, events)) == multiset(events) + multiset{e}
  {
    if !(events == [] || NotAfter(events[|events| - 1], e)) {
      InsertAdds(e, events[..|events| - 1]);
      assert events == events[..|events| - 1] + [events[|events| - 1]];
    }
  }

  lemma {:induction false} InsertSorts(e: Event, events: seq<Event>)
    requires Sorted(events)
    ensures Sorted(Insert(e, events))
  {
    if !(events == [] || NotAfter(events[|events| - 1], e)) {
      var front, last := events[..|events| - 1], events[|events| - 1];
      InsertSorts(e, front);
      InsertAdds(e, front);
      var result := Insert(e, front);
      forall i | 0 <= i < |result|
        ensures NotAfter(result[i], last)
      {
        assert result[i] in multiset(result);
        assert result[i] == e || result[i] in front;
      }
    }
  }

  lemma {:induction false} InsertKeepsNet(e: Event, events: seq<Event>, t: Instant)
    ensures Net(Insert(e, events), t) == Net(events, t) + if e.at <= t then e.delta else 0
  {
    if events == [] || NotAfter(events[|events| - 1], e) {
      NetAppend(events, e, t);
    } else {
      var front, last := events[..|events| - 1], events[|events| - 1];
      InsertKeepsNet(e, front, t);
      NetAppend(Insert(e, front), last, t);
    }
  }

  lemma {:induction false} SortIsSorted(events: seq<Event>)
    ensures Sorted(Sort(events)) && multiset(Sort(events)) == multiset(events)
  {
    if events != [] {
      var front, last := events[..|events| - 1], events[|events| - 1];
      SortIsSorted(front);
      InsertSorts(last, Sort(front));
      InsertAdds(last, Sort(front));
      assert events == front + [last];
    }
  }

  lemma {:induction false} SortKeepsNet(events: seq<Event>, t: Instant)
    ensures Net(Sort(events), t) == Net(events, t)
  {
    if events != [] {
      SortKeepsNet(events[..|events| - 1], t);
      InsertKeepsNet(events[|events| - 1], Sort(events[..|events| - 1]), t);
    }
  }

  // ----- Prefix sums of a sorted list

  /** `m` is the greatest of the values `Net(events, t)`, or zero if they are all negative. */
  ghost predicate IsPeak(events: seq<Event>, m: int) {
    && m >= 0
    && (forall t: Instant :: Net(events, t) <= m)
    && (m == 0 || exists t: Instant :: Net(events, t) == m)
  }

  lemma {:induction false} NetOfEarly(events: seq<Event>, t: Instant)
    requires forall i | 0 <= i < |events| :: events[i].at <= t
    ensures Net(events, t) == Sum(events)
  {
    if events != [] {
      NetOfEarly(events[..|events| - 1], t);
    }
  }

  lemma {:induction false} NetSplits(events: seq<Event>, k: nat, t: Instant)
    requires k <= |events|
    ensures Net(events, t) == Net(events[..k], t) + Net(events[k..], t)
    decreases |events| - k
  {
    if k == |events| {
      assert events[..k] == events && events[k..] == [];
    } else {
      var front, last := events[..|events| - 1], events[|events| - 1];
      NetSplits(front, k, t);
      assert front[..k] == events[..k] && events[k..] == front[k..] + [last];
      NetAppend(front[k..], last, t);
    }
  }

  lemma {:induction false} NetOfStarts(events: seq<Event>, t: Instant)
    requires forall i | 0 <= i < |events| && events[i].at <= t :: events[i].delta >= 0
    ensures Net(events, t) >= 0
  {
    if events != [] {
      NetOfStarts(events[..|events| - 1], t);
    }
  }

  /** The net count at any instant is the sum of some prefix of the sorted list. */
  lemma {:induction false} NetIsPrefixSum(events: seq<Event>, t: Instant) returns (k: nat)
    requires Sorted(events)
    ensures k <= |events| && Sum(events[..k]) == Net(events, t)
  {
    if events == [] || events[|events| - 1].at <= t {
      k := |events|;
      assert events[..k] == events;
      NetOfEarly(events, t);
    } else {
      var front := events[..|events| - 1];
      k := NetIsPrefixSum(front, t);
      assert front[..k] == events[..k];
    }
  }

  /** Right after a start, the prefix sum is at most the net count at that instant. */
  lemma StartPrefixBelowNet(events: seq<Event>, k: nat)
    requires Sorted(events) && Unit(events) && 0 < k <= |events| && events[k - 1].delta == 1
    ensures Sum(events[..k]) <= Net(events, events[k - 1].at)
  {
    var t := events[k - 1].at;
    NetSplits(events, k, t);
    forall i | 0 <= i < k
      ensures events[..k][i].at <= t
    {
      assert i < k - 1 ==> NotAfter(events[i], events[k - 1]);
    }
    NetOfEarly(events[..k], t);
    forall i | 0 <= i < |events[k..]| && events[k..][i].at <= t
      ensures events[k..][i].delta >= 0
    {
      assert NotAfter(events[k - 1], events[k + i]);
    }
    NetOfStarts(events[k..], t);
  }

  // ----- The sweep

  /** The fold over the sorted events: the peak of the running count is the greatest net count. */
  method Sweep(events: seq<Event>) returns (peak: int)
    requires Sorted(events) && Unit(events)
    ensures IsPeak(events, peak)
  {
    peak := 0;
    var current := 0;
    ghost var top: nat := 0;
    for i := 0 to |events|
      invariant current == Sum(events[..i])
      invariant peak >= 0 && forall k | 0 <= k <= i :: Sum(events[..k]) <= peak
      invariant peak == 0 || (0 < top <= i && events[top - 1].delta == 1 && Sum(events[..top]) == peak)
    {
      assert events[..i + 1][..i] == events[..i];
      current := current + events[i].delta;
      if current > peak {
        peak, top := current, i + 1;
      }
    }
    forall t: Instant
      ensures Net(events, t) <= peak
    {
      var k := NetIsPrefixSum(events, t);
    }
    if peak != 0 {
      StartPrefixBelowNet(events, top);
      assert Net(events, events[top - 1].at) == peak;
    }
  }

  // ----- Intervals

  function EventsOf(rows: seq<RunRow>): seq<Event> {
    if rows == [] then [] else
    var front, row := EventsOf(rows[..|rows| - 1]), rows[|rows| - 1];
    if row.started.Some? && row.finished.Some?
    then front + [Event(row.started.value, 1), Event(row.finished.value, -1)]
    else front
  }

  /** The run is in progress at `t`: the interval is half-open. */
  predicate InProgress(row: RunRow, t: Instant) {
    row.started.Some? && row.finished.Some? && row.started.value <= t < row.finished.value
  }

  function Running(rows: seq<RunRow>, t: Instant): nat {
    if rows == [] then 0
    else Running(rows[..|rows| - 1], t) + if InProgress(rows[|rows| - 1], t) then 1 else 0
  }

  predicate Ordered(rows: seq<RunRow>) {
    forall i | 0 <= i < |rows| && rows[i].started.Some? && rows[i].finished.Some? ::
      rows[i].started.value <= rows[i].finished.value
  }

  /** `peak` runs are in progress at some instant, and never more. */
  ghost predicate MostRunning(rows: seq<RunRow>, peak: int) {
    && (forall t: Instant :: Running(rows, t) <= peak)
    && (exists t: Instant :: Running(rows, t) == peak)
  }

  /** The run finishes before it starts, and `t` lies between the two. */
  predicate Inverted(row: RunRow, t: Instant) {
    row.started.Some? && row.finished.Some? && row.finished.value <= t < row.started.value
  }

  function Inversions(rows: seq<RunRow>, t: Instant): nat {
    if rows == [] then 0
    else Inversions(rows[..|rows| - 1], t) + if Inverted(rows[|rows| - 1], t) then 1 else 0
  }

  /** For all rows: a run that finishes before it starts counts against the others in between. */
  lemma {:induction false} NetIsRunningLessInversions(rows: seq<RunRow>, t: Instant)
    ensures Net(EventsOf(rows), t) == Running(rows, t) - Inversions(rows, t)
  {
    if rows != [] {
      var front, row := rows[..|rows| - 1], rows[|rows| - 1];
      NetIsRunningLessInversions(front, t);
      if row.started.Some? && row.finished.Some? {
        var es, a, b := EventsOf(front), Event(row.started.value, 1), Event(row.finished.value, -1);
        assert es + [a, b] == (es + [a]) + [b];
        NetAppend(es, a, t);
        NetAppend(es + [a], b, t);
      }
    }
  }

  lemma {:induction false} OrderedHasNoInversions(rows: seq<RunRow>, t: Instant)
    requires Ordered(rows)
    ensures Inversions(rows, t) == 0
  {
    if rows != [] {
      OrderedHasNoInversions(rows[..|rows| - 1], t);
    }
  }

  lemma {:induction false} EventsAreUnit(rows: seq<RunRow>)
    ensures Unit(EventsOf(rows))
  {
    if rows != [] {
      EventsAreUnit(rows[..|rows| - 1]);
    }
  }

  lemma UnitSorted(events: seq<Event>)
    requires Unit(events)
    ensures Unit(Sort(events))
  {
    SortIsSorted(events);
    forall i | 0 <= i < |Sort(events)|
      ensures Sort(events)[i].delta == 1 || Sort(events)[i].delta == -1
    {
      assert Sort(events)[i] in multiset(Sort(events));
      assert Sort(events)[i] in events;
    }
  }

  /** As many runs are in progress at `t` as ever, and no inverted run weighs in there. */
  ghost predicate Undisturbed(rows: seq<RunRow>, t: Instant) {
    && (forall u: Instant :: Running(rows, u) <= Running(rows, t))
    && (Running(rows, t) == 0 || Inversions(rows, t) == 0)
  }

  /**
    The peak is the greatest number of runs in progress if and only if at some instant of
    the greatest overlap no inverted run weighs in, or no run is ever in progress.
   */
  lemma PeakIsMostRunningIff(rows: seq<RunRow>, peak: int)
    requires IsPeak(EventsOf(rows), peak)
    ensures MostRunning(rows, peak) <==> exists t: Instant :: Undisturbed(rows, t)
  {
    forall t: Instant
      ensures Net(EventsOf(rows), t) == Running(rows, t) - Inversions(rows, t)
    {
      NetIsRunningLessInversions(rows, t);
    }
    if MostRunning(rows, peak) {
      if peak == 0 {
        var t: Instant :| Running(rows, t) == peak;
        assert Undisturbed(rows, t);
      } else {
        var t: Instant :| Net(EventsOf(rows), t) == peak;
        assert Undisturbed(rows, t);
      }
    }
    if t: Instant :| Undisturbed(rows, t) {
      assert Net(EventsOf(rows), t) <= peak;
      assert Running(rows, t) == peak;
    }
  }

  lemma OrderedIsUndisturbed(rows: seq<RunRow>, peak: int)
    requires Ordered(rows) && IsPeak(EventsOf(rows), peak)
    ensures exists t: Instant :: Undisturbed(rows, t)
  {
    forall t: Instant
      ensures Inversions(rows, t) == 0 && Net(EventsOf(rows), t) == Running(rows, t)
    {
      OrderedHasNoInversions(rows, t);
      NetIsRunningLessInversions(rows, t);
    }
    var t := NobodyBefore(rows);
    if peak != 0 {
      t :| Net(EventsOf(rows), t) == peak;
    }
    assert Undisturbed(rows, t);
  }

  lemma SortKeepsPeak(events: seq<Event>, peak: int)
    requires IsPeak(Sort(events), peak)
    ensures IsPeak(events, peak)
  {
    forall t: Instant
      ensures Net(Sort(events), t) == Net(events, t)
    {
      SortKeepsNet(events, t);
    }
  }

  /**
    `max_parallel` for any rows: the greatest excess of starts over finishes at one instant.
    That is the greatest number of half-open intervals [started, finished) that cover one
    instant, ties and empty intervals included, if and only if some instant of the greatest
    overlap is undisturbed; in particular when no run finishes before it starts.
   */
  method MaxParallel(rows: seq<RunRow>) returns (peak: int)
    ensures IsPeak(EventsOf(rows), peak)
    ensures MostRunning(rows, peak) <==> exists t: Instant :: Undisturbed(rows, t)
    ensures Ordered(rows) ==> MostRunning(rows, peak)
  {
    var events: seq<Event> := [];
    for i := 0 to |rows|
      invariant events == EventsOf(rows[..i])
    {
      assert rows[..i + 1][..i] == rows[..i];
      if rows[i].started.Some? && rows[i].finished.Some? {
        events := events + [Event(rows[i].started.value, 1), Event(rows[i].finished.value, -1)];
      }
    }
    assert rows[..|rows|] == rows;
    SortIsSorted(events);
    EventsAreUnit(rows);
    UnitSorted(events);
    peak := Sweep(Sort(events));
    SortKeepsPeak(events, peak);
    PeakIsMostRunningIff(rows, peak);
    if Ordered(rows) {
      OrderedIsUndisturbed(rows, peak);
    }
  }

  /** A disturbed peak: a run that finishes before it starts cancels another. */
  lemma InvertedRunHidesAnother()
    ensures var rows := [RunRow(Some(2.0), Some(4.0)), RunRow(Some(5.0), Some(1.0))];
            Running(rows, 2.0) == 1 && IsPeak(EventsOf(rows), 0)
  {
    var a, b := RunRow(Some(2.0), Some(4.0)), RunRow(Some(5.0), Some(1.0));
    var e0, e1, e2, e3 := Event(2.0, 1), Event(4.0, -1), Event(5.0, 1), Event(1.0, -1);
    assert [a, b][..1] == [a] && [a][..0] == [];
    assert EventsOf([a]) == [] + [e0, e1];
    assert EventsOf([a, b]) == [e0, e1] + [e2, e3];
    assert Running([a], 2.0) == 1 && Running([a, b], 2.0) == 1;
    forall t: Instant
      ensures Net([e0, e1] + [e2, e3], t) <= 0
    {
      assert [e0, e1] + [e2, e3] == (([] + [e0]) + [e1] + [e2]) + [e3];
      NetAppend([], e0, t);
      NetAppend([] + [e0], e1, t);
      NetAppend([] + [e0] + [e1], e2, t);
      NetAppend([] + [e0] + [e1] + [e2], e3, t);
    }
  }

  /** Before every start nobody is running. */
  lemma {:induction false} NobodyBefore(rows: seq<RunRow>) returns (t: Instant)
    ensures forall i | 0 <= i < |rows| && rows[i].started.Some? :: t < rows[i].started.value
    ensures Running(rows, t) == 0
  {
    if rows == [] {
      t := 0.0;
    } else {
      var front, row := rows[..|rows| - 1], rows[|rows| - 1];
      t := NobodyBefore(front);
      if row.started.Some? && row.started.value <= t {
        t := row.started.value - 1.0;
      }
      StillNobody(front, t);
    }
  }

  lemma {:induction false} StillNobody(rows: seq<RunRow>, t: Instant)
    requires forall i | 0 <= i < |rows| && rows[i].started.Some? :: t < rows[i].started.value
    ensures Running(rows, t) == 0
  {
    if rows != [] {
      StillNobody(rows[..|rows| - 1], t);
    }
  }
}
