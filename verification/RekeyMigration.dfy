/**
  The migration that re-keys diff snapshots from (code change, head, filename) to
  (run, filename): the fan-out of its upgrade and the collapse of its downgrade. Every
  statement is a function on tables; the methods of `ReviewTables` run them in order.
 */
module RekeyMigration {
  import opened Common

  type RunId = nat
  type CodeChangeId = nat
  type Timestamp = int

  /** `Copy` is the id `md5(diff.id || run.id)` of a fanned-out row, taken as collision-free. */
  datatype DiffId = Uuid(n: nat) | Copy(of: DiffId, run: RunId)

  datatype Run = Run(codeChange: CodeChangeId, head: string, createdAt: Timestamp, snapshottedAt: Option<Timestamp>)

  datatype Diff = Diff(
    codeChange: CodeChangeId,
    head: string,
    filename: string,
    patch: Option<string>,
    createdAt: Timestamp,
    run: Option<RunId>)

  type Runs = map<RunId, Run>
  type Diffs = map<DiffId, Diff>

  // ----- Constraints

  predicate SameFile(a: Diff, b: Diff) {
    a.codeChange == b.codeChange && a.head == b.head && a.filename == b.filename
  }

  /** The old key: (code change, head, filename). */
  predicate UniquePerHead(diffs: Diffs) {
    forall a, b | a in diffs && b in diffs && SameFile(diffs[a], diffs[b]) :: a == b
  }

  /** The new key: every row has a run, and (run, filename) is unique. */
  predicate UniquePerRun(diffs: Diffs) {
    && (forall a | a in diffs :: diffs[a].run.Some?)
    && (forall a, b | a in diffs && b in diffs && diffs[a].run == diffs[b].run
                      && diffs[a].filename == diffs[b].filename :: a == b)
  }

  predicate NoCollision(diffs: Diffs, runs: Runs) {
    forall d, r | d in diffs && r in runs :: Copy(d, r) !in diffs
  }

  predicate BelongsTo(runs: Runs, r: RunId, diff: Diff) {
    r in runs && runs[r].codeChange == diff.codeChange && runs[r].head == diff.head
  }

  function Candidates(runs: Runs, diff: Diff): set<RunId> {
    set r | r in runs && BelongsTo(runs, r, diff)
  }

  // ----- ORDER BY created_at, id LIMIT 1

  predicate NoLater(runs: Runs, a: RunId, b: RunId)
    requires a in runs && b in runs
  {
    runs[a].createdAt < runs[b].createdAt || (runs[a].createdAt == runs[b].createdAt && a <= b)
  }

  lemma EarliestExists(runs: Runs, candidates: set<RunId>)
    requires candidates != {} && forall r | r in candidates :: r in runs
    ensures exists m :: m in candidates && forall r | r in candidates :: NoLater(runs, m, r)
  {
    var x :| x in candidates;
    var rest := candidates - {x};
    if rest == {} {
      assert candidates == {x};
      assert x in candidates && forall r | r in candidates :: NoLater(runs, x, r);
    } else {
      EarliestExists(runs, rest);
      var m :| m in rest && forall r | r in rest :: NoLater(runs, m, r);
      var best := if NoLater(runs, m, x) then m else x;
      assert forall r | r in candidates :: r == x || r in rest;
      assert best in candidates && forall r | r in candidates :: NoLater(runs, best, r);
    }
  }

  function Earliest(runs: Runs, candidates: set<RunId>): (m: RunId)
    requires candidates != {} && forall r | r in candidates :: r in runs
    ensures m in candidates && forall r | r in candidates :: NoLater(runs, m, r)
  {
    EarliestExists(runs, candidates);
    var m :| m in candidates && forall r | r in candidates :: NoLater(runs, m, r);
    m
  }

  function FirstRun(runs: Runs, diff: Diff): (r: Option<RunId>)
    ensures r.Some? <==> exists c :: BelongsTo(runs, c, diff)
    ensures r.Some? ==> BelongsTo(runs, r.value, diff)
    ensures r.Some? ==>
      forall c | BelongsTo(runs, c, diff) ::
        && runs[r.value].createdAt <= runs[c].createdAt
        && (runs[r.value].createdAt == runs[c].createdAt ==> r.value <= c)
  {
    var candidates := Candidates(runs, diff);
    assert forall c :: BelongsTo(runs, c, diff) <==> c in candidates;
    if candidates == {} then None else Some(Earliest(runs, candidates))
  }

  // ----- The statements of the upgrade

  /** UPDATE … SET run_id = (the earliest matching run). */
  function AssignRuns(diffs: Diffs, runs: Runs): Diffs {
    map d | d in diffs :: diffs[d].(run := FirstRun(runs, diffs[d]))
  }

  /** DELETE … WHERE run_id IS NULL. */
  function DropUnowned(diffs: Diffs): Diffs {
    map d | d in diffs && diffs[d].run.Some? :: diffs[d]
  }

  /** INSERT … SELECT a copy for every other matching run. */
  function Copies(diffs: Diffs, runs: Runs): Diffs {
    map d, r | d in diffs && r in runs && BelongsTo(runs, r, diffs[d]) && diffs[d].run != Some(r)
      :: Copy(d, r) := diffs[d].(run := Some(r))
  }

  /** UPDATE runs … WHERE EXISTS (a row of the run). */
  function Snapshot(runs: Runs, diffs: Diffs, now: Timestamp): Runs {
    map r | r in runs :: if OwnsRow(diffs, r) then runs[r].(snapshottedAt := Some(now)) else runs[r]
  }

  predicate OwnsRow(diffs: Diffs, r: RunId) {
    exists d | d in diffs :: diffs[d].run == Some(r)
  }

  function Upgraded(diffs: Diffs, runs: Runs): Diffs {
    var owned := DropUnowned(AssignRuns(diffs, runs));
    owned + Copies(owned, runs)
  }

  // ----- What the upgrade yields

  /** The row of old diff `d` for run `r`. */
  function RowFor(diffs: Diffs, runs: Runs, d: DiffId, r: RunId): DiffId
    requires d in diffs
  {
    if FirstRun(runs, diffs[d]) == Some(r) then d else Copy(d, r)
  }

  predicate Pair(diffs: Diffs, runs: Runs, d: DiffId, r: RunId) {
    d in diffs && BelongsTo(runs, r, diffs[d])
  }

  /** The old diff a new row stems from. */
  function OriginOf(diffs: Diffs, row: DiffId): DiffId {
    if row in diffs then row else match row case Copy(of, _) => of case Uuid(_) => row
  }

  lemma UpgradedRow(diffs: Diffs, runs: Runs, d: DiffId, r: RunId)
    requires NoCollision(diffs, runs) && Pair(diffs, runs, d, r)
    ensures var row := RowFor(diffs, runs, d, r);
            row in Upgraded(diffs, runs) && Upgraded(diffs, runs)[row] == diffs[d].(run := Some(r))
            && OriginOf(diffs, row) == d
  {
    var owned := DropUnowned(AssignRuns(diffs, runs));
    assert FirstRun(runs, diffs[d]).Some?;
    assert d in owned && owned[d] == diffs[d].(run := FirstRun(runs, diffs[d]));
    if FirstRun(runs, diffs[d]) != Some(r) {
      assert Copy(d, r) in Copies(owned, runs);
    } else {
      assert d !in Copies(owned, runs);
    }
  }

  lemma CopyIsPaired(diffs: Diffs, runs: Runs, row: DiffId)
    requires NoCollision(diffs, runs)
    requires row in Copies(DropUnowned(AssignRuns(diffs, runs)), runs)
    ensures row.Copy? && row !in diffs && Pair(diffs, runs, row.of, row.run) && FirstRun(runs, diffs[row.of]) != Some(row.run)
    ensures Copies(DropUnowned(AssignRuns(diffs, runs)), runs)[row].run == Some(row.run)
  {
    hide FirstRun;
  }

  lemma UpgradedOnly(diffs: Diffs, runs: Runs, row: DiffId)
    requires NoCollision(diffs, runs) && row in Upgraded(diffs, runs)
    ensures var d, new' := OriginOf(diffs, row), Upgraded(diffs, runs)[row];
            new'.run.Some? && Pair(diffs, runs, d, new'.run.value) && RowFor(diffs, runs, d, new'.run.value) == row
  {
    hide FirstRun, Copies;
    var owned := DropUnowned(AssignRuns(diffs, runs));
    if row in Copies(owned, runs) {
      CopyIsPaired(diffs, runs, row);
    } else {
      assert row in owned;
    }
  }

  /**
    The upgrade yields exactly one row for every pair of an old diff and a run of the same
    code change and head, and nothing else; the row carries the diff with that run.
   */
  lemma OneRowPerPair(diffs: Diffs, runs: Runs)
    requires NoCollision(diffs, runs)
    ensures forall d, r | Pair(diffs, runs, d, r) ::
              && RowFor(diffs, runs, d, r) in Upgraded(diffs, runs)
              && Upgraded(diffs, runs)[RowFor(diffs, runs, d, r)] == diffs[d].(run := Some(r))
    ensures forall d, r, d', r' | Pair(diffs, runs, d, r) && Pair(diffs, runs, d', r')
                                  && RowFor(diffs, runs, d, r) == RowFor(diffs, runs, d', r') :: d == d' && r == r'
    ensures forall row | row in Upgraded(diffs, runs) ::
              exists d, r :: Pair(diffs, runs, d, r) && RowFor(diffs, runs, d, r) == row
  {
    hide Upgraded, RowFor, OriginOf;
    forall d, r | Pair(diffs, runs, d, r)
      ensures RowFor(diffs, runs, d, r) in Upgraded(diffs, runs)
      ensures Upgraded(diffs, runs)[RowFor(diffs, runs, d, r)] == diffs[d].(run := Some(r))
      ensures OriginOf(diffs, RowFor(diffs, runs, d, r)) == d
    {
      UpgradedRow(diffs, runs, d, r);
    }
    forall row | row in Upgraded(diffs, runs)
      ensures exists d, r :: Pair(diffs, runs, d, r) && RowFor(diffs, runs, d, r) == row
    {
      UpgradedOnly(diffs, runs, row);
      var d, r := OriginOf(diffs, row), Upgraded(diffs, runs)[row].run.value;
      assert Pair(diffs, runs, d, r) && RowFor(diffs, runs, d, r) == row;
    }
  }

  /** From the old key the upgrade establishes the new one. */
  lemma UpgradeIsUniquePerRun(diffs: Diffs, runs: Runs)
    requires NoCollision(diffs, runs) && UniquePerHead(diffs)
    ensures UniquePerRun(Upgraded(diffs, runs))
  {
    hide Upgraded, RowFor, OriginOf;
    var new' := Upgraded(diffs, runs);
    forall a | a in new'
      ensures var d := OriginOf(diffs, a);
              && new'[a].run.Some? && Pair(diffs, runs, d, new'[a].run.value)
              && RowFor(diffs, runs, d, new'[a].run.value) == a
              && new'[a] == diffs[d].(run := new'[a].run)
    {
      UpgradedOnly(diffs, runs, a);
      UpgradedRow(diffs, runs, OriginOf(diffs, a), new'[a].run.value);
    }
    forall a, b | a in new' && b in new' && new'[a].run == new'[b].run && new'[a].filename == new'[b].filename
      ensures a == b
    {
      assert SameFile(diffs[OriginOf(diffs, a)], diffs[OriginOf(diffs, b)]);
    }
  }

  /** A run gets a snapshot timestamp exactly when some old diff matched it. */
  lemma SnapshotIff(diffs: Diffs, runs: Runs, now: Timestamp, r: RunId)
    requires NoCollision(diffs, runs) && r in runs
    ensures OwnsRow(Upgraded(diffs, runs), r) <==> exists d :: Pair(diffs, runs, d, r)
    ensures Snapshot(runs, Upgraded(diffs, runs), now)[r]
            == if exists d :: Pair(diffs, runs, d, r) then runs[r].(snapshottedAt := Some(now)) else runs[r]
  {
    hide Upgraded, RowFor, OriginOf;
    if OwnsRow(Upgraded(diffs, runs), r) {
      var row :| row in Upgraded(diffs, runs) && Upgraded(diffs, runs)[row].run == Some(r);
      UpgradedOnly(diffs, runs, row);
      assert Pair(diffs, runs, OriginOf(diffs, row), r);
    }
    if exists d :: Pair(diffs, runs, d, r) {
      var d :| Pair(diffs, runs, d, r);
      UpgradedRow(diffs, runs, d, r);
    }
  }

  // ----- The downgrade

  predicate HasEarlier(diffs: Diffs, d: DiffId)
    requires d in diffs && forall a | a in diffs :: diffs[a].run.Some?
  {
    exists e | e in diffs :: SameFile(diffs[e], diffs[d]) && diffs[e].run.value < diffs[d].run.value
  }

  /** DELETE … USING an earlier run's row of the same file. */
  function Collapsed(diffs: Diffs): Diffs
    requires forall a | a in diffs :: diffs[a].run.Some?
  {
    map d | d in diffs && !HasEarlier(diffs, d) :: diffs[d]
  }

  /** The column is dropped. */
  function DropRun(diffs: Diffs): Diffs {
    map d | d in diffs :: diffs[d].(run := None)
  }

  function Downgraded(diffs: Diffs): Diffs
    requires forall a | a in diffs :: diffs[a].run.Some?
  {
    DropRun(Collapsed(diffs))
  }

  /** The downgrade restores the old key from any table with the new one. */
  lemma DowngradeIsUniquePerHead(diffs: Diffs)
    requires UniquePerRun(diffs)
    ensures UniquePerHead(Downgraded(diffs))
  {
  }

  lemma {:induction false} LeastRunStays(diffs: Diffs, d: DiffId) returns (kept: DiffId)
    requires (forall a | a in diffs :: diffs[a].run.Some?) && d in diffs
    ensures kept in Collapsed(diffs) && SameFile(diffs[kept], diffs[d])
    ensures forall e | e in diffs && SameFile(diffs[e], diffs[d]) :: diffs[kept].run.value <= diffs[e].run.value
    decreases diffs[d].run.value
  {
    if HasEarlier(diffs, d) {
      var e :| e in diffs && SameFile(diffs[e], diffs[d]) && diffs[e].run.value < diffs[d].run.value;
      kept := LeastRunStays(diffs, e);
    } else {
      kept := d;
    }
  }

  /** The downgrade loses no file: one row of every file is left, and it is an old row. */
  lemma DowngradeKeepsFiles(diffs: Diffs, d: DiffId)
    requires (forall a | a in diffs :: diffs[a].run.Some?) && d in diffs
    ensures exists kept | kept in Downgraded(diffs) ::
              && Downgraded(diffs)[kept].codeChange == diffs[d].codeChange
              && Downgraded(diffs)[kept].head == diffs[d].head
              && Downgraded(diffs)[kept].filename == diffs[d].filename
  {
    var kept := LeastRunStays(diffs, d);
    assert kept in Downgraded(diffs);
  }

  // ----- The round trip

  /** What the old schema says about files, without row ids. */
  function Relation(diffs: Diffs): set<Diff> {
    set d | d in diffs :: diffs[d].(run := None)
  }

  /** Old diffs with at least one run of their code change and head. */
  function Matched(diffs: Diffs, runs: Runs): Diffs {
    map d | d in diffs && FirstRun(runs, diffs[d]).Some? :: diffs[d]
  }

  lemma RoundTripOnly(diffs: Diffs, runs: Runs, row: DiffId)
    requires NoCollision(diffs, runs) && UniquePerRun(Upgraded(diffs, runs))
    requires row in Downgraded(Upgraded(diffs, runs))
    ensures var d := OriginOf(diffs, row);
            d in Matched(diffs, runs) && Downgraded(Upgraded(diffs, runs))[row] == diffs[d].(run := None)
  {
    hide Upgraded, RowFor, OriginOf;
    UpgradedOnly(diffs, runs, row);
    UpgradedRow(diffs, runs, OriginOf(diffs, row), Upgraded(diffs, runs)[row].run.value);
  }

  lemma RoundTripAll(diffs: Diffs, runs: Runs, d: DiffId) returns (row: DiffId)
    requires NoCollision(diffs, runs) && UniquePerHead(diffs) && d in Matched(diffs, runs)
    requires UniquePerRun(Upgraded(diffs, runs))
    ensures row in Downgraded(Upgraded(diffs, runs)) && OriginOf(diffs, row) == d
    ensures Downgraded(Upgraded(diffs, runs))[row] == diffs[d].(run := None)
    ensures var new' := Upgraded(diffs, runs);
            row in new' && new'[row].run.Some? && BelongsTo(runs, new'[row].run.value, diffs[d])
            && forall r | BelongsTo(runs, r, diffs[d]) :: new'[row].run.value <= r
  {
    hide Upgraded, RowFor, OriginOf;
    var new' := Upgraded(diffs, runs);
    var first := FirstRun(runs, diffs[d]).value;
    UpgradedRow(diffs, runs, d, first);
    row := LeastRunStays(new', RowFor(diffs, runs, d, first));
    UpgradedOnly(diffs, runs, row);
    var origin := OriginOf(diffs, row);
    UpgradedRow(diffs, runs, origin, new'[row].run.value);
    assert SameFile(diffs[origin], diffs[d]);
    forall r | BelongsTo(runs, r, diffs[d])
      ensures new'[row].run.value <= r
    {
      UpgradedRow(diffs, runs, d, r);
    }
  }

  /**
    Upgrade then downgrade gives back exactly the original relation of code change, head,
    filename, patch and creation time, minus the diffs that no run matches.
   */
  lemma RoundTrip(diffs: Diffs, runs: Runs)
    requires NoCollision(diffs, runs) && UniquePerHead(diffs)
    ensures UniquePerRun(Upgraded(diffs, runs))
    ensures Relation(Downgraded(Upgraded(diffs, runs))) == Relation(Matched(diffs, runs))
    ensures UniquePerHead(Downgraded(Upgraded(diffs, runs)))
  {
    hide Upgraded, RowFor, OriginOf, Downgraded, Matched, UniquePerRun, UniquePerHead;
    UpgradeIsUniquePerRun(diffs, runs);
    DowngradeIsUniquePerHead(Upgraded(diffs, runs));
    AllHaveRuns(Upgraded(diffs, runs));
    var back, matched := Downgraded(Upgraded(diffs, runs)), Matched(diffs, runs);
    MatchedIsSubset(diffs, runs);
    forall x
      ensures x in Relation(back) <==> x in Relation(matched)
    {
      if x in Relation(back) {
        var row :| row in back && x == back[row].(run := None);
        RoundTripOnly(diffs, runs, row);
        assert matched[OriginOf(diffs, row)].(run := None) == x;
      }
      if x in Relation(matched) {
        var d :| d in matched && x == matched[d].(run := None);
        var row := RoundTripAll(diffs, runs, d);
        assert back[row].(run := None) == x;
      }
    }
  }

  lemma AllHaveRuns(diffs: Diffs)
    requires UniquePerRun(diffs)
    ensures forall a | a in diffs :: diffs[a].run.Some?
  {
  }

  lemma MatchedIsSubset(diffs: Diffs, runs: Runs)
    ensures forall d | d in Matched(diffs, runs) :: d in diffs && Matched(diffs, runs)[d] == diffs[d]
  {
  }

  /**
    The row id survives the round trip exactly when the earliest matching run, by creation
    time, is also the one with the least id.
   */
  lemma RoundTripKeepsId(diffs: Diffs, runs: Runs, d: DiffId)
    requires NoCollision(diffs, runs) && UniquePerHead(diffs) && d in Matched(diffs, runs)
    ensures (forall a | a in Upgraded(diffs, runs) :: Upgraded(diffs, runs)[a].run.Some?)
    ensures d in Downgraded(Upgraded(diffs, runs)) <==>
            forall r | BelongsTo(runs, r, diffs[d]) :: FirstRun(runs, diffs[d]).value <= r
  {
    hide Upgraded;
    UpgradeIsUniquePerRun(diffs, runs);
    DowngradeIsUniquePerHead(Upgraded(diffs, runs));
    var new', first := Upgraded(diffs, runs), FirstRun(runs, diffs[d]).value;
    var row := RoundTripAll(diffs, runs, d);
    assert RowFor(diffs, runs, d, first) == d;
    UpgradedRow(diffs, runs, d, first);
    assert new'[d].run == Some(first);
    UpgradedOnly(diffs, runs, row);
    if d in Downgraded(new') {
      assert SameFile(Downgraded(new')[d], Downgraded(new')[row]);
    }
    if forall r | BelongsTo(runs, r, diffs[d]) :: first <= r {
      assert new'[row].run == Some(first);
      assert new'[row].filename == new'[d].filename;
    }
  }

  // ----- The migration in place

  /** The column `diff_snapshotted_at` is dropped. */
  function Unstamped(runs: Runs): Runs {
    map r | r in runs :: runs[r].(snapshottedAt := None)
  }

  lemma StampsAreDropped(runs: Runs, diffs: Diffs, now: Timestamp)
    ensures Unstamped(Snapshot(runs, diffs, now)) == Unstamped(runs)
  {
  }

  class ReviewTables {
    var runs: Runs
    var diffs: Diffs

    method Upgrade(now: Timestamp)
      requires NoCollision(diffs, runs) && UniquePerHead(diffs)
      modifies this
      ensures diffs == Upgraded(old(diffs), old(runs)) && UniquePerRun(diffs)
      ensures runs == Snapshot(old(runs), diffs, now)
    {
      UpgradeIsUniquePerRun(diffs, runs);
      diffs := AssignRuns(diffs, runs);
      diffs := DropUnowned(diffs);
      diffs := diffs + Copies(diffs, runs);
      runs := Snapshot(runs, diffs, now);
    }

    method Downgrade()
      requires UniquePerRun(diffs)
      modifies this
      ensures diffs == Downgraded(old(diffs)) && UniquePerHead(diffs)
      ensures runs == Unstamped(old(runs))
    {
      DowngradeIsUniquePerHead(diffs);
      diffs := Collapsed(diffs);
      diffs := DropRun(diffs);
      runs := Unstamped(runs);
    }

    /** Both ways in place: the files come back, minus those without a run. */
    method UpgradeAndDowngrade(now: Timestamp)
      requires NoCollision(diffs, runs) && UniquePerHead(diffs)
      modifies this
      ensures UniquePerHead(diffs) && Relation(diffs) == Relation(Matched(old(diffs), old(runs)))
      ensures runs == Unstamped(old(runs))
    {
      hide Upgraded, Downgraded, Matched, Relation, Snapshot, Unstamped, UniquePerHead, UniquePerRun, NoCollision;
      RoundTrip(diffs, runs);
      Upgrade(now);
      StampsAreDropped(old(runs), diffs, now);
      Downgrade();
    }
  }
}
