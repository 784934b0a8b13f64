/** The `run` command: batches of every kind, round after round, then the counts. */
module RotationRun {
  import opened Common
  import opened Credentials
  import opened RotationPaging
  import opened RotationResult
  import opened KeyRotation

  // ----- Batches compose into a prefix of the queue

  /** The first `count` rows of the queue were attempted, and `updated` of them rotated. */
  ghost predicate Progress(
      db0: Db, db: Db, config: Config, kind: Kind, count: nat, after: Uuid, updated: int, nonces: Nonces)
    requires config.Valid()
  {
    var queue := Queue(db0, config, kind);
    && count <= |queue|
    && Attempted(db0, db, config, kind, Elements(queue[..count]), nonces)
    && after == (if count == 0 then NIL_UUID else queue[count - 1])
    && updated == |Rotatable(db0, config, kind, Elements(queue[..count]))|
  }

  lemma ProgressStarts(db: Db, config: Config, kind: Kind, nonces: Nonces)
    requires config.Valid()
    ensures Progress(db, db, config, kind, 0, NIL_UUID, 0, nonces)
  {
    AttemptedNothing(db, config, kind, nonces);
    assert Elements(Queue(db, config, kind)[..0]) == {};
    assert Rotatable(db, config, kind, {}) == {};
  }

  lemma AttemptedCompose(
      db0: Db, db: Db, db': Db, config: Config, kind: Kind, a: set<Uuid>, b: set<Uuid>, nonces: Nonces)
    requires config.Valid() && a !! b
    requires Attempted(db0, db, config, kind, a, nonces) && Attempted(db, db', config, kind, b, nonces)
    ensures Attempted(db0, db', config, kind, a + b, nonces)
    ensures Rotatable(db, config, kind, b) == Rotatable(db0, config, kind, b)
  {
    forall id | id in b
      ensures View(db, kind, id) == View(db0, kind, id)
    {
      AttemptedElsewhere(db0, db, config, kind, a, nonces, id);
    }
    assert RotatedTable(db, config, kind, b, nonces) == RotatedTable(db0, config, kind, a + b, nonces);
  }

  /** The last id of a prefix separates an ascending listing. */
  lemma CursorSplits(queue: seq<Uuid>, count: nat, after: Uuid)
    requires StrictlyAscending(queue) && count <= |queue|
    requires forall i | 0 <= i < |queue| :: queue[i] > NIL_UUID
    requires after == if count == 0 then NIL_UUID else queue[count - 1]
    ensures forall id | id in Elements(queue[..count]) :: id <= after
    ensures forall id :: id in Elements(queue[count..]) <==> id in Elements(queue) && id > after
  {
  }

  lemma SelectableElsewhere(db0: Db, db: Db, config: Config, kind: Kind, done: set<Uuid>, nonces: Nonces, id: Uuid)
    requires config.Valid() && Attempted(db0, db, config, kind, done, nonces) && id !in done
    ensures id in db.TableOf(kind) && Selectable(db, config, kind, id)
            <==> id in db0.TableOf(kind) && Selectable(db0, config, kind, id)
  {
  }

  lemma QueueElements(db: Db, config: Config, kind: Kind)
    ensures Elements(Queue(db, config, kind)) == Candidates(db, config, kind, NIL_UUID)
    ensures StrictlyAscending(Queue(db, config, kind))
    ensures forall i | 0 <= i < |Queue(db, config, kind)| :: Queue(db, config, kind)[i] > NIL_UUID
  {
  }

  /** Above the cursor the table still offers exactly the rest of the queue. */
  lemma CandidatesAfterCursor(
      db0: Db, db: Db, config: Config, kind: Kind, queue: seq<Uuid>, count: nat, after: Uuid, nonces: Nonces)
    requires config.Valid() && queue == Queue(db0, config, kind) && count <= |queue|
    requires Attempted(db0, db, config, kind, Elements(queue[..count]), nonces)
    requires after == if count == 0 then NIL_UUID else queue[count - 1]
    ensures Candidates(db, config, kind, after) == Elements(queue[count..])
  {
    hide Queue, Attempted, Selectable, Elements;
    QueueElements(db0, config, kind);
    CursorSplits(queue, count, after);
    forall id
      ensures id in Candidates(db, config, kind, after) <==> id in Elements(queue[count..])
    {
      if id > after {
        SelectableElsewhere(db0, db, config, kind, Elements(queue[..count]), nonces, id);
        assert id in Candidates(db0, config, kind, NIL_UUID) <==> id in db0.TableOf(kind) && Selectable(db0, config, kind, id);
      }
    }
  }

  lemma SlicesAreDisjoint(queue: seq<Uuid>, i: nat, j: nat)
    requires StrictlyAscending(queue) && i <= j <= |queue|
    ensures Elements(queue[..i]) !! Elements(queue[i..j])
    ensures Elements(queue[..j]) == Elements(queue[..i]) + Elements(queue[i..j])
  {
  }

  /** The page after the cursor is the next slice of the queue. */
  lemma NextPage(
      db0: Db, db: Db, config: Config, kind: Kind, count: nat, after: Uuid, updated: int, limit: nat, nonces: Nonces)
    requires config.Valid() && Progress(db0, db, config, kind, count, after, updated, nonces)
    ensures var queue := Queue(db0, config, kind);
            PageIds(db, config, kind, after, limit) == queue[count..Min(count + limit, |queue|)]
  {
    var queue := Queue(db0, config, kind);
    QueueElements(db0, config, kind);
    CandidatesAfterCursor(db0, db, config, kind, queue, count, after, nonces);
    PageIsNextSlice(db, config, kind, queue, count, after, limit);
  }

  lemma SliceExtendsProgress(
      db0: Db, db: Db, db': Db, config: Config, kind: Kind, count: nat, after: Uuid, updated: int, count': nat,
      nonces: Nonces)
    requires config.Valid() && Progress(db0, db, config, kind, count, after, updated, nonces)
    requires count <= count' <= |Queue(db0, config, kind)|
    requires Attempted(db, db', config, kind, Elements(Queue(db0, config, kind)[count..count']), nonces)
    ensures var queue := Queue(db0, config, kind);
            Progress(db0, db', config, kind, count', if count' == count then after else queue[count' - 1],
                     updated + |Rotatable(db, config, kind, Elements(queue[count..count']))|, nonces)
  {
    var queue := Queue(db0, config, kind);
    var a, b := Elements(queue[..count]), Elements(queue[count..count']);
    SlicesAreDisjoint(queue, count, count');
    AttemptedCompose(db0, db, db', config, kind, a, b, nonces);
    RotatableUnion(db0, config, kind, a, b);
  }

  /** One undisturbed batch attempts the next slice of the queue. */
  lemma BatchExtendsProgress(
      db0: Db, db: Db, db': Db, config: Config, kind: Kind, count: nat, after: Uuid, updated: int, limit: nat,
      nonces: Nonces)
    requires config.Valid() && Progress(db0, db, config, kind, count, after, updated, nonces)
    requires Attempted(db, db', config, kind, Elements(PageIds(db, config, kind, after, limit)), nonces)
    ensures var ids := PageIds(db, config, kind, after, limit);
            var count' := Min(count + limit, |Queue(db0, config, kind)|);
            && |ids| == count' - count
            && Progress(db0, db', config, kind, count',
                        if ids == [] then after else ids[|ids| - 1],
                        updated + |Rotatable(db, config, kind, Elements(ids))|, nonces)
  {
    hide Attempted, Rotatable, PageIds, Queue, Elements;
    NextPage(db0, db, config, kind, count, after, updated, limit, nonces);
    SliceExtendsProgress(db0, db, db', config, kind, count, after, updated,
                         Min(count + limit, |Queue(db0, config, kind)|), nonces);
  }

  lemma RotatableUnion(db: Db, config: Config, kind: Kind, a: set<Uuid>, b: set<Uuid>)
    requires config.Valid() && a !! b
    ensures |Rotatable(db, config, kind, a + b)| == |Rotatable(db, config, kind, a)| + |Rotatable(db, config, kind, b)|
  {
    assert Rotatable(db, config, kind, a + b) == Rotatable(db, config, kind, a) + Rotatable(db, config, kind, b);
  }

  lemma ProgressUntouched(
      db0: Db, db: Db, db': Db, config: Config, kind: Kind, count: nat, after: Uuid, updated: int, nonces: Nonces)
    requires config.Valid() && Progress(db0, db, config, kind, count, after, updated, nonces)
    requires db'.TableOf(kind) == db.TableOf(kind) && db'.identities == db.identities
    ensures Progress(db0, db', config, kind, count, after, updated, nonces)
  {
  }

  // ----- The three tables side by side

  function Total(n: PerKind<nat>): nat {
    n.bitbucketTokens + n.webhookSecrets + n.gitlabTokens
  }

  lemma TotalSet(n: PerKind<nat>, kind: Kind, value: nat)
    ensures Total(n.Set(kind, value)) == Total(n) - n.Get(kind) + value
  {
  }

  ghost predicate AllProgress(
      db0: Db, db: Db, config: Config, counts: PerKind<nat>, after: PerKind<Uuid>, updated: PerKind<nat>,
      nonces: Nonces)
    requires config.Valid()
  {
    forall kind: Kind ::
      Progress(db0, db, config, kind, counts.Get(kind), after.Get(kind), updated.Get(kind), nonces)
  }

  lemma AllProgressKeepsNotNull(
      db0: Db, db: Db, config: Config, counts: PerKind<nat>, after: PerKind<Uuid>, updated: PerKind<nat>,
      nonces: Nonces)
    requires config.Valid() && NotNull(db0) && AllProgress(db0, db, config, counts, after, updated, nonces)
    ensures NotNull(db)
  {
    var kind := BitbucketWebhookSecrets;
    assert Progress(db0, db, config, kind, counts.Get(kind), after.Get(kind), updated.Get(kind), nonces);
  }

  lemma AllProgressNext(
      db0: Db, db: Db, db': Db, config: Config, kind: Kind, limit: nat, nonces: Nonces, counts: PerKind<nat>,
      after: PerKind<Uuid>, updated: PerKind<nat>, more: nat, log: seq<Failure>)
    returns (counts': PerKind<nat>)
    requires config.Valid() && AllProgress(db0, db, config, counts, after, updated, nonces)
    requires Batched(db, db', config, kind, nonces, PageIds(db, config, kind, after.Get(kind), limit), more, log)
    ensures counts' == counts.Set(kind, Min(counts.Get(kind) + limit, |Queue(db0, config, kind)|))
    ensures var ids := PageIds(db, config, kind, after.Get(kind), limit);
            && Total(counts') == Total(counts) + |ids|
            && AllProgress(db0, db', config, counts', if ids == [] then after else after.Set(kind, ids[|ids| - 1]),
                           updated.Set(kind, updated.Get(kind) + more), nonces)
  {
    hide Attempted, Rotatable, PageIds, Queue, Elements, Total, Progress, FailuresOf;
    var ids := PageIds(db, config, kind, after.Get(kind), limit);
    var after' := if ids == [] then after else after.Set(kind, ids[|ids| - 1]);
    var updated' := updated.Set(kind, updated.Get(kind) + more);
    counts' := counts.Set(kind, Min(counts.Get(kind) + limit, |Queue(db0, config, kind)|));
    assert Progress(db0, db, config, kind, counts.Get(kind), after.Get(kind), updated.Get(kind), nonces);
    BatchExtendsProgress(db0, db, db', config, kind, counts.Get(kind), after.Get(kind), updated.Get(kind), limit, nonces);
    TotalSet(counts, kind, counts'.Get(kind));
    forall other: Kind | other != kind
      ensures Progress(db0, db', config, other, counts'.Get(other), after'.Get(other), updated'.Get(other), nonces)
    {
      assert Progress(db0, db, config, other, counts.Get(other), after.Get(other), updated.Get(other), nonces);
      ProgressUntouched(db0, db, db', config, other, counts.Get(other), after.Get(other), updated.Get(other), nonces);
    }
  }

  // ----- The failure log of a run

  /** The failures of attempting a slice of the queue, as the rows stood before the run. */
  function SliceLog(db: Db, config: Config, kind: Kind, from: int, to: int): seq<Failure>
    requires config.Valid()
  {
    var queue := Queue(db, config, kind);
    if 0 <= from <= to <= |queue| then
      QueueHasViews(db, config, kind);
      assert forall id | id in queue[from..to] :: id in queue;
      FailuresOf(db, config, kind, queue[from..to])
    else []
  }

  lemma QueueHasViews(db: Db, config: Config, kind: Kind)
    ensures forall id | id in Queue(db, config, kind) :: View(db, kind, id).Some?
  {
    QueueElements(db, config, kind);
    forall id | id in Queue(db, config, kind)
      ensures View(db, kind, id).Some?
    {
      assert id in Elements(Queue(db, config, kind));
    }
  }

  /** The batch of one kind in one round. */
  function BatchLog(db: Db, config: Config, kind: Kind, batchSize: nat, round: nat): seq<Failure>
    requires config.Valid()
  {
    var n := |Queue(db, config, kind)|;
    SliceLog(db, config, kind, Min(round * batchSize, n), Min((round + 1) * batchSize, n))
  }

  /** The first `k` kinds of a round. */
  function RoundLog(db: Db, config: Config, batchSize: nat, round: nat, k: nat): seq<Failure>
    requires config.Valid() && k <= |KINDS|
  {
    if k == 0 then [] else
    RoundLog(db, config, batchSize, round, k - 1) + BatchLog(db, config, KINDS[k - 1], batchSize, round)
  }

  /** Round after round, kind after kind, in id order. */
  function RunLog(db: Db, config: Config, batchSize: nat, rounds: nat): seq<Failure>
    requires config.Valid()
  {
    if rounds == 0 then [] else
    RunLog(db, config, batchSize, rounds - 1) + RoundLog(db, config, batchSize, rounds - 1, |KINDS|)
  }

  /** A failure is decided by the row alone, so rows not attempted yet fail as before the run. */
  lemma {:induction false} FailuresAreAsBefore(
      db0: Db, db: Db, config: Config, kind: Kind, done: set<Uuid>, nonces: Nonces, ids: seq<Uuid>)
    requires config.Valid() && Attempted(db0, db, config, kind, done, nonces)
    requires forall id | id in ids :: id !in done && View(db, kind, id).Some? && View(db0, kind, id).Some?
    ensures FailuresOf(db, config, kind, ids) == FailuresOf(db0, config, kind, ids)
  {
    if ids != [] {
      hide Attempted;
      FailuresAreAsBefore(db0, db, config, kind, done, nonces, ids[..|ids| - 1]);
      AttemptedElsewhere(db0, db, config, kind, done, nonces, ids[|ids| - 1]);
    }
  }

  lemma BatchLogs(
      db0: Db, db: Db, db': Db, config: Config, kind: Kind, count: nat, after: Uuid, updated: int, limit: nat,
      nonces: Nonces, more: int, log: seq<Failure>)
    requires config.Valid() && Progress(db0, db, config, kind, count, after, updated, nonces)
    requires Batched(db, db', config, kind, nonces, PageIds(db, config, kind, after, limit), more, log)
    ensures log == SliceLog(db0, config, kind, count, Min(count + limit, |Queue(db0, config, kind)|))
  {
    hide Attempted, PageIds, Queue, FailuresOf, Rotatable;
    var queue := Queue(db0, config, kind);
    var to := Min(count + limit, |queue|);
    var ids := queue[count..to];
    NextPage(db0, db, config, kind, count, after, updated, limit, nonces);
    QueueHasViews(db0, config, kind);
    QueueElements(db0, config, kind);
    SlicesAreDisjoint(queue, count, to);
    forall id | id in ids
      ensures id !in Elements(queue[..count]) && View(db, kind, id).Some? && View(db0, kind, id).Some?
    {
      assert id in Elements(ids) && id in queue;
    }
    FailuresAreAsBefore(db0, db, config, kind, Elements(queue[..count]), nonces, ids);
  }

  /** One more batch of one kind. */
  method AnotherBatch(
      operator: Operator, kind: Kind, batchSize: int, nonces: Nonces, updated: PerKind<nat>,
      ghost db0: Db, ghost counts: PerKind<nat>)
    returns (updated': PerKind<nat>, ghost counts': PerKind<nat>)
    requires operator.Valid() && NotNull(db0) && 1 <= batchSize <= 500
    requires AllProgress(db0, operator.database.db, operator.config, counts, operator.after, updated, nonces)
    requires operator.failureCount + Total(updated) == Total(counts)
    modifies operator`after, operator`failures, operator`failureCount, operator`log, operator.database
    ensures operator.Valid()
    ensures counts' == counts.Set(kind, Min(counts.Get(kind) + batchSize, |Queue(db0, operator.config, kind)|))
    ensures AllProgress(db0, operator.database.db, operator.config, counts', operator.after, updated', nonces)
    ensures operator.failureCount + Total(updated') == Total(counts')
    ensures operator.log
         == old(operator.log) + SliceLog(db0, operator.config, kind, counts.Get(kind), counts'.Get(kind))
  {
    hide AllProgress, NotNull, Batched, PageIds, Queue, Total, StaleIds, Capped, SliceLog;
    AllProgressKeepsNotNull(db0, operator.database.db, operator.config, counts, operator.after, updated, nonces);
    var r := operator.RotateBatch(kind, batchSize, nonces);
    updated' := updated.Set(kind, updated.Get(kind) + r.value);
    counts' := AllProgressNext(db0, old(operator.database.db), operator.database.db, operator.config, kind, batchSize,
                               nonces, counts, old(operator.after), updated, r.value,
                               operator.log[|old(operator.log)|..]);
    TotalSet(updated, kind, updated.Get(kind) + r.value);
    AllProgressLogs(db0, old(operator.database.db), operator.database.db, operator.config, kind, batchSize, nonces,
                    counts, old(operator.after), updated, r.value, operator.log[|old(operator.log)|..]);
  }

  lemma AllProgressLogs(
      db0: Db, db: Db, db': Db, config: Config, kind: Kind, limit: nat, nonces: Nonces, counts: PerKind<nat>,
      after: PerKind<Uuid>, updated: PerKind<nat>, more: nat, log: seq<Failure>)
    requires config.Valid() && AllProgress(db0, db, config, counts, after, updated, nonces)
    requires Batched(db, db', config, kind, nonces, PageIds(db, config, kind, after.Get(kind), limit), more, log)
    ensures log == SliceLog(db0, config, kind, counts.Get(kind),
                            Min(counts.Get(kind) + limit, |Queue(db0, config, kind)|))
  {
    hide Progress, Batched, PageIds, Queue, SliceLog;
    assert Progress(db0, db, config, kind, counts.Get(kind), after.Get(kind), updated.Get(kind), nonces);
    BatchLogs(db0, db, db', config, kind, counts.Get(kind), after.Get(kind), updated.Get(kind), limit, nonces, more, log);
  }

  function Index(kind: Kind): (i: nat)
    ensures i < |KINDS| && KINDS[i] == kind
  {
    match kind
    case BitbucketTokens => 0
    case BitbucketWebhookSecrets => 1
    case GitLabTokens => 2
  }

  /** How many batches a kind has had when `round` rounds are over and `k` kinds of the next. */
  function BatchesDone(round: nat, k: nat, kind: Kind): nat {
    if Index(kind) < k then round + 1 else round
  }

  ghost predicate CountsAre(db0: Db, config: Config, batchSize: nat, round: nat, k: nat, counts: PerKind<nat>) {
    forall kind: Kind ::
      counts.Get(kind) == Min(BatchesDone(round, k, kind) * batchSize, |Queue(db0, config, kind)|)
  }

  lemma CountsNext(
      db0: Db, config: Config, batchSize: nat, round: nat, k: nat, counts: PerKind<nat>, counts': PerKind<nat>)
    requires k < |KINDS| && CountsAre(db0, config, batchSize, round, k, counts)
    requires counts' == counts.Set(KINDS[k], Min(counts.Get(KINDS[k]) + batchSize, |Queue(db0, config, KINDS[k])|))
    ensures CountsAre(db0, config, batchSize, round, k + 1, counts')
  {
    hide Queue;
    forall kind: Kind
      ensures counts'.Get(kind) == Min(BatchesDone(round, k + 1, kind) * batchSize, |Queue(db0, config, kind)|)
    {
      assert (round + 1) * batchSize == round * batchSize + batchSize;
    }
  }

  lemma SliceIsBatch(
      db0: Db, config: Config, batchSize: nat, round: nat, k: nat, counts: PerKind<nat>, counts': PerKind<nat>)
    requires config.Valid() && k < |KINDS|
    requires CountsAre(db0, config, batchSize, round, k, counts) && CountsAre(db0, config, batchSize, round, k + 1, counts')
    ensures SliceLog(db0, config, KINDS[k], counts.Get(KINDS[k]), counts'.Get(KINDS[k]))
         == BatchLog(db0, config, KINDS[k], batchSize, round)
  {
    hide Queue, SliceLog;
    assert Index(KINDS[k]) == k;
  }

  lemma CountsRoundOver(db0: Db, config: Config, batchSize: nat, round: nat, counts: PerKind<nat>)
    requires CountsAre(db0, config, batchSize, round, |KINDS|, counts)
    ensures CountsAre(db0, config, batchSize, round + 1, 0, counts)
  {
  }

  lemma CountsStart(db0: Db, config: Config, batchSize: nat)
    ensures CountsAre(db0, config, batchSize, 0, 0, PerKind(0, 0, 0))
  {
  }

  /** A run that made its rounds has attempted `rounds * batchSize` rows of every queue. */
  lemma ProgressIsRunResult(
      db0: Db, db: Db, config: Config, batchSize: nat, rounds: nat, counts: PerKind<nat>, after: PerKind<Uuid>,
      updated: PerKind<nat>, nonces: Nonces)
    requires config.Valid() && AllProgress(db0, db, config, counts, after, updated, nonces)
    requires CountsAre(db0, config, batchSize, rounds, 0, counts)
    ensures RunResult(db0, db, config, rounds * batchSize, nonces)
    ensures forall kind: Kind :: counts.Get(kind) == |Reached(db0, config, kind, rounds * batchSize)|
    ensures UpdatedAre(db0, config, rounds * batchSize, updated)
  {
    hide Queue, Attempted, Rotatable;
    var budget := rounds * batchSize;
    forall kind: Kind
      ensures Attempted(db0, db, config, kind, Reached(db0, config, kind, budget), nonces)
      ensures counts.Get(kind) == |Reached(db0, config, kind, budget)|
      ensures updated.Get(kind) == |Rotatable(db0, config, kind, Reached(db0, config, kind, budget))|
    {
      assert Progress(db0, db, config, kind, counts.Get(kind), after.Get(kind), updated.Get(kind), nonces);
      ReachedAreSelectable(db0, config, kind, budget);
      assert Take(Queue(db0, config, kind), budget) == Queue(db0, config, kind)[..counts.Get(kind)];
    }
  }

  /** Failures over the three tables. */
  function TotalFailed(db: Db, config: Config, budget: nat): nat
    requires config.Valid()
  {
    |Failed(db, config, BitbucketTokens, budget)|
    + |Failed(db, config, BitbucketWebhookSecrets, budget)|
    + |Failed(db, config, GitLabTokens, budget)|
  }

  /** The updates reported for each table. */
  ghost predicate UpdatedAre(db: Db, config: Config, budget: nat, updated: PerKind<nat>)
    requires config.Valid()
  {
    forall kind: Kind ::
      updated.Get(kind) == |Rotatable(db, config, kind, Reached(db, config, kind, budget))|
  }

  lemma StartsEverywhere(db: Db, config: Config, nonces: Nonces)
    requires config.Valid()
    ensures AllProgress(db, db, config, PerKind(0, 0, 0), PerKind(NIL_UUID, NIL_UUID, NIL_UUID), PerKind(0, 0, 0), nonces)
    ensures Total(PerKind(0, 0, 0)) == 0
  {
    forall kind: Kind
      ensures Progress(db, db, config, kind, 0, NIL_UUID, 0, nonces)
    {
      ProgressStarts(db, config, kind, nonces);
    }
  }

  lemma FailedSize(db: Db, config: Config, kind: Kind, budget: nat)
    requires config.Valid()
    ensures |Failed(db, config, kind, budget)|
            == |Reached(db, config, kind, budget)| - |Rotatable(db, config, kind, Reached(db, config, kind, budget))|
  {
  }

  lemma FailuresAddUp(
      db: Db, config: Config, budget: nat, counts: PerKind<nat>, updated: PerKind<nat>, failureCount: nat)
    requires config.Valid() && failureCount + Total(updated) == Total(counts)
    requires forall kind: Kind :: counts.Get(kind) == |Reached(db, config, kind, budget)|
    requires UpdatedAre(db, config, budget, updated)
    ensures failureCount == TotalFailed(db, config, budget)
  {
    hide Reached, Rotatable, Failed;
    FailedSize(db, config, BitbucketTokens, budget);
    FailedSize(db, config, BitbucketWebhookSecrets, budget);
    FailedSize(db, config, GitLabTokens, budget);
    assert forall kind: Kind :: counts.Get(kind) == |Reached(db, config, kind, budget)|;
    assert counts.Get(BitbucketTokens) == counts.bitbucketTokens && updated.Get(BitbucketTokens) == updated.bitbucketTokens;
    assert counts.Get(BitbucketWebhookSecrets) == counts.webhookSecrets && updated.Get(BitbucketWebhookSecrets) == updated.webhookSecrets;
    assert counts.Get(GitLabTokens) == counts.gitlabTokens && updated.Get(GitLabTokens) == updated.gitlabTokens;
  }

  /** One round: a batch of every kind. */
  method RunRound(
      operator: Operator, batchSize: int, nonces: Nonces, updated0: PerKind<nat>,
      ghost round: nat, ghost db0: Db, ghost counts0: PerKind<nat>)
    returns (updated: PerKind<nat>, ghost counts: PerKind<nat>)
    requires operator.Valid() && NotNull(db0) && 1 <= batchSize <= 500
    requires AllProgress(db0, operator.database.db, operator.config, counts0, operator.after, updated0, nonces)
    requires operator.failureCount + Total(updated0) == Total(counts0)
    requires CountsAre(db0, operator.config, batchSize, round, 0, counts0)
    modifies operator`after, operator`failures, operator`failureCount, operator`log, operator.database
    ensures operator.Valid()
    ensures AllProgress(db0, operator.database.db, operator.config, counts, operator.after, updated, nonces)
    ensures operator.failureCount + Total(updated) == Total(counts)
    ensures CountsAre(db0, operator.config, batchSize, round + 1, 0, counts)
    ensures operator.log == old(operator.log) + RoundLog(db0, operator.config, batchSize, round, |KINDS|)
  {
    hide AllProgress, Queue, NotNull, Total, CountsAre, Capped, SliceLog;
    updated, counts := updated0, counts0;
    for k := 0 to |KINDS|
      invariant operator.Valid()
      invariant AllProgress(db0, operator.database.db, operator.config, counts, operator.after, updated, nonces)
      invariant operator.failureCount + Total(updated) == Total(counts)
      invariant CountsAre(db0, operator.config, batchSize, round, k, counts)
      invariant operator.log == old(operator.log) + RoundLog(db0, operator.config, batchSize, round, k)
    {
      ghost var before := counts;
      updated, counts := AnotherBatch(operator, KINDS[k], batchSize, nonces, updated, db0, counts);
      CountsNext(db0, operator.config, batchSize, round, k, before, counts);
      SliceIsBatch(db0, operator.config, batchSize, round, k, before, counts);
    }
    CountsRoundOver(db0, operator.config, batchSize, round, counts);
  }

  /** All the rounds of a fresh operator. */
  method RunRounds(operator: Operator, batchSize: int, maxBatches: nat, nonces: Nonces)
    returns (updated: PerKind<nat>)
    requires operator.Valid() && NotNull(operator.database.db) && 1 <= batchSize <= 500
    requires operator.after == PerKind(NIL_UUID, NIL_UUID, NIL_UUID) && operator.log == []
    modifies operator`after, operator`failures, operator`failureCount, operator`log, operator.database
    ensures operator.Valid()
    ensures RunResult(old(operator.database.db), operator.database.db, operator.config, maxBatches * batchSize, nonces)
    ensures UpdatedAre(old(operator.database.db), operator.config, maxBatches * batchSize, updated)
    ensures operator.failureCount == TotalFailed(old(operator.database.db), operator.config, maxBatches * batchSize)
    ensures operator.log
         == old(operator.log) + RunLog(old(operator.database.db), operator.config, batchSize, maxBatches)
  {
    hide AllProgress, Queue, NotNull, Total, CountsAre, Capped, TotalFailed, RunResult, UpdatedAre, RoundLog;
    ghost var db0, config := operator.database.db, operator.config;
    updated := PerKind(0, 0, 0);
    ghost var counts: PerKind<nat> := PerKind(0, 0, 0);
    StartsEverywhere(db0, config, nonces);
    CountsStart(db0, config, batchSize);
    for round := 0 to maxBatches
      invariant operator.Valid()
      invariant AllProgress(db0, operator.database.db, config, counts, operator.after, updated, nonces)
      invariant operator.failureCount + Total(updated) == Total(counts)
      invariant CountsAre(db0, config, batchSize, round, 0, counts)
      invariant operator.log == old(operator.log) + RunLog(db0, config, batchSize, round)
    {
      updated, counts := RunRound(operator, batchSize, nonces, updated, round, db0, counts);
    }
    ProgressIsRunResult(db0, operator.database.db, config, batchSize, maxBatches, counts, operator.after, updated, nonces);
    FailuresAddUp(db0, config, maxBatches * batchSize, counts, updated, operator.failureCount);
  }

  /** The promise of the runbook: a run that fails on a row does not report ready. */
  lemma FailedRunIsNotReady(db0: Db, db: Db, config: Config, budget: nat, nonces: Nonces)
    requires config.Valid() && RunResult(db0, db, config, budget, nonces)
    ensures Ready(db, config) ==> TotalFailed(db0, config, budget) == 0
  {
    hide RunResult, Ready, Failed;
    forall kind: Kind
      ensures Ready(db, config) ==> Failed(db0, config, kind, budget) == {}
    {
      if Failed(db0, config, kind, budget) != {} {
        FailureIsNeverReady(db0, db, config, budget, nonces, kind);
      }
    }
    assert Ready(db, config) ==> |Failed(db0, config, BitbucketTokens, budget)| == 0;
  }

  /**
    The `run` command on a database nobody else writes. For every kind it attempts the
    first `maxBatches * batchSize` stale rows in id order, rotates those that can be
    rotated, logs the rest as failures in the order they were met, of which the first
    hundred are reported in detail, and reports the counts and whether they are ready. It
    exits with zero exactly when no row failed.
   */
  method Execute(config: Config, database: Database, batchSize: int, maxBatches: int, nonces: Nonces)
    returns (r: Result<Report, Refusal>)
    requires config.Valid() && NotNull(database.db)
    modifies database
    ensures r.Ok? <==> 1 <= batchSize <= 500 && 1 <= maxBatches <= 10000
    ensures r.Err? ==> database.db == old(database.db)
    ensures r.Ok? ==>
      && RunResult(old(database.db), database.db, config, maxBatches * batchSize, nonces)
      && UpdatedAre(old(database.db), config, maxBatches * batchSize, r.value.updated)
      && r.value.failureCount == TotalFailed(old(database.db), config, maxBatches * batchSize)
      && r.value.failureCount == |RunLog(old(database.db), config, batchSize, maxBatches)|
      && r.value.failures == Capped(RunLog(old(database.db), config, batchSize, maxBatches))
      && (forall kind: Kind :: r.value.counts.Get(kind) == Counts(database.db, kind))
      && r.value.ready == Ready(database.db, config)
      && (r.value.succeeded <==> r.value.failureCount == 0)
      && (r.value.ready ==> r.value.succeeded)
  {
    hide RunResult, UpdatedAre, TotalFailed, Ready, NotNull, RunLog, Counts;
    if !(1 <= batchSize <= 500) || !(1 <= maxBatches <= 10000) {
      return Err(RotationParametersInvalid);
    }
    var operator := new Operator(config, database);
    var updated := RunRounds(operator, batchSize, maxBatches, nonces);
    FailedRunIsNotReady(old(database.db), database.db, config, maxBatches * batchSize, nonces);
    var counts := PerKind(Counts(database.db, BitbucketTokens), Counts(database.db, BitbucketWebhookSecrets),
                          Counts(database.db, GitLabTokens));
    return Ok(Report(updated, counts, Ready(database.db, config), operator.failureCount, operator.failures,
                     operator.failureCount == 0));
  }

  /**
    On a database that satisfies its constraints and holds no nil id, a `run` whose
    budget covers every table reports ready exactly when it reports no failure.
   */
  lemma RunReadyIffNoFailures(db0: Db, db: Db, config: Config, budget: nat, nonces: Nonces)
    requires config.Valid() && Constrained(db0) && RunResult(db0, db, config, budget, nonces)
    requires forall kind: Kind ::
               NIL_UUID !in StaleIds(db0, config, kind) && |StaleIds(db0, config, kind)| <= budget
    ensures Ready(db, config) <==> TotalFailed(db0, config, budget) == 0
  {
    hide RunResult, Constrained, Ready, StaleIds, Failed;
    ReadyIffNoFailure(db0, db, config, budget, nonces);
    var a, b, c := Failed(db0, config, BitbucketTokens, budget), Failed(db0, config, BitbucketWebhookSecrets, budget),
                   Failed(db0, config, GitLabTokens, budget);
    assert TotalFailed(db0, config, budget) == |a| + |b| + |c|;
    if TotalFailed(db0, config, budget) == 0 {
      forall kind: Kind
        ensures Failed(db0, config, kind, budget) == {}
      {
        match kind
        case BitbucketTokens =>
        case BitbucketWebhookSecrets =>
        case GitLabTokens =>
      }
    }
  }
}
