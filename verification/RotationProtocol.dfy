/**
  Key rotation as an optimistic protocol. Any number of operators read pages, reseal
  rows outside any transaction and compare-and-swap them one by one, while other
  writers replace, patch, rebind, revoke and delete the same rows at any moment.

  `State.intent` is the database as it would stand had no rotation ever run: it takes
  every foreign statement and no rotation. The main results compare the two.
 */
module RotationProtocol {
  import opened Common
  import opened Credentials
  import opened RotationPaging

  datatype Job =
    | Fetched(kind: Kind, row: Row)
    | Resealed(kind: Kind, row: Row, envelope: Envelope)

  datatype Operator = Operator(
    config: Config,
    after: PerKind<Uuid>,
    jobs: seq<Job>,
    visited: PerKind<seq<Uuid>>,
    updated: nat,
    failureCount: nat)

  datatype Keyrings = Keyrings(bitbucket: map<KeyId, KeyMaterial>, gitlab: map<KeyId, KeyMaterial>)
  {
    function For(kind: Kind): map<KeyId, KeyMaterial> {
      if kind == GitLabTokens then gitlab else bitbucket
    }

    /** The runbook deploys one keyring to every process; only the active key may differ. */
    predicate Deployed(config: Config) {
      config.Valid() && config.bitbucket.keys == bitbucket && config.gitlab.keys == gitlab
    }
  }

  datatype State = State(keyrings: Keyrings, db: Db, intent: Db, operators: map<nat, Operator>)

  datatype Step =
    // Operators
    | Begin(op: nat, config: Config)
    | Fetch(op: nat, kind: Kind, limit: nat)
    | Reseal(op: nat, nonce: nat)
    | Swap(op: nat)
    | Stop(op: nat)
    // Other writers
    | Put(kind: Kind, id: Uuid, row: Stored)
    | Patch(kind: Kind, id: Uuid, row: Stored)
    | Delete(kind: Kind, id: Uuid)
    | Rebind(identities: map<Uuid, Identity>)

  predicate IsRotation(step: Step) {
    step.Begin? || step.Fetch? || step.Reseal? || step.Swap? || step.Stop?
  }

  /** A foreign statement. `Patch` sets every column except the credential pair. */
  function Foreign(db: Db, step: Step): Db
    requires !IsRotation(step)
  {
    match step
    case Put(kind, id, row) => db.With(kind, db.TableOf(kind)[id := row])
    case Patch(kind, id, row) =>
      var table := db.TableOf(kind);
      if id !in table then db
      else db.With(kind, table[id := row.(keyId := table[id].keyId, ciphertext := table[id].ciphertext)])
    case Delete(kind, id) => db.With(kind, db.TableOf(kind) - {id})
    case Rebind(identities) => db.(identities := identities)
  }

  function FetchJobs(kind: Kind, rows: seq<Row>): (jobs: seq<Job>)
    ensures |jobs| == |rows| && forall i | 0 <= i < |jobs| :: jobs[i] == Fetched(kind, rows[i])
  {
    seq(|rows|, i requires 0 <= i < |rows| => Fetched(kind, rows[i]))
  }

  const START: PerKind<Uuid> := PerKind(NIL_UUID, NIL_UUID, NIL_UUID)
  const UNVISITED: PerKind<seq<Uuid>> := PerKind([], [], [])

  function Advance(o: Operator, kind: Kind, ids: seq<Uuid>, rows: seq<Row>): Operator {
    o.(jobs := FetchJobs(kind, rows),
       visited := o.visited.Set(kind, o.visited.Get(kind) + ids),
       after := if ids == [] then o.after else o.after.Set(kind, ids[|ids| - 1]))
  }

  function AfterFetch(o: Operator, db: Db, kind: Kind, limit: nat): Operator {
    var after := o.after.Get(kind);
    Advance(o, kind, PageIds(db, o.config, kind, after, limit), Page(db, o.config, kind, after, limit))
  }

  /** One atomic step; a step that is not enabled changes nothing. */
  function Next(s: State, step: Step): State {
    if !IsRotation(step) then s.(db := Foreign(s.db, step), intent := Foreign(s.intent, step))
    else if step.Begin? then
      if step.op in s.operators || !s.keyrings.Deployed(step.config) then s
      else s.(operators := s.operators[step.op := Operator(step.config, START, [], UNVISITED, 0, 0)])
    else if step.op !in s.operators then s
    else
      var o := s.operators[step.op];
      match step
      case Fetch(op, kind, limit) =>
        if o.jobs != [] then s
        else s.(operators := s.operators[op := AfterFetch(o, s.db, kind, limit)])
      case Reseal(op, nonce) =>
        if o.jobs == [] || !o.jobs[0].Fetched? || !o.config.Valid() then s else
        var job := o.jobs[0];
        (match Reencrypt(o.config, job.kind, job.row, nonce)
         case Ok(envelope) =>
           s.(operators := s.operators[op := o.(jobs := [Resealed(job.kind, job.row, envelope)] + o.jobs[1..])])
         case Err(_) =>
           s.(operators := s.operators[op := o.(jobs := o.jobs[1..], failureCount := o.failureCount + 1)]))
      case Swap(op) =>
        if o.jobs == [] || !o.jobs[0].Resealed? then s else
        var job := o.jobs[0];
        var (db', changed) := Cas(s.db, o.config, job.kind, job.row, job.envelope);
        s.(db := db',
           operators := s.operators[op := o.(jobs := o.jobs[1..], updated := o.updated + if changed then 1 else 0)])
      case Stop(op) => s.(operators := s.operators - {op})
  }

  function Run(s: State, steps: seq<Step>): State {
    if steps == [] then s else Next(Run(s, steps[..|steps| - 1]), steps[|steps| - 1])
  }

  /** No operator is running and no row has been rotated yet. */
  predicate Initial(s: State) {
    s.db == s.intent && s.operators == map[]
  }

  // ----- The invariant

  predicate Openable(keys: map<KeyId, KeyMaterial>, s: Stored) {
    && s.keyId.Some?
    && s.keyId.value in keys
    && s.ciphertext.Some?
    && s.ciphertext.value.Sealed?
    && s.ciphertext.value.material == keys[s.keyId.value]
    && s.ciphertext.value.keyId == s.keyId.value
  }

  /** `b` is `a`, or `a` with its envelope resealed for the same context and plaintext. */
  predicate SameCredential(keys: map<KeyId, KeyMaterial>, a: Stored, b: Stored) {
    || a == b
    || (&& Openable(keys, a) && Openable(keys, b)
        && a.ciphertext.value.context == b.ciphertext.value.context
        && a.ciphertext.value.plaintext == b.ciphertext.value.plaintext
        && b == a.(keyId := b.keyId, ciphertext := b.ciphertext))
  }

  ghost predicate SameTable(keys: map<KeyId, KeyMaterial>, a: Table, b: Table) {
    a.Keys == b.Keys && forall id | id in a :: SameCredential(keys, a[id], b[id])
  }

  /** What every page promises of a row: the token tables are keyed by installation, Bitbucket rows are not revoked. */
  predicate AsRead(kind: Kind, row: Row) {
    && (kind != BitbucketWebhookSecrets ==> row.installation == row.id)
    && (kind != GitLabTokens ==> row.revokedAt.None?)
  }

  ghost predicate GoodJob(config: Config, job: Job) {
    AsRead(job.kind, job.row) && (job.Resealed? ==> Resealing(config, job))
  }

  ghost predicate Resealing(config: Config, job: Job)
    requires job.Resealed?
  {
    exists nonce: nat :: config.Valid() && Reencrypt(config, job.kind, job.row, nonce) == Ok(job.envelope)
  }

  /** The cursor is the last id visited, or the nil id before the first. */
  ghost predicate AscendsTo(visited: seq<Uuid>, after: Uuid) {
    StrictlyAscending(visited) && after == if visited == [] then NIL_UUID else visited[|visited| - 1]
  }

  ghost predicate GoodOperator(keyrings: Keyrings, o: Operator) {
    && keyrings.Deployed(o.config)
    && (forall i | 0 <= i < |o.jobs| :: GoodJob(o.config, o.jobs[i]))
    && forall kind: Kind :: AscendsTo(o.visited.Get(kind), o.after.Get(kind))
  }

  ghost predicate Inv(s: State) {
    && s.db.identities == s.intent.identities
    && (forall kind: Kind :: SameTable(s.keyrings.For(kind), s.intent.TableOf(kind), s.db.TableOf(kind)))
    && forall op | op in s.operators :: GoodOperator(s.keyrings, s.operators[op])
  }

  // ----- One compare-and-swap

  /** What resealing computes, in terms of the envelope that was read. */
  lemma ReencryptKeepsSecret(config: Config, kind: Kind, row: Row, nonce: nat)
    requires config.Valid() && Reencrypt(config, kind, row, nonce).Ok?
    ensures row.ciphertext.Some? && row.ciphertext.value.Sealed?
    ensures var keys := config.CipherFor(kind).keys;
            var old', new' := row.ciphertext.value, Reencrypt(config, kind, row, nonce).value;
            && row.keyId in keys && old'.material == keys[row.keyId] && old'.keyId == row.keyId
            && config.Active(kind) in keys
            && new' == Sealed(keys[config.Active(kind)], config.Active(kind), old'.context, old'.plaintext, nonce)
  {
  }

  lemma WithTable(db: Db, kind: Kind, table: Table, other: Kind)
    ensures db.With(kind, table).TableOf(other) == if other == kind then table else db.TableOf(other)
    ensures db.With(kind, table).identities == db.identities
  {
  }

  /**
    A successful compare-and-swap replaces one envelope by one of the same plaintext and
    context under the active key. No other column of that row and no other row changes,
    and a row that was revoked, restored, replaced or bound again since it was read is
    never written.
   */
  lemma CasReseals(db: Db, config: Config, job: Job, other: Kind)
    requires job.Resealed? && GoodJob(config, job)
    ensures
      var keys := config.CipherFor(job.kind).keys;
      var (db', changed) := Cas(db, config, job.kind, job.row, job.envelope);
      var before, after := db.TableOf(other), db'.TableOf(other);
      && db'.identities == db.identities
      && (other != job.kind || !changed ==> after == before)
      && (other == job.kind && changed ==>
            && var id := job.row.id;
            && id in before && after == before[id := after[id]]
            && SameCredential(keys, before[id], after[id])
            && after[id].keyId == Some(config.Active(job.kind))
            && before[id].revokedAt == job.row.revokedAt
            && before[id].generation == job.row.generation
            && (other == BitbucketWebhookSecrets ==> before[id].bindingGeneration == job.row.bindingGeneration))
  {
    var nonce: nat :| Reencrypt(config, job.kind, job.row, nonce) == Ok(job.envelope);
    ReencryptKeepsSecret(config, job.kind, job.row, nonce);
    if Matches(db, job.kind, job.row) {
      var table := db.TableOf(job.kind);
      var s := table[job.row.id].(ciphertext := Some(job.envelope), keyId := Some(config.Active(job.kind)));
      WithTable(db, job.kind, table[job.row.id := s], other);
    }
  }

  // ----- Every step keeps the invariant

  lemma ForeignKeepsTables(s: State, step: Step, kind: Kind)
    requires Inv(s) && !IsRotation(step)
    ensures SameTable(s.keyrings.For(kind), Foreign(s.intent, step).TableOf(kind), Foreign(s.db, step).TableOf(kind))
  {
    hide GoodOperator;
    assert SameTable(s.keyrings.For(kind), s.intent.TableOf(kind), s.db.TableOf(kind));
    if step.Put? || step.Patch? || step.Delete? {
      assert SameTable(s.keyrings.For(step.kind), s.intent.TableOf(step.kind), s.db.TableOf(step.kind));
    }
  }

  lemma SwapKeepsTables(s: State, op: nat, kind: Kind)
    requires Inv(s)
    ensures SameTable(s.keyrings.For(kind), s.intent.TableOf(kind), Next(s, Swap(op)).db.TableOf(kind))
    ensures Next(s, Swap(op)).db.identities == s.db.identities
  {
    hide AfterFetch, Reencrypt, Matches, Cas, AscendsTo;
    var keys, intent, before := s.keyrings.For(kind), s.intent.TableOf(kind), s.db.TableOf(kind);
    assert SameTable(keys, intent, before);
    if op in s.operators && s.operators[op].jobs != [] && s.operators[op].jobs[0].Resealed? {
      var o := s.operators[op];
      assert GoodOperator(s.keyrings, o) && GoodJob(o.config, o.jobs[0]);
      CasReseals(s.db, o.config, o.jobs[0], kind);
    }
  }

  lemma AscendsFurther(visited: seq<Uuid>, after: Uuid, ids: seq<Uuid>)
    requires AscendsTo(visited, after) && StrictlyAscending(ids)
    requires forall i | 0 <= i < |ids| :: ids[i] > after
    ensures AscendsTo(visited + ids, if ids == [] then after else ids[|ids| - 1])
  {
  }

  lemma AdvanceKeepsOperator(keyrings: Keyrings, o: Operator, kind: Kind, ids: seq<Uuid>, rows: seq<Row>)
    requires GoodOperator(keyrings, o)
    requires StrictlyAscending(ids) && forall i | 0 <= i < |ids| :: ids[i] > o.after.Get(kind)
    requires forall i | 0 <= i < |rows| :: AsRead(kind, rows[i])
    ensures GoodOperator(keyrings, Advance(o, kind, ids, rows))
  {
    AscendsFurther(o.visited.Get(kind), o.after.Get(kind), ids);
  }

  lemma PageIsAsRead(db: Db, config: Config, kind: Kind, after: Uuid, limit: nat)
    ensures forall i | 0 <= i < |Page(db, config, kind, after, limit)| ::
              AsRead(kind, Page(db, config, kind, after, limit)[i])
  {
    hide PageIds;
    var rows, ids := Page(db, config, kind, after, limit), PageIds(db, config, kind, after, limit);
    PageIsSelectable(db, config, kind, after, limit);
    forall i | 0 <= i < |rows|
      ensures AsRead(kind, rows[i])
    {
      assert ids[i] in ids && Selectable(db, config, kind, ids[i]);
    }
  }

  lemma FetchKeepsOperator(keyrings: Keyrings, db: Db, o: Operator, kind: Kind, limit: nat)
    requires GoodOperator(keyrings, o)
    ensures GoodOperator(keyrings, AfterFetch(o, db, kind, limit))
  {
    var after := o.after.Get(kind);
    var ids := PageIds(db, o.config, kind, after, limit);
    assert forall i | 0 <= i < |ids| :: ids[i] in ids;
    PageIsAsRead(db, o.config, kind, after, limit);
    AdvanceKeepsOperator(keyrings, o, kind, ids, Page(db, o.config, kind, after, limit));
  }

  lemma NextKeepsOperators(s: State, step: Step)
    requires Inv(s)
    ensures forall op | op in Next(s, step).operators :: GoodOperator(s.keyrings, Next(s, step).operators[op])
  {
    hide AfterFetch, Cas, Foreign, Reencrypt, SameTable;
    if IsRotation(step) && step.op in s.operators {
      var o := s.operators[step.op];
      assert GoodOperator(s.keyrings, o);
      if step.Fetch? {
        FetchKeepsOperator(s.keyrings, s.db, o, step.kind, step.limit);
      } else if step.Reseal? && o.jobs != [] {
        assert forall i | 0 <= i < |o.jobs| - 1 :: o.jobs[1..][i] == o.jobs[i + 1];
        var job := o.jobs[0];
        if job.Fetched? && Reencrypt(o.config, job.kind, job.row, step.nonce).Ok? {
          assert GoodJob(o.config, Resealed(job.kind, job.row, Reencrypt(o.config, job.kind, job.row, step.nonce).value));
        }
      }
    }
  }

  lemma NextKeepsInv(s: State, step: Step)
    requires Inv(s)
    ensures Inv(Next(s, step)) && Next(s, step).keyrings == s.keyrings
  {
    hide AfterFetch, Reencrypt, Cas, GoodOperator;
    NextKeepsOperators(s, step);
    var s' := Next(s, step);
    forall kind: Kind
      ensures SameTable(s.keyrings.For(kind), s'.intent.TableOf(kind), s'.db.TableOf(kind))
    {
      assert SameTable(s.keyrings.For(kind), s.intent.TableOf(kind), s.db.TableOf(kind));
      if !IsRotation(step) {
        ForeignKeepsTables(s, step, kind);
      } else if step.Swap? {
        SwapKeepsTables(s, step.op, kind);
      }
    }
    if step.Swap? { SwapKeepsTables(s, step.op, GitLabTokens); }
  }

  lemma {:induction false} RunKeepsInv(s: State, steps: seq<Step>)
    requires Inv(s)
    ensures Inv(Run(s, steps)) && Run(s, steps).keyrings == s.keyrings
  {
    if steps != [] {
      RunKeepsInv(s, steps[..|steps| - 1]);
      NextKeepsInv(Run(s, steps[..|steps| - 1]), steps[|steps| - 1]);
    }
  }

  lemma InitialInv(s: State)
    requires Initial(s)
    ensures Inv(s)
  {
  }

  // ----- Main results

  /** What a reader holding `keys` gets out of a row in a given context. */
  function Open(keys: map<KeyId, KeyMaterial>, s: Stored, context: Context): Option<string> {
    if s.keyId.None? then None else Decrypt(keys, s.keyId.value, s.ciphertext, context)
  }

  /**
    After any interleaving of operators and foreign writers, every row exists exactly
    when the foreign writers left it, has their generation, binding, workspace, origin
    and revocation, and opens, in every context, to exactly what they last wrote.
   */
  lemma RotationIsInvisible(s: State, steps: seq<Step>, kind: Kind, id: Uuid, context: Context)
    requires Initial(s)
    ensures
      var end := Run(s, steps);
      var table, intent := end.db.TableOf(kind), end.intent.TableOf(kind);
      && end.db.identities == end.intent.identities
      && (id in table <==> id in intent)
      && (id in table ==>
            && table[id] == intent[id].(keyId := table[id].keyId, ciphertext := table[id].ciphertext)
            && Open(s.keyrings.For(kind), table[id], context) == Open(s.keyrings.For(kind), intent[id], context))
  {
    InitialInv(s);
    RunKeepsInv(s, steps);
    var end := Run(s, steps);
    assert SameTable(s.keyrings.For(kind), end.intent.TableOf(kind), end.db.TableOf(kind));
  }

  /**
    The effect of one operator step after any run: no row appears or disappears, and a
    row that changes keeps every column but its credential pair, opens in every context
    as it did before, ends under the active key of that operator, and still has the
    generation, the binding and the revocation it was read with: none, if it is a Bitbucket
    row.
   */
  lemma RotationStepEffect(s: State, steps: seq<Step>, step: Step, kind: Kind, id: Uuid, context: Context)
    requires Initial(s) && IsRotation(step)
    ensures
      var mid := Run(s, steps);
      var before, after := mid.db.TableOf(kind), Next(mid, step).db.TableOf(kind);
      && before.Keys == after.Keys
      && (id in before && before[id] != after[id] ==>
            && step.Swap? && step.op in mid.operators
            && after[id] == before[id].(keyId := after[id].keyId, ciphertext := after[id].ciphertext)
            && after[id].keyId == Some(mid.operators[step.op].config.Active(kind))
            && Open(s.keyrings.For(kind), after[id], context) == Open(s.keyrings.For(kind), before[id], context)
            && var jobs := mid.operators[step.op].jobs;
            && jobs != [] && jobs[0].kind == kind && jobs[0].row.id == id
            && before[id].generation == jobs[0].row.generation
            && (kind == BitbucketWebhookSecrets ==> before[id].bindingGeneration == jobs[0].row.bindingGeneration)
            && before[id].revokedAt == jobs[0].row.revokedAt
            && (kind != GitLabTokens ==> before[id].revokedAt.None?))
  {
    hide AfterFetch, Foreign, Reencrypt, Matches, Cas, AscendsTo;
    InitialInv(s);
    RunKeepsInv(s, steps);
    var mid := Run(s, steps);
    if step.Swap? && step.op in mid.operators {
      var o := mid.operators[step.op];
      assert GoodOperator(mid.keyrings, o);
      if o.jobs != [] && o.jobs[0].Resealed? {
        assert GoodJob(o.config, o.jobs[0]);
        CasReseals(mid.db, o.config, o.jobs[0], kind);
      }
    }
  }

  lemma RunTwo(s: State, a: Step, b: Step)
    ensures Run(s, [a, b]) == Next(Next(s, a), b)
  {
    hide Next;
    assert [a, b][..1] == [a] && [a][..0] == [];
    assert Run(s, [a]) == Next(Run(s, []), a);
  }

  /**
    Progress: whatever else is going on, a row that can be resealed and is still as it was
    read when its turn comes is rotated and counted; one that changed in between is left
    alone and not counted. Either way the operator goes on to the next row.
   */
  lemma SwapIsCounted(s: State, op: nat)
    requires op in s.operators && s.operators[op].jobs != [] && s.operators[op].jobs[0].Resealed?
    ensures var o, s' := s.operators[op], Next(s, Swap(op));
            var job := o.jobs[0];
            && op in s'.operators && s'.operators[op].jobs == o.jobs[1..]
            && (Matches(s.db, job.kind, job.row) ==>
                  && s'.operators[op].updated == o.updated + 1
                  && job.row.id in s'.db.TableOf(job.kind)
                  && s'.db.TableOf(job.kind)[job.row.id].ciphertext == Some(job.envelope)
                  && s'.db.TableOf(job.kind)[job.row.id].keyId == Some(o.config.Active(job.kind)))
            && (!Matches(s.db, job.kind, job.row) ==> s'.db == s.db && s'.operators[op].updated == o.updated)
  {
    hide Matches, AfterFetch, Reencrypt, Foreign;
  }

  /** Resealing hands the row on with its new envelope, or counts a failure and drops it. */
  lemma ResealIsCounted(s: State, op: nat, nonce: nat)
    requires op in s.operators && s.operators[op].config.Valid()
    requires s.operators[op].jobs != [] && s.operators[op].jobs[0].Fetched?
    ensures var o, s' := s.operators[op], Next(s, Reseal(op, nonce));
            var job := o.jobs[0];
            && s'.db == s.db && op in s'.operators
            && match Reencrypt(o.config, job.kind, job.row, nonce)
               case Ok(envelope) =>
                 && s'.operators[op].jobs == [Resealed(job.kind, job.row, envelope)] + o.jobs[1..]
                 && s'.operators[op].failureCount == o.failureCount
               case Err(_) =>
                 s'.operators[op].jobs == o.jobs[1..] && s'.operators[op].failureCount == o.failureCount + 1
  {
    hide Matches, AfterFetch, Reencrypt, Foreign, Cas;
  }

  /** Together: a row as it was read, and that can be resealed, ends under the active key. */
  lemma UndisturbedRowIsRotated(s: State, op: nat, nonce: nat)
    requires op in s.operators && s.operators[op].config.Valid()
    requires s.operators[op].jobs != [] && s.operators[op].jobs[0].Fetched?
    requires var o := s.operators[op];
             var job := o.jobs[0];
             Matches(s.db, job.kind, job.row) && Reencrypt(o.config, job.kind, job.row, nonce).Ok?
    ensures var o, end := s.operators[op], Run(s, [Reseal(op, nonce), Swap(op)]);
            var job := o.jobs[0];
            && op in end.operators && end.operators[op].jobs == o.jobs[1..]
            && end.operators[op].updated == o.updated + 1 && end.operators[op].failureCount == o.failureCount
            && job.row.id in end.db.TableOf(job.kind)
            && end.db.TableOf(job.kind)[job.row.id].keyId == Some(o.config.Active(job.kind))
            && end.db.TableOf(job.kind)[job.row.id].ciphertext
               == Some(Reencrypt(o.config, job.kind, job.row, nonce).value)
  {
    RunTwo(s, Reseal(op, nonce), Swap(op));
    ResealIsCounted(s, op, nonce);
    var mid := Next(s, Reseal(op, nonce));
    ReaderStays(s, op, nonce);
    SwapIsCounted(mid, op);
    SwapKeepsFailures(mid, op);
    hide Next, Run, Matches, Reencrypt;
    assert mid.operators[op].jobs[1..] == s.operators[op].jobs[1..];
  }

  lemma ReaderStays(s: State, op: nat, nonce: nat)
    requires op in s.operators
    ensures var s' := Next(s, Reseal(op, nonce));
            op in s'.operators && s'.operators[op].config == s.operators[op].config
            && s'.operators[op].updated == s.operators[op].updated
  {
    hide Matches, AfterFetch, Reencrypt, Foreign, Cas;
  }

  lemma SwapKeepsFailures(s: State, op: nat)
    requires op in s.operators
    ensures var s' := Next(s, Swap(op));
            op in s'.operators && s'.operators[op].failureCount == s.operators[op].failureCount
  {
    hide Matches, AfterFetch, Reencrypt, Foreign, Cas;
  }

  /** Whatever happens around it, one operator visits the ids of a table in strictly ascending order. */
  lemma VisitsAscend(s: State, steps: seq<Step>, op: nat, kind: Kind)
    requires Initial(s)
    ensures var end := Run(s, steps);
            op in end.operators ==>
              StrictlyAscending(end.operators[op].visited.Get(kind))
  {
    InitialInv(s);
    RunKeepsInv(s, steps);
  }

  // ----- Towards retirement of the old keys

  /** Step 3 of the runbook: writers and operators use these active keys only. */
  ghost predicate UsesActive(config: Config, step: Step) {
    match step
    case Begin(_, c) => c.bitbucketActive == config.bitbucketActive && c.gitlabActive == config.gitlabActive
    case Put(kind, _, row) => row.keyId.None? || row.keyId == Some(config.Active(kind))
    case _ => true
  }

  ghost predicate OperatorsUse(config: Config, s: State) {
    forall op | op in s.operators :: forall kind: Kind :: s.operators[op].config.Active(kind) == config.Active(kind)
  }

  lemma StaleNeverGrows(s: State, config: Config, step: Step)
    requires Inv(s) && OperatorsUse(config, s) && UsesActive(config, step)
    ensures OperatorsUse(config, Next(s, step))
    ensures forall kind: Kind :: StaleIds(Next(s, step).db, config, kind) <= StaleIds(s.db, config, kind)
  {
    hide PageIds, Page, FetchJobs, Reencrypt, Matches, Cas, AscendsTo, SameTable;
    forall kind: Kind
      ensures StaleIds(Next(s, step).db, config, kind) <= StaleIds(s.db, config, kind)
    {
      if step.Swap? && step.op in s.operators {
        var o := s.operators[step.op];
        assert GoodOperator(s.keyrings, o);
        if o.jobs != [] && o.jobs[0].Resealed? {
          assert GoodJob(o.config, o.jobs[0]);
          CasReseals(s.db, o.config, o.jobs[0], kind);
        }
      } else if step.Put? || step.Patch? || step.Delete? {
        WithTable(s.db, step.kind, Foreign(s.db, step).TableOf(step.kind), kind);
      }
    }
  }

  /**
    Once writers use the active key, no interleaving brings an old key back: a row
    counted under an old key at the end was counted under one at every earlier moment,
    so a successful `verify` stays true.
   */
  lemma {:induction false} VerifiedStaysVerified(s: State, config: Config, steps: seq<Step>)
    requires Inv(s) && OperatorsUse(config, s)
    requires forall i | 0 <= i < |steps| :: UsesActive(config, steps[i])
    ensures OperatorsUse(config, Run(s, steps))
    ensures forall kind: Kind :: StaleIds(Run(s, steps).db, config, kind) <= StaleIds(s.db, config, kind)
    ensures Ready(s.db, config) ==> Ready(Run(s, steps).db, config)
  {
    if steps != [] {
      var front := steps[..|steps| - 1];
      VerifiedStaysVerified(s, config, front);
      RunKeepsInv(s, front);
      StaleNeverGrows(Run(s, front), config, steps[|steps| - 1]);
    }
    ReadyIffNothingStale(s.db, config);
    ReadyIffNothingStale(Run(s, steps).db, config);
  }

  /** The keyring can lose every key but the active one without a row noticing. */
  lemma ActiveKeySuffices(keys: map<KeyId, KeyMaterial>, fewer: map<KeyId, KeyMaterial>, active: KeyId, s: Stored,
                          context: Context)
    requires s.keyId.None? || s.keyId.value == active
    requires active in fewer <==> active in keys
    requires active in keys ==> fewer[active] == keys[active]
    ensures Open(fewer, s, context) == Open(keys, s, context)
  {
  }

  /**
    After a run that ends verified, the old keys can be removed: with any keyring that keeps
    the active keys as they are, every row opens, in every context, to exactly what the
    other writers last wrote under the full keyring.
   */
  lemma OldKeysCanBeRetired(
      s: State, config: Config, steps: seq<Step>, fewer: Keyrings, kind: Kind, id: Uuid, context: Context)
    requires Initial(s) && Ready(Run(s, steps).db, config)
    requires var keys, active := s.keyrings.For(kind), config.Active(kind);
             (active in fewer.For(kind) <==> active in keys) && (active in keys ==> fewer.For(kind)[active] == keys[active])
    ensures var table, intent := Run(s, steps).db.TableOf(kind), Run(s, steps).intent.TableOf(kind);
            && table.Keys == intent.Keys
            && (id in table ==>
                  Open(fewer.For(kind), table[id], context) == Open(s.keyrings.For(kind), intent[id], context))
  {
    hide Run, Open, Ready;
    var end := Run(s, steps);
    var table := end.db.TableOf(kind);
    forall x
      ensures x in table <==> x in end.intent.TableOf(kind)
    {
      RotationIsInvisible(s, steps, kind, x, context);
    }
    if id in table {
      RotationIsInvisible(s, steps, kind, id, context);
      ReadyIffNothingStale(end.db, config);
      assert id !in StaleIds(end.db, config, kind);
      ActiveKeySuffices(s.keyrings.For(kind), fewer.For(kind), config.Active(kind), table[id], context);
    }
  }
}
