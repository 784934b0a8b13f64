/**
  Rows that cannot be resealed: they keep the verification from succeeding, in every
  interleaving, until another writer repairs them.
 */
module RotationRepair {
  import opened Common
  import opened Credentials
  import opened RotationPaging
  import opened RotationProtocol

  /** A foreign statement that may change the row, or the identity a secret is read with. */
  predicate Touches(step: Step, kind: Kind, id: Uuid) {
    match step
    case Put(k, i, _) => k == kind && i == id
    case Patch(k, i, _) => k == kind && i == id
    case Delete(k, i) => k == kind && i == id
    case Rebind(_) => kind == BitbucketWebhookSecrets
    case _ => false
  }

  /** No operator can reseal the row as it stands. */
  ghost predicate Stuck(keyrings: Keyrings, db: Db, kind: Kind, id: Uuid) {
    && id in db.TableOf(kind) && db.TableOf(kind)[id].keyId.Some?
    && (View(db, kind, id).Some? ==>
          forall config: Config, nonce: nat | keyrings.Deployed(config) ::
            Reencrypt(config, kind, View(db, kind, id).value, nonce).Err?)
  }

  /** A row that passes the guard of the compare-and-swap is read again exactly as it was read. */
  lemma MatchIsCurrent(db: Db, config: Config, kind: Kind, row: Row, nonce: nat)
    requires config.Valid() && Matches(db, kind, row) && AsRead(kind, row)
    ensures View(db, kind, row.id).Some?
    ensures Reencrypt(config, kind, View(db, kind, row.id).value, nonce) == Reencrypt(config, kind, row, nonce)
  {
  }

  lemma StuckIsNotSwapped(s: State, op: nat, kind: Kind, id: Uuid)
    requires Inv(s) && Stuck(s.keyrings, s.db, kind, id)
    ensures var s' := Next(s, Swap(op));
            s'.db.identities == s.db.identities
            && id in s'.db.TableOf(kind) && s'.db.TableOf(kind)[id] == s.db.TableOf(kind)[id]
  {
    hide AfterFetch, Reencrypt, Matches, Cas, AscendsTo, SameTable;
    if op in s.operators && s.operators[op].jobs != [] && s.operators[op].jobs[0].Resealed? {
      var o := s.operators[op];
      var job := o.jobs[0];
      assert GoodOperator(s.keyrings, o) && GoodJob(o.config, job);
      CasReseals(s.db, o.config, job, kind);
      if job.kind == kind && job.row.id == id && Cas(s.db, o.config, job.kind, job.row, job.envelope).1 {
        SwappedMatches(s.db, o.config, job);
        var nonce: nat :| Reencrypt(o.config, job.kind, job.row, nonce) == Ok(job.envelope);
        MatchIsCurrent(s.db, o.config, kind, job.row, nonce);
        assert false;
      }
    }
  }

  lemma SwappedMatches(db: Db, config: Config, job: Job)
    requires job.Resealed?
    ensures Cas(db, config, job.kind, job.row, job.envelope).1 <==> Matches(db, job.kind, job.row)
  {
  }

  /** A row's view depends on its own stored row and, for a secret, on its identity. */
  lemma ViewIsLocal(db: Db, db': Db, kind: Kind, id: Uuid)
    requires id in db.TableOf(kind) && id in db'.TableOf(kind) && db.TableOf(kind)[id] == db'.TableOf(kind)[id]
    requires kind == BitbucketWebhookSecrets ==> db.identities == db'.identities
    ensures View(db, kind, id) == View(db', kind, id)
  {
  }

  lemma StuckSurvivesStep(s: State, step: Step, kind: Kind, id: Uuid)
    requires Inv(s) && Stuck(s.keyrings, s.db, kind, id) && !Touches(step, kind, id)
    ensures var s' := Next(s, step);
            && id in s'.db.TableOf(kind) && s'.db.TableOf(kind)[id] == s.db.TableOf(kind)[id]
            && Stuck(s.keyrings, s'.db, kind, id)
  {
    hide AfterFetch, Reencrypt, Matches, Cas, Inv, View;
    if step.Swap? {
      StuckIsNotSwapped(s, step.op, kind, id);
    }
    ViewIsLocal(s.db, Next(s, step).db, kind, id);
  }

  /**
    A row that cannot be resealed as it stands stays exactly as it is, and the verification
    fails, until another writer touches it: no operator with any of the deployed keyrings
    changes it, whatever happens to the other rows.
   */
  lemma {:induction false} StuckStaysStale(s: State, config: Config, steps: seq<Step>, kind: Kind, id: Uuid)
    requires Inv(s) && Stuck(s.keyrings, s.db, kind, id) && id in StaleIds(s.db, config, kind)
    requires forall i | 0 <= i < |steps| :: !Touches(steps[i], kind, id)
    ensures var end := Run(s, steps);
            && id in end.db.TableOf(kind) && end.db.TableOf(kind)[id] == s.db.TableOf(kind)[id]
            && Stuck(s.keyrings, end.db, kind, id) && !Ready(end.db, config)
  {
    hide Next, Inv, Stuck, Ready;
    if steps != [] {
      var front := steps[..|steps| - 1];
      StuckStaysStale(s, config, front, kind, id);
      RunKeepsInv(s, front);
      StuckSurvivesStep(Run(s, front), steps[|steps| - 1], kind, id);
    }
    assert id in StaleIds(Run(s, steps).db, config, kind);
    ReadyIffNothingStale(Run(s, steps).db, config);
  }

  /** A corrupt envelope opens in no context at all. */
  ghost predicate Corrupt(keys: map<KeyId, KeyMaterial>, s: Stored) {
    s.keyId.Some? && forall context: Context :: Open(keys, s, context).None?
  }

  /** Bytes that no cipher produced, and a key that no keyring has, are corrupt. */
  lemma UnreadableIsCorrupt(keys: map<KeyId, KeyMaterial>, s: Stored)
    requires s.keyId.Some? && (s.keyId.value !in keys || (s.ciphertext.Some? && s.ciphertext.value.Garbage?))
    ensures Corrupt(keys, s)
  {
  }

  lemma CorruptIsStuck(keyrings: Keyrings, db: Db, kind: Kind, id: Uuid)
    requires id in db.TableOf(kind) && Corrupt(keyrings.For(kind), db.TableOf(kind)[id])
    ensures Stuck(keyrings, db, kind, id)
  {
    if View(db, kind, id).Some? {
      var row, s := View(db, kind, id).value, db.TableOf(kind)[id];
      forall config: Config, nonce: nat | keyrings.Deployed(config)
        ensures Reencrypt(config, kind, row, nonce).Err?
      {
        var context := ContextOf(config, kind, row);
        if context.Some? {
          assert Open(keyrings.For(kind), s, context.value).None?;
        }
      }
    }
  }

  /** For a corrupt envelope only a replacement or a deletion helps: no patch or rebinding does. */
  lemma {:induction false} CorruptStaysUntilReplaced(s: State, steps: seq<Step>, kind: Kind, id: Uuid)
    requires Inv(s) && id in s.db.TableOf(kind) && Corrupt(s.keyrings.For(kind), s.db.TableOf(kind)[id])
    requires forall i | 0 <= i < |steps| && (steps[i].Put? || steps[i].Delete?) ::
               steps[i].kind != kind || steps[i].id != id
    ensures var before, after := s.db.TableOf(kind), Run(s, steps).db.TableOf(kind);
            && id in after && after[id].keyId == before[id].keyId && after[id].ciphertext == before[id].ciphertext
            && Corrupt(s.keyrings.For(kind), after[id])
  {
    hide Next, Inv, Open;
    if steps != [] {
      var front, last := steps[..|steps| - 1], steps[|steps| - 1];
      CorruptStaysUntilReplaced(s, front, kind, id);
      RunKeepsInv(s, front);
      var mid := Run(s, front);
      CorruptIsStuck(s.keyrings, mid.db, kind, id);
      if Touches(last, kind, id) {
        TouchKeepsCredential(mid, last, kind, id);
      } else {
        StuckSurvivesStep(mid, last, kind, id);
      }
      CorruptIsTheEnvelope(s.keyrings.For(kind), mid.db.TableOf(kind)[id], Next(mid, last).db.TableOf(kind)[id]);
    }
  }

  lemma CorruptIsTheEnvelope(keys: map<KeyId, KeyMaterial>, a: Stored, b: Stored)
    requires Corrupt(keys, a) && a.keyId == b.keyId && a.ciphertext == b.ciphertext
    ensures Corrupt(keys, b)
  {
    forall context: Context
      ensures Open(keys, b, context) == Open(keys, a, context)
    {
    }
  }

  lemma TouchKeepsCredential(s: State, step: Step, kind: Kind, id: Uuid)
    requires (step.Patch? || step.Rebind?) && id in s.db.TableOf(kind)
    ensures var before, after := s.db.TableOf(kind), Next(s, step).db.TableOf(kind);
            id in after && after[id].keyId == before[id].keyId && after[id].ciphertext == before[id].ciphertext
  {
  }

  // ----- A repaired run

  /** The state after each of `steps`. */
  ghost predicate Path(s: State, steps: seq<Step>, states: seq<State>) {
    && |states| == |steps| + 1 && states[0] == s
    && forall i | 0 <= i < |steps| :: Next(states[i], steps[i]) == states[i + 1]
  }

  lemma {:induction false} PathIsRun(s: State, steps: seq<Step>, states: seq<State>)
    requires Path(s, steps, states)
    ensures Run(s, steps) == states[|steps|]
  {
    hide Next;
    if steps != [] {
      var n := |steps| - 1;
      PathIsRun(s, steps[..n], states[..n + 1]);
    }
  }

  /** The one row counted under an old key can be selected and not resealed. */
  ghost predicate OneStuckRow(s: State, config: Config, kind: Kind, id: Uuid) {
    && s.keyrings.Deployed(config) && id > NIL_UUID
    && Selectable(s.db, config, kind, id) && Stuck(s.keyrings, s.db, kind, id)
    && forall k: Kind :: StaleIds(s.db, config, k) == if k == kind then {id} else {}
  }

  function Idle(config: Config): Operator {
    Operator(config, START, [], UNVISITED, 0, 0)
  }

  /** An operator that has read the one row, and another that is through with it. */
  function Reader(config: Config, kind: Kind, id: Uuid, jobs: seq<Job>, failures: nat): Operator {
    Operator(config, START.Set(kind, id), jobs, UNVISITED.Set(kind, [id]), 0, failures)
  }

  function With(s: State, o: Operator): State {
    s.(operators := map[0 := o])
  }

  lemma OneRowPage(s: State, config: Config, kind: Kind, id: Uuid)
    requires OneStuckRow(s, config, kind, id)
    ensures PageIds(s.db, config, kind, NIL_UUID, 1) == [id]
    ensures View(s.db, kind, id).Some?
    ensures Page(s.db, config, kind, NIL_UUID, 1) == [View(s.db, kind, id).value]
  {
    var db := s.db;
    forall x
      ensures x in Candidates(db, config, kind, NIL_UUID) <==> x == id
    {
      assert x in Candidates(db, config, kind, NIL_UUID) ==> x in StaleIds(db, config, kind);
    }
    assert Candidates(db, config, kind, NIL_UUID) == {id};
    hide Candidates, PageIds, Selectable, Stuck;
    assert [id][0..] == [id] && Elements([id]) == {id};
    PageIsNextSlice(db, config, kind, [id], 0, NIL_UUID, 1);
  }

  lemma Begins(s: State, config: Config)
    requires Initial(s) && s.keyrings.Deployed(config)
    ensures Next(s, Begin(0, config)) == With(s, Idle(config))
  {
  }

  lemma ReaderAfterFetch(config: Config, db: Db, kind: Kind, id: Uuid, row: Row)
    requires PageIds(db, config, kind, NIL_UUID, 1) == [id] && Page(db, config, kind, NIL_UUID, 1) == [row]
    ensures AfterFetch(Idle(config), db, kind, 1) == Reader(config, kind, id, [Fetched(kind, row)], 0)
  {
    hide PageIds, Page;
    assert FetchJobs(kind, [row]) == [Fetched(kind, row)];
    assert UNVISITED.Get(kind) + [id] == [id];
    assert START.Get(kind) == NIL_UUID;
  }

  lemma Fetches(s: State, config: Config, kind: Kind, id: Uuid, row: Row)
    requires PageIds(s.db, config, kind, NIL_UUID, 1) == [id] && Page(s.db, config, kind, NIL_UUID, 1) == [row]
    ensures Next(With(s, Idle(config)), Fetch(0, kind, 1)) == With(s, Reader(config, kind, id, [Fetched(kind, row)], 0))
  {
    hide PageIds, Page, Foreign, Reencrypt, Cas, AfterFetch, Reader;
    ReaderAfterFetch(config, s.db, kind, id, row);
  }

  lemma FailsToReseal(s: State, config: Config, kind: Kind, id: Uuid, job: Job)
    requires s.keyrings.Deployed(config) && job.Fetched? && Reencrypt(config, job.kind, job.row, 0).Err?
    ensures Next(With(s, Reader(config, kind, id, [job], 0)), Reseal(0, 0)) == With(s, Reader(config, kind, id, [], 1))
  {
    hide Foreign, Reencrypt, Cas, AfterFetch;
    assert [job][1..] == [];
  }

  lemma RepairIsReady(s: State, config: Config, kind: Kind, id: Uuid, row: Stored)
    requires OneStuckRow(s, config, kind, id) && row.keyId == Some(config.Active(kind))
    ensures !Ready(s.db, config) && Ready(Foreign(s.db, Put(kind, id, row)), config)
  {
    hide Ready;
    var db := Foreign(s.db, Put(kind, id, row));
    ReadyIffNothingStale(s.db, config);
    ReadyIffNothingStale(db, config);
    assert id in StaleIds(s.db, config, kind);
    forall k: Kind, x
      ensures x !in StaleIds(db, config, k)
    {
      WithTable(s.db, kind, s.db.TableOf(kind)[id := row], k);
      assert x in StaleIds(s.db, config, k) ==> k == kind && x == id;
    }
  }

  /**
    So a failed row and a verified database do go together once a writer steps in: from
    every database whose one stale row cannot be resealed, the operator counts a failure,
    the credential is replaced, and the counts are ready.
   */
  lemma RepairedRunIsReady(s: State, config: Config, kind: Kind, id: Uuid, row: Stored)
    requires Initial(s) && OneStuckRow(s, config, kind, id) && row.keyId == Some(config.Active(kind))
    ensures !Ready(s.db, config)
    ensures var end := Run(s, [Begin(0, config), Fetch(0, kind, 1), Reseal(0, 0), Put(kind, id, row)]);
            0 in end.operators && end.operators[0].failureCount == 1 && Ready(end.db, config)
  {
    hide Next, Run, Ready, Foreign, OneStuckRow, Stuck, PageIds, Page, View, Reencrypt;
    RepairIsReady(s, config, kind, id, row);
    OneRowPage(s, config, kind, id);
    var job := Fetched(kind, View(s.db, kind, id).value);
    StuckFails(s, config, kind, id);
    Begins(s, config);
    Fetches(s, config, kind, id, job.row);
    FailsToReseal(s, config, kind, id, job);
    var s3 := With(s, Reader(config, kind, id, [], 1));
    var s4 := s3.(db := Foreign(s.db, Put(kind, id, row)), intent := Foreign(s.intent, Put(kind, id, row)));
    Replaces(s3, kind, id, row);
    PathIsRun(s, [Begin(0, config), Fetch(0, kind, 1), Reseal(0, 0), Put(kind, id, row)],
              [s, With(s, Idle(config)), With(s, Reader(config, kind, id, [job], 0)), s3, s4]);
  }

  lemma StuckFails(s: State, config: Config, kind: Kind, id: Uuid)
    requires OneStuckRow(s, config, kind, id)
    ensures s.keyrings.Deployed(config) && View(s.db, kind, id).Some?
    ensures Reencrypt(config, kind, View(s.db, kind, id).value, 0).Err?
  {
    hide Reencrypt;
  }

  lemma Replaces(s: State, kind: Kind, id: Uuid, row: Stored)
    ensures Next(s, Put(kind, id, row))
         == s.(db := Foreign(s.db, Put(kind, id, row)), intent := Foreign(s.intent, Put(kind, id, row)))
  {
    hide Foreign;
  }
}
