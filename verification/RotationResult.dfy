/**
  What an undisturbed operator does to the database, in closed form, and when the
  result is ready for the old keys to be retired.
 */
module RotationResult {
  import opened Common
  import opened Credentials
  import opened RotationPaging

  type Nonces = (Kind, Uuid) -> nat

  /** `binding_generation` is a NOT NULL column of the secrets table. */
  predicate NotNull(db: Db) {
    var secrets := db.TableOf(BitbucketWebhookSecrets);
    forall id | id in secrets :: secrets[id].bindingGeneration.Some?
  }

  /** The row can be opened under its own key and sealed under the active one. */
  predicate CanRotate(db: Db, config: Config, kind: Kind, id: Uuid)
    requires config.Valid()
  {
    && var view := View(db, kind, id);
    && view.Some?
    && Reencrypt(config, kind, view.value, 0).Ok?
  }

  /** The visible characters of a credential, and how many it may have. */
  predicate Writable(s: string, least: nat, most: nat) {
    least <= |s| <= most && forall i | 0 <= i < |s| :: ' ' < s[i] <= '~'
  }

  /** The envelope is sealed under a key of the ring, for this context, around such a credential. */
  predicate SealedFor(s: Stored, keys: map<KeyId, KeyMaterial>, context: Context, least: nat, most: nat) {
    && s.keyId.Some? && s.keyId.value in keys && s.ciphertext.Some?
    && s.ciphertext.value.Sealed?
    && s.ciphertext.value.material == keys[s.keyId.value] && s.ciphertext.value.keyId == s.keyId.value
    && s.ciphertext.value.context == context
    && Writable(s.ciphertext.value.plaintext, least, most)
  }

  /**
    Exactly these rows can be rotated: sealed under a key of the ring for the context of
    their kind, which is the installation and workspace for a token, with the repository
    itself for a webhook secret, and with the canonical origin for GitLab; and the cipher
    must seal under the configured active key.
   */
  lemma CanRotateIff(db: Db, config: Config, kind: Kind, id: Uuid)
    requires config.Valid()
    ensures CanRotate(db, config, kind, id) <==>
      && id in db.TableOf(kind)
      && var s := db.TableOf(kind)[id];
      match kind
      case BitbucketTokens =>
        && SealedFor(s, config.bitbucket.keys, BitbucketContext(id, s.workspace, None, TokenPurpose), 1, 4096)
        && config.bitbucket.activeKeyId == config.bitbucketActive
      case BitbucketWebhookSecrets =>
        && id in db.identities
        && SealedFor(s, config.bitbucket.keys,
                     BitbucketContext(db.identities[id].installation, db.identities[id].workspace, Some(id),
                                      WebhookSecretPurpose), 32, 256)
        && config.bitbucket.activeKeyId == config.bitbucketActive
      case GitLabTokens =>
        && s.origin.Some? && s.origin.value in config.gitlab.canonicalOrigins
        && SealedFor(s, config.gitlab.keys, GitLabContext(id, s.workspace, s.origin.value), 1, 4096)
        && config.gitlab.activeKeyId == config.gitlabActive
  {
  }

  /** The error that is logged: the GitLab cipher has its own, everything else is a plain value error. */
  lemma ErrorClasses(config: Config, kind: Kind, row: Row, nonce: nat)
    requires config.Valid() && Reencrypt(config, kind, row, nonce).Err?
    ensures Reencrypt(config, kind, row, nonce) == Err(CredentialCipherError) <==>
      && kind == GitLabTokens
      && row.origin.Some? && row.origin.value in config.gitlab.canonicalOrigins
      && Decrypt(config.gitlab.keys, row.keyId, row.ciphertext,
                 GitLabContext(row.installation, row.workspace, row.origin.value)).None?
  {
  }

  /** Exactly these rows the paged query may return. */
  lemma SelectableIff(db: Db, config: Config, kind: Kind, id: Uuid)
    ensures Selectable(db, config, kind, id) <==>
      && id in db.TableOf(kind)
      && var s := db.TableOf(kind)[id];
      && s.keyId.Some?
      && match kind
         case BitbucketTokens => s.keyId.value != config.bitbucketActive && s.revokedAt.None?
         case BitbucketWebhookSecrets =>
           s.keyId.value != config.bitbucketActive && s.revokedAt.None? && id in db.identities
         case GitLabTokens => s.keyId.value != config.gitlabActive
  {
  }

  lemma NonceDoesNotDecide(config: Config, kind: Kind, row: Row, nonce: nat)
    requires config.Valid()
    ensures match Reencrypt(config, kind, row, nonce)
            case Ok(_) => Reencrypt(config, kind, row, 0).Ok?
            case Err(e) => Reencrypt(config, kind, row, 0) == Err(e)
  {
  }

  function RotatedRow(db: Db, config: Config, kind: Kind, id: Uuid, nonces: Nonces): Stored
    requires config.Valid() && id in db.TableOf(kind)
  {
    var s := db.TableOf(kind)[id];
    var view := View(db, kind, id);
    if view.None? then s else
    match Reencrypt(config, kind, view.value, nonces(kind, id))
    case Ok(envelope) => s.(ciphertext := Some(envelope), keyId := Some(config.Active(kind)))
    case Err(_) => s
  }

  /** The table with every row of `ids` rotated that can be. */
  function RotatedTable(db: Db, config: Config, kind: Kind, ids: set<Uuid>, nonces: Nonces): Table
    requires config.Valid()
  {
    var table := db.TableOf(kind);
    map id | id in table :: if id in ids then RotatedRow(db, config, kind, id, nonces) else table[id]
  }

  function Rotatable(db: Db, config: Config, kind: Kind, ids: set<Uuid>): set<Uuid>
    requires config.Valid()
  {
    set id | id in ids && CanRotate(db, config, kind, id)
  }

  // ----- One row at a time

  /** A row that nobody touched since it was read passes the compare-and-swap guard. */
  lemma UntouchedMatches(db: Db, config: Config, kind: Kind, id: Uuid, nonce: nat)
    requires config.Valid() && NotNull(db) && Selectable(db, config, kind, id)
    requires Reencrypt(config, kind, View(db, kind, id).value, nonce).Ok?
    ensures Matches(db, kind, View(db, kind, id).value)
  {
  }

  /** The state of one table, and of the identities, after the rows of `ids` were attempted. */
  ghost predicate Attempted(db0: Db, db: Db, config: Config, kind: Kind, ids: set<Uuid>, nonces: Nonces)
    requires config.Valid()
  {
    && db.identities == db0.identities
    && db.TableOf(kind) == RotatedTable(db0, config, kind, ids, nonces)
  }

  lemma AttemptedNothing(db: Db, config: Config, kind: Kind, nonces: Nonces)
    requires config.Valid()
    ensures Attempted(db, db, config, kind, {}, nonces)
  {
  }

  lemma AttemptedElsewhere(db0: Db, db: Db, config: Config, kind: Kind, ids: set<Uuid>, nonces: Nonces, id: Uuid)
    requires config.Valid() && Attempted(db0, db, config, kind, ids, nonces) && id !in ids
    ensures View(db, kind, id) == View(db0, kind, id)
  {
  }

  /** One more attempt on a row that was not attempted before. */
  lemma AttemptOneMore(
      db0: Db, db: Db, config: Config, kind: Kind, ids: set<Uuid>, nonces: Nonces, id: Uuid, db': Db)
    requires config.Valid() && NotNull(db0) && Attempted(db0, db, config, kind, ids, nonces)
    requires id !in ids && Selectable(db0, config, kind, id)
    requires var row := View(db0, kind, id).value;
             match Reencrypt(config, kind, row, nonces(kind, id))
             case Ok(envelope) => db' == Cas(db, config, kind, row, envelope).0
             case Err(_) => db' == db
    ensures Attempted(db0, db', config, kind, ids + {id}, nonces)
    ensures Reencrypt(config, kind, View(db0, kind, id).value, nonces(kind, id)).Ok?
            ==> Matches(db, kind, View(db0, kind, id).value)
    ensures forall other: Kind | other != kind :: db'.TableOf(other) == db.TableOf(other)
  {
    var row := View(db0, kind, id).value;
    var table0, table := db0.TableOf(kind), db.TableOf(kind);
    assert table.Keys == table0.Keys && table[id] == table0[id];
    var outcome := Reencrypt(config, kind, row, nonces(kind, id));
    if outcome.Ok? {
      UntouchedMatches(db0, config, kind, id, nonces(kind, id));
      assert Matches(db, kind, row);
      assert db'.TableOf(kind) == table[id := RotatedRow(db0, config, kind, id, nonces)];
    }
    assert db'.TableOf(kind) == RotatedTable(db0, config, kind, ids + {id}, nonces);
  }

  // ----- What is left under an old key

  lemma StaleRowAfterAttempt(
      db0: Db, db: Db, config: Config, kind: Kind, ids: set<Uuid>, nonces: Nonces, id: Uuid)
    requires config.Valid() && Attempted(db0, db, config, kind, ids, nonces)
    requires id in ids ==> Selectable(db0, config, kind, id)
    ensures id in StaleIds(db, config, kind)
            <==> id in StaleIds(db0, config, kind) && !(id in ids && CanRotate(db0, config, kind, id))
  {
    if id in ids {
      NonceDoesNotDecide(config, kind, View(db0, kind, id).value, nonces(kind, id));
    }
  }

  lemma SelectableIsStale(db: Db, config: Config, kind: Kind, id: Uuid)
    requires Selectable(db, config, kind, id)
    ensures id in StaleIds(db, config, kind)
  {
  }

  /** The stale rows that remain are exactly those not attempted and those that cannot be rotated. */
  lemma StaleAfterAttempt(db0: Db, db: Db, config: Config, kind: Kind, ids: set<Uuid>, nonces: Nonces)
    requires config.Valid() && Attempted(db0, db, config, kind, ids, nonces)
    requires forall id | id in ids :: Selectable(db0, config, kind, id)
    ensures StaleIds(db, config, kind) == StaleIds(db0, config, kind) - Rotatable(db0, config, kind, ids)
    ensures Rotatable(db0, config, kind, ids) <= StaleIds(db0, config, kind)
    ensures |StaleIds(db, config, kind)| + |Rotatable(db0, config, kind, ids)| == |StaleIds(db0, config, kind)|
  {
    hide Attempted, StaleIds, CanRotate, Selectable;
    var renewed := Rotatable(db0, config, kind, ids);
    forall id
      ensures id in StaleIds(db, config, kind) <==> id in StaleIds(db0, config, kind) && id !in renewed
      ensures id in renewed ==> id in StaleIds(db0, config, kind)
    {
      StaleRowAfterAttempt(db0, db, config, kind, ids, nonces, id);
      if id in ids { SelectableIsStale(db0, config, kind, id); }
    }
    assert StaleIds(db, config, kind) == StaleIds(db0, config, kind) - renewed;
    assert StaleIds(db0, config, kind) == StaleIds(db, config, kind) + renewed;
  }

  // ----- A whole run

  /** Every row the pages can ever reach, in the order they reach it. */
  function Queue(db: Db, config: Config, kind: Kind): seq<Uuid> {
    Ascending(Candidates(db, config, kind, NIL_UUID))
  }

  /** The first `budget` rows of the queue: what `budget / batch_size` full batches attempt. */
  function Reached(db: Db, config: Config, kind: Kind, budget: nat): set<Uuid> {
    Elements(Take(Queue(db, config, kind), budget))
  }

  /** Where a run with this budget per table leaves the database. */
  ghost predicate RunResult(db0: Db, db: Db, config: Config, budget: nat, nonces: Nonces)
    requires config.Valid()
  {
    forall kind: Kind :: Attempted(db0, db, config, kind, Reached(db0, config, kind, budget), nonces)
  }

  /** Rows reached but not rotated: what an undisturbed run counts as failures. */
  function Failed(db: Db, config: Config, kind: Kind, budget: nat): set<Uuid>
    requires config.Valid()
  {
    var reached := Reached(db, config, kind, budget);
    reached - Rotatable(db, config, kind, reached)
  }

  lemma ReachedAreSelectable(db: Db, config: Config, kind: Kind, budget: nat)
    ensures forall id | id in Reached(db, config, kind, budget) ::
              Selectable(db, config, kind, id) && id in StaleIds(db, config, kind) && id != NIL_UUID
    ensures Reached(db, config, kind, budget) <= Candidates(db, config, kind, NIL_UUID)
    ensures |Reached(db, config, kind, budget)| == Min(budget, |Queue(db, config, kind)|)
  {
    var queue := Queue(db, config, kind);
    var page := Take(queue, budget);
    assert forall id | id in page :: id in Elements(queue);
    DistinctElements(page);
  }

  lemma {:induction false} DistinctElements(ids: seq<Uuid>)
    requires StrictlyAscending(ids)
    ensures |Elements(ids)| == |ids|
  {
    if ids == [] {
      assert Elements(ids) == {};
    } else {
      var front, last := ids[..|ids| - 1], ids[|ids| - 1];
      DistinctElements(front);
      assert Elements(ids) == Elements(front) + {last};
      assert last !in Elements(front);
    }
  }

  /** The whole queue is reached exactly when the budget covers it. */
  lemma BudgetCoversQueue(db: Db, config: Config, kind: Kind, budget: nat)
    ensures Reached(db, config, kind, budget) == Candidates(db, config, kind, NIL_UUID)
            <==> |Candidates(db, config, kind, NIL_UUID)| <= budget
  {
    ReachedAreSelectable(db, config, kind, budget);
  }

  /** A counted stale row that the pages can reach and the ciphers can renew. */
  predicate Migratable(db: Db, config: Config, kind: Kind, id: Uuid)
    requires config.Valid()
  {
    id != NIL_UUID && Selectable(db, config, kind, id) && CanRotate(db, config, kind, id)
  }

  /** Everything counted under an old key can be migrated. */
  ghost predicate AllMigratable(db: Db, config: Config, kind: Kind)
    requires config.Valid()
  {
    forall id | id in StaleIds(db, config, kind) :: Migratable(db, config, kind, id)
  }

  lemma NothingLeftIff(
      stale: set<Uuid>, candidates: set<Uuid>, reached: set<Uuid>, renewable: set<Uuid>, budget: nat)
    requires reached <= candidates <= stale && renewable <= candidates
    requires reached == candidates <==> |candidates| <= budget
    ensures stale - (reached * renewable) == {} <==> |stale| <= budget && stale == renewable
  {
    if stale - (reached * renewable) == {} {
      assert forall x | x in stale :: x !in stale - (reached * renewable);
      assert stale == reached * renewable;
      assert stale == reached == renewable == candidates;
    }
    if stale == renewable {
      assert stale == candidates;
    }
  }

  lemma CandidatesAreStale(db: Db, config: Config, kind: Kind, after: Uuid)
    ensures Candidates(db, config, kind, after) <= StaleIds(db, config, kind)
  {
  }

  lemma AllMigratableIff(db: Db, config: Config, kind: Kind)
    requires config.Valid()
    ensures AllMigratable(db, config, kind)
            <==> StaleIds(db, config, kind) == Rotatable(db, config, kind, Candidates(db, config, kind, NIL_UUID))
  {
  }

  lemma StaleAfterRun(db0: Db, db: Db, config: Config, kind: Kind, budget: nat, nonces: Nonces)
    requires config.Valid() && Attempted(db0, db, config, kind, Reached(db0, config, kind, budget), nonces)
    ensures Reached(db0, config, kind, budget) <= Candidates(db0, config, kind, NIL_UUID)
    ensures StaleIds(db, config, kind) ==
            StaleIds(db0, config, kind)
            - (Reached(db0, config, kind, budget) * Rotatable(db0, config, kind, Candidates(db0, config, kind, NIL_UUID)))
  {
    hide Reached, Attempted, StaleIds, CanRotate, Selectable, View;
    var reached := Reached(db0, config, kind, budget);
    ReachedAreSelectable(db0, config, kind, budget);
    StaleAfterAttempt(db0, db, config, kind, reached, nonces);
    assert Rotatable(db0, config, kind, reached)
        == reached * Rotatable(db0, config, kind, Candidates(db0, config, kind, NIL_UUID));
  }

  lemma TableReadyIff(db0: Db, db: Db, config: Config, kind: Kind, budget: nat, nonces: Nonces)
    requires config.Valid() && Attempted(db0, db, config, kind, Reached(db0, config, kind, budget), nonces)
    ensures StaleIds(db, config, kind) == {} <==>
            |StaleIds(db0, config, kind)| <= budget && AllMigratable(db0, config, kind)
  {
    var reached, stale := Reached(db0, config, kind, budget), StaleIds(db0, config, kind);
    var candidates := Candidates(db0, config, kind, NIL_UUID);
    StaleAfterRun(db0, db, config, kind, budget, nonces);
    CandidatesAreStale(db0, config, kind, NIL_UUID);
    BudgetCoversQueue(db0, config, kind, budget);
    NothingLeftIff(stale, candidates, reached, Rotatable(db0, config, kind, candidates), budget);
    AllMigratableIff(db0, config, kind);
  }

  /**
    Readiness, decided on the database before the run: an undisturbed run ends ready if
    and only if, in every table, the stale rows fit in the budget and each of them has a
    proper id, passes the filters of the paged query and can be opened and resealed.
   */
  lemma ReadyIff(db0: Db, db: Db, config: Config, budget: nat, nonces: Nonces)
    requires config.Valid() && RunResult(db0, db, config, budget, nonces)
    ensures Ready(db, config) <==>
            forall kind: Kind :: |StaleIds(db0, config, kind)| <= budget && AllMigratable(db0, config, kind)
  {
    ReadyIffNothingStale(db, config);
    forall kind: Kind
      ensures StaleIds(db, config, kind) == {} <==>
              |StaleIds(db0, config, kind)| <= budget && AllMigratable(db0, config, kind)
    {
      assert Attempted(db0, db, config, kind, Reached(db0, config, kind, budget), nonces);
      TableReadyIff(db0, db, config, kind, budget, nonces);
    }
  }

  /** Under the table constraints every counted stale row passes the filters of the paged query. */
  lemma ConstrainedStaleIsSelectable(db: Db, config: Config, kind: Kind, id: Uuid)
    requires Constrained(db) && id in StaleIds(db, config, kind)
    ensures Selectable(db, config, kind, id)
  {
  }

  /**
    On a database that satisfies its constraints and holds no nil id, a run whose budget
    covers every table is ready exactly when it counted no failure.
   */
  lemma ReadyIffNoFailure(db0: Db, db: Db, config: Config, budget: nat, nonces: Nonces)
    requires config.Valid() && Constrained(db0) && RunResult(db0, db, config, budget, nonces)
    requires forall kind: Kind ::
               NIL_UUID !in StaleIds(db0, config, kind) && |StaleIds(db0, config, kind)| <= budget
    ensures Ready(db, config) <==> forall kind: Kind :: Failed(db0, config, kind, budget) == {}
  {
    ReadyIff(db0, db, config, budget, nonces);
    forall kind: Kind
      ensures Failed(db0, config, kind, budget) == {} <==> AllMigratable(db0, config, kind)
    {
      FailuresAreUnmigratable(db0, config, kind, budget);
    }
  }

  /**
    The promise of the runbook, with no condition on the database or the budget: an
    undisturbed run that failed on a row is not ready.
   */
  lemma FailureIsNeverReady(db0: Db, db: Db, config: Config, budget: nat, nonces: Nonces, kind: Kind)
    requires config.Valid() && RunResult(db0, db, config, budget, nonces)
    requires Failed(db0, config, kind, budget) != {}
    ensures !Ready(db, config)
  {
    hide RunResult, Ready, Reached;
    ReadyIff(db0, db, config, budget, nonces);
    var id :| id in Failed(db0, config, kind, budget);
    ReachedAreSelectable(db0, config, kind, budget);
    assert !Migratable(db0, config, kind, id);
  }

  lemma ConstrainedCandidates(db: Db, config: Config, kind: Kind)
    requires Constrained(db) && NIL_UUID !in StaleIds(db, config, kind)
    ensures Candidates(db, config, kind, NIL_UUID) == StaleIds(db, config, kind)
  {
  }

  lemma FailuresAreUnmigratable(db: Db, config: Config, kind: Kind, budget: nat)
    requires config.Valid() && Constrained(db)
    requires NIL_UUID !in StaleIds(db, config, kind) && |StaleIds(db, config, kind)| <= budget
    ensures Failed(db, config, kind, budget) == {} <==> AllMigratable(db, config, kind)
  {
    hide Reached, StaleIds, CanRotate, Candidates, AllMigratable, Constrained;
    var stale := StaleIds(db, config, kind);
    ConstrainedCandidates(db, config, kind);
    BudgetCoversQueue(db, config, kind, budget);
    AllMigratableIff(db, config, kind);
    var renewed := Rotatable(db, config, kind, stale);
    assert Failed(db, config, kind, budget) == stale - renewed;
    assert renewed <= stale;
    if stale - renewed == {} {
      assert forall id | id in stale :: id !in stale - renewed;
    }
  }

  /** A second run on a ready database selects nothing and changes nothing. */
  lemma SecondRunIsIdle(db: Db, db': Db, config: Config, budget: nat, nonces: Nonces)
    requires config.Valid() && Ready(db, config) && RunResult(db, db', config, budget, nonces)
    ensures db' == db
    ensures forall kind: Kind :: Reached(db, config, kind, budget) == {}
  {
    ReadyIffNothingStale(db, config);
    forall kind: Kind
      ensures Reached(db, config, kind, budget) == {} && db'.TableOf(kind) == db.TableOf(kind)
    {
      assert Attempted(db, db', config, kind, Reached(db, config, kind, budget), nonces);
      ReachedAreSelectable(db, config, kind, budget);
      assert Reached(db, config, kind, budget) == {};
      AttemptedNothing(db, config, kind, nonces);
    }
    assert db'.TableOf(BitbucketTokens) == db.TableOf(BitbucketTokens);
    assert db'.TableOf(BitbucketWebhookSecrets) == db.TableOf(BitbucketWebhookSecrets);
    assert db'.TableOf(GitLabTokens) == db.TableOf(GitLabTokens);
  }

  lemma RotatedRowIsConstrained(db: Db, config: Config, kind: Kind, id: Uuid, nonces: Nonces)
    requires config.Valid() && Constrained(db) && id in db.TableOf(kind)
    ensures ConstrainedRow(kind, RotatedRow(db, config, kind, id, nonces))
  {
  }

  /** The constraints survive a run. */
  lemma RunKeepsConstraints(db0: Db, db: Db, config: Config, budget: nat, nonces: Nonces)
    requires config.Valid() && Constrained(db0) && RunResult(db0, db, config, budget, nonces)
    ensures Constrained(db)
  {
    hide Reached, RotatedRow, ConstrainedRow;
    forall kind: Kind
      ensures db.TableOf(kind) == RotatedTable(db0, config, kind, Reached(db0, config, kind, budget), nonces)
      ensures db.identities == db0.identities
    {
      assert Attempted(db0, db, config, kind, Reached(db0, config, kind, budget), nonces);
    }
    forall kind: Kind, id | id in db.TableOf(kind)
      ensures ConstrainedRow(kind, db.TableOf(kind)[id])
    {
      RotatedRowIsConstrained(db0, config, kind, id, nonces);
    }
  }

  /** Without the revocation constraint a revoked Bitbucket row keeps every run from being ready. */
  lemma RevokedWithKeyIsNeverReady(db0: Db, db: Db, config: Config, budget: nat, nonces: Nonces, kind: Kind, id: Uuid)
    requires config.Valid() && RunResult(db0, db, config, budget, nonces)
    requires kind != GitLabTokens && id in StaleIds(db0, config, kind)
    requires db0.TableOf(kind)[id].revokedAt.Some?
    ensures !Ready(db, config)
  {
    ReadyIff(db0, db, config, budget, nonces);
    assert !Migratable(db0, config, kind, id);
  }
}
