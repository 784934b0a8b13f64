/**
  The migration that separates the availability of an installation from the user's
  `enabled` preference: the derivation of its upgrade and the fold-back of its downgrade.
 */
module ReinstallMigration {
  import opened Common

  type InstallationId = nat
  type RepositoryId = nat
  type ExternalId = nat
  type Timestamp = int

  /** The external id under which a revocation covers the whole installation. */
  const WHOLE_INSTALLATION: ExternalId := 0

  datatype Installation = Installation(provider: string, deletedAt: Option<Timestamp>)

  datatype Repository = Repository(installation: InstallationId, externalId: ExternalId, enabled: bool, available: bool)

  datatype Grant = Grant(installation: InstallationId, repository: ExternalId, createdAt: Timestamp)

  type Revocations = map<(InstallationId, ExternalId), Timestamp>

  datatype Db = Db(
    installations: map<InstallationId, Installation>,
    repositories: map<RepositoryId, Repository>,
    revocations: Revocations,
    grants: set<Grant>)

  /** The old schema: neither column exists. */
  predicate IsOld(db: Db) {
    && (forall i | i in db.installations :: db.installations[i].deletedAt.None?)
    && (forall r | r in db.repositories :: db.repositories[r].available)
  }

  // ----- Statements

  /** UPDATE provider_installations … FROM the whole-installation revocation. */
  function MarkDeleted(db: Db): Db {
    db.(installations := map i | i in db.installations ::
          if db.installations[i].provider == "github" && (i, WHOLE_INSTALLATION) in db.revocations
          then db.installations[i].(deletedAt := Some(db.revocations[(i, WHOLE_INSTALLATION)]))
          else db.installations[i])
  }

  predicate FreshGrant(db: Db, installation: InstallationId, repository: ExternalId, revokedAt: Timestamp) {
    exists g | g in db.grants :: g.installation == installation && g.repository == repository && g.createdAt > revokedAt
  }

  predicate Unavailable(db: Db, repository: Repository) {
    && repository.installation in db.installations
    && var installation := db.installations[repository.installation];
    && installation.provider == "github"
    && (|| installation.deletedAt.Some?
        || (var key := (repository.installation, repository.externalId);
            && key in db.revocations
            && !repository.enabled
            && !FreshGrant(db, repository.installation, repository.externalId, db.revocations[key])))
  }

  /** UPDATE repositories SET installation_available = false. */
  function MarkUnavailable(db: Db): Db {
    db.(repositories := map r | r in db.repositories ::
          if Unavailable(db, db.repositories[r]) then db.repositories[r].(available := false) else db.repositories[r])
  }

  function Upgraded(db: Db): Db {
    MarkUnavailable(MarkDeleted(db))
  }

  /** UPDATE repositories SET enabled = enabled AND installation_available, then drop the columns. */
  function Downgraded(db: Db): Db {
    db.(repositories := map r | r in db.repositories ::
          db.repositories[r].(enabled := db.repositories[r].enabled && db.repositories[r].available, available := true),
        installations := map i | i in db.installations :: db.installations[i].(deletedAt := None))
  }

  // ----- Results

  /** The repository belongs to a GitHub installation that was deleted as a whole. */
  predicate Retired(db: Db, repository: Repository) {
    && repository.installation in db.installations
    && db.installations[repository.installation].provider == "github"
    && (repository.installation, WHOLE_INSTALLATION) in db.revocations
  }

  /** Access to the repository was revoked and granted again later. */
  predicate GrantedAgain(db: Db, repository: Repository) {
    && var key := (repository.installation, repository.externalId);
    && key in db.revocations
    && exists g | g in db.grants ::
         && g.installation == repository.installation
         && g.repository == repository.externalId
         && g.createdAt > db.revocations[key]
  }

  /** A GitHub repository that is disabled and whose own revocation no later grant answers. */
  predicate Withdrawn(db: Db, repository: Repository) {
    && repository.installation in db.installations
    && db.installations[repository.installation].provider == "github"
    && (repository.installation, repository.externalId) in db.revocations
    && !repository.enabled
    && !GrantedAgain(db, repository)
  }

  /**
    What the new columns mean, in terms of the old database: an installation is deleted at
    the time of its whole-installation revocation; a repository is unavailable exactly when
    its installation is retired or its own access was withdrawn; nothing else changes.
   */
  ghost predicate Derived(before: Db, after: Db) {
    && after.revocations == before.revocations && after.grants == before.grants
    && after.installations.Keys == before.installations.Keys
    && after.repositories.Keys == before.repositories.Keys
    && (forall i | i in before.installations ::
          after.installations[i] == before.installations[i].(
            deletedAt := if before.installations[i].provider == "github" && (i, WHOLE_INSTALLATION) in before.revocations
                         then Some(before.revocations[(i, WHOLE_INSTALLATION)]) else None))
    && (forall r | r in before.repositories ::
          after.repositories[r] == before.repositories[r].(
            available := !Retired(before, before.repositories[r]) && !Withdrawn(before, before.repositories[r])))
  }

  /**
    The two updates derive the columns, although the second reads what the first wrote: a
    whole-installation revocation retires every repository whatever was granted, and of the
    others only the disabled ones with an unanswered revocation become unavailable.
   */
  lemma UpgradeDerivesAvailability(db: Db)
    requires IsOld(db)
    ensures Derived(db, Upgraded(db))
  {
    var mid := MarkDeleted(db);
    forall r | r in db.repositories
      ensures Unavailable(mid, db.repositories[r])
              <==> Retired(db, db.repositories[r]) || Withdrawn(db, db.repositories[r])
    {
    }
  }

  /** An enabled repository, and one granted again, is unavailable only if its installation is retired. */
  lemma AvailableUnlessRetired(db: Db, r: RepositoryId)
    requires IsOld(db) && r in db.repositories
    requires db.repositories[r].enabled || GrantedAgain(db, db.repositories[r])
    ensures Upgraded(db).repositories[r].available <==> !Retired(db, db.repositories[r])
    ensures Upgraded(db).repositories[r].enabled == db.repositories[r].enabled
  {
    hide Upgraded;
    UpgradeDerivesAvailability(db);
  }

  /**
    Upgrade then downgrade changes nothing but this: every repository of a GitHub
    installation with a whole-installation revocation ends disabled.
   */
  lemma RoundTrip(db: Db)
    requires IsOld(db)
    ensures var back := Downgraded(Upgraded(db));
            back == db.(repositories := map r | r in db.repositories ::
                          db.repositories[r].(enabled := db.repositories[r].enabled && !Retired(db, db.repositories[r])))
  {
    hide Upgraded;
    UpgradeDerivesAvailability(db);
    var back := Downgraded(Upgraded(db));
    forall r | r in db.repositories
      ensures back.repositories[r]
              == db.repositories[r].(enabled := db.repositories[r].enabled && !Retired(db, db.repositories[r]))
    {
      assert Upgraded(db).repositories[r] == db.repositories[r].(
               available := !Retired(db, db.repositories[r]) && !Withdrawn(db, db.repositories[r]));
    }
    assert back.installations == db.installations;
  }

  /** Revocations of selected repositories, and grants, never flip a preference. */
  lemma SelectedRevocationsDoNotMatter(db: Db, other: Db)
    requires IsOld(db) && other == db.(revocations := other.revocations, grants := other.grants)
    requires forall i :: (i, WHOLE_INSTALLATION) in db.revocations <==> (i, WHOLE_INSTALLATION) in other.revocations
    ensures Downgraded(Upgraded(db)).repositories == Downgraded(Upgraded(other)).repositories
  {
    RoundTrip(db);
    RoundTrip(other);
    forall r | r in db.repositories
      ensures Retired(db, db.repositories[r]) <==> Retired(other, other.repositories[r])
    {
    }
  }

  /**
    On every database the downgrade leaves a repository enabled exactly where it was both
    enabled and available, and brings back the old columns.
   */
  lemma DowngradeFoldsBack(db: Db)
    ensures var old' := Downgraded(db);
            && old'.revocations == db.revocations && old'.grants == db.grants
            && old'.installations.Keys == db.installations.Keys && old'.repositories.Keys == db.repositories.Keys
            && (forall i | i in db.installations ::
                  old'.installations[i] == Installation(db.installations[i].provider, None))
            && (forall r | r in db.repositories ::
                  && old'.repositories[r].installation == db.repositories[r].installation
                  && old'.repositories[r].externalId == db.repositories[r].externalId
                  && old'.repositories[r].available
                  && (old'.repositories[r].enabled <==> db.repositories[r].enabled && db.repositories[r].available))
  {
  }

  // ----- The migration in place

  class InstallationTables {
    var db: Db

    method Upgrade()
      requires IsOld(db)
      modifies this
      ensures db == Upgraded(old(db)) && Derived(old(db), db)
    {
      UpgradeDerivesAvailability(db);
      db := MarkDeleted(db);
      db := MarkUnavailable(db);
    }

    method Downgrade()
      modifies this
      ensures db == Downgraded(old(db)) && IsOld(db)
    {
      db := db.(repositories := map r | r in db.repositories ::
                  db.repositories[r].(enabled := db.repositories[r].enabled && db.repositories[r].available));
      db := db.(repositories := map r | r in db.repositories :: db.repositories[r].(available := true));
      db := db.(installations := map i | i in db.installations :: db.installations[i].(deletedAt := None));
    }
  }
}
