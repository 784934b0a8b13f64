/**
  Stored provider credentials: the three tables that hold encrypted envelopes, the
  ciphers that open and seal them, and the statements of the key rotation operator
  (select a page, compare-and-swap one row, count rows by key).

  An envelope is ideal: it remembers the key material, the authenticated key id and
  context, the plaintext and the nonce, and opens only when all of them agree.
 */
module Credentials {
  import opened Common

  /** UUIDs compare as 128-bit unsigned integers in Python and in PostgreSQL. */
  type Uuid = nat
  type KeyId = string
  type KeyMaterial = nat
  type Timestamp = int

  const NIL_UUID: Uuid := 0

  datatype Kind = BitbucketTokens | BitbucketWebhookSecrets | GitLabTokens

  const KINDS: seq<Kind> := [BitbucketTokens, BitbucketWebhookSecrets, GitLabTokens]

  /** One value for each kind. */
  datatype PerKind<T> = PerKind(bitbucketTokens: T, webhookSecrets: T, gitlabTokens: T)
  {
    function Get(kind: Kind): T {
      match kind
      case BitbucketTokens => bitbucketTokens
      case BitbucketWebhookSecrets => webhookSecrets
      case GitLabTokens => gitlabTokens
    }

    function Set(kind: Kind, value: T): (r: PerKind<T>)
      ensures forall other: Kind :: r.Get(other) == if other == kind then value else Get(other)
    {
      match kind
      case BitbucketTokens => this.(bitbucketTokens := value)
      case BitbucketWebhookSecrets => this.(webhookSecrets := value)
      case GitLabTokens => this.(gitlabTokens := value)
    }
  }

  datatype Purpose = TokenPurpose | WebhookSecretPurpose

  /** The authenticated data an envelope is bound to. */
  datatype Context =
    | GitLabContext(installation: Uuid, workspace: Uuid, origin: string)
    | BitbucketContext(installation: Uuid, workspace: Uuid, repository: Option<Uuid>, purpose: Purpose)

  datatype Envelope =
    | Sealed(material: KeyMaterial, keyId: KeyId, context: Context, plaintext: string, nonce: nat)
    | Garbage(bytes: nat)

  /** A keyring with its active key, and the origins the GitLab context accepts as canonical. */
  datatype Cipher = Cipher(activeKeyId: KeyId, keys: map<KeyId, KeyMaterial>, canonicalOrigins: set<string>)

  /** What one operator process was configured with. */
  datatype Config = Config(bitbucket: Cipher, gitlab: Cipher, bitbucketActive: KeyId, gitlabActive: KeyId)
  {
    function CipherFor(kind: Kind): Cipher {
      if kind == GitLabTokens then gitlab else bitbucket
    }

    function Active(kind: Kind): KeyId {
      if kind == GitLabTokens then gitlabActive else bitbucketActive
    }

    /** Both cipher constructors refuse an active key id that is not in the keyring. */
    predicate Valid() {
      bitbucket.activeKeyId in bitbucket.keys && gitlab.activeKeyId in gitlab.keys
    }
  }

  /**
    A row of any of the three tables. `workspace` belongs to the token tables; the
    secrets table takes it from `Db.identities`. `origin` is GitLab's alone and
    `bindingGeneration` the secrets' alone.
   */
  datatype Stored = Stored(
    workspace: Uuid,
    origin: Option<string>,
    generation: int,
    bindingGeneration: Option<int>,
    keyId: Option<KeyId>,
    ciphertext: Option<Envelope>,
    revokedAt: Option<Timestamp>)

  datatype Identity = Identity(installation: Uuid, workspace: Uuid)

  type Table = map<Uuid, Stored>

  datatype Db = Db(tables: PerKind<Table>, identities: map<Uuid, Identity>)
  {
    function TableOf(kind: Kind): Table {
      tables.Get(kind)
    }

    function With(kind: Kind, table: Table): Db {
      this.(tables := tables.Set(kind, table))
    }
  }

  /** One row as the operator read it. */
  datatype Row = Row(
    id: Uuid,
    installation: Uuid,
    workspace: Uuid,
    origin: Option<string>,
    generation: int,
    bindingGeneration: Option<int>,
    keyId: KeyId,
    ciphertext: Option<Envelope>,
    revokedAt: Option<Timestamp>)

  // ----- Ciphers

  predicate Printable(s: string) {
    forall i | 0 <= i < |s| :: 33 <= s[i] as int <= 126
  }

  predicate ValidPlaintext(context: Context, s: string) {
    && Printable(s)
    && if context.BitbucketContext? && context.purpose == WebhookSecretPurpose
       then 32 <= |s| <= 256
       else 1 <= |s| <= 4096
  }

  function Decrypt(keys: map<KeyId, KeyMaterial>, keyId: KeyId, ciphertext: Option<Envelope>, context: Context)
    : Option<string>
  {
    if && keyId in keys
       && ciphertext.Some?
       && ciphertext.value.Sealed?
       && ciphertext.value.material == keys[keyId]
       && ciphertext.value.keyId == keyId
       && ciphertext.value.context == context
       && ValidPlaintext(context, ciphertext.value.plaintext)
    then Some(ciphertext.value.plaintext)
    else None
  }

  function Encrypt(cipher: Cipher, plaintext: string, context: Context, nonce: nat): Option<Envelope>
    requires cipher.activeKeyId in cipher.keys
  {
    if ValidPlaintext(context, plaintext)
    then Some(Sealed(cipher.keys[cipher.activeKeyId], cipher.activeKeyId, context, plaintext, nonce))
    else None
  }

  // ----- The operator's work on one row

  datatype ErrorClass = ValueError | CredentialCipherError

  function ContextOf(config: Config, kind: Kind, row: Row): Option<Context> {
    match kind
    case GitLabTokens =>
      if row.origin.Some? && row.origin.value in config.gitlab.canonicalOrigins
      then Some(GitLabContext(row.installation, row.workspace, row.origin.value))
      else None
    case BitbucketWebhookSecrets =>
      Some(BitbucketContext(row.installation, row.workspace, Some(row.id), WebhookSecretPurpose))
    case BitbucketTokens =>
      Some(BitbucketContext(row.installation, row.workspace, None, TokenPurpose))
  }

  /** Decrypt a row under its own key and seal it again under the active one. */
  function Reencrypt(config: Config, kind: Kind, row: Row, nonce: nat): Result<Envelope, ErrorClass>
    requires config.Valid()
  {
    var cipher := config.CipherFor(kind);
    var refused := if kind == GitLabTokens then CredentialCipherError else ValueError;
    var context := ContextOf(config, kind, row);
    if context.None? then Err(ValueError) else
    var plaintext := Decrypt(cipher.keys, row.keyId, row.ciphertext, context.value);
    if plaintext.None? then Err(refused) else
    var envelope := Encrypt(cipher, plaintext.value, context.value, nonce);
    if envelope.None? then Err(refused)
    else if cipher.activeKeyId != config.Active(kind) then Err(ValueError)
    else Ok(envelope.value)
  }

  // ----- Statements

  /** The row a statement sees for `id`; the secrets table is joined with the identities. */
  function View(db: Db, kind: Kind, id: Uuid): (view: Option<Row>)
    ensures view.Some? ==> view.value.id == id
  {
    var table := db.TableOf(kind);
    if id !in table || table[id].keyId.None? then None else
    var s := table[id];
    if kind == BitbucketWebhookSecrets then
      if id !in db.identities then None else
      Some(Row(id, db.identities[id].installation, db.identities[id].workspace, None, s.generation,
               s.bindingGeneration, s.keyId.value, s.ciphertext, s.revokedAt))
    else if kind == BitbucketTokens then
      Some(Row(id, id, s.workspace, None, s.generation, None, s.keyId.value, s.ciphertext, s.revokedAt))
    else
      Some(Row(id, id, s.workspace, s.origin, s.generation, None, s.keyId.value, s.ciphertext, s.revokedAt))
  }

  /** The rows the paged query may return: under an old key, and not revoked if Bitbucket. */
  predicate Selectable(db: Db, config: Config, kind: Kind, id: Uuid) {
    && var view := View(db, kind, id);
    && view.Some?
    && view.value.keyId != config.Active(kind)
    && (kind != GitLabTokens ==> view.value.revokedAt.None?)
  }

  /** The guard of the compare-and-swap. */
  predicate Matches(db: Db, kind: Kind, row: Row) {
    var table := db.TableOf(kind);
    && row.id in table
    && var s := table[row.id];
    && s.generation == row.generation
    && s.keyId == Some(row.keyId)
    && row.ciphertext.Some?
    && s.ciphertext == row.ciphertext
    && match kind
       case BitbucketTokens =>
         s.workspace == row.workspace && s.revokedAt.None?
       case BitbucketWebhookSecrets =>
         && s.bindingGeneration.Some?
         && s.bindingGeneration == row.bindingGeneration
         && s.revokedAt.None?
         && row.id in db.identities
         && db.identities[row.id] == Identity(row.installation, row.workspace)
       case GitLabTokens =>
         && s.workspace == row.workspace
         && s.origin.Some?
         && s.origin == row.origin
         && s.revokedAt == row.revokedAt
  }

  /** One compare-and-swap transaction: the new state, and whether a row was returned. */
  function Cas(db: Db, config: Config, kind: Kind, row: Row, envelope: Envelope): (Db, bool) {
    if Matches(db, kind, row) then
      var table := db.TableOf(kind);
      var s := table[row.id].(ciphertext := Some(envelope), keyId := Some(config.Active(kind)));
      (db.With(kind, table[row.id := s]), true)
    else (db, false)
  }

  /** The rows the counting query reports under an old key; it neither joins nor looks at revocation. */
  function StaleIds(db: Db, config: Config, kind: Kind): set<Uuid> {
    var table := db.TableOf(kind);
    set id | id in table && table[id].keyId.Some? && table[id].keyId.value != config.Active(kind)
  }

  /** Row counts grouped by key id. */
  function Counts(db: Db, kind: Kind): map<KeyId, nat> {
    var table := db.TableOf(kind);
    map k | k in (set id | id in table && table[id].keyId.Some? :: table[id].keyId.value)
      :: |set id | id in table && table[id].keyId == Some(k)|
  }

  /** `verify`: every counted key is the active one. */
  predicate Ready(db: Db, config: Config) {
    forall kind: Kind | kind in KINDS ::
      forall k | k in Counts(db, kind) :: k == config.Active(kind)
  }

  lemma ReadyIffNothingStale(db: Db, config: Config)
    ensures Ready(db, config) <==> forall kind: Kind :: StaleIds(db, config, kind) == {}
  {
    forall kind: Kind
      ensures kind in KINDS
      ensures (forall k | k in Counts(db, kind) :: k == config.Active(kind)) <==> StaleIds(db, config, kind) == {}
    {
      assert kind == KINDS[0] || kind == KINDS[1] || kind == KINDS[2];
      var table := db.TableOf(kind);
      if StaleIds(db, config, kind) != {} {
        var id :| id in StaleIds(db, config, kind);
        assert table[id].keyId.value in Counts(db, kind);
      } else {
        forall k | k in Counts(db, kind)
          ensures k == config.Active(kind)
        {
          var id :| id in table && table[id].keyId == Some(k);
          assert id !in StaleIds(db, config, kind);
        }
      }
    }
  }

  /** The counts name exactly the keys in use, each with the number of its rows. */
  lemma CountsAreRows(db: Db, kind: Kind, k: KeyId)
    ensures var rows := set id | id in db.TableOf(kind) && db.TableOf(kind)[id].keyId == Some(k);
            && (k in Counts(db, kind) <==> rows != {})
            && (k in Counts(db, kind) ==> Counts(db, kind)[k] == |rows|)
  {
    var table := db.TableOf(kind);
    var rows := set id | id in table && table[id].keyId == Some(k);
    if rows != {} {
      var id :| id in rows;
      assert table[id].keyId.value == k;
    }
    if k in Counts(db, kind) {
      var id :| id in table && table[id].keyId.Some? && table[id].keyId.value == k;
      assert id in rows;
    }
  }

  // ----- Table constraints

  /** Key id and ciphertext come in pairs, and a Bitbucket row with a key is not revoked. */
  predicate ConstrainedRow(kind: Kind, s: Stored) {
    && (s.keyId.Some? <==> s.ciphertext.Some?)
    && (kind != GitLabTokens && s.keyId.Some? ==> s.revokedAt.None?)
    && (kind == BitbucketWebhookSecrets ==> s.bindingGeneration.Some?)
    && (kind == GitLabTokens ==> s.origin.Some?)
  }

  /** The constraints the migrations put on these tables; a secret refers to an identity. */
  predicate Constrained(db: Db) {
    && (forall kind: Kind, id | id in db.TableOf(kind) :: ConstrainedRow(kind, db.TableOf(kind)[id]))
    && (forall id | id in db.TableOf(BitbucketWebhookSecrets) :: id in db.identities)
  }
}
