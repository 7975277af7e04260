/** The custody store's four tables and its SQL transactions, each one atomic step over them.
    Randomness, fresh identifiers, the two clocks and the order a query returns rows in are inputs. */
module Custody {
  import opened Basics
  import opened Core
  import opened Crypto

  /** One secret with its version rows, which the foreign key ties to it (`ON DELETE CASCADE`). */
  datatype SecretRow = SecretRow(
    id: Uuid,
    owner: string,
    disclosure: Disclosure,
    state: SecretState,
    current: int,
    labels: map<string, string>,
    versions: map<int, Envelope>)

  datatype BatchKey = BatchKey(tenant: string, id: Uuid)

  datatype BatchRow = BatchRow(actor: string, envelope: Envelope, expiresAt: real)

  datatype Action = PutAction | RevokeAction | DeleteAction | CommitAction | RewrapAction

  datatype AuditRow = AuditRow(tenant: string, id: Option<Uuid>, actor: string, action: Action)

  /** The secrets table by its unique reference, the prepared batches and the audit log. */
  datatype Db = Db(
    secrets: map<SecretRef, SecretRow>,
    batches: map<BatchKey, BatchRow>,
    audit: seq<AuditRow>)
  {
    function Ids(): set<Uuid> {
      set r | r in secrets :: secrets[r].id
    }

    function Record(tenant: string, id: Option<Uuid>, actor: string, action: Action): Db {
      Db(secrets, batches, audit + [AuditRow(tenant, id, actor, action)])
    }

    function WithRow(r: SecretRef, row: SecretRow): Db {
      Db(secrets[r := row], batches, audit)
    }
  }

  const EMPTY: Db := Db(map[], map[], [])

  datatype SecretMetadata = SecretMetadata(
    id: Uuid,
    reference: SecretRef,
    owner: string,
    disclosure: Disclosure,
    state: SecretState,
    version: int,
    labels: map<string, string>)

  datatype StoredSecret = StoredSecret(metadata: SecretMetadata, value: string)

  /** What one sealing operation takes from outside: a new identifier and a random draw. */
  datatype Seed = Seed(id: Uuid, draw: Draw)

  /** The i-th supply; a supply that runs out is a random source that fails. */
  function At(supply: seq<Seed>, i: nat): (seed: Seed)
    ensures i < |supply| ==> seed == supply[i]
    ensures i >= |supply| ==> seed.draw == NoEntropy
  {
    if i < |supply| then supply[i] else Seed(NIL_UUID, NoEntropy)
  }

  function MetadataOf(r: SecretRef, row: SecretRow): SecretMetadata {
    SecretMetadata(row.id, r, row.owner, row.disclosure, row.state, row.current, row.labels)
  }

  // ---- Single-secret transactions ----

  /** Insert or replace: one new version row, sealed for it, and one audit row. */
  function PutTx(db: Db, ring: Keyring, input: PutSecret, actor: string, seed: Seed): Result<Db, StoreError> {
    var r := input.reference;
    var checked := ValidateRef(r);
    if checked.Err? then Err(checked.error)
    else
      var known := r in db.secrets;
      var id := if known then db.secrets[r].id else seed.id;
      var version := if known then db.secrets[r].current + 1 else 1;
      var older := if known then db.secrets[r].versions else map[];
      var sealed := Encrypt(ring, r, version, input.disclosure, input.value, seed.draw);
      if sealed.Err? then Err(StoreError.Crypto)
      // A primary key that is taken, or a version past `bigint`, fails the statement.
      else if (!known && id in db.Ids()) || version in older || version > MAX_I64 then Err(Unavailable)
      else
        var row := SecretRow(id, input.owner, input.disclosure, Active, version, input.labels, older[version := sealed.value]);
        Ok(db.WithRow(r, row).Record(r.tenant, Some(id), actor, PutAction))
  }

  /** Delete the row; its versions go with it and its audit rows stay. */
  function DeleteTx(db: Db, r: SecretRef, actor: string): Result<Db, StoreError> {
    if r !in db.secrets then Err(NotFound)
    else
      Ok(Db(db.secrets - {r}, db.batches, db.audit).Record(r.tenant, Some(db.secrets[r].id), actor, DeleteAction))
  }

  function RevokeTx(db: Db, r: SecretRef, actor: string): Result<Db, StoreError> {
    if r !in db.secrets then Err(NotFound)
    else
      Ok(db.WithRow(r, db.secrets[r].(state := Revoked)).Record(r.tenant, Some(db.secrets[r].id), actor, RevokeAction))
  }

  /** The current value of an active secret. */
  function Get(db: Db, keys: map<string, string>, r: SecretRef): Result<StoredSecret, StoreError> {
    if r !in db.secrets || db.secrets[r].state != Active || db.secrets[r].current !in db.secrets[r].versions then
      Err(NotFound)
    else
      var row := db.secrets[r];
      match Decrypt(keys, r, row.current, row.disclosure, row.versions[row.current])
      case Ok(value) => Ok(StoredSecret(MetadataOf(r, row), value))
      case Err(_) => Err(StoreError.Crypto)
  }

  function Exists(db: Db, r: SecretRef): bool {
    r in db.secrets && db.secrets[r].state == Active
  }

  /** The metadata of a tenant's secrets, one owner's or everyone's, as a set. */
  function List(db: Db, tenant: string, owner: Option<string>): set<SecretMetadata> {
    set r | r in db.secrets && r.tenant == tenant && (owner.None? || db.secrets[r].owner == owner.value) ::
      MetadataOf(r, db.secrets[r])
  }

  // ---- Prepared batches ----

  /** A tenant's batches whose expiry column has passed are dropped. */
  function Purge(db: Db, tenant: string, now: real): Db {
    db.(batches := map k | k in db.batches && !(k.tenant == tenant && db.batches[k].expiresAt <= now) :: db.batches[k])
  }

  function SaturatingAdd(a: nat, b: nat): nat {
    if a + b > MAX_I64 then MAX_I64 else a + b
  }

  predicate OneTenant(tenant: string, mutations: seq<Mutation>) {
    forall i :: 0 <= i < |mutations| ==> mutations[i].Target().tenant == tenant
  }

  datatype SealedBatch = SealedBatch(expiry: int, envelope: Envelope)

  /** What `prepare` checks and seals before it touches a table. */
  function SealPrepared(ring: Keyring, tenant: string, id: Uuid, mutations: seq<Mutation>, actor: string,
                        clock: nat, lifetime: nat, draw: Draw): Result<SealedBatch, StoreError> {
    if mutations == [] then Err(Invalid(EmptyBatch))
    else if !OneTenant(tenant, mutations) then Err(Invalid(CrossTenantBatch))
    else if clock > MAX_I64 || lifetime > MAX_I64 then Err(Unavailable)
    else
      var expiry := SaturatingAdd(clock, lifetime);
      match SealBatch(ring, tenant, id, actor, Batch(expiry, mutations), draw)
      case Ok(envelope) => Ok(SealedBatch(expiry, envelope))
      case Err(_) => Err(StoreError.Crypto)
  }

  function InsertBatch(db: Db, k: BatchKey, actor: string, sealed: SealedBatch): Result<Db, StoreError> {
    if k in db.batches then Err(Conflict)
    else Ok(db.(batches := db.batches[k := BatchRow(actor, sealed.envelope, sealed.expiry as real)]))
  }

  /** One mutation of a batch inside the commit's transaction. */
  function ApplyOne(db: Db, ring: Keyring, m: Mutation, actor: string, seed: Seed): Result<Db, StoreError> {
    match m
    case Put(secret) => PutTx(db, ring, secret, actor, seed)
    case Delete(r) =>
      match DeleteTx(db, r, actor)
      case Err(NotFound) => Err(DeleteTargetMissing)
      case other => other
  }

  /** The first `n` mutations in order, or the first refusal. */
  function Apply(db: Db, ring: Keyring, mutations: seq<Mutation>, actor: string, supply: seq<Seed>, n: nat): Result<Db, StoreError>
    requires n <= |mutations|
  {
    if n == 0 then Ok(db)
    else
      match Apply(db, ring, mutations, actor, supply, n - 1)
      case Err(error) => Err(error)
      case Ok(before) => ApplyOne(before, ring, mutations[n - 1], actor, At(supply, n - 1))
  }

  /** The commit's transaction: take the batch out, open it, apply it and record it; any refusal
      rolls back, except that a batch past its sealed expiry stays removed. */
  function CommitTx(db: Db, ring: Keyring, k: BatchKey, now: real, supply: seq<Seed>): (Db, Result<(), StoreError>) {
    if k !in db.batches || db.batches[k].expiresAt <= now then (db, Err(NotFound))
    else
      var row := db.batches[k];
      var taken := Db(db.secrets, db.batches - {k}, db.audit);
      match OpenBatch(ring.keys, k.tenant, k.id, row.actor, row.envelope)
      case Err(_) => (db, Err(Unavailable))
      case Ok(Value(_)) => (db, Err(Unavailable))
      case Ok(Batch(expiry, mutations)) =>
        if expiry as real <= now then (taken, Err(NotFound))
        else
          match Apply(taken, ring, mutations, row.actor, supply, |mutations|)
          case Err(error) => (db, Err(error))
          case Ok(applied) => (applied.Record(k.tenant, None, row.actor, CommitAction), Ok(()))
  }

  function Abort(db: Db, ring: Keyring, k: BatchKey, now: real): (Db, Result<(), StoreError>) {
    if k in db.batches && now < db.batches[k].expiresAt && db.batches[k].envelope.keyId in ring.keys then
      (db.(batches := db.batches - {k}), Ok(()))
    else
      (db, Err(NotFound))
  }

  // ---- Key rotation ----

  /** One stored version by the reference it belongs to. */
  datatype StoredVersion = StoredVersion(reference: SecretRef, number: int)

  /** The versions sealed under another key than `active`. */
  function Stale(db: Db, active: string): set<StoredVersion> {
    set r, n | r in db.secrets && n in db.secrets[r].versions && db.secrets[r].versions[n].keyId != active ::
      StoredVersion(r, n)
  }

  predicate IsStored(db: Db, v: StoredVersion) {
    v.reference in db.secrets && v.number in db.secrets[v.reference].versions
  }

  /** One row's value, decrypted with the secret row's current disclosure, sealed again. */
  function RewrapOne(db: Db, ring: Keyring, v: StoredVersion, draw: Draw): Result<Envelope, StoreError>
    requires IsStored(db, v)
  {
    var row := db.secrets[v.reference];
    match Decrypt(ring.keys, v.reference, v.number, row.disclosure, row.versions[v.number])
    case Err(_) => Err(StoreError.Crypto)
    case Ok(value) =>
      match Encrypt(ring, v.reference, v.number, row.disclosure, value, draw)
      case Err(_) => Err(StoreError.Crypto)
      case Ok(e) => Ok(e)
  }

  function DrawAt(draws: seq<Draw>, i: nat): (draw: Draw)
    ensures i < |draws| ==> draw == draws[i]
    ensures i >= |draws| ==> draw == NoEntropy
  {
    if i < |draws| then draws[i] else NoEntropy
  }

  /** One version row replaced. */
  function SetVersion(secrets: map<SecretRef, SecretRow>, v: StoredVersion, e: Envelope): map<SecretRef, SecretRow> {
    if v.reference !in secrets then secrets
    else
      var row := secrets[v.reference];
      secrets[v.reference := row.(versions := row.versions[v.number := e])]
  }

  /** The first `n` rows of one query over `db`, each resealed and recorded. */
  function RewrapRows(db: Db, ring: Keyring, order: seq<StoredVersion>, draws: seq<Draw>, actor: string, n: nat): Result<Db, StoreError>
    requires n <= |order| && forall i :: 0 <= i < |order| ==> IsStored(db, order[i])
  {
    if n == 0 then Ok(db)
    else
      match RewrapRows(db, ring, order, draws, actor, n - 1)
      case Err(error) => Err(error)
      case Ok(before) =>
        var v := order[n - 1];
        match RewrapOne(db, ring, v, DrawAt(draws, n - 1))
        case Err(error) => Err(error)
        case Ok(e) =>
          Ok(Db(SetVersion(before.secrets, v, e), before.batches, before.audit)
             .Record(v.reference.tenant, Some(db.secrets[v.reference].id), actor, RewrapAction))
  }

  lemma StaleIsStored(db: Db, active: string, order: seq<StoredVersion>)
    requires Enumerates(order, Stale(db, active))
    ensures forall i :: 0 <= i < |order| ==> IsStored(db, order[i])
  {
    forall i | 0 <= i < |order|
      ensures IsStored(db, order[i])
    {
      assert order[i] in Stale(db, active);
    }
  }

  /** The first rotation transaction over every stale version, in the order the query returned. */
  function RewrapTx(db: Db, ring: Keyring, order: seq<StoredVersion>, draws: seq<Draw>, actor: string): (Db, Result<nat, StoreError>)
    requires Enumerates(order, Stale(db, ring.active))
  {
    StaleIsStored(db, ring.active, order);
    match RewrapRows(db, ring, order, draws, actor, |order|)
    case Err(error) => (db, Err(error))
    case Ok(after) => (after, Ok(|order|))
  }

  /** Every tenant's batches whose expiry column has passed are dropped. */
  function PurgeAll(db: Db, now: real): Db {
    db.(batches := map k | k in db.batches && now < db.batches[k].expiresAt :: db.batches[k])
  }

  function StaleBatches(db: Db, active: string): set<BatchKey> {
    set k | k in db.batches && db.batches[k].envelope.keyId != active
  }

  function ResealRows(db: Db, ring: Keyring, order: seq<BatchKey>, draws: seq<Draw>, n: nat): Result<Db, StoreError>
    requires n <= |order| && (forall i :: 0 <= i < |order| ==> order[i] in db.batches)
  {
    if n == 0 then Ok(db)
    else
      match ResealRows(db, ring, order, draws, n - 1)
      case Err(error) => Err(error)
      case Ok(before) =>
        var k := order[n - 1];
        match ResealBatch(ring, k.tenant, k.id, db.batches[k].actor, db.batches[k].envelope, DrawAt(draws, n - 1))
        case Err(_) => Err(StoreError.Crypto)
        case Ok(e) => Ok(before.(batches := before.batches[k := db.batches[k].(envelope := e)]))
  }

  /** The second rotation transaction: drop what expired, then reseal every stale batch. */
  function ResealTx(db: Db, ring: Keyring, now: real, order: seq<BatchKey>, draws: seq<Draw>): (Db, Result<(), StoreError>)
    requires Enumerates(order, StaleBatches(PurgeAll(db, now), ring.active))
  {
    assert forall i :: 0 <= i < |order| ==> order[i] in StaleBatches(PurgeAll(db, now), ring.active);
    match ResealRows(PurgeAll(db, now), ring, order, draws, |order|)
    case Err(error) => (db, Err(error))
    case Ok(after) => (after, Ok(()))
  }

  // ---- Runs: any interleaving of transactions from any number of clients ----

  datatype Step =
    | PutStep(ring: Keyring, input: PutSecret, seed: Seed)
    | DeleteStep(reference: SecretRef, actor: string)
    | RevokeStep(reference: SecretRef, actor: string)
    | PurgeStep(tenant: string, at: real)
    | InsertStep(ring: Keyring, key: BatchKey, mutations: seq<Mutation>, actor: string, clock: nat, lifetime: nat, draw: Draw)
    | CommitStep(ring: Keyring, key: BatchKey, at: real, supply: seq<Seed>)
    | AbortStep(ring: Keyring, key: BatchKey, at: real)
    | RewrapStep(ring: Keyring, order: seq<StoredVersion>, draws: seq<Draw>, actor: string)
    | ResealStep(ring: Keyring, at: real, batches: seq<BatchKey>, draws: seq<Draw>)
    // The environment rewrites a batch's expiry column.
    | RewriteExpiry(key: BatchKey, expiresAt: real)
    // A transaction that met a database fault and rolled back.
    | FailedStep

  datatype Outcome = Done | Rewrapped(count: nat) | Refused(error: StoreError)

  function Settle(db: Db, result: Result<Db, StoreError>): (Db, Outcome) {
    match result
    case Ok(after) => (after, Done)
    case Err(error) => (db, Refused(error))
  }

  function Finish(after: Db, result: Result<(), StoreError>): (Db, Outcome) {
    match result
    case Ok(_) => (after, Done)
    case Err(error) => (after, Refused(error))
  }

  /** One transaction. An order its query could not have returned is a failed query. */
  function Next(db: Db, step: Step): (Db, Outcome) {
    match step
    case PutStep(ring, input, seed) => Settle(db, PutTx(db, ring, input, input.owner, seed))
    case DeleteStep(r, actor) => Settle(db, DeleteTx(db, r, actor))
    case RevokeStep(r, actor) => Settle(db, RevokeTx(db, r, actor))
    case PurgeStep(tenant, at) => (Purge(db, tenant, at), Done)
    case InsertStep(ring, k, mutations, actor, clock, lifetime, draw) =>
      (match SealPrepared(ring, k.tenant, k.id, mutations, actor, clock, lifetime, draw)
       case Err(error) => (db, Refused(error))
       case Ok(sealed) => Settle(db, InsertBatch(db, k, actor, sealed)))
    case CommitStep(ring, k, at, supply) =>
      var (after, result) := CommitTx(db, ring, k, at, supply);
      Finish(after, result)
    case AbortStep(ring, k, at) =>
      var (after, result) := Abort(db, ring, k, at);
      Finish(after, result)
    case RewrapStep(ring, order, draws, actor) =>
      if !Enumerates(order, Stale(db, ring.active)) then (db, Refused(Unavailable))
      else
        (match RewrapTx(db, ring, order, draws, actor)
         case (after, Ok(count)) => (after, Rewrapped(count))
         case (after, Err(error)) => (after, Refused(error)))
    case ResealStep(ring, at, order, draws) =>
      if !Enumerates(order, StaleBatches(PurgeAll(db, at), ring.active)) then (db, Refused(Unavailable))
      else
        var (after, result) := ResealTx(db, ring, at, order, draws);
        Finish(after, result)
    case RewriteExpiry(k, expiresAt) =>
      if k !in db.batches then (db, Done)
      else (db.(batches := db.batches[k := db.batches[k].(expiresAt := expiresAt)]), Done)
    case FailedStep => (db, Refused(Unavailable))
  }

  /** The tables after the first `n` steps of a run. */
  function Run(db: Db, steps: seq<Step>, n: nat): Db
    requires n <= |steps|
  {
    if n == 0 then db else Next(Run(db, steps, n - 1), steps[n - 1]).0
  }

  function OutcomeAt(db: Db, steps: seq<Step>, i: nat): Outcome
    requires i < |steps|
  {
    Next(Run(db, steps, i), steps[i]).1
  }

  // ---- What a run assumes of the world outside the tables ----

  /** A key id names the same key wherever it is held. */
  predicate Agrees(keys: map<string, string>, universe: map<string, string>) {
    forall id | id in keys :: id in universe && universe[id] == keys[id]
  }

  function AuditIds(audit: seq<AuditRow>): set<Uuid> {
    set i | 0 <= i < |audit| && audit[i].id.Some? :: audit[i].id.value
  }

  /** Identifiers never seen before, each supplied once. */
  predicate FreshSupply(db: Db, supply: seq<Seed>) {
    && (forall i :: 0 <= i < |supply| ==> supply[i].id !in db.Ids() && supply[i].id !in AuditIds(db.audit))
    && (forall i, j :: 0 <= i < j < |supply| ==> supply[i].id != supply[j].id)
  }

  predicate Supported(universe: map<string, string>, db: Db, step: Step) {
    match step
    case PutStep(ring, _, seed) => Agrees(ring.keys, universe) && FreshSupply(db, [seed])
    case CommitStep(ring, _, _, supply) => Agrees(ring.keys, universe) && FreshSupply(db, supply)
    case InsertStep(ring, _, _, _, _, _, _) => Agrees(ring.keys, universe)
    case AbortStep(ring, _, _) => Agrees(ring.keys, universe)
    case RewrapStep(ring, _, _, _) => Agrees(ring.keys, universe)
    case ResealStep(ring, _, _, _) => Agrees(ring.keys, universe)
    case _ => true
  }

  predicate SupportedRun(universe: map<string, string>, db: Db, steps: seq<Step>) {
    forall i :: 0 <= i < |steps| ==> Supported(universe, Run(db, steps, i), steps[i])
  }
}
