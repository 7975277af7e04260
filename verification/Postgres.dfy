/** The store as the service runs it: statements against a transaction that commits whole or is
    dropped, loops over mutations and rows, and each public operation as its sequence of
    transactions. Every method is proved to be the transaction function of module Custody. */
module Postgres {
  import opened Basics
  import opened Core
  import opened Crypto
  import opened Custody

  /** An open transaction's own view of the tables. */
  class Transaction {
    var secrets: map<SecretRef, SecretRow>
    var batches: map<BatchKey, BatchRow>
    var audit: seq<AuditRow>

    function Tables(): Db
      reads this
    {
      Db(secrets, batches, audit)
    }

    constructor (db: Db)
      ensures Tables() == db
    {
      secrets, batches, audit := db.secrets, db.batches, db.audit;
    }

    method Audit(tenant: string, id: Option<Uuid>, actor: string, action: Action)
      modifies this
      ensures Tables() == old(Tables()).Record(tenant, id, actor, action)
    {
      audit := audit + [AuditRow(tenant, id, actor, action)];
    }

    /** `put_tx`: look the reference up, seal the next version, upsert the row, insert the version,
        record it. A refusal may leave this view half changed; its store drops it. */
    method Put(ring: Keyring, input: PutSecret, actor: string, seed: Seed) returns (r: Result<SecretMetadata, StoreError>)
      modifies this
      ensures match PutTx(old(Tables()), ring, input, actor, seed)
              case Ok(after) =>
                && Tables() == after && input.reference in after.secrets
                && r == Ok(MetadataOf(input.reference, after.secrets[input.reference]))
              case Err(error) => r == Err(error)
    {
      var reference := input.reference;
      var valid := ValidateRef(reference);
      if valid.Err? {
        return Err(valid.error);
      }
      var id, version, older := seed.id, 1, map[];
      var known := reference in secrets;
      if known {
        var row := secrets[reference];
        id, version, older := row.id, row.current + 1, row.versions;
      }
      var envelope := Encrypt(ring, reference, version, input.disclosure, input.value, seed.draw);
      if envelope.Err? {
        return Err(StoreError.Crypto);
      }
      if version > MAX_I64 || (!known && id in Tables().Ids()) {
        return Err(Unavailable);
      }
      secrets := secrets[reference := SecretRow(id, input.owner, input.disclosure, Active, version, input.labels, older)];
      if version in older {
        return Err(Unavailable);
      }
      secrets := secrets[reference := secrets[reference].(versions := older[version := envelope.value])];
      Audit(reference.tenant, Some(id), actor, PutAction);
      return Ok(MetadataOf(reference, secrets[reference]));
    }

    /** `delete_tx`. */
    method Delete(reference: SecretRef, actor: string) returns (r: Result<(), StoreError>)
      modifies this
      ensures match DeleteTx(old(Tables()), reference, actor)
              case Ok(after) => Tables() == after && r == Ok(())
              case Err(error) => Tables() == old(Tables()) && r == Err(error)
    {
      if reference !in secrets {
        return Err(NotFound);
      }
      var id := secrets[reference].id;
      secrets := secrets - {reference};
      Audit(reference.tenant, Some(id), actor, DeleteAction);
      return Ok(());
    }

    /** The mutations of a batch in order, up to the first refusal. */
    method ApplyAll(ring: Keyring, mutations: seq<Mutation>, actor: string, supply: seq<Seed>) returns (r: Result<(), StoreError>)
      modifies this
      ensures match Apply(old(Tables()), ring, mutations, actor, supply, |mutations|)
              case Ok(after) => Tables() == after && r == Ok(())
              case Err(error) => r == Err(error)
    {
      ghost var before := Tables();
      hide PutTx, DeleteTx, Apply;
      var i := 0;
      ApplyTurn(before, ring, mutations, actor, supply, i);
      while i < |mutations|
        invariant 0 <= i <= |mutations|
        invariant Apply(before, ring, mutations, actor, supply, i) == Ok(Tables())
      {
        ApplyTurn(before, ring, mutations, actor, supply, i);
        match mutations[i] {
          case Put(secret) =>
            var put := Put(ring, secret, actor, At(supply, i));
            if put.Err? {
              ApplyStops(before, ring, mutations, actor, supply, i + 1, put.error);
              return Err(put.error);
            }
          case Delete(reference) =>
            var deleted := Delete(reference, actor);
            if deleted.Err? {
              var error := if deleted.error == NotFound then DeleteTargetMissing else deleted.error;
              ApplyStops(before, ring, mutations, actor, supply, i + 1, error);
              return Err(error);
            }
        }
        i := i + 1;
      }
      return Ok(());
    }
  }

  class PostgresStore {
    var secrets: map<SecretRef, SecretRow>
    var batches: map<BatchKey, BatchRow>
    var audit: seq<AuditRow>
    const keyring: Keyring
    var batchLifetime: nat

    function Tables(): Db
      reads this
    {
      Db(secrets, batches, audit)
    }

    constructor (keyring: Keyring, lifetime: nat)
      ensures Tables() == EMPTY && this.keyring == keyring && batchLifetime == lifetime
    {
      this.keyring := keyring;
      secrets, batches, audit, batchLifetime := map[], map[], [], lifetime;
    }

    method Begin() returns (tx: Transaction)
      ensures fresh(tx) && tx.Tables() == Tables()
    {
      tx := new Transaction(Tables());
    }

    method CommitTransaction(tx: Transaction)
      modifies this`secrets, this`batches, this`audit
      ensures Tables() == tx.Tables()
    {
      secrets, batches, audit := tx.secrets, tx.batches, tx.audit;
    }

    method Put(input: PutSecret, seed: Seed) returns (r: Result<SecretMetadata, StoreError>)
      modifies this`secrets, this`batches, this`audit
      ensures match PutTx(old(Tables()), keyring, input, input.owner, seed)
              case Ok(after) =>
                && Tables() == after && input.reference in after.secrets
                && r == Ok(MetadataOf(input.reference, after.secrets[input.reference]))
              case Err(error) => Tables() == old(Tables()) && r == Err(error)
    {
      var tx := Begin();
      hide PutTx;
      r := tx.Put(keyring, input, input.owner, seed);
      if r.Ok? {
        CommitTransaction(tx);
      }
    }

    method Delete(reference: SecretRef, actor: string) returns (r: Result<(), StoreError>)
      modifies this`secrets, this`batches, this`audit
      ensures match DeleteTx(old(Tables()), reference, actor)
              case Ok(after) => Tables() == after && r == Ok(())
              case Err(error) => Tables() == old(Tables()) && r == Err(error)
    {
      var tx := Begin();
      r := tx.Delete(reference, actor);
      if r.Ok? {
        CommitTransaction(tx);
      }
    }

    method Revoke(reference: SecretRef, actor: string) returns (r: Result<SecretMetadata, StoreError>)
      modifies this`secrets, this`batches, this`audit
      ensures match RevokeTx(old(Tables()), reference, actor)
              case Ok(after) => Tables() == after && reference in after.secrets && r == Ok(MetadataOf(reference, after.secrets[reference]))
              case Err(error) => Tables() == old(Tables()) && r == Err(error)
    {
      var tx := Begin();
      if reference !in tx.secrets {
        return Err(NotFound);
      }
      tx.secrets := tx.secrets[reference := tx.secrets[reference].(state := Revoked)];
      tx.Audit(reference.tenant, Some(tx.secrets[reference].id), actor, RevokeAction);
      CommitTransaction(tx);
      return Ok(MetadataOf(reference, secrets[reference]));
    }

    method PurgeExpired(tenant: string, now: real)
      modifies this`batches
      ensures Tables() == Purge(old(Tables()), tenant, now)
    {
      batches := map k | k in batches && !(k.tenant == tenant && batches[k].expiresAt <= now) :: batches[k];
    }

    /** Checks, seals with the expiry in front, then purges, then inserts. */
    method Prepare(tenant: string, transaction: Uuid, mutations: seq<Mutation>, actor: string, clock: nat, now: real, draw: Draw)
      returns (r: Result<(), StoreError>)
      modifies this`batches
      ensures match SealPrepared(keyring, tenant, transaction, mutations, actor, clock, batchLifetime, draw)
              case Err(error) => Tables() == old(Tables()) && r == Err(error)
              case Ok(sealed) =>
                match InsertBatch(Purge(old(Tables()), tenant, now), BatchKey(tenant, transaction), actor, sealed)
                case Ok(after) => Tables() == after && r == Ok(())
                case Err(error) => Tables() == Purge(old(Tables()), tenant, now) && r == Err(error)
    {
      hide SealBatch, Purge;
      if mutations == [] {
        return Err(Invalid(EmptyBatch));
      }
      for i := 0 to |mutations|
        invariant forall j :: 0 <= j < i ==> mutations[j].Target().tenant == tenant
      {
        if mutations[i].Target().tenant != tenant {
          return Err(Invalid(CrossTenantBatch));
        }
      }
      if clock > MAX_I64 || batchLifetime > MAX_I64 {
        return Err(Unavailable);
      }
      var expiry := SaturatingAdd(clock, batchLifetime);
      var envelope := SealBatch(keyring, tenant, transaction, actor, Batch(expiry, mutations), draw);
      if envelope.Err? {
        return Err(StoreError.Crypto);
      }
      PurgeExpired(tenant, now);
      var k := BatchKey(tenant, transaction);
      if k in batches {
        return Err(Conflict);
      }
      batches := batches[k := BatchRow(actor, envelope.value, expiry as real)];
      return Ok(());
    }

    /** Purges, then in one transaction takes the batch out, opens it and applies its mutations in
        order; leaving without committing the transaction is the rollback. */
    method Commit(tenant: string, transaction: Uuid, purgeAt: real, now: real, supply: seq<Seed>) returns (r: Result<(), StoreError>)
      modifies this`secrets, this`batches, this`audit
      ensures (Tables(), r) == CommitTx(Purge(old(Tables()), tenant, purgeAt), keyring, BatchKey(tenant, transaction), now, supply)
    {
      PurgeExpired(tenant, purgeAt);
      ghost var purged := Tables();
      hide Apply, OpenBatch, Purge;
      var tx := Begin();
      var k := BatchKey(tenant, transaction);
      if k !in tx.batches || tx.batches[k].expiresAt <= now {
        return Err(NotFound);
      }
      var row := tx.batches[k];
      tx.batches := tx.batches - {k};
      var unsealed := OpenBatch(keyring.keys, tenant, transaction, row.actor, row.envelope);
      if unsealed.Err? || unsealed.value.Value? {
        return Err(Unavailable);
      }
      var Batch(expiry, mutations) := unsealed.value;
      if expiry as real <= now {
        CommitTransaction(tx);
        return Err(NotFound);
      }
      var applied := tx.ApplyAll(keyring, mutations, row.actor, supply);
      if applied.Err? {
        return Err(applied.error);
      }
      tx.Audit(tenant, None, row.actor, CommitAction);
      CommitTransaction(tx);
      return Ok(());
    }

    method AbortBatch(tenant: string, transaction: Uuid, now: real) returns (r: Result<(), StoreError>)
      modifies this`batches
      ensures (Tables(), r) == Abort(old(Tables()), keyring, BatchKey(tenant, transaction), now)
    {
      var k := BatchKey(tenant, transaction);
      if k in batches && now < batches[k].expiresAt && batches[k].envelope.keyId in keyring.keys {
        batches := batches - {k};
        return Ok(());
      }
      return Err(NotFound);
    }

    /** One row of the rewrap query: read, decrypted, sealed again, updated and recorded. */
    method RewrapRow(tx: Transaction, v: StoredVersion, draw: Draw, actor: string) returns (r: Result<(), StoreError>)
      requires IsStored(Tables(), v)
      modifies tx
      ensures match RewrapOne(Tables(), keyring, v, draw)
              case Err(error) => r == Err(error)
              case Ok(e) =>
                && r == Ok(())
                && tx.Tables() == Resealed(Tables(), old(tx.Tables()), v, e, actor)
    {
      hide Encrypt, Decrypt, SetVersion;
      var row := secrets[v.reference];
      var value := Decrypt(keyring.keys, v.reference, v.number, row.disclosure, row.versions[v.number]);
      if value.Err? {
        return Err(StoreError.Crypto);
      }
      var envelope := Encrypt(keyring, v.reference, v.number, row.disclosure, value.value, draw);
      if envelope.Err? {
        return Err(StoreError.Crypto);
      }
      tx.secrets := SetVersion(tx.secrets, v, envelope.value);
      tx.Audit(v.reference.tenant, Some(row.id), actor, RewrapAction);
      return Ok(());
    }

    /** The loop over the rows the query returned. */
    method RewrapEach(tx: Transaction, order: seq<StoredVersion>, draws: seq<Draw>, actor: string) returns (r: Result<(), StoreError>)
      requires tx.Tables() == Tables() && forall i :: 0 <= i < |order| ==> IsStored(Tables(), order[i])
      modifies tx
      ensures match RewrapRows(Tables(), keyring, order, draws, actor, |order|)
              case Err(error) => r == Err(error)
              case Ok(after) => r == Ok(()) && tx.Tables() == after
    {
      ghost var before := Tables();
      assert RewrapRows(before, keyring, order, draws, actor, 0) == Ok(before);
      hide RewrapOne, RewrapRows, SetVersion, DrawAt, IsStored, Resealed;
      var i := 0;
      while i < |order|
        invariant 0 <= i <= |order|
        invariant Tables() == before && RewrapRows(before, keyring, order, draws, actor, i) == Ok(tx.Tables())
      {
        RewrapTurn(before, keyring, order, draws, actor, i, tx.Tables());
        var rewrapped := RewrapRow(tx, order[i], DrawAt(draws, i), actor);
        if rewrapped.Err? {
          RewrapStops(before, keyring, order, draws, actor, i + 1, rewrapped.error);
          return Err(rewrapped.error);
        }
        i := i + 1;
      }
      return Ok(());
    }

    /** The first transaction of `rewrap_all`. */
    method RewrapVersions(order: seq<StoredVersion>, draws: seq<Draw>, actor: string) returns (r: Result<nat, StoreError>)
      requires Enumerates(order, Stale(Tables(), keyring.active))
      modifies this`secrets, this`batches, this`audit
      ensures (Tables(), r) == RewrapTx(old(Tables()), keyring, order, draws, actor)
    {
      StaleIsStored(Tables(), keyring.active, order);
      hide Stale, RewrapRows, IsStored;
      var tx := Begin();
      var rewrapped := RewrapEach(tx, order, draws, actor);
      if rewrapped.Err? {
        return Err(rewrapped.error);
      }
      CommitTransaction(tx);
      return Ok(|order|);
    }

    /** The loop over the batches the query returned. */
    method ResealEach(tx: Transaction, order: seq<BatchKey>, draws: seq<Draw>) returns (r: Result<(), StoreError>)
      requires forall i :: 0 <= i < |order| ==> order[i] in tx.batches
      modifies tx
      ensures match ResealRows(old(tx.Tables()), keyring, order, draws, |order|)
              case Err(error) => r == Err(error)
              case Ok(after) => r == Ok(()) && tx.Tables() == after
    {
      ghost var kept := tx.Tables();
      assert ResealRows(kept, keyring, order, draws, 0) == Ok(kept);
      var batches := tx.batches;
      hide ResealBatch, ResealRows, DrawAt;
      var i := 0;
      while i < |order|
        invariant 0 <= i <= |order| && batches == kept.batches
        invariant ResealRows(kept, keyring, order, draws, i) == Ok(tx.Tables())
      {
        ResealTurn(kept, keyring, order, draws, i, tx.Tables());
        var k := order[i];
        var row := batches[k];
        var envelope := ResealBatch(keyring, k.tenant, k.id, row.actor, row.envelope, DrawAt(draws, i));
        if envelope.Err? {
          ResealStops(kept, keyring, order, draws, i + 1);
          return Err(StoreError.Crypto);
        }
        tx.batches := tx.batches[k := row.(envelope := envelope.value)];
        i := i + 1;
      }
      return Ok(());
    }

    /** The second transaction of `rewrap_all`. */
    method ResealBatches(now: real, order: seq<BatchKey>, draws: seq<Draw>) returns (r: Result<(), StoreError>)
      requires Enumerates(order, StaleBatches(PurgeAll(Tables(), now), keyring.active))
      modifies this`secrets, this`batches, this`audit
      ensures (Tables(), r) == ResealTx(old(Tables()), keyring, now, order, draws)
    {
      ghost var kept := PurgeAll(Tables(), now);
      assert forall i :: 0 <= i < |order| ==> order[i] in StaleBatches(kept, keyring.active);
      var tx := Begin();
      tx.batches := map k | k in tx.batches && now < tx.batches[k].expiresAt :: tx.batches[k];
      assert tx.Tables() == kept;
      hide StaleBatches, ResealRows, PurgeAll;
      var resealed := ResealEach(tx, order, draws);
      if resealed.Err? {
        return Err(resealed.error);
      }
      CommitTransaction(tx);
      return Ok(());
    }

    /** Both transactions in turn: a second one that is refused leaves the first one done. */
    method RewrapAll(actor: string, order: seq<StoredVersion>, draws: seq<Draw>, now: real, batchOrder: seq<BatchKey>, batchDraws: seq<Draw>)
      returns (r: Result<nat, StoreError>)
      requires Enumerates(order, Stale(Tables(), keyring.active))
      requires Enumerates(batchOrder, StaleBatches(PurgeAll(Tables(), now), keyring.active))
      modifies this`secrets, this`batches, this`audit
      ensures var (middle, first) := RewrapTx(old(Tables()), keyring, order, draws, actor);
              && middle.batches == old(batches)
              && if first.Err? then Tables() == old(Tables()) && r == first
                 else
                   && Enumerates(batchOrder, StaleBatches(PurgeAll(middle, now), keyring.active))
                   && var (after, second) := ResealTx(middle, keyring, now, batchOrder, batchDraws);
                      Tables() == after && r == if second.Ok? then first else Err(second.error)
    {
      RewrapKeepsBatches(Tables(), keyring, order, draws, actor);
      hide Stale, RewrapTx, ResealTx;
      r := RewrapVersions(order, draws, actor);
      if r.Ok? {
        var resealed := ResealBatches(now, batchOrder, batchDraws);
        if resealed.Err? {
          return Err(resealed.error);
        }
      }
    }
  }

  // ---- One more turn of a loop, and a loop that stops early ----

  lemma ApplyTurn(db: Db, ring: Keyring, ms: seq<Mutation>, actor: string, supply: seq<Seed>, n: nat)
    requires n <= |ms|
    ensures Apply(db, ring, ms, actor, supply, 0) == Ok(db)
    ensures n < |ms| && Apply(db, ring, ms, actor, supply, n).Ok? ==>
              Apply(db, ring, ms, actor, supply, n + 1)
              == ApplyOne(Apply(db, ring, ms, actor, supply, n).value, ring, ms[n], actor, At(supply, n))
  {
    hide ApplyOne;
  }

  /** The tables with one version's envelope replaced and that recorded. */
  function Resealed(db: Db, current: Db, v: StoredVersion, e: Envelope, actor: string): Db
    requires IsStored(db, v)
  {
    Db(SetVersion(current.secrets, v, e), current.batches, current.audit)
      .Record(v.reference.tenant, Some(db.secrets[v.reference].id), actor, RewrapAction)
  }

  lemma RewrapTurn(db: Db, ring: Keyring, order: seq<StoredVersion>, draws: seq<Draw>, actor: string, n: nat, before: Db)
    requires n < |order| && (forall i :: 0 <= i < |order| ==> IsStored(db, order[i]))
    requires RewrapRows(db, ring, order, draws, actor, n) == Ok(before)
    ensures IsStored(db, order[n])
    ensures match RewrapOne(db, ring, order[n], DrawAt(draws, n))
            case Err(error) => RewrapRows(db, ring, order, draws, actor, n + 1) == Err(error)
            case Ok(e) =>
              RewrapRows(db, ring, order, draws, actor, n + 1) == Ok(Resealed(db, before, order[n], e, actor))
  {
    hide RewrapOne, SetVersion, DrawAt;
  }

  lemma ResealTurn(db: Db, ring: Keyring, order: seq<BatchKey>, draws: seq<Draw>, n: nat, before: Db)
    requires n < |order| && (forall i :: 0 <= i < |order| ==> order[i] in db.batches)
    requires ResealRows(db, ring, order, draws, n) == Ok(before)
    ensures var k := order[n];
            match ResealBatch(ring, k.tenant, k.id, db.batches[k].actor, db.batches[k].envelope, DrawAt(draws, n))
            case Err(_) => ResealRows(db, ring, order, draws, n + 1) == Err(StoreError.Crypto)
            case Ok(e) =>
              ResealRows(db, ring, order, draws, n + 1) == Ok(before.(batches := before.batches[k := db.batches[k].(envelope := e)]))
  {
    hide ResealBatch, DrawAt;
  }

  lemma {:induction false} ApplyStops(db: Db, ring: Keyring, ms: seq<Mutation>, actor: string, supply: seq<Seed>, n: nat, error: StoreError)
    requires n <= |ms| && Apply(db, ring, ms, actor, supply, n) == Err(error)
    ensures Apply(db, ring, ms, actor, supply, |ms|) == Err(error)
    decreases |ms| - n
  {
    hide ApplyOne, At;
    if n < |ms| {
      ApplyStops(db, ring, ms, actor, supply, n + 1, error);
    }
  }

  lemma {:induction false} RewrapStops(db: Db, ring: Keyring, order: seq<StoredVersion>, draws: seq<Draw>, actor: string, n: nat, error: StoreError)
    requires n <= |order| && (forall i :: 0 <= i < |order| ==> IsStored(db, order[i]))
    requires RewrapRows(db, ring, order, draws, actor, n) == Err(error)
    ensures RewrapRows(db, ring, order, draws, actor, |order|) == Err(error)
    decreases |order| - n
  {
    hide RewrapOne, SetVersion;
    if n < |order| {
      RewrapStops(db, ring, order, draws, actor, n + 1, error);
    }
  }

  lemma {:induction false} ResealStops(db: Db, ring: Keyring, order: seq<BatchKey>, draws: seq<Draw>, n: nat)
    requires n <= |order| && (forall i :: 0 <= i < |order| ==> order[i] in db.batches)
    requires ResealRows(db, ring, order, draws, n) == Err(StoreError.Crypto)
    ensures ResealRows(db, ring, order, draws, |order|) == Err(StoreError.Crypto)
    decreases |order| - n
  {
    hide ResealBatch;
    if n < |order| {
      ResealStops(db, ring, order, draws, n + 1);
    }
  }

  lemma {:induction false} RewrapRowsKeepBatches(db: Db, ring: Keyring, order: seq<StoredVersion>, draws: seq<Draw>, actor: string, n: nat)
    requires n <= |order| && (forall i :: 0 <= i < |order| ==> IsStored(db, order[i]))
    ensures RewrapRows(db, ring, order, draws, actor, n).Ok? ==> RewrapRows(db, ring, order, draws, actor, n).value.batches == db.batches
  {
    hide RewrapOne, SetVersion;
    if n > 0 {
      RewrapRowsKeepBatches(db, ring, order, draws, actor, n - 1);
      assert IsStored(db, order[n - 1]);
    }
  }

  lemma RewrapKeepsBatches(db: Db, ring: Keyring, order: seq<StoredVersion>, draws: seq<Draw>, actor: string)
    requires Enumerates(order, Stale(db, ring.active))
    ensures RewrapTx(db, ring, order, draws, actor).0.batches == db.batches
  {
    StaleIsStored(db, ring.active, order);
    hide Stale;
    RewrapRowsKeepBatches(db, ring, order, draws, actor, |order|);
  }
}
