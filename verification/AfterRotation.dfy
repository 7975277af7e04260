/** What a rotation leaves is what was there: every read and every commit goes as it would have gone
    before, for a reader and a committer that hold the active key alone. */
module AfterRotation {
  import opened Basics
  import opened Core
  import opened Crypto
  import opened Custody
  import opened CustodyRefinement
  import opened Rotation
  import opened RotationRuns

  // ---- Secrets that read alike ----

  predicate SameReading(a: Result<string, CryptoError>, b: Result<string, CryptoError>) {
    a == b || (a.Err? && b.Err?)
  }

  /** Under either disclosure the two envelopes give one value, or neither opens. */
  predicate EnvelopesAlike(read: Reader, r: SecretRef, n: int, a: Envelope, b: Envelope) {
    && SameReading(read(r, n, WorkloadOnly, a), read(r, n, WorkloadOnly, b))
    && SameReading(read(r, n, UserRevealable, a), read(r, n, UserRevealable, b))
  }

  predicate RowsAlike(read: Reader, r: SecretRef, a: SecretRow, b: SecretRow) {
    && b == a.(versions := b.versions) && a.versions.Keys == b.versions.Keys
    && forall n | n in a.versions :: EnvelopesAlike(read, r, n, a.versions[n], b.versions[n])
  }

  predicate SecretsAlike(read: Reader, a: map<SecretRef, SecretRow>, b: map<SecretRef, SecretRow>) {
    a.Keys == b.Keys && forall r | r in a :: RowsAlike(read, r, a[r], b[r])
  }

  lemma CarriedReadsAlike(keys: map<string, string>, active: string, r: SecretRef, n: int, d: Disclosure, was: Envelope, now: Envelope)
    requires NulFree(r) && Carried(ReaderOf(keys), active, r, n, d, was, now)
    ensures EnvelopesAlike(ReaderOf(keys), r, n, was, now)
  {
    if now != was {
      var other := if d == WorkloadOnly then UserRevealable else WorkloadOnly;
      assert Decrypt(keys, r, n, d, now).Ok? && Decrypt(keys, r, n, d, was).Ok?;
      hide Decrypt, NulFree;
      if Decrypt(keys, r, n, other, now).Ok? {
        OneDisclosure(keys, r, n, d, other, now);
      }
      if Decrypt(keys, r, n, other, was).Ok? {
        OneDisclosure(keys, r, n, d, other, was);
      }
    }
  }

  predicate AllNulFree(secrets: map<SecretRef, SecretRow>) {
    forall r | r in secrets :: NulFree(r)
  }

  lemma RotatedReadAlike(keys: map<string, string>, active: string, before: map<SecretRef, SecretRow>, after: map<SecretRef, SecretRow>)
    requires AllNulFree(before) && AllCarried(ReaderOf(keys), active, before, after)
    ensures SecretsAlike(ReaderOf(keys), before, after)
  {
    hide NulFree, ReaderOf, EnvelopesAlike, Carried;
    forall r | r in before
      ensures RowsAlike(ReaderOf(keys), r, before[r], after[r])
    {
      assert RowCarried(ReaderOf(keys), active, r, before[r], after[r]);
      forall n | n in before[r].versions
        ensures EnvelopesAlike(ReaderOf(keys), r, n, before[r].versions[n], after[r].versions[n])
      {
        CarriedReadsAlike(keys, active, r, n, before[r].disclosure, before[r].versions[n], after[r].versions[n]);
      }
    }
  }

  /** A read cannot tell secrets that read alike apart. */
  lemma GetsAlike(keys: map<string, string>, a: Db, b: Db, r: SecretRef)
    requires SecretsAlike(ReaderOf(keys), a.secrets, b.secrets)
    ensures Get(a, keys, r) == Get(b, keys, r)
  {
    hide Decrypt;
    if r in a.secrets && a.secrets[r].current in a.secrets[r].versions {
      var x, y := a.secrets[r], b.secrets[r];
      assert RowsAlike(ReaderOf(keys), r, x, y);
      var n := x.current;
      assert EnvelopesAlike(ReaderOf(keys), r, n, x.versions[n], y.versions[n]);
      assert ReaderOf(keys)(r, n, x.disclosure, x.versions[n]) == Decrypt(keys, r, n, x.disclosure, x.versions[n]);
      assert ReaderOf(keys)(r, n, x.disclosure, y.versions[n]) == Decrypt(keys, r, n, x.disclosure, y.versions[n]);
      match x.disclosure
      case WorkloadOnly =>
      case UserRevealable =>
    }
  }

  // ---- Mutations over secrets that read alike ----

  /** Both databases gained the same log rows. */
  ghost predicate LoggedAlike(a: Db, a': Db, b: Db, b': Db) {
    exists rows: seq<AuditRow> :: a'.audit == a.audit + rows && b'.audit == b.audit + rows
  }

  lemma IdsAlike(read: Reader, a: Db, b: Db)
    requires SecretsAlike(read, a.secrets, b.secrets)
    ensures a.Ids() == b.Ids()
  {
    hide EnvelopesAlike;
    assert forall r | r in a.secrets :: RowsAlike(read, r, a.secrets[r], b.secrets[r]);
  }

  lemma SealsAlike(a: Keyring, b: Keyring, r: SecretRef, n: int, d: Disclosure, value: string, draw: Draw)
    requires SameSealing(a, b)
    ensures Encrypt(a, r, n, d, value, draw) == Encrypt(b, r, n, d, value, draw)
  {
  }

  lemma WrittenAlike(read: Reader, a: map<SecretRef, SecretRow>, b: map<SecretRef, SecretRow>, r: SecretRef, x: SecretRow, y: SecretRow)
    requires SecretsAlike(read, a, b) && RowsAlike(read, r, x, y)
    ensures SecretsAlike(read, a[r := x], b[r := y])
  {
    hide RowsAlike;
  }

  /** The row a put writes over what it found. */
  function PutRow(db: Db, ring: Keyring, input: PutSecret, seed: Seed): SecretRow
    requires Encrypt(ring, input.reference, NextVersion(db, input.reference), input.disclosure, input.value, seed.draw).Ok?
  {
    var r := input.reference;
    var version := NextVersion(db, r);
    var id := if r in db.secrets then db.secrets[r].id else seed.id;
    var older := if r in db.secrets then db.secrets[r].versions else map[];
    var e := Encrypt(ring, r, version, input.disclosure, input.value, seed.draw).value;
    SecretRow(id, input.owner, input.disclosure, Active, version, input.labels, older[version := e])
  }

  function NextVersion(db: Db, r: SecretRef): int {
    if r in db.secrets then db.secrets[r].current + 1 else 1
  }

  lemma PutForm(db: Db, ring: Keyring, input: PutSecret, actor: string, seed: Seed)
    ensures PutTx(db, ring, input, actor, seed).Ok? ==>
      && Encrypt(ring, input.reference, NextVersion(db, input.reference), input.disclosure, input.value, seed.draw).Ok?
      && var row := PutRow(db, ring, input, seed);
         PutTx(db, ring, input, actor, seed).value == db.WithRow(input.reference, row).Record(input.reference.tenant, Some(row.id), actor, PutAction)
  {
    hide Encrypt, ValidateRef, Db.Ids;
  }

  lemma PutsAnswerAlike(read: Reader, a: Db, b: Db, ringA: Keyring, ringB: Keyring, input: PutSecret, actor: string, seed: Seed)
    requires SecretsAlike(read, a.secrets, b.secrets) && SameSealing(ringA, ringB)
    ensures match (PutTx(a, ringA, input, actor, seed), PutTx(b, ringB, input, actor, seed))
            case (Ok(_), Ok(_)) => true
            case (Err(e), Err(e')) => e == e'
            case _ => false
  {
    var r := input.reference;
    IdsAlike(read, a, b);
    assert r in a.secrets ==> RowsAlike(read, r, a.secrets[r], b.secrets[r]);
    SealsAlike(ringA, ringB, r, NextVersion(a, r), input.disclosure, input.value, seed.draw);
    hide Encrypt, ValidateRef, Db.Ids, SecretsAlike, EnvelopesAlike, SameSealing;
  }

  lemma PutRowsAlike(read: Reader, a: Db, b: Db, ringA: Keyring, ringB: Keyring, input: PutSecret, seed: Seed)
    requires SecretsAlike(read, a.secrets, b.secrets) && SameSealing(ringA, ringB)
    requires Encrypt(ringA, input.reference, NextVersion(a, input.reference), input.disclosure, input.value, seed.draw).Ok?
    ensures NextVersion(a, input.reference) == NextVersion(b, input.reference)
    ensures Encrypt(ringB, input.reference, NextVersion(b, input.reference), input.disclosure, input.value, seed.draw).Ok?
    ensures RowsAlike(read, input.reference, PutRow(a, ringA, input, seed), PutRow(b, ringB, input, seed))
  {
    var r := input.reference;
    assert r in a.secrets ==> RowsAlike(read, r, a.secrets[r], b.secrets[r]);
    SealsAlike(ringA, ringB, r, NextVersion(a, r), input.disclosure, input.value, seed.draw);
    SameEnvelopeAlike(read, r, NextVersion(a, r), Encrypt(ringA, r, NextVersion(a, r), input.disclosure, input.value, seed.draw).value);
    hide Encrypt, SecretsAlike, EnvelopesAlike, SameSealing;
  }

  lemma PutsAlike(read: Reader, a: Db, b: Db, ringA: Keyring, ringB: Keyring, input: PutSecret, actor: string, seed: Seed)
    requires SecretsAlike(read, a.secrets, b.secrets) && SameSealing(ringA, ringB)
    ensures match (PutTx(a, ringA, input, actor, seed), PutTx(b, ringB, input, actor, seed))
            case (Ok(a'), Ok(b')) =>
              SecretsAlike(read, a'.secrets, b'.secrets) && LoggedAlike(a, a', b, b') && a'.batches == a.batches && b'.batches == b.batches
            case (Err(e), Err(e')) => e == e'
            case _ => false
  {
    hide PutTx, Encrypt, SecretsAlike, SameSealing, RowsAlike, PutRow;
    PutsAnswerAlike(read, a, b, ringA, ringB, input, actor, seed);
    PutForm(a, ringA, input, actor, seed);
    PutForm(b, ringB, input, actor, seed);
    if PutTx(a, ringA, input, actor, seed).Ok? {
      PutRowsAlike(read, a, b, ringA, ringB, input, seed);
      var r, x, y := input.reference, PutRow(a, ringA, input, seed), PutRow(b, ringB, input, seed);
      assert x.id == y.id by {
        assert RowsAlike(read, r, x, y);
        SameIds(read, r, x, y);
      }
      WrittenAlike(read, a.secrets, b.secrets, r, x, y);
      var rows := [AuditRow(r.tenant, Some(x.id), actor, PutAction)];
      assert PutTx(a, ringA, input, actor, seed).value.audit == a.audit + rows;
      assert PutTx(b, ringB, input, actor, seed).value.audit == b.audit + rows;
    }
  }

  lemma SameIds(read: Reader, r: SecretRef, x: SecretRow, y: SecretRow)
    requires RowsAlike(read, r, x, y)
    ensures x.id == y.id
  {
  }

  lemma SameEnvelopeAlike(read: Reader, r: SecretRef, n: int, e: Envelope)
    ensures EnvelopesAlike(read, r, n, e, e)
  {
  }

  lemma DeletesAlike(read: Reader, a: Db, b: Db, r: SecretRef, actor: string)
    requires SecretsAlike(read, a.secrets, b.secrets)
    ensures match (DeleteTx(a, r, actor), DeleteTx(b, r, actor))
            case (Ok(a'), Ok(b')) =>
              SecretsAlike(read, a'.secrets, b'.secrets) && LoggedAlike(a, a', b, b') && a'.batches == a.batches && b'.batches == b.batches
            case (Err(e), Err(e')) => e == e'
            case _ => false
  {
    hide EnvelopesAlike;
    if r in a.secrets {
      assert RowsAlike(read, r, a.secrets[r], b.secrets[r]);
      var rows := [AuditRow(r.tenant, Some(a.secrets[r].id), actor, DeleteAction)];
      assert DeleteTx(a, r, actor).value.audit == a.audit + rows && DeleteTx(b, r, actor).value.audit == b.audit + rows;
    }
  }

  lemma MutationsAlike(read: Reader, a: Db, b: Db, ringA: Keyring, ringB: Keyring, m: Mutation, actor: string, seed: Seed)
    requires SecretsAlike(read, a.secrets, b.secrets) && SameSealing(ringA, ringB)
    ensures match (ApplyOne(a, ringA, m, actor, seed), ApplyOne(b, ringB, m, actor, seed))
            case (Ok(a'), Ok(b')) =>
              SecretsAlike(read, a'.secrets, b'.secrets) && LoggedAlike(a, a', b, b') && a'.batches == a.batches && b'.batches == b.batches
            case (Err(e), Err(e')) => e == e'
            case _ => false
  {
    hide PutTx, DeleteTx, SecretsAlike, LoggedAlike, SameSealing;
    match m
    case Put(secret) => PutsAlike(read, a, b, ringA, ringB, secret, actor, seed);
    case Delete(r) => DeletesAlike(read, a, b, r, actor);
  }

  lemma LoggedFurther(a: Db, a1: Db, a2: Db, b: Db, b1: Db, b2: Db)
    requires LoggedAlike(a, a1, b, b1) && LoggedAlike(a1, a2, b1, b2)
    ensures LoggedAlike(a, a2, b, b2)
  {
    var x: seq<AuditRow> :| a1.audit == a.audit + x && b1.audit == b.audit + x;
    var y: seq<AuditRow> :| a2.audit == a1.audit + y && b2.audit == b1.audit + y;
    assert a2.audit == a.audit + (x + y) && b2.audit == b.audit + (x + y);
  }

  lemma LoggedNothing(a: Db, b: Db)
    ensures LoggedAlike(a, a, b, b)
  {
    var none: seq<AuditRow> := [];
    assert a.audit == a.audit + none && b.audit == b.audit + none;
  }

  /** A batch goes alike over secrets that read alike, refusal for refusal. */
  lemma {:induction false} AppliesAlike(read: Reader, a: Db, b: Db, ringA: Keyring, ringB: Keyring,
                                        ms: seq<Mutation>, actor: string, supply: seq<Seed>, n: nat)
    requires n <= |ms| && SecretsAlike(read, a.secrets, b.secrets) && SameSealing(ringA, ringB)
    ensures match (Apply(a, ringA, ms, actor, supply, n), Apply(b, ringB, ms, actor, supply, n))
            case (Ok(a'), Ok(b')) =>
              SecretsAlike(read, a'.secrets, b'.secrets) && LoggedAlike(a, a', b, b') && a'.batches == a.batches && b'.batches == b.batches
            case (Err(e), Err(e')) => e == e'
            case _ => false
  {
    hide ApplyOne, SecretsAlike, LoggedAlike, SameSealing, At;
    if n == 0 {
      LoggedNothing(a, b);
    } else {
      AppliesAlike(read, a, b, ringA, ringB, ms, actor, supply, n - 1);
      if Apply(a, ringA, ms, actor, supply, n - 1).Ok? {
        var a1, b1 := Apply(a, ringA, ms, actor, supply, n - 1).value, Apply(b, ringB, ms, actor, supply, n - 1).value;
        MutationsAlike(read, a1, b1, ringA, ringB, ms[n - 1], actor, At(supply, n - 1));
        var next := ApplyOne(a1, ringA, ms[n - 1], actor, At(supply, n - 1));
        if next.Ok? {
          LoggedFurther(a, a1, next.value, b, b1, ApplyOne(b1, ringB, ms[n - 1], actor, At(supply, n - 1)).value);
        }
      }
    }
  }

  // ---- Reads after a successful rewrap ----

  /** A successful rewrap, with nothing else assumed: the active key alone answers every get as the
      whole keyring did before. */
  lemma GetsAfterRewrap(before: Db, ring: Keyring, order: seq<StoredVersion>, draws: seq<Draw>, actor: string, r: SecretRef)
    requires ring.active in ring.keys && Enumerates(order, Stale(before, ring.active))
    requires RewrapTx(before, ring, order, draws, actor).1.Ok?
    ensures Get(RewrapTx(before, ring, order, draws, actor).0, OnlyActive(ring).keys, r) == Get(before, ring.keys, r)
  {
    var after := RewrapTx(before, ring, order, draws, actor).0;
    hide RewrapTx, Stale;
    RotationMovesEverything(ring.keys, before, ring, order, draws, actor);
    forall q, n | q in before.secrets && n in before.secrets[q].versions
      ensures before.secrets[q].versions[n].keyId in ring.keys
    {
      SealingKeyHeld(ring, before.secrets, after.secrets, q, n);
    }
    hide AllCarried, AllUnder, Get;
    OldKeysNotNeededToRead(ring.keys, before, after, ring, r);
  }

  lemma SealingKeyHeld(ring: Keyring, before: map<SecretRef, SecretRow>, after: map<SecretRef, SecretRow>, q: SecretRef, n: int)
    requires ring.active in ring.keys && AllCarried(ReaderOf(ring.keys), ring.active, before, after) && AllUnder(after, ring.active)
    requires q in before && n in before[q].versions
    ensures before[q].versions[n].keyId in ring.keys
  {
    assert RowCarried(ReaderOf(ring.keys), ring.active, q, before[q], after[q]);
    assert Carried(ReaderOf(ring.keys), ring.active, q, n, before[q].disclosure, before[q].versions[n], after[q].versions[n]);
  }

  // ---- Commits after both rotation transactions ----

  /** What the two commits leave: one answer, secrets that read alike, the same batches up to resealed
      envelopes, the same log rows. */
  ghost predicate CommitsAlike(ring: Keyring, t: real, before: Db, after: Db, was: (Db, Result<(), StoreError>), now: (Db, Result<(), StoreError>)) {
    && was.1 == now.1
    && SecretsAlike(ReaderOf(ring.keys), was.0.secrets, now.0.secrets)
    && BatchesCarried(ring.keys, ring.active, PurgeAll(was.0, t).batches, now.0.batches)
    && LoggedAlike(before, was.0, after, now.0)
  }

  lemma CarriedWithout(ring: Keyring, t: real, before: Db, after: Db, k: BatchKey)
    requires BatchesCarried(ring.keys, ring.active, PurgeAll(before, t).batches, after.batches)
    ensures var was, now := Db(before.secrets, before.batches - {k}, before.audit), Db(after.secrets, after.batches - {k}, after.audit);
            BatchesCarried(ring.keys, ring.active, PurgeAll(was, t).batches, now.batches)
  {
    hide BatchCarried;
  }

  lemma SameBatchesCarried(ring: Keyring, t: real, a: Db, a': Db, b: Db, b': Db)
    requires BatchesCarried(ring.keys, ring.active, PurgeAll(a, t).batches, b.batches)
    requires a'.batches == a.batches && b'.batches == b.batches
    ensures BatchesCarried(ring.keys, ring.active, PurgeAll(a', t).batches, b'.batches)
  {
    assert PurgeAll(a', t).batches == PurgeAll(a, t).batches;
  }

  /** A batch that outlived the reseal opens alike. */
  lemma OpensAlike(ring: Keyring, t: real, at: real, before: Db, after: Db, k: BatchKey)
    requires ring.active in ring.keys && t <= at && BatchesUnder(after.batches, ring.active)
    requires BatchesCarried(ring.keys, ring.active, PurgeAll(before, t).batches, after.batches)
    ensures (k in before.batches && at < before.batches[k].expiresAt) <==> (k in after.batches && at < after.batches[k].expiresAt)
    ensures k in before.batches && at < before.batches[k].expiresAt ==>
      var was, now := before.batches[k], after.batches[k];
      && now.actor == was.actor
      && OpenBatch(OnlyActive(ring).keys, k.tenant, k.id, now.actor, now.envelope) == OpenBatch(ring.keys, k.tenant, k.id, was.actor, was.envelope)
  {
    var kept := PurgeAll(before, t).batches;
    if k in kept {
      var was, now := kept[k], after.batches[k];
      assert BatchCarried(ring.keys, ring.active, k, was, now);
      assert OpenBatch(OnlyActive(ring).keys, k.tenant, k.id, now.actor, now.envelope) == OpenBatch(ring.keys, k.tenant, k.id, now.actor, now.envelope);
    }
  }

  lemma RecordedAlike(a: Db, a1: Db, b: Db, b1: Db, tenant: string, actor: string)
    requires LoggedAlike(a, a1, b, b1)
    ensures LoggedAlike(a, a1.Record(tenant, None, actor, CommitAction), b, b1.Record(tenant, None, actor, CommitAction))
  {
    var rows := [AuditRow(tenant, None, actor, CommitAction)];
    assert a1.Record(tenant, None, actor, CommitAction).audit == a1.audit + rows;
    assert b1.Record(tenant, None, actor, CommitAction).audit == b1.audit + rows;
    LoggedFurther(a, a1, a1.Record(tenant, None, actor, CommitAction), b, b1, b1.Record(tenant, None, actor, CommitAction));
  }

  lemma AppliedCommitsAlike(ring: Keyring, t: real, before: Db, after: Db, k: BatchKey, ms: seq<Mutation>, actor: string, supply: seq<Seed>)
    requires ring.active in ring.keys && SecretsAlike(ReaderOf(ring.keys), before.secrets, after.secrets)
    requires BatchesCarried(ring.keys, ring.active, PurgeAll(before, t).batches, after.batches)
    ensures var was, now := Db(before.secrets, before.batches - {k}, before.audit), Db(after.secrets, after.batches - {k}, after.audit);
            match (Apply(was, ring, ms, actor, supply, |ms|), Apply(now, OnlyActive(ring), ms, actor, supply, |ms|))
            case (Ok(a), Ok(b)) =>
              CommitsAlike(ring, t, before, after, (a.Record(k.tenant, None, actor, CommitAction), Ok(())), (b.Record(k.tenant, None, actor, CommitAction), Ok(())))
            case (Err(e), Err(e')) => e == e'
            case _ => false
  {
    var was, now := Db(before.secrets, before.batches - {k}, before.audit), Db(after.secrets, after.batches - {k}, after.audit);
    assert SameSealing(ring, OnlyActive(ring));
    hide SecretsAlike, BatchesCarried, LoggedAlike, SameSealing, PurgeAll, Apply;
    AppliesAlike(ReaderOf(ring.keys), was, now, ring, OnlyActive(ring), ms, actor, supply, |ms|);
    CarriedWithout(ring, t, before, after, k);
    if Apply(was, ring, ms, actor, supply, |ms|).Ok? {
      var a, b := Apply(was, ring, ms, actor, supply, |ms|).value, Apply(now, OnlyActive(ring), ms, actor, supply, |ms|).value;
      SameBatchesCarried(ring, t, was, a.Record(k.tenant, None, actor, CommitAction), now, b.Record(k.tenant, None, actor, CommitAction));
      RecordedAlike(was, a, now, b, k.tenant, actor);
      SameLog(before, was, after, now, a.Record(k.tenant, None, actor, CommitAction), b.Record(k.tenant, None, actor, CommitAction));
    }
  }

  lemma SameLog(before: Db, was: Db, after: Db, now: Db, a: Db, b: Db)
    requires LoggedAlike(was, a, now, b) && was.audit == before.audit && now.audit == after.audit
    ensures LoggedAlike(before, a, after, b)
  {
  }

  lemma CommitsOverAlike(ring: Keyring, t: real, before: Db, after: Db, k: BatchKey, at: real, supply: seq<Seed>)
    requires ring.active in ring.keys && t <= at && SecretsAlike(ReaderOf(ring.keys), before.secrets, after.secrets)
    requires BatchesUnder(after.batches, ring.active) && BatchesCarried(ring.keys, ring.active, PurgeAll(before, t).batches, after.batches)
    ensures CommitsAlike(ring, t, before, after, CommitTx(before, ring, k, at, supply), CommitTx(after, OnlyActive(ring), k, at, supply))
  {
    OpensAlike(ring, t, at, before, after, k);
    LoggedNothing(before, after);
    CarriedWithout(ring, t, before, after, k);
    hide SecretsAlike, BatchesCarried, LoggedAlike, PurgeAll, Apply, OpenBatch, BatchesUnder, OnlyActive;
    if k in before.batches && at < before.batches[k].expiresAt {
      var row := before.batches[k];
      match OpenBatch(ring.keys, k.tenant, k.id, row.actor, row.envelope)
      case Ok(Batch(expiry, ms)) =>
        if at < expiry as real {
          AppliedCommitsAlike(ring, t, before, after, k, ms, row.actor, supply);
        } else {
          SameLog(before, before, after, after, Db(before.secrets, before.batches - {k}, before.audit), Db(after.secrets, after.batches - {k}, after.audit));
        }
      case _ =>
    }
  }

  /** A rotation, both transactions of it, changes no commit: from then on a committer with the active
      key alone gets the answer the whole keyring would have had, and leaves secrets that read the same
      under every disclosure, the same batches and the same log rows. */
  lemma CommitsAfterRotation(before: Db, ring: Keyring, order: seq<StoredVersion>, draws: seq<Draw>, actor: string,
                             t: real, batchOrder: seq<BatchKey>, batchDraws: seq<Draw>, k: BatchKey, at: real, supply: seq<Seed>)
    requires ring.active in ring.keys && AllNulFree(before.secrets)
    requires Enumerates(order, Stale(before, ring.active)) && RewrapTx(before, ring, order, draws, actor).1.Ok?
    requires var middle := RewrapTx(before, ring, order, draws, actor).0;
             && Enumerates(batchOrder, StaleBatches(PurgeAll(middle, t), ring.active))
             && ResealTx(middle, ring, t, batchOrder, batchDraws).1.Ok?
    requires t <= at
    ensures var middle := RewrapTx(before, ring, order, draws, actor).0;
            var after := ResealTx(middle, ring, t, batchOrder, batchDraws).0;
            CommitsAlike(ring, t, before, after, CommitTx(before, ring, k, at, supply), CommitTx(after, OnlyActive(ring), k, at, supply))
  {
    hide RewrapTx, ResealTx, Stale, StaleBatches, Enumerates, SecretsAlike, AllCarried, AllUnder, BatchesCarried, BatchesUnder, CommitsAlike, CommitTx, AllNulFree;
    var middle := RewrapTx(before, ring, order, draws, actor).0;
    var after := ResealTx(middle, ring, t, batchOrder, batchDraws).0;
    RotationMovesEverything(ring.keys, before, ring, order, draws, actor);
    RotatedReadAlike(ring.keys, ring.active, before.secrets, middle.secrets);
    ResealMovesEverything(ring.keys, middle, ring, t, batchOrder, batchDraws);
    SameBatchesCarried(ring, t, middle, before, after, after);
    CommitsOverAlike(ring, t, before, after, k, at, supply);
  }
}
