/** Key rotation: what a rewrap and a reseal do to every version and batch, exactly when they
    succeed, and what is left to do afterwards. */
module Rotation {
  import opened Basics
  import opened Core
  import opened Crypto
  import opened Custody
  import opened PlainStore
  import opened CustodyRefinement

  // ---- The version rows ----

  /** One version either kept its envelope, or has one under `active` that reads the same. */
  predicate Carried(read: Reader, active: string, r: SecretRef, n: int, d: Disclosure, was: Envelope, now: Envelope) {
    || now == was
    || (now.keyId == active && read(r, n, d, now).Ok? && read(r, n, d, now) == read(r, n, d, was))
  }

  predicate RowCarried(read: Reader, active: string, r: SecretRef, before: SecretRow, after: SecretRow) {
    && after == before.(versions := after.versions)
    && after.versions.Keys == before.versions.Keys
    && forall n | n in before.versions :: Carried(read, active, r, n, before.disclosure, before.versions[n], after.versions[n])
  }

  predicate AllCarried(read: Reader, active: string, before: map<SecretRef, SecretRow>, after: map<SecretRef, SecretRow>) {
    && after.Keys == before.Keys
    && forall r | r in before :: RowCarried(read, active, r, before[r], after[r])
  }

  lemma RewrapOneReads(universe: map<string, string>, db: Db, ring: Keyring, v: StoredVersion, draw: Draw)
    requires Agrees(ring.keys, universe) && IsStored(db, v) && RewrapOne(db, ring, v, draw).Ok?
    ensures var row := db.secrets[v.reference];
            var e := RewrapOne(db, ring, v, draw).value;
            && e.keyId == ring.active
            && Carried(ReaderOf(universe), ring.active, v.reference, v.number, row.disclosure, row.versions[v.number], e)
  {
    var row := db.secrets[v.reference];
    DecryptUnderMoreKeys(ring.keys, universe, v.reference, v.number, row.disclosure, row.versions[v.number]);
    SealedReadsBack(universe, ring, v.reference, v.number, row.disclosure,
                    Decrypt(ring.keys, v.reference, v.number, row.disclosure, row.versions[v.number]).value, draw);
  }

  lemma SetVersionCarries(read: Reader, active: string, db: Db, middle: map<SecretRef, SecretRow>, v: StoredVersion, e: Envelope)
    requires IsStored(db, v) && AllCarried(read, active, db.secrets, middle) && e.keyId == active
    requires Carried(read, active, v.reference, v.number, db.secrets[v.reference].disclosure, db.secrets[v.reference].versions[v.number], e)
    ensures AllCarried(read, active, db.secrets, SetVersion(middle, v, e))
  {
    assert RowCarried(read, active, v.reference, db.secrets[v.reference], middle[v.reference]);
    hide Carried;
  }

  predicate UnderActive(secrets: map<SecretRef, SecretRow>, v: StoredVersion, active: string) {
    && v.reference in secrets && v.number in secrets[v.reference].versions
    && secrets[v.reference].versions[v.number].keyId == active
  }

  lemma SetVersionActive(middle: map<SecretRef, SecretRow>, v: StoredVersion, e: Envelope, active: string, w: StoredVersion)
    requires v.reference in middle && e.keyId == active && (w == v || UnderActive(middle, w, active))
    ensures UnderActive(SetVersion(middle, v, e), w, active)
  {
  }

  /** After the first `n` rows: all of those are under the active key and nothing reads differently. */
  lemma {:induction false} RewrapRowsCarry(universe: map<string, string>, db: Db, ring: Keyring,
                                           order: seq<StoredVersion>, draws: seq<Draw>, actor: string, n: nat)
    requires n <= |order| && (forall i :: 0 <= i < |order| ==> IsStored(db, order[i])) && Agrees(ring.keys, universe)
    requires RewrapRows(db, ring, order, draws, actor, n).Ok?
    ensures var after := RewrapRows(db, ring, order, draws, actor, n).value;
            && AllCarried(ReaderOf(universe), ring.active, db.secrets, after.secrets) && after.batches == db.batches
            && (forall i :: 0 <= i < n ==> UnderActive(after.secrets, order[i], ring.active))
  {
    hide RowCarried, ReaderOf, Carried, RewrapOne, SetVersion, UnderActive;
    if n == 0 {
      NothingCarried(ReaderOf(universe), ring.active, db.secrets);
    } else {
      RewrapRowsCarry(universe, db, ring, order, draws, actor, n - 1);
      var before := RewrapRows(db, ring, order, draws, actor, n - 1).value;
      var v := order[n - 1];
      assert IsStored(db, v);
      RewrapOneReads(universe, db, ring, v, DrawAt(draws, n - 1));
      var e := RewrapOne(db, ring, v, DrawAt(draws, n - 1)).value;
      SetVersionCarries(ReaderOf(universe), ring.active, db, before.secrets, v, e);
      forall i | 0 <= i < n
        ensures UnderActive(SetVersion(before.secrets, v, e), order[i], ring.active)
      {
        SetVersionActive(before.secrets, v, e, ring.active, order[i]);
      }
    }
  }

  lemma NothingCarried(read: Reader, active: string, secrets: map<SecretRef, SecretRow>)
    ensures AllCarried(read, active, secrets, secrets)
  {
  }

  lemma CellsCarried(read: Reader, active: string, before: map<SecretRef, SecretRow>, after: map<SecretRef, SecretRow>, cells: Cells)
    requires CellsMatch(read, before, cells) && AllCarried(read, active, before, after)
    ensures CellsMatch(read, after, cells)
  {
    forall r | r in cells
      ensures Matches(read, r, after[r], cells[r])
    {
      assert Matches(read, r, before[r], cells[r]) && RowCarried(read, active, r, before[r], after[r]);
      assert before[r].current in before[r].versions;
      assert Carried(read, active, r, before[r].current, before[r].disclosure, before[r].versions[before[r].current], after[r].versions[before[r].current]);
    }
  }

  // ---- When rotation succeeds ----

  predicate Rewrappable(db: Db, ring: Keyring, v: StoredVersion, draw: Draw)
    requires IsStored(db, v)
  {
    var row := db.secrets[v.reference];
    CanSeal(ring, draw) && Decrypt(ring.keys, v.reference, v.number, row.disclosure, row.versions[v.number]).Ok?
  }

  lemma RewrapOneSucceedsIff(db: Db, ring: Keyring, v: StoredVersion, draw: Draw)
    requires IsStored(db, v)
    ensures RewrapOne(db, ring, v, draw).Ok? <==> Rewrappable(db, ring, v, draw)
  {
  }

  lemma {:induction false} RewrapRowsSucceedIff(db: Db, ring: Keyring, order: seq<StoredVersion>, draws: seq<Draw>, actor: string, n: nat)
    requires n <= |order| && forall i :: 0 <= i < |order| ==> IsStored(db, order[i])
    ensures RewrapRows(db, ring, order, draws, actor, n).Ok? <==>
            forall i :: 0 <= i < n ==> Rewrappable(db, ring, order[i], DrawAt(draws, i))
  {
    hide RewrapOne, Rewrappable, IsStored, SetVersion, DrawAt;
    if n > 0 {
      RewrapRowsSucceedIff(db, ring, order, draws, actor, n - 1);
      assert IsStored(db, order[n - 1]);
      RewrapOneSucceedsIff(db, ring, order[n - 1], DrawAt(draws, n - 1));
    }
  }

  /** An envelope is sealed for one disclosure at most. */
  lemma OneDisclosure(keys: map<string, string>, r: SecretRef, n: int, d: Disclosure, d': Disclosure, e: Envelope)
    requires NulFree(r) && Decrypt(keys, r, n, d, e).Ok? && Decrypt(keys, r, n, d', e).Ok?
    ensures d == d'
  {
    AssociatedDataInjective(r, n, d, r, n, d');
  }

  /** The disclosure a version was put with. */
  function PutWith(read: Reader, r: SecretRef, n: int, e: Envelope): Option<Disclosure> {
    if read(r, n, WorkloadOnly, e).Ok? then Some(WorkloadOnly)
    else if read(r, n, UserRevealable, e).Ok? then Some(UserRevealable)
    else None
  }

  /** Every version of a row was put with some disclosure, not always the row's present one. */
  predicate Legible(read: Reader, r: SecretRef, row: SecretRow) {
    NulFree(r) && forall n | n in row.versions :: PutWith(read, r, n, row.versions[n]).Some?
  }

  predicate AllLegible(read: Reader, secrets: map<SecretRef, SecretRow>) {
    forall r | r in secrets :: Legible(read, r, secrets[r])
  }

  /** A stale version that the rotating keyring can move: its key is held, and its secret's
      disclosure has not changed since it was put. */
  predicate Movable(universe: map<string, string>, db: Db, ring: Keyring, v: StoredVersion)
    requires IsStored(db, v)
  {
    var row := db.secrets[v.reference];
    && row.versions[v.number].keyId in ring.keys
    && PutWith(ReaderOf(universe), v.reference, v.number, row.versions[v.number]) == Some(row.disclosure)
  }

  lemma MovableIffDecrypts(universe: map<string, string>, db: Db, ring: Keyring, v: StoredVersion)
    requires Agrees(ring.keys, universe) && IsStored(db, v) && Legible(ReaderOf(universe), v.reference, db.secrets[v.reference])
    ensures var row := db.secrets[v.reference];
            Movable(universe, db, ring, v) <==> Decrypt(ring.keys, v.reference, v.number, row.disclosure, row.versions[v.number]).Ok?
  {
    var row := db.secrets[v.reference];
    var e := row.versions[v.number];
    DecryptUnderMoreKeys(ring.keys, universe, v.reference, v.number, row.disclosure, e);
    var d := PutWith(ReaderOf(universe), v.reference, v.number, e).value;
    assert Decrypt(universe, v.reference, v.number, d, e).Ok?;
    hide AssociatedData, Open, Decrypt;
    if Decrypt(universe, v.reference, v.number, row.disclosure, e).Ok? {
      OneDisclosure(universe, v.reference, v.number, d, row.disclosure, e);
    }
  }

  /** Rotation of the versions succeeds exactly when every stale version's key is held and its
      secret kept one disclosure; a rotation that fails changes nothing. */
  lemma RotationSucceedsIff(universe: map<string, string>, db: Db, ring: Keyring, order: seq<StoredVersion>, draws: seq<Draw>, actor: string)
    requires Agrees(ring.keys, universe) && AllLegible(ReaderOf(universe), db.secrets) && Enumerates(order, Stale(db, ring.active))
    requires forall i :: 0 <= i < |order| ==> CanSeal(ring, DrawAt(draws, i))
    ensures var (after, result) := RewrapTx(db, ring, order, draws, actor);
            && (result.Ok? <==> forall v | v in Stale(db, ring.active) :: IsStored(db, v) && Movable(universe, db, ring, v))
            && (result.Err? ==> after == db)
  {
    StaleIsStored(db, ring.active, order);
    RewrapRowsSucceedIff(db, ring, order, draws, actor, |order|);
    hide Rewrappable, Movable, Legible, ReaderOf, Stale;
    forall i | 0 <= i < |order|
      ensures Rewrappable(db, ring, order[i], DrawAt(draws, i)) <==> Movable(universe, db, ring, order[i])
    {
      OneRowSucceedsIff(universe, db, ring, order[i], DrawAt(draws, i));
    }
    forall v | v in Stale(db, ring.active)
      ensures exists i :: 0 <= i < |order| && order[i] == v
    {
      assert v in order;
    }
  }

  lemma OneRowSucceedsIff(universe: map<string, string>, db: Db, ring: Keyring, v: StoredVersion, draw: Draw)
    requires Agrees(ring.keys, universe) && IsStored(db, v) && Legible(ReaderOf(universe), v.reference, db.secrets[v.reference])
    requires CanSeal(ring, draw)
    ensures Rewrappable(db, ring, v, draw) <==> Movable(universe, db, ring, v)
  {
    hide Movable, Legible, ReaderOf, Decrypt;
    MovableIffDecrypts(universe, db, ring, v);
  }

  // ---- What a successful rotation leaves ----

  predicate AllUnder(secrets: map<SecretRef, SecretRow>, active: string) {
    forall r, n | r in secrets && n in secrets[r].versions :: secrets[r].versions[n].keyId == active
  }

  lemma NoneStaleIff(db: Db, active: string)
    ensures AllUnder(db.secrets, active) <==> Stale(db, active) == {}
  {
    if !AllUnder(db.secrets, active) {
      var r, n :| r in db.secrets && n in db.secrets[r].versions && db.secrets[r].versions[n].keyId != active;
      assert StoredVersion(r, n) in Stale(db, active);
    }
  }

  /** A successful rewrap loses nothing: every version keeps its plaintext and is under the active
      key, the row count it reports is the number that were stale, and a second run has nothing to
      do. */
  lemma RotationMovesEverything(universe: map<string, string>, db: Db, ring: Keyring, order: seq<StoredVersion>, draws: seq<Draw>, actor: string)
    requires Agrees(ring.keys, universe) && Enumerates(order, Stale(db, ring.active))
    requires RewrapTx(db, ring, order, draws, actor).1.Ok?
    ensures var (after, result) := RewrapTx(db, ring, order, draws, actor);
            && AllCarried(ReaderOf(universe), ring.active, db.secrets, after.secrets)
            && AllUnder(after.secrets, ring.active) && Stale(after, ring.active) == {}
            && after.batches == db.batches
            && result.value == |Stale(db, ring.active)|
  {
    var after := RewrapTx(db, ring, order, draws, actor).0;
    StaleIsStored(db, ring.active, order);
    RewrapRowsCarry(universe, db, ring, order, draws, actor, |order|);
    forall r, n | r in after.secrets && n in after.secrets[r].versions
      ensures after.secrets[r].versions[n].keyId == ring.active
    {
      assert RowCarried(ReaderOf(universe), ring.active, r, db.secrets[r], after.secrets[r]);
      if db.secrets[r].versions[n].keyId != ring.active {
        assert StoredVersion(r, n) in Stale(db, ring.active);
        var i :| 0 <= i < |order| && order[i] == StoredVersion(r, n);
        assert UnderActive(after.secrets, order[i], ring.active);
      }
    }
    NoneStaleIff(after, ring.active);
    EnumerationSize(order, Stale(db, ring.active));
  }

  lemma {:induction false} EnumerationSize<T>(order: seq<T>, s: set<T>)
    requires Enumerates(order, s)
    ensures |order| == |s|
  {
    if order == [] {
      assert s == {};
    } else {
      var last := order[|order| - 1];
      var front := order[..|order| - 1];
      forall x | x in s - {last}
        ensures x in front
      {
        var i :| 0 <= i < |order| && order[i] == x;
        assert front[i] == x;
      }
      EnumerationSize(front, s - {last});
    }
  }

  // ---- Held batches ----

  predicate BatchCarried(universe: map<string, string>, active: string, k: BatchKey, was: BatchRow, now: BatchRow) {
    && now.actor == was.actor && now.expiresAt == was.expiresAt
    && (now.envelope == was.envelope ||
        (&& now.envelope.keyId == active
         && OpenBatch(universe, k.tenant, k.id, was.actor, now.envelope).Ok?
         && OpenBatch(universe, k.tenant, k.id, was.actor, now.envelope) == OpenBatch(universe, k.tenant, k.id, was.actor, was.envelope)))
  }

  predicate BatchesCarried(universe: map<string, string>, active: string, before: map<BatchKey, BatchRow>, after: map<BatchKey, BatchRow>) {
    after.Keys == before.Keys && forall k | k in before :: BatchCarried(universe, active, k, before[k], after[k])
  }

  lemma ResealOneReads(universe: map<string, string>, ring: Keyring, k: BatchKey, row: BatchRow, draw: Draw)
    requires Agrees(ring.keys, universe) && ResealBatch(ring, k.tenant, k.id, row.actor, row.envelope, draw).Ok?
    ensures BatchCarried(universe, ring.active, k, row,
                         row.(envelope := ResealBatch(ring, k.tenant, k.id, row.actor, row.envelope, draw).value))
    ensures ResealBatch(ring, k.tenant, k.id, row.actor, row.envelope, draw).value.keyId == ring.active
  {
  }

  lemma {:induction false} ResealRowsCarry(universe: map<string, string>, db: Db, ring: Keyring, order: seq<BatchKey>, draws: seq<Draw>, n: nat)
    requires n <= |order| && (forall i :: 0 <= i < |order| ==> order[i] in db.batches) && Agrees(ring.keys, universe)
    requires ResealRows(db, ring, order, draws, n).Ok?
    ensures var after := ResealRows(db, ring, order, draws, n).value;
            && after.secrets == db.secrets && after.audit == db.audit
            && BatchesCarried(universe, ring.active, db.batches, after.batches)
            && (forall i :: 0 <= i < n ==> after.batches[order[i]].envelope.keyId == ring.active)
  {
    hide ResealBatch, BatchCarried, DrawAt;
    if n == 0 {
      NoBatchCarried(universe, ring.active, db.batches);
    } else {
      ResealRowsCarry(universe, db, ring, order, draws, n - 1);
      var k := order[n - 1];
      ResealOneReads(universe, ring, k, db.batches[k], DrawAt(draws, n - 1));
    }
  }

  lemma NoBatchCarried(universe: map<string, string>, active: string, batches: map<BatchKey, BatchRow>)
    ensures BatchesCarried(universe, active, batches, batches)
  {
  }

  predicate BatchesUnder(batches: map<BatchKey, BatchRow>, active: string) {
    forall k | k in batches :: batches[k].envelope.keyId == active
  }

  /** A successful reseal drops what expired and carries every other batch to the active key. */
  lemma ResealMovesEverything(universe: map<string, string>, db: Db, ring: Keyring, at: real, order: seq<BatchKey>, draws: seq<Draw>)
    requires Agrees(ring.keys, universe) && Enumerates(order, StaleBatches(PurgeAll(db, at), ring.active))
    requires ResealTx(db, ring, at, order, draws).1.Ok?
    ensures var after := ResealTx(db, ring, at, order, draws).0;
            && after.secrets == db.secrets && after.audit == db.audit
            && BatchesCarried(universe, ring.active, PurgeAll(db, at).batches, after.batches)
            && BatchesUnder(after.batches, ring.active)
  {
    var kept, after := PurgeAll(db, at), ResealTx(db, ring, at, order, draws).0;
    assert forall i :: 0 <= i < |order| ==> order[i] in StaleBatches(kept, ring.active);
    ResealRowsCarry(universe, kept, ring, order, draws, |order|);
    hide ResealRows, OpenBatch;
    forall k | k in after.batches
      ensures after.batches[k].envelope.keyId == ring.active
    {
      if kept.batches[k].envelope.keyId != ring.active {
        assert k in StaleBatches(kept, ring.active);
        var i :| 0 <= i < |order| && order[i] == k;
      }
      assert BatchCarried(universe, ring.active, k, kept.batches[k], after.batches[k]);
    }
  }

  lemma BatchesStillMatch(universe: map<string, string>, active: string, db: Db, after: Db, held: map<BatchKey, Held>)
    requires BatchesMatch(universe, db, held) && BatchesCarried(universe, active, db.batches, after.batches)
    ensures BatchesMatch(universe, after, held)
  {
    hide OpenBatch;
    forall k | k in after.batches
      ensures && k in held && held[k].actor == after.batches[k].actor
              && OpenBatch(universe, k.tenant, k.id, held[k].actor, after.batches[k].envelope) == Ok(Batch(held[k].expiry, held[k].mutations))
    {
      assert BatchCarried(universe, active, k, db.batches[k], after.batches[k]);
    }
  }

  // ---- The old keys can go ----

  function OnlyActive(ring: Keyring): Keyring
    requires ring.active in ring.keys
  {
    Keyring(ring.active, map[ring.active := ring.keys[ring.active]])
  }

  /** With every version under the active key, the active key alone gives every answer the whole
      keyring gave before rotation. */
  lemma OldKeysNotNeededToRead(universe: map<string, string>, before: Db, after: Db, ring: Keyring, r: SecretRef)
    requires ring.active in ring.keys && Agrees(ring.keys, universe)
    requires AllCarried(ReaderOf(universe), ring.active, before.secrets, after.secrets) && AllUnder(after.secrets, ring.active)
    requires forall q, n | q in before.secrets && n in before.secrets[q].versions :: before.secrets[q].versions[n].keyId in ring.keys
    ensures Get(after, OnlyActive(ring).keys, r) == Get(before, ring.keys, r)
  {
    hide Decrypt;
    if r in before.secrets && before.secrets[r].current in before.secrets[r].versions {
      var was, now := before.secrets[r], after.secrets[r];
      assert RowCarried(ReaderOf(universe), ring.active, r, was, now);
      var n := was.current;
      assert Carried(ReaderOf(universe), ring.active, r, n, was.disclosure, was.versions[n], now.versions[n]);
      assert ReaderOf(universe)(r, n, was.disclosure, was.versions[n]) == Decrypt(universe, r, n, was.disclosure, was.versions[n]);
      assert ReaderOf(universe)(r, n, was.disclosure, now.versions[n]) == Decrypt(universe, r, n, was.disclosure, now.versions[n]);
      DecryptUnderMoreKeys(ring.keys, universe, r, n, was.disclosure, was.versions[n]);
      DecryptUnderMoreKeys(OnlyActive(ring).keys, universe, r, n, was.disclosure, now.versions[n]);
    }
  }

  predicate SameSealing(a: Keyring, b: Keyring) {
    a.active == b.active && a.active in a.keys && b.active in b.keys && a.keys[a.active] == b.keys[b.active]
  }

  lemma {:induction false} ApplyNeedsActiveOnly(db: Db, a: Keyring, b: Keyring, ms: seq<Mutation>, actor: string, supply: seq<Seed>, n: nat)
    requires n <= |ms| && SameSealing(a, b)
    ensures Apply(db, a, ms, actor, supply, n) == Apply(db, b, ms, actor, supply, n)
  {
    hide ApplyOne, SameSealing, At;
    if n > 0 {
      ApplyNeedsActiveOnly(db, a, b, ms, actor, supply, n - 1);
      if Apply(db, a, ms, actor, supply, n - 1).Ok? {
        MutationNeedsActiveOnly(Apply(db, a, ms, actor, supply, n - 1).value, a, b, ms[n - 1], actor, At(supply, n - 1));
      }
    }
  }

  lemma MutationNeedsActiveOnly(db: Db, a: Keyring, b: Keyring, m: Mutation, actor: string, seed: Seed)
    requires SameSealing(a, b)
    ensures ApplyOne(db, a, m, actor, seed) == ApplyOne(db, b, m, actor, seed)
  {
    hide AssociatedData, MetadataOf, ValidateRef;
  }

  /** And with every batch under it, commits too. */
  lemma OldKeysNotNeededToCommit(db: Db, ring: Keyring, k: BatchKey, at: real, supply: seq<Seed>)
    requires ring.active in ring.keys && BatchesUnder(db.batches, ring.active)
    ensures CommitTx(db, OnlyActive(ring), k, at, supply) == CommitTx(db, ring, k, at, supply)
  {
    if k in db.batches {
      var row := db.batches[k];
      assert OpenBatch(OnlyActive(ring).keys, k.tenant, k.id, row.actor, row.envelope) == OpenBatch(ring.keys, k.tenant, k.id, row.actor, row.envelope);
      hide OpenBatch, Apply;
      var taken := Db(db.secrets, db.batches - {k}, db.audit);
      match OpenBatch(ring.keys, k.tenant, k.id, row.actor, row.envelope)
      case Ok(Batch(_, ms)) => ApplyNeedsActiveOnly(taken, OnlyActive(ring), ring, ms, row.actor, supply, |ms|);
      case _ =>
    }
  }
}
