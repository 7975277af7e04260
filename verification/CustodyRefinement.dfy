/** The encrypted four-table store refines the simple one: over every interleaving of transactions
    its reads, refusals and commits are those of a plain map. */
module CustodyRefinement {
  import opened Basics
  import opened Core
  import opened Crypto
  import opened Custody
  import opened PlainStore

  // ---- What every reachable state keeps ----

  /** Every secret's version rows are exactly 1 to its current version. */
  predicate Numbered(row: SecretRow) {
    && row.current >= 1
    && (forall n | n in row.versions :: 1 <= n <= row.current)
    && (forall n | 1 <= n <= row.current :: n in row.versions)
  }

  /** How a stored envelope reads as a version of a reference. The lemmas about rows and versions hold
      for any reader; only sealing needs the keyring's own. */
  type Reader = (SecretRef, int, Disclosure, Envelope) -> Result<string, CryptoError>

  function ReaderOf(universe: map<string, string>): Reader {
    (r: SecretRef, n: int, d: Disclosure, e: Envelope) => Decrypt(universe, r, n, d, e)
  }

  /** The row and its current envelope are the cell. */
  predicate Matches(read: Reader, r: SecretRef, row: SecretRow, c: Cell) {
    && Numbered(row)
    && row.owner == c.owner && row.disclosure == c.disclosure && row.labels == c.labels
    && (row.state == Active <==> c.active) && row.current == c.version
    && read(r, row.current, row.disclosure, row.versions[row.current]) == Ok(c.value)
  }

  predicate CellsMatch(read: Reader, secrets: map<SecretRef, SecretRow>, cells: Cells) {
    && secrets.Keys == cells.Keys
    && forall r | r in cells :: Matches(read, r, secrets[r], cells[r])
  }

  /** Every batch row is held, by the actor and with the sealed payload it was prepared with. */
  predicate BatchesMatch(universe: map<string, string>, db: Db, held: map<BatchKey, Held>) {
    forall k | k in db.batches ::
      && k in held && held[k].actor == db.batches[k].actor
      && OpenBatch(universe, k.tenant, k.id, held[k].actor, db.batches[k].envelope)
         == Ok(Batch(held[k].expiry, held[k].mutations))
  }

  predicate Related(universe: map<string, string>, db: Db, p: Plain) {
    CellsMatch(ReaderOf(universe), db.secrets, p.cells) && BatchesMatch(universe, db, p.held)
  }

  // ---- Single-secret transactions ----

  lemma DecryptUnderMoreKeys(keys: map<string, string>, universe: map<string, string>, r: SecretRef, n: int, d: Disclosure, e: Envelope)
    requires Agrees(keys, universe)
    ensures e.keyId in keys ==> Decrypt(keys, r, n, d, e) == Decrypt(universe, r, n, d, e)
    ensures e.keyId !in keys ==> Decrypt(keys, r, n, d, e) == Err(KeyNotFound)
  {
  }

  /** When a put is accepted, and the row it leaves. */
  lemma PutEffect(db: Db, ring: Keyring, input: PutSecret, actor: string, seed: Seed)
    requires input.reference in db.secrets ==> Numbered(db.secrets[input.reference])
    requires input.reference !in db.secrets && seed.draw.Draw? ==> seed.id !in db.Ids()
    ensures var r := input.reference;
            var known := r in db.secrets;
            var version := if known then db.secrets[r].current + 1 else 1;
            var older := if known then db.secrets[r].versions else map[];
            match PutTx(db, ring, input, actor, seed)
            case Ok(after) =>
              && ValidateRef(r).Ok? && CanSeal(ring, seed.draw) && version <= MAX_I64
              && r in after.secrets && after.secrets == db.secrets[r := after.secrets[r]]
              && var row := after.secrets[r];
                 && Encrypt(ring, r, version, input.disclosure, input.value, seed.draw).Ok?
                 && row == SecretRow(if known then db.secrets[r].id else seed.id, input.owner, input.disclosure, Active, version, input.labels,
                                     older[version := Encrypt(ring, r, version, input.disclosure, input.value, seed.draw).value])
                 && Numbered(row)
                 && after.batches == db.batches
                 && after.audit == db.audit + [AuditRow(r.tenant, Some(row.id), actor, PutAction)]
            case Err(e) =>
              && e == (if ValidateRef(r).Err? then ValidateRef(r).error
                       else if !CanSeal(ring, seed.draw) then StoreError.Crypto
                       else Unavailable)
              && (ValidateRef(r).Ok? && CanSeal(ring, seed.draw) ==> version > MAX_I64)
  {
  }

  /** No two rows share an identifier. */
  predicate IdsApart(db: Db) {
    forall q, r | q in db.secrets && r in db.secrets && q != r :: db.secrets[q].id != db.secrets[r].id
  }

  /** Whatever is drawn for it, a put that is accepted takes no other row's identifier and overwrites no
      version. */
  lemma PutOverwritesNothing(db: Db, ring: Keyring, input: PutSecret, actor: string, seed: Seed)
    requires IdsApart(db) && PutTx(db, ring, input, actor, seed).Ok?
    ensures var r, after := input.reference, PutTx(db, ring, input, actor, seed).value;
            && IdsApart(after) && r in after.secrets
            && (r in db.secrets ==> forall n | n in db.secrets[r].versions ::
                  n in after.secrets[r].versions && after.secrets[r].versions[n] == db.secrets[r].versions[n])
  {
    var r := input.reference;
    hide Encrypt, ValidateRef;
    assert forall q | q in db.secrets :: db.secrets[q].id in db.Ids();
  }

  /** What was just sealed reads back, for anyone holding the sealing key. */
  lemma SealedReadsBack(universe: map<string, string>, ring: Keyring, r: SecretRef, n: int, d: Disclosure, value: string, draw: Draw)
    requires Agrees(ring.keys, universe) && Encrypt(ring, r, n, d, value, draw).Ok?
    ensures ReaderOf(universe)(r, n, d, Encrypt(ring, r, n, d, value, draw).value) == Ok(value)
  {
  }

  lemma ReplacedMatches(read: Reader, secrets: map<SecretRef, SecretRow>, cells: Cells, r: SecretRef, row: SecretRow, c: Cell)
    requires CellsMatch(read, secrets, cells) && Matches(read, r, row, c)
    ensures CellsMatch(read, secrets[r := row], cells[r := c])
  {
    hide Matches;
  }

  lemma PutKeeps(universe: map<string, string>, db: Db, cells: Cells, ring: Keyring, input: PutSecret, actor: string, seed: Seed)
    requires CellsMatch(ReaderOf(universe), db.secrets, cells) && Agrees(ring.keys, universe)
    requires seed.draw.Draw? ==> seed.id !in db.Ids()
    ensures match (PutTx(db, ring, input, actor, seed), PutCell(cells, ring, input, seed.draw))
            case (Ok(after), Ok(cells')) => CellsMatch(ReaderOf(universe), after.secrets, cells') && after.batches == db.batches
            case (Err(e), Err(e')) => e == e'
            case _ => false
  {
    var r, read := input.reference, ReaderOf(universe);
    assert r in db.secrets ==> Matches(read, r, db.secrets[r], cells[r]);
    assert r in db.secrets <==> r in cells;
    PutEffect(db, ring, input, actor, seed);
    hide PutTx, CellsMatch, ReaderOf, Encrypt;
    if PutTx(db, ring, input, actor, seed).Ok? {
      var after := PutTx(db, ring, input, actor, seed).value;
      var row := after.secrets[r];
      var c := Cell(input.value, input.owner, input.disclosure, input.labels, true, row.current);
      assert PutCell(cells, ring, input, seed.draw) == Ok(cells[r := c]);
      SealedReadsBack(universe, ring, r, row.current, input.disclosure, input.value, seed.draw);
      ReplacedMatches(read, db.secrets, cells, r, row, c);
    }
  }

  lemma DeleteKeeps(read: Reader, db: Db, cells: Cells, r: SecretRef, actor: string)
    requires CellsMatch(read, db.secrets, cells)
    ensures match DeleteTx(db, r, actor)
            case Ok(after) => r in cells && CellsMatch(read, after.secrets, cells - {r}) && after.batches == db.batches
            case Err(e) => r !in cells && e == NotFound
  {
  }

  lemma RevokeKeeps(read: Reader, db: Db, cells: Cells, r: SecretRef, actor: string)
    requires CellsMatch(read, db.secrets, cells)
    ensures match RevokeTx(db, r, actor)
            case Ok(after) => r in cells && CellsMatch(read, after.secrets, cells[r := cells[r].(active := false)]) && after.batches == db.batches
            case Err(e) => r !in cells && e == NotFound
  {
    if r in db.secrets {
      assert Matches(read, r, db.secrets[r], cells[r]);
    }
  }

  // ---- A batch of mutations ----

  /** Every identifier the tables have seen. */
  function Known(db: Db): set<Uuid> {
    db.Ids() + AuditIds(db.audit)
  }

  function Supplied(supply: seq<Seed>, n: nat): set<Uuid> {
    set i | 0 <= i < n && i < |supply| :: supply[i].id
  }

  lemma RecordedIds(db: Db, tenant: string, id: Option<Uuid>, actor: string, action: Action)
    ensures AuditIds(db.Record(tenant, id, actor, action).audit) == AuditIds(db.audit) + (if id.Some? then {id.value} else {})
  {
    var after := db.audit + [AuditRow(tenant, id, actor, action)];
    forall u | u in AuditIds(db.audit) + (if id.Some? then {id.value} else {})
      ensures u in AuditIds(after)
    {
      if u in AuditIds(db.audit) {
        var i :| 0 <= i < |db.audit| && db.audit[i].id == Some(u);
        assert after[i].id == Some(u);
      } else {
        assert after[|db.audit|].id == Some(u);
      }
    }
  }

  lemma MutationKnows(db: Db, ring: Keyring, m: Mutation, actor: string, seed: Seed)
    requires ApplyOne(db, ring, m, actor, seed).Ok?
    ensures Known(ApplyOne(db, ring, m, actor, seed).value) <= Known(db) + if seed.draw.Draw? then {seed.id} else {}
  {
    var after := ApplyOne(db, ring, m, actor, seed).value;
    var r := m.Target();
    var id := if r in db.secrets then db.secrets[r].id else seed.id;
    RecordedIds(db, r.tenant, Some(id), actor, if m.Put? then PutAction else DeleteAction);
    assert after.Ids() <= db.Ids() + {id};
    assert r in db.secrets ==> id in db.Ids();
  }

  /** The supply stays fresh as it is used up. */
  lemma {:induction false} ApplyKnows(db: Db, ring: Keyring, ms: seq<Mutation>, actor: string, supply: seq<Seed>, n: nat)
    requires n <= |ms| && Apply(db, ring, ms, actor, supply, n).Ok?
    ensures Known(Apply(db, ring, ms, actor, supply, n).value) <= Known(db) + Supplied(supply, n)
  {
    if n > 0 {
      ApplyKnows(db, ring, ms, actor, supply, n - 1);
      MutationKnows(Apply(db, ring, ms, actor, supply, n - 1).value, ring, ms[n - 1], actor, At(supply, n - 1));
      if n - 1 < |supply| {
        assert supply[n - 1].id in Supplied(supply, n);
      }
    }
  }

  lemma NextSeedFresh(db: Db, ring: Keyring, ms: seq<Mutation>, actor: string, supply: seq<Seed>, n: nat)
    requires n < |ms| && Apply(db, ring, ms, actor, supply, n).Ok? && FreshSupply(db, supply)
    ensures At(supply, n).draw.Draw? ==> At(supply, n).id !in Known(Apply(db, ring, ms, actor, supply, n).value)
  {
    ApplyKnows(db, ring, ms, actor, supply, n);
  }

  /** A batch applied row by row is the batch folded over the map, refusals included. */
  lemma {:induction false} ApplyKeeps(universe: map<string, string>, db: Db, cells: Cells, ring: Keyring,
                                      ms: seq<Mutation>, actor: string, supply: seq<Seed>, n: nat)
    requires n <= |ms| && CellsMatch(ReaderOf(universe), db.secrets, cells) && Agrees(ring.keys, universe) && FreshSupply(db, supply)
    ensures match (Apply(db, ring, ms, actor, supply, n), MutateCells(cells, ring, ms, supply, n))
            case (Ok(after), Ok(cells')) => CellsMatch(ReaderOf(universe), after.secrets, cells') && after.batches == db.batches
            case (Err(e), Err(e')) => e == e'
            case _ => false
  {
    hide CellsMatch, ReaderOf, PutTx, PutCell, DeleteTx, FreshSupply, Agrees;
    if n > 0 {
      ApplyKeeps(universe, db, cells, ring, ms, actor, supply, n - 1);
      if Apply(db, ring, ms, actor, supply, n - 1).Ok? {
        var before := Apply(db, ring, ms, actor, supply, n - 1).value;
        var cells' := MutateCells(cells, ring, ms, supply, n - 1).value;
        NextSeedFresh(db, ring, ms, actor, supply, n - 1);
        match ms[n - 1]
        case Put(secret) => PutKeeps(universe, before, cells', ring, secret, actor, At(supply, n - 1));
        case Delete(r) => DeleteKeeps(ReaderOf(universe), before, cells', r, actor);
      }
    }
  }

  // ---- Commit, and the other steps on held batches ----

  lemma CommitKeeps(universe: map<string, string>, db: Db, p: Plain, ring: Keyring, k: BatchKey, at: real, supply: seq<Seed>)
    requires Related(universe, db, p) && Agrees(ring.keys, universe) && FreshSupply(db, supply)
    ensures var step := CommitStep(ring, k, at, supply);
            var (after, outcome) := Next(db, step);
            Related(universe, after, Advance(p, step, outcome)) && Allows(p, step, outcome)
  {
    if k in db.batches && at < db.batches[k].expiresAt {
      var row := db.batches[k];
      var taken := Db(db.secrets, db.batches - {k}, db.audit);
      var h := p.held[k];
      assert OpenBatch(ring.keys, k.tenant, k.id, row.actor, row.envelope).Ok? ==>
          OpenBatch(ring.keys, k.tenant, k.id, row.actor, row.envelope) == Ok(Batch(h.expiry, h.mutations));
      assert FreshSupply(taken, supply);
      hide CellsMatch, OpenBatch, FreshSupply;
      ApplyKeeps(universe, taken, p.cells, ring, h.mutations, row.actor, supply, |h.mutations|);
    }
  }
}
