/** Which disclosure each stored version was put with, as the run's own puts and batches named it, and
    rotation's success in those terms. */
module PutDisclosures {
  import opened Basics
  import opened Core
  import opened Crypto
  import opened Custody
  import opened PlainStore
  import opened CustodyRefinement
  import opened CustodyRuns
  import opened Batches
  import opened Rotation
  import opened RotationRuns
  import opened AfterRotation

  // ---- The disclosures a run names, no envelope looked at ----

  type Named = map<StoredVersion, Disclosure>

  function VersionPut(cells: Cells, r: SecretRef): int {
    if r in cells then cells[r].version + 1 else 1
  }

  function NamePut(named: Named, cells: Cells, input: PutSecret): Named {
    named[StoredVersion(input.reference, VersionPut(cells, input.reference)) := input.disclosure]
  }

  function Forget(named: Named, r: SecretRef): Named {
    map v | v in named && v.reference != r :: named[v]
  }

  function NameMutation(named: Named, cells: Cells, m: Mutation): Named {
    match m
    case Put(secret) => NamePut(named, cells, secret)
    case Delete(r) => Forget(named, r)
  }

  function NameMutations(named: Named, cells: Cells, ring: Keyring, ms: seq<Mutation>, supply: seq<Seed>, n: nat): Named
    requires n <= |ms|
  {
    if n == 0 then named
    else
      var before := NameMutations(named, cells, ring, ms, supply, n - 1);
      match MutateCells(cells, ring, ms, supply, n - 1)
      case Ok(cells') => NameMutation(before, cells', ms[n - 1])
      case Err(_) => before
  }

  /** A put names its version's disclosure, a commit each of its puts' in turn, and a delete takes the
      versions with it; nothing else does. */
  function NameStep(named: Named, p: Plain, step: Step, outcome: Outcome): Named {
    if outcome != Done then named
    else
      match step
      case PutStep(_, input, _) => NamePut(named, p.cells, input)
      case DeleteStep(r, _) => Forget(named, r)
      case CommitStep(ring, k, _, supply) =>
        if k in p.held then NameMutations(named, p.cells, ring, p.held[k].mutations, supply, |p.held[k].mutations|) else named
      case _ => named
  }

  function NamedAfter(steps: seq<Step>, n: nat): Named
    requires n <= |steps|
  {
    if n == 0 then map[]
    else NameStep(NamedAfter(steps, n - 1), PlainAfter(NOTHING, EMPTY, steps, n - 1), steps[n - 1], OutcomeAt(EMPTY, steps, n - 1))
  }

  // ---- Where a name comes from ----

  /** A put that writes this version of the reference, under the disclosure. */
  predicate Writes(cells: Cells, input: PutSecret, v: StoredVersion, d: Disclosure) {
    input.reference == v.reference && input.disclosure == d && VersionPut(cells, v.reference) == v.number
  }

  /** So does the m-th mutation of a batch, over what the earlier ones left. */
  predicate MutationWrites(cells: Cells, ring: Keyring, ms: seq<Mutation>, supply: seq<Seed>, m: nat, v: StoredVersion, d: Disclosure) {
    && m < |ms| && ms[m].Put? && MutateCells(cells, ring, ms, supply, m).Ok?
    && Writes(MutateCells(cells, ring, ms, supply, m).value, ms[m].secret, v, d)
  }

  /** The i-th step put the version, by itself or in a batch, under the disclosure. */
  ghost predicate NamedAt(steps: seq<Step>, i: nat, v: StoredVersion, d: Disclosure)
    requires i < |steps|
  {
    var p := PlainAfter(NOTHING, EMPTY, steps, i);
    && OutcomeAt(EMPTY, steps, i) == Done
    && ((steps[i].PutStep? && Writes(p.cells, steps[i].input, v, d)) ||
        (&& steps[i].CommitStep? && steps[i].key in p.held
         && exists m: nat :: MutationWrites(p.cells, steps[i].ring, p.held[steps[i].key].mutations, steps[i].supply, m, v, d)))
  }

  lemma {:induction false} MutationsName(named: Named, cells: Cells, ring: Keyring, ms: seq<Mutation>, supply: seq<Seed>, n: nat, v: StoredVersion)
    requires n <= |ms| && v in NameMutations(named, cells, ring, ms, supply, n)
    ensures var d := NameMutations(named, cells, ring, ms, supply, n)[v];
            (v in named && named[v] == d) || exists m: nat :: MutationWrites(cells, ring, ms, supply, m, v, d)
  {
    if n > 0 {
      var d := NameMutations(named, cells, ring, ms, supply, n)[v];
      if !MutationWrites(cells, ring, ms, supply, n - 1, v, d) {
        MutationsName(named, cells, ring, ms, supply, n - 1, v);
      }
    }
  }

  /** Every name is that of a put, alone or in a batch, of that reference. */
  lemma {:induction false} NamesComeFromPuts(steps: seq<Step>, n: nat, v: StoredVersion)
    requires n <= |steps| && v in NamedAfter(steps, n)
    ensures exists i :: 0 <= i < n && NamedAt(steps, i, v, NamedAfter(steps, n)[v])
  {
    hide NameMutations, OutcomeAt, PlainAfter;
    var d := NamedAfter(steps, n)[v];
    var before, p, step := NamedAfter(steps, n - 1), PlainAfter(NOTHING, EMPTY, steps, n - 1), steps[n - 1];
    if v in before && before[v] == d {
      NamesComeFromPuts(steps, n - 1, v);
      var i :| 0 <= i < n - 1 && NamedAt(steps, i, v, d);
      assert NamedAt(steps, i, v, d);
    } else {
      if step.CommitStep? && step.key in p.held {
        MutationsName(before, p.cells, step.ring, p.held[step.key].mutations, step.supply, |p.held[step.key].mutations|, v);
      }
      assert NamedAt(steps, n - 1, v, d);
    }
  }

  // ---- The names are the disclosures the envelopes carry ----

  /** A sealed version reads under the disclosure it was put with and no other. */
  lemma SealedPutWith(universe: map<string, string>, ring: Keyring, r: SecretRef, n: int, d: Disclosure, value: string, draw: Draw)
    requires Agrees(ring.keys, universe) && NulFree(r) && Encrypt(ring, r, n, d, value, draw).Ok?
    ensures PutWith(ReaderOf(universe), r, n, Encrypt(ring, r, n, d, value, draw).value) == Some(d)
  {
    SealedReadsBack(universe, ring, r, n, d, value, draw);
    var e := Encrypt(ring, r, n, d, value, draw).value;
    hide Encrypt, Decrypt, NulFree;
    if d == UserRevealable && Decrypt(universe, r, n, WorkloadOnly, e).Ok? {
      OneDisclosure(universe, r, n, d, WorkloadOnly, e);
    }
  }

  predicate RowSigned(read: Reader, r: SecretRef, row: SecretRow, named: Named) {
    && NulFree(r)
    && forall n | n in row.versions ::
         StoredVersion(r, n) in named && PutWith(read, r, n, row.versions[n]) == Some(named[StoredVersion(r, n)])
  }

  predicate AllSigned(read: Reader, secrets: map<SecretRef, SecretRow>, named: Named) {
    forall r | r in secrets :: RowSigned(read, r, secrets[r], named)
  }

  lemma OtherRowSigned(read: Reader, q: SecretRef, row: SecretRow, named: Named, named': Named)
    requires RowSigned(read, q, row, named)
    requires forall n :: StoredVersion(q, n) in named ==> StoredVersion(q, n) in named' && named'[StoredVersion(q, n)] == named[StoredVersion(q, n)]
    ensures RowSigned(read, q, row, named')
  {
    hide PutWith;
  }

  lemma NewRowSigned(universe: map<string, string>, ring: Keyring, r: SecretRef, older: map<int, Envelope>, row: SecretRow,
                     d: Disclosure, value: string, draw: Draw, named: Named)
    requires Agrees(ring.keys, universe) && NulFree(r) && row.current !in older
    requires forall n | n in older ::
      StoredVersion(r, n) in named && PutWith(ReaderOf(universe), r, n, older[n]) == Some(named[StoredVersion(r, n)])
    requires Encrypt(ring, r, row.current, d, value, draw).Ok?
    requires row.versions == older[row.current := Encrypt(ring, r, row.current, d, value, draw).value]
    ensures RowSigned(ReaderOf(universe), r, row, named[StoredVersion(r, row.current) := d])
  {
    SealedPutWith(universe, ring, r, row.current, d, value, draw);
    hide Encrypt, PutWith, NulFree, ReaderOf;
  }

  lemma PutRowSigned(universe: map<string, string>, db: Db, cells: Cells, ring: Keyring, input: PutSecret, actor: string, seed: Seed, named: Named)
    requires AllSigned(ReaderOf(universe), db.secrets, named) && CellsMatch(ReaderOf(universe), db.secrets, cells)
    requires Agrees(ring.keys, universe) && (seed.draw.Draw? ==> seed.id !in db.Ids()) && PutTx(db, ring, input, actor, seed).Ok?
    ensures var r, after := input.reference, PutTx(db, ring, input, actor, seed).value;
            && r in after.secrets && after.secrets == db.secrets[r := after.secrets[r]]
            && RowSigned(ReaderOf(universe), r, after.secrets[r], NamePut(named, cells, input))
  {
    var r := input.reference;
    PutIsValid(db, ring, input, actor, seed);
    PutForm(db, ring, input, actor, seed);
    hide PutTx, Encrypt, NulFree, PutWith, Db.Ids, ReaderOf;
    FoundRow(ReaderOf(universe), db.secrets, cells, named, r);
    hide CellsMatch, AllSigned;
    var row := PutRow(db, ring, input, seed);
    var older := if r in db.secrets then db.secrets[r].versions else map[];
    NewRowSigned(universe, ring, r, older, row, input.disclosure, input.value, seed.draw, named);
  }

  lemma PutIsValid(db: Db, ring: Keyring, input: PutSecret, actor: string, seed: Seed)
    requires PutTx(db, ring, input, actor, seed).Ok?
    ensures NulFree(input.reference)
  {
    ValidIsNulFree(input.reference);
  }

  lemma FoundRow(read: Reader, secrets: map<SecretRef, SecretRow>, cells: Cells, named: Named, r: SecretRef)
    requires AllSigned(read, secrets, named) && CellsMatch(read, secrets, cells)
    ensures r in secrets <==> r in cells
    ensures r in secrets ==>
      && RowSigned(read, r, secrets[r], named) && cells[r].version == secrets[r].current
      && secrets[r].current + 1 !in secrets[r].versions
  {
    hide RowSigned;
    assert r in secrets ==> Matches(read, r, secrets[r], cells[r]);
  }

  lemma PutSigned(universe: map<string, string>, db: Db, cells: Cells, ring: Keyring, input: PutSecret, actor: string, seed: Seed, named: Named)
    requires AllSigned(ReaderOf(universe), db.secrets, named) && CellsMatch(ReaderOf(universe), db.secrets, cells)
    requires Agrees(ring.keys, universe) && (seed.draw.Draw? ==> seed.id !in db.Ids()) && PutTx(db, ring, input, actor, seed).Ok?
    ensures AllSigned(ReaderOf(universe), PutTx(db, ring, input, actor, seed).value.secrets, NamePut(named, cells, input))
  {
    hide PutTx, ReaderOf, CellsMatch, RowSigned, Db.Ids;
    PutRowSigned(universe, db, cells, ring, input, actor, seed, named);
    var r, after := input.reference, PutTx(db, ring, input, actor, seed).value;
    forall q | q in after.secrets
      ensures RowSigned(ReaderOf(universe), q, after.secrets[q], NamePut(named, cells, input))
    {
      if q != r {
        OtherRowSigned(ReaderOf(universe), q, db.secrets[q], named, NamePut(named, cells, input));
      }
    }
  }

  lemma DeleteSigned(read: Reader, secrets: map<SecretRef, SecretRow>, r: SecretRef, named: Named)
    requires AllSigned(read, secrets, named)
    ensures AllSigned(read, secrets - {r}, Forget(named, r))
  {
    forall q | q in secrets - {r}
      ensures RowSigned(read, q, secrets[q], Forget(named, r))
    {
      OtherRowSigned(read, q, secrets[q], named, Forget(named, r));
    }
  }

  lemma {:induction false} ApplySigned(universe: map<string, string>, db: Db, cells: Cells, ring: Keyring, ms: seq<Mutation>, actor: string,
                                       supply: seq<Seed>, n: nat, named: Named)
    requires n <= |ms| && AllSigned(ReaderOf(universe), db.secrets, named) && CellsMatch(ReaderOf(universe), db.secrets, cells)
    requires Agrees(ring.keys, universe) && FreshSupply(db, supply) && Apply(db, ring, ms, actor, supply, n).Ok?
    ensures AllSigned(ReaderOf(universe), Apply(db, ring, ms, actor, supply, n).value.secrets, NameMutations(named, cells, ring, ms, supply, n))
  {
    hide AllSigned, CellsMatch, ReaderOf, PutTx, FreshSupply, Agrees, NamePut, Forget, Known, MutateCells, Db.Ids;
    if n > 0 {
      ApplySigned(universe, db, cells, ring, ms, actor, supply, n - 1, named);
      ApplyKeeps(universe, db, cells, ring, ms, actor, supply, n - 1);
      NextSeedFresh(db, ring, ms, actor, supply, n - 1);
      var before, named' := Apply(db, ring, ms, actor, supply, n - 1).value, NameMutations(named, cells, ring, ms, supply, n - 1);
      match ms[n - 1]
      case Put(secret) =>
        NotInIds(before, At(supply, n - 1).id);
        PutSigned(universe, before, MutateCells(cells, ring, ms, supply, n - 1).value, ring, secret, actor, At(supply, n - 1), named');
      case Delete(r) => DeleteSigned(ReaderOf(universe), before.secrets, r, named');
    }
  }

  lemma NotInIds(db: Db, id: Uuid)
    ensures id !in Known(db) ==> id !in db.Ids()
  {
  }

  lemma AlikeSigned(read: Reader, before: map<SecretRef, SecretRow>, after: map<SecretRef, SecretRow>, named: Named)
    requires AllSigned(read, before, named) && SecretsAlike(read, before, after)
    ensures AllSigned(read, after, named)
  {
    hide NulFree;
    forall r | r in after
      ensures RowSigned(read, r, after[r], named)
    {
      assert RowSigned(read, r, before[r], named) && RowsAlike(read, r, before[r], after[r]);
      forall n | n in after[r].versions
        ensures PutWith(read, r, n, after[r].versions[n]) == PutWith(read, r, n, before[r].versions[n])
      {
        assert EnvelopesAlike(read, r, n, before[r].versions[n], after[r].versions[n]);
      }
    }
  }

  lemma SignedIsNulFree(read: Reader, secrets: map<SecretRef, SecretRow>, named: Named)
    requires AllSigned(read, secrets, named)
    ensures AllNulFree(secrets) && AllLegible(read, secrets)
  {
    hide NulFree, PutWith;
    forall r | r in secrets
      ensures NulFree(r) && Legible(read, r, secrets[r])
    {
      assert RowSigned(read, r, secrets[r], named);
    }
  }

  lemma CommittedBatch(universe: map<string, string>, db: Db, p: Plain, step: Step)
    requires step.CommitStep? && BatchesMatch(universe, db, p.held) && Agrees(step.ring.keys, universe) && Next(db, step).1 == Done
    ensures var k := step.key;
            && k in db.batches && k in p.held
            && var row, ms := db.batches[k], p.held[k].mutations;
               && Apply(Db(db.secrets, db.batches - {k}, db.audit), step.ring, ms, row.actor, step.supply, |ms|).Ok?
               && Next(db, step).0.secrets == Apply(Db(db.secrets, db.batches - {k}, db.audit), step.ring, ms, row.actor, step.supply, |ms|).value.secrets
  {
    hide Apply, BatchAssociatedData;
  }

  lemma CommitSigned(universe: map<string, string>, db: Db, p: Plain, step: Step, named: Named)
    requires step.CommitStep? && Related(universe, db, p) && Supported(universe, db, step) && AllSigned(ReaderOf(universe), db.secrets, named)
    ensures var (after, outcome) := Next(db, step);
            AllSigned(ReaderOf(universe), after.secrets, NameStep(named, p, step, outcome))
  {
    var k := step.key;
    assert FreshSupply(db, step.supply) && Agrees(step.ring.keys, universe);
    hide CellsMatch, BatchesMatch, AllSigned, NameMutations, Apply, CommitTx, FreshSupply, Agrees, ReaderOf;
    if Next(db, step).1 == Done {
      CommittedBatch(universe, db, p, step);
      var ms, taken := p.held[k].mutations, Db(db.secrets, db.batches - {k}, db.audit);
      TakenIsFresh(db, k, step.supply);
      ApplySigned(universe, taken, p.cells, step.ring, ms, db.batches[k].actor, step.supply, |ms|, named);
    } else {
      RefusedCommit(db, step);
    }
  }

  lemma RefusedCommit(db: Db, step: Step)
    requires step.CommitStep? && Next(db, step).1 != Done
    ensures Next(db, step).0.secrets == db.secrets
  {
    hide Apply, OpenBatch;
  }

  lemma TakenIsFresh(db: Db, k: BatchKey, supply: seq<Seed>)
    requires FreshSupply(db, supply)
    ensures FreshSupply(Db(db.secrets, db.batches - {k}, db.audit), supply)
  {
  }

  lemma RewrapSigned(universe: map<string, string>, db: Db, step: Step, named: Named)
    requires step.RewrapStep? && Supported(universe, db, step) && AllSigned(ReaderOf(universe), db.secrets, named)
    ensures AllSigned(ReaderOf(universe), Next(db, step).0.secrets, named)
  {
    var (after, outcome) := Next(db, step);
    hide AllSigned, AllCarried, AllUnder, Stale, RewrapRows, SecretsAlike, AllNulFree, AllLegible;
    if outcome.Rewrapped? {
      RotationMovesEverything(universe, db, step.ring, step.order, step.draws, step.actor);
      SignedIsNulFree(ReaderOf(universe), db.secrets, named);
      RotatedReadAlike(universe, step.ring.active, db.secrets, after.secrets);
      AlikeSigned(ReaderOf(universe), db.secrets, after.secrets, named);
    }
  }

  lemma RevokeSigned(read: Reader, secrets: map<SecretRef, SecretRow>, r: SecretRef, named: Named)
    requires AllSigned(read, secrets, named)
    ensures r in secrets ==> AllSigned(read, secrets[r := secrets[r].(state := Revoked)], named)
  {
    hide PutWith, NulFree;
    assert r in secrets ==> RowSigned(read, r, secrets[r], named);
  }

  lemma StepSigned(universe: map<string, string>, db: Db, p: Plain, step: Step, named: Named)
    requires Related(universe, db, p) && Supported(universe, db, step) && AllSigned(ReaderOf(universe), db.secrets, named)
    ensures var (after, outcome) := Next(db, step);
            AllSigned(ReaderOf(universe), after.secrets, NameStep(named, p, step, outcome))
  {
    hide AllSigned, CellsMatch, BatchesMatch, PutTx, NamePut, Forget, NameMutations, ReaderOf, Db.Ids, FreshSupply, SealPrepared;
    match step {
      case PutStep(ring, input, seed) =>
        assert seed.id !in db.Ids() by {
          assert FreshSupply(db, [seed]);
          OneSeedFresh(db, seed);
        }
        if PutTx(db, ring, input, input.owner, seed).Ok? {
          PutSigned(universe, db, p.cells, ring, input, input.owner, seed, named);
        }
      case DeleteStep(r, _) => DeleteSigned(ReaderOf(universe), db.secrets, r, named);
      case RevokeStep(r, _) => RevokeSigned(ReaderOf(universe), db.secrets, r, named);
      case CommitStep(_, _, _, _) => hide *; CommitSigned(universe, db, p, step, named);
      case RewrapStep(_, _, _, _) => RewrapSigned(universe, db, step, named);
      case ResealStep(ring, at, order, draws) =>
        hide BatchesCarried, BatchesUnder, StaleBatches, ResealRows;
        if Next(db, step).1 == Done {
          ResealMovesEverything(universe, db, ring, at, order, draws);
        }
      case _ =>
    }
  }

  lemma OneSeedFresh(db: Db, seed: Seed)
    requires FreshSupply(db, [seed])
    ensures seed.id !in db.Ids()
  {
    assert [seed][0] == seed;
  }

  /** Over every run, each stored version reads under exactly the disclosure its own put named. */
  lemma {:induction false} RunSigned(universe: map<string, string>, steps: seq<Step>, n: nat)
    requires n <= |steps| && SupportedRun(universe, EMPTY, steps)
    ensures AllSigned(ReaderOf(universe), Run(EMPTY, steps, n).secrets, NamedAfter(steps, n))
  {
    hide Next, Supported, Related, NameStep, RowSigned, ReaderOf, Allows, Advance;
    if n > 0 {
      RunSigned(universe, steps, n - 1);
      RunRefines(universe, steps, n - 1);
      hide AllSigned;
      StepSigned(universe, Run(EMPTY, steps, n - 1), PlainAfter(NOTHING, EMPTY, steps, n - 1), steps[n - 1], NamedAfter(steps, n - 1));
    }
  }

  /** So no reachable reference has a NUL in it. */
  lemma RunNulFree(universe: map<string, string>, steps: seq<Step>, n: nat)
    requires n <= |steps| && SupportedRun(universe, EMPTY, steps)
    ensures AllNulFree(Run(EMPTY, steps, n).secrets)
  {
    hide AllSigned, AllNulFree, AllLegible, Run, NamedAfter;
    RunSigned(universe, steps, n);
    SignedIsNulFree(ReaderOf(universe), Run(EMPTY, steps, n).secrets, NamedAfter(steps, n));
  }

  // ---- Rotation in those terms ----

  /** The key of the version's envelope is held, and its put named the disclosure its secret has now. */
  predicate Kept(db: Db, named: Named, ring: Keyring, v: StoredVersion) {
    && IsStored(db, v) && db.secrets[v.reference].versions[v.number].keyId in ring.keys
    && v in named && named[v] == db.secrets[v.reference].disclosure
  }

  lemma KeptIffMovable(universe: map<string, string>, db: Db, named: Named, ring: Keyring, v: StoredVersion)
    requires IsStored(db, v) && AllSigned(ReaderOf(universe), db.secrets, named)
    ensures Kept(db, named, ring, v) <==> Movable(universe, db, ring, v)
  {
    hide PutWith, ReaderOf, NulFree;
    assert RowSigned(ReaderOf(universe), v.reference, db.secrets[v.reference], named);
  }

  /** In every reachable state a rewrap that can seal succeeds if and only if, for every stale version,
      the key it is under is held and the put step or batch mutation that wrote it named the disclosure
      its secret has now; a rewrap that fails changes nothing. */
  lemma RotationSucceedsIffDisclosuresKept(universe: map<string, string>, steps: seq<Step>, n: nat, ring: Keyring,
                                           order: seq<StoredVersion>, draws: seq<Draw>, actor: string)
    requires n <= |steps| && SupportedRun(universe, EMPTY, steps) && Agrees(ring.keys, universe)
    requires Enumerates(order, Stale(Run(EMPTY, steps, n), ring.active))
    requires forall i :: 0 <= i < |order| ==> CanSeal(ring, DrawAt(draws, i))
    ensures var db := Run(EMPTY, steps, n);
            var (after, result) := RewrapTx(db, ring, order, draws, actor);
            && (result.Ok? <==> forall v | v in Stale(db, ring.active) :: Kept(db, NamedAfter(steps, n), ring, v))
            && (result.Err? ==> after == db)
  {
    hide Next, Supported, AllSigned, Movable, RewrapTx, Run, SupportedRun, Kept, NamedAfter, CanSeal, Enumerates, ReaderOf;
    var db, named := Run(EMPTY, steps, n), NamedAfter(steps, n);
    RunSigned(universe, steps, n);
    SignedIsNulFree(ReaderOf(universe), db.secrets, named);
    RotationSucceedsIff(universe, db, ring, order, draws, actor);
    forall v | v in Stale(db, ring.active)
      ensures IsStored(db, v) && (Kept(db, named, ring, v) <==> Movable(universe, db, ring, v))
    {
      KeptIffMovable(universe, db, named, ring, v);
    }
  }
}
