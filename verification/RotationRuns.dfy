/** Rotation inside whole runs: when it can fail, and what no later step can undo. */
module RotationRuns {
  import opened Basics
  import opened Core
  import opened Crypto
  import opened Custody
  import opened PlainStore
  import opened CustodyRefinement
  import opened Rotation
  import opened CustodyRuns

  // ---- Every stored version stays legible ----

  lemma ValidIsNulFree(r: SecretRef)
    requires ValidateRef(r).Ok?
    ensures NulFree(r)
  {
  }

  lemma NewVersionLegible(universe: map<string, string>, ring: Keyring, r: SecretRef, older: map<int, Envelope>, row: SecretRow,
                          d: Disclosure, value: string, draw: Draw)
    requires Agrees(ring.keys, universe) && NulFree(r)
    requires forall n | n in older :: PutWith(ReaderOf(universe), r, n, older[n]).Some?
    requires Encrypt(ring, r, row.current, d, value, draw).Ok?
    requires row.versions == older[row.current := Encrypt(ring, r, row.current, d, value, draw).value]
    ensures Legible(ReaderOf(universe), r, row)
  {
    SealedReadsBack(universe, ring, r, row.current, d, value, draw);
    hide Encrypt, ReaderOf, NulFree;
  }

  lemma PutLegible(universe: map<string, string>, db: Db, ring: Keyring, input: PutSecret, actor: string, seed: Seed)
    requires AllLegible(ReaderOf(universe), db.secrets) && Agrees(ring.keys, universe) && PutTx(db, ring, input, actor, seed).Ok?
    ensures AllLegible(ReaderOf(universe), PutTx(db, ring, input, actor, seed).value.secrets)
  {
    var r, after := input.reference, PutTx(db, ring, input, actor, seed).value;
    ValidIsNulFree(r);
    var row := after.secrets[r];
    var older := if r in db.secrets then db.secrets[r].versions else map[];
    assert after.secrets == db.secrets[r := row];
    assert Encrypt(ring, r, row.current, input.disclosure, input.value, seed.draw).Ok?;
    assert row.versions == older[row.current := Encrypt(ring, r, row.current, input.disclosure, input.value, seed.draw).value];
    assert r in db.secrets ==> Legible(ReaderOf(universe), r, db.secrets[r]);
    hide PutTx, Encrypt, ReaderOf, PutWith, NulFree;
    NewVersionLegible(universe, ring, r, older, row, input.disclosure, input.value, seed.draw);
  }

  lemma {:induction false} ApplyLegible(universe: map<string, string>, db: Db, ring: Keyring, ms: seq<Mutation>, actor: string,
                                        supply: seq<Seed>, n: nat)
    requires n <= |ms| && AllLegible(ReaderOf(universe), db.secrets) && Agrees(ring.keys, universe)
    requires Apply(db, ring, ms, actor, supply, n).Ok?
    ensures AllLegible(ReaderOf(universe), Apply(db, ring, ms, actor, supply, n).value.secrets)
  {
    hide PutTx, ReaderOf, Legible;
    if n > 0 {
      ApplyLegible(universe, db, ring, ms, actor, supply, n - 1);
      if ms[n - 1].Put? {
        PutLegible(universe, Apply(db, ring, ms, actor, supply, n - 1).value, ring, ms[n - 1].secret, actor, At(supply, n - 1));
      }
    }
  }

  lemma CarriedLegible(read: Reader, active: string, before: map<SecretRef, SecretRow>, after: map<SecretRef, SecretRow>)
    requires AllLegible(read, before) && AllCarried(read, active, before, after)
    ensures AllLegible(read, after)
  {
    forall r | r in after
      ensures Legible(read, r, after[r])
    {
      assert Legible(read, r, before[r]) && RowCarried(read, active, r, before[r], after[r]);
      forall n | n in after[r].versions
        ensures PutWith(read, r, n, after[r].versions[n]).Some?
      {
        var d := before[r].disclosure;
        assert d == WorkloadOnly || d == UserRevealable;
        assert Carried(read, active, r, n, d, before[r].versions[n], after[r].versions[n]);
        assert PutWith(read, r, n, before[r].versions[n]).Some?;
      }
    }
  }

  lemma StepLegible(universe: map<string, string>, db: Db, step: Step)
    requires AllLegible(ReaderOf(universe), db.secrets) && Supported(universe, db, step)
    ensures AllLegible(ReaderOf(universe), Next(db, step).0.secrets)
  {
    var (after, outcome) := Next(db, step);
    hide Legible, PutTx, ReaderOf, Apply, Enumerates, Stale, StaleBatches, ResealRows, RewrapRows, AllCarried;
    match step {
      case PutStep(ring, input, seed) =>
        if outcome == Done {
          PutLegible(universe, db, ring, input, input.owner, seed);
        }
      case CommitStep(ring, k, at, supply) =>
        if outcome == Done {
          var row := db.batches[k];
          var ms := OpenBatch(ring.keys, k.tenant, k.id, row.actor, row.envelope).value.mutations;
          ApplyLegible(universe, Db(db.secrets, db.batches - {k}, db.audit), ring, ms, row.actor, supply, |ms|);
        }
      case RewrapStep(ring, order, draws, actor) =>
        if outcome.Rewrapped? {
          RotationMovesEverything(universe, db, ring, order, draws, actor);
          CarriedLegible(ReaderOf(universe), ring.active, db.secrets, after.secrets);
        }
      case ResealStep(ring, at, order, draws) =>
        if outcome == Done {
          ResealMovesEverything(universe, db, ring, at, order, draws);
        }
      case RevokeStep(r, _) => RevokeLegible(ReaderOf(universe), db.secrets, r);
      case _ =>
    }
  }

  lemma RevokeLegible(read: Reader, secrets: map<SecretRef, SecretRow>, r: SecretRef)
    requires AllLegible(read, secrets)
    ensures r in secrets ==> AllLegible(read, secrets[r := secrets[r].(state := Revoked)])
  {
    assert r in secrets ==> Legible(read, r, secrets[r]);
  }

  lemma {:induction false} RunLegible(universe: map<string, string>, steps: seq<Step>, n: nat)
    requires n <= |steps| && SupportedRun(universe, EMPTY, steps)
    ensures AllLegible(ReaderOf(universe), Run(EMPTY, steps, n).secrets)
  {
    hide Next, Supported, Legible, ReaderOf;
    if n > 0 {
      RunLegible(universe, steps, n - 1);
      hide AllLegible;
      StepLegible(universe, Run(EMPTY, steps, n - 1), steps[n - 1]);
    }
  }

  /** In any reachable state, rewrapping under a keyring that can seal succeeds exactly when it holds
      the key of every stale version and no such version was put under a disclosure its secret no
      longer has; otherwise no secret changes. */
  lemma ReachableRotationSucceedsIff(universe: map<string, string>, steps: seq<Step>, n: nat, ring: Keyring,
                                     order: seq<StoredVersion>, draws: seq<Draw>, actor: string)
    requires n <= |steps| && SupportedRun(universe, EMPTY, steps) && Agrees(ring.keys, universe)
    requires Enumerates(order, Stale(Run(EMPTY, steps, n), ring.active))
    requires forall i :: 0 <= i < |order| ==> CanSeal(ring, DrawAt(draws, i))
    ensures var db := Run(EMPTY, steps, n);
            var (after, result) := RewrapTx(db, ring, order, draws, actor);
            && (result.Ok? <==> forall v | v in Stale(db, ring.active) :: IsStored(db, v) && Movable(universe, db, ring, v))
            && (result.Err? ==> after == db)
  {
    hide Next, Supported, AllLegible, Movable, Stale, RewrapTx, Run;
    RunLegible(universe, steps, n);
    RotationSucceedsIff(universe, Run(EMPTY, steps, n), ring, order, draws, actor);
  }

  // ---- The hypothesis is needed ----

  const TOKEN: SecretRef := SecretRef("t", "n", "k")
  const OLD_RING: Keyring := Keyring("v1", map["v1" := "one"])
  const NEW_RING: Keyring := Keyring("v2", map["v1" := "one", "v2" := "two"])
  const DEK: string := "0123456789abcdef0123456789abcdef"
  const DRAW: Draw := Draw(DEK, "a", "b")

  function TwoPuts(): seq<Step> {
    [PutStep(OLD_RING, PutSecret(TOKEN, "o", "first", WorkloadOnly, map[]), Seed(NIL_UUID, DRAW)),
     PutStep(OLD_RING, PutSecret(TOKEN, "o", "second", UserRevealable, map[]), Seed("another-16-bytes", DRAW))]
  }

  lemma TwoPutsStored()
    ensures var db := Run(EMPTY, TwoPuts(), 2);
            && TOKEN in db.secrets && db.secrets[TOKEN].disclosure == UserRevealable
            && 1 in db.secrets[TOKEN].versions
            && db.secrets[TOKEN].versions[1] == Encrypt(OLD_RING, TOKEN, 1, WorkloadOnly, "first", DRAW).value
            && Encrypt(OLD_RING, TOKEN, 1, WorkloadOnly, "first", DRAW).Ok?
  {
    var steps := TwoPuts();
    assert Run(EMPTY, steps, 0) == EMPTY;
    var one := Run(EMPTY, steps, 1);
    assert one == Next(EMPTY, steps[0]).0;
    assert TOKEN in one.secrets && one.secrets[TOKEN].current == 1;
    assert Run(EMPTY, steps, 2) == Next(one, steps[1]).0;
  }

  /** Two puts of one reference under different disclosures: the first version was sealed under one
      that the row no longer says, so rotation to a new key is refused, whatever the order and the
      draws, and nothing changes. */
  lemma ChangedDisclosureBlocksRotation(order: seq<StoredVersion>, draws: seq<Draw>, actor: string)
    requires Enumerates(order, Stale(Run(EMPTY, TwoPuts(), 2), "v2"))
    ensures var db := Run(EMPTY, TwoPuts(), 2);
            RewrapTx(db, NEW_RING, order, draws, actor) == (db, Err(StoreError.Crypto))
  {
    var db := Run(EMPTY, TwoPuts(), 2);
    TwoPutsStored();
    var v := StoredVersion(TOKEN, 1);
    var e := db.secrets[TOKEN].versions[1];
    assert e.keyId == "v1" != "v2";
    assert v in Stale(db, "v2");
    var i :| 0 <= i < |order| && order[i] == v;
    assert AssociatedData(TOKEN, 1, UserRevealable) != AssociatedData(TOKEN, 1, WorkloadOnly) by {
      if AssociatedData(TOKEN, 1, UserRevealable) == AssociatedData(TOKEN, 1, WorkloadOnly) {
        AssociatedDataInjective(TOKEN, 1, UserRevealable, TOKEN, 1, WorkloadOnly);
      }
    }
    assert Decrypt(NEW_RING.keys, TOKEN, 1, UserRevealable, e).Err?;
    hide Run, Decrypt, TwoPuts;
    StaleIsStored(db, "v2", order);
    RewrapRowsSucceedIff(db, NEW_RING, order, draws, actor, |order|);
    assert !Rewrappable(db, NEW_RING, order[i], DrawAt(draws, i));
    RewrapRefusesWithCrypto(db, NEW_RING, order, draws, actor, |order|);
  }

  lemma {:induction false} RewrapRefusesWithCrypto(db: Db, ring: Keyring, order: seq<StoredVersion>, draws: seq<Draw>, actor: string, n: nat)
    requires n <= |order| && forall i :: 0 <= i < |order| ==> IsStored(db, order[i])
    ensures RewrapRows(db, ring, order, draws, actor, n).Err? ==> RewrapRows(db, ring, order, draws, actor, n).error == StoreError.Crypto
  {
    if n > 0 {
      RewrapRefusesWithCrypto(db, ring, order, draws, actor, n - 1);
      assert IsStored(db, order[n - 1]);
      hide Encrypt, Decrypt, SetVersion;
    }
  }

  // ---- No later step brings an old key back ----

  /** The step seals nothing, or seals under `active`. */
  predicate SealsUnder(step: Step, active: string) {
    match step
    case PutStep(ring, _, _) => ring.active == active
    case InsertStep(ring, _, _, _, _, _, _) => ring.active == active
    case CommitStep(ring, _, _, _) => ring.active == active
    case RewrapStep(ring, _, _, _) => ring.active == active
    case ResealStep(ring, _, _, _) => ring.active == active
    case _ => true
  }

  predicate RowUnder(row: SecretRow, active: string) {
    forall n | n in row.versions :: row.versions[n].keyId == active
  }

  lemma UnderByRow(secrets: map<SecretRef, SecretRow>, active: string)
    ensures AllUnder(secrets, active) <==> forall r | r in secrets :: RowUnder(secrets[r], active)
  {
  }

  lemma MutationUnder(db: Db, ring: Keyring, m: Mutation, actor: string, seed: Seed)
    requires AllUnder(db.secrets, ring.active) && ApplyOne(db, ring, m, actor, seed).Ok?
    ensures AllUnder(ApplyOne(db, ring, m, actor, seed).value.secrets, ring.active)
  {
    UnderByRow(db.secrets, ring.active);
    UnderByRow(ApplyOne(db, ring, m, actor, seed).value.secrets, ring.active);
    hide AssociatedData, ValidateRef, AllUnder, Db.Ids;
  }

  lemma {:induction false} ApplyUnder(db: Db, ring: Keyring, ms: seq<Mutation>, actor: string, supply: seq<Seed>, n: nat)
    requires n <= |ms| && AllUnder(db.secrets, ring.active) && Apply(db, ring, ms, actor, supply, n).Ok?
    ensures AllUnder(Apply(db, ring, ms, actor, supply, n).value.secrets, ring.active)
    ensures Apply(db, ring, ms, actor, supply, n).value.batches == db.batches
  {
    hide AllUnder, PutTx;
    if n > 0 {
      ApplyUnder(db, ring, ms, actor, supply, n - 1);
      var before := Apply(db, ring, ms, actor, supply, n - 1).value;
      MutationUnder(before, ring, ms[n - 1], actor, At(supply, n - 1));
      MutationKeepsBatches(before, ring, ms[n - 1], actor, At(supply, n - 1));
    }
  }

  lemma MutationKeepsBatches(db: Db, ring: Keyring, m: Mutation, actor: string, seed: Seed)
    requires ApplyOne(db, ring, m, actor, seed).Ok?
    ensures ApplyOne(db, ring, m, actor, seed).value.batches == db.batches
  {
    hide Encrypt, ValidateRef, Db.Ids;
  }

  lemma StepUnder(universe: map<string, string>, db: Db, step: Step, active: string)
    requires AllUnder(db.secrets, active) && SealsUnder(step, active) && Supported(universe, db, step)
    ensures AllUnder(Next(db, step).0.secrets, active)
  {
    var (after, outcome) := Next(db, step);
    match step {
      case PutStep(ring, input, seed) =>
        hide AllUnder, PutTx;
        if outcome == Done {
          MutationUnder(db, ring, Put(input), input.owner, seed);
        }
      case CommitStep(ring, k, at, supply) =>
        hide AllUnder, Apply;
        if outcome == Done {
          var row := db.batches[k];
          var ms := OpenBatch(ring.keys, k.tenant, k.id, row.actor, row.envelope).value.mutations;
          ApplyUnder(Db(db.secrets, db.batches - {k}, db.audit), ring, ms, row.actor, supply, |ms|);
        }
      case RewrapStep(ring, order, draws, actor) =>
        hide AllUnder, AllCarried, Stale, Enumerates, RewrapRows;
        if outcome.Rewrapped? {
          RotationMovesEverything(universe, db, ring, order, draws, actor);
        }
      case ResealStep(ring, at, order, draws) =>
        hide AllUnder, BatchesCarried, StaleBatches, Enumerates, ResealRows;
        if outcome == Done {
          ResealMovesEverything(universe, db, ring, at, order, draws);
        }
      case _ =>
    }
  }

  /** Once a rewrap has succeeded, and while every writer seals under the same active key, no version
      is ever stale again: a reader with that key alone is never refused for a key, and a second
      rewrap reports zero. */
  lemma {:induction false} RotationIsFinal(universe: map<string, string>, steps: seq<Step>, i: nat, n: nat, active: string)
    requires i < n <= |steps| && SupportedRun(universe, EMPTY, steps)
    requires steps[i].RewrapStep? && steps[i].ring.active == active && OutcomeAt(EMPTY, steps, i).Rewrapped?
    requires forall j :: i < j < n ==> SealsUnder(steps[j], active)
    ensures AllUnder(Run(EMPTY, steps, n).secrets, active) && Stale(Run(EMPTY, steps, n), active) == {}
  {
    hide AllUnder, Stale, Next, Supported;
    if n == i + 1 {
      var db := Run(EMPTY, steps, i);
      FirstRewrap(universe, db, steps[i]);
    } else {
      RotationIsFinal(universe, steps, i, n - 1, active);
      StepUnder(universe, Run(EMPTY, steps, n - 1), steps[n - 1], active);
    }
    NoneStaleIff(Run(EMPTY, steps, n), active);
  }

  lemma FirstRewrap(universe: map<string, string>, db: Db, step: Step)
    requires step.RewrapStep? && Supported(universe, db, step) && Next(db, step).1.Rewrapped?
    ensures AllUnder(Next(db, step).0.secrets, step.ring.active)
  {
    hide AllUnder, AllCarried, Stale, RewrapRows;
    RotationMovesEverything(universe, db, step.ring, step.order, step.draws, step.actor);
  }

  /** So a second rewrap, over any order its query can return, reports zero and changes nothing. */
  lemma SecondRewrapReportsZero(universe: map<string, string>, steps: seq<Step>, i: nat, n: nat, active: string)
    requires i < n < |steps| && SupportedRun(universe, EMPTY, steps)
    requires steps[i].RewrapStep? && steps[i].ring.active == active && OutcomeAt(EMPTY, steps, i).Rewrapped?
    requires forall j :: i < j < n ==> SealsUnder(steps[j], active)
    requires steps[n].RewrapStep? && steps[n].ring.active == active
    requires Enumerates(steps[n].order, Stale(Run(EMPTY, steps, n), active))
    ensures OutcomeAt(EMPTY, steps, n) == Rewrapped(0) && Run(EMPTY, steps, n + 1) == Run(EMPTY, steps, n)
  {
    hide Stale, AllUnder, SupportedRun, SealsUnder;
    RotationIsFinal(universe, steps, i, n, active);
    var db, step := Run(EMPTY, steps, n), steps[n];
    EnumerationSize(step.order, Stale(db, active));
    hide OutcomeAt, Run;
    NothingToRewrap(db, step);
    assert OutcomeAt(EMPTY, steps, n) == Next(db, step).1 by {
      OneStep(steps, n);
    }
    OneStep(steps, n);
  }

  lemma OneStep(steps: seq<Step>, n: nat)
    requires n < |steps|
    ensures OutcomeAt(EMPTY, steps, n) == Next(Run(EMPTY, steps, n), steps[n]).1
    ensures Run(EMPTY, steps, n + 1) == Next(Run(EMPTY, steps, n), steps[n]).0
  {
    hide Next;
  }

  lemma NothingToRewrap(db: Db, step: Step)
    requires step.RewrapStep? && Stale(db, step.ring.active) == {} && step.order == []
    ensures Next(db, step) == (db, Rewrapped(0))
  {
    hide Stale;
  }

  lemma ActiveKeyAloneReads(universe: map<string, string>, db: Db, p: Plain, active: string, key: string, r: SecretRef)
    requires Related(universe, db, p) && AllUnder(db.secrets, active) && active in universe && universe[active] == key
    ensures Get(db, map[active := key], r).Ok? <==> r in p.cells && p.cells[r].active
    ensures Get(db, map[active := key], r).Ok? ==> Answers(p.cells, r, Get(db, map[active := key], r).value)
  {
    hide Get, BatchesMatch;
    GetReadsTheMap(universe, db, p, map[active := key], r);
    if r in p.cells {
      assert Matches(ReaderOf(universe), r, db.secrets[r], p.cells[r]);
    }
  }
}
