/** Prepared batches over whole runs: a commit applies what was last prepared under its key, once,
    in order, before the expiry sealed inside it. */
module Batches {
  import opened Basics
  import opened Core
  import opened Crypto
  import opened Custody
  import opened PlainStore
  import opened CustodyRefinement
  import opened CustodyRuns
  import opened Rotation

  const NOTHING: Plain := Plain(map[], map[])

  // ---- At most once, and in time ----

  predicate Prepares(steps: seq<Step>, i: nat, k: BatchKey)
    requires i < |steps|
  {
    steps[i].InsertStep? && steps[i].key == k && OutcomeAt(EMPTY, steps, i) == Done
  }

  predicate Commits(steps: seq<Step>, i: nat, k: BatchKey)
    requires i < |steps|
  {
    steps[i].CommitStep? && steps[i].key == k && OutcomeAt(EMPTY, steps, i) == Done
  }

  function CountPrepares(steps: seq<Step>, k: BatchKey, n: nat): nat
    requires n <= |steps|
  {
    if n == 0 then 0 else CountPrepares(steps, k, n - 1) + if Prepares(steps, n - 1, k) then 1 else 0
  }

  function CountCommits(steps: seq<Step>, k: BatchKey, n: nat): nat
    requires n <= |steps|
  {
    if n == 0 then 0 else CountCommits(steps, k, n - 1) + if Commits(steps, n - 1, k) then 1 else 0
  }

  /** The step that prepared what is held under `k`, with nothing taken out since. */
  predicate HeldSince(steps: seq<Step>, k: BatchKey, h: Held, j: nat, n: nat)
    requires n <= |steps|
  {
    && j < n && Prepares(steps, j, k)
    && h == Held(steps[j].actor, SaturatingAdd(steps[j].clock, steps[j].lifetime), steps[j].mutations)
    && forall i :: j < i < n ==> !Prepares(steps, i, k) && !Commits(steps, i, k)
  }

  lemma AdvanceHolds(p: Plain, step: Step, outcome: Outcome, k: BatchKey)
    requires Allows(p, step, outcome)
    ensures var q := Advance(p, step, outcome);
            && (step.InsertStep? && step.key == k && outcome == Done ==>
                  k in q.held && q.held[k] == Held(step.actor, SaturatingAdd(step.clock, step.lifetime), step.mutations))
            && (step.CommitStep? && step.key == k && outcome == Done ==> k in p.held && k !in q.held)
            && (!(step.InsertStep? && step.key == k && outcome == Done) && k in q.held ==> k in p.held && q.held[k] == p.held[k])
  {
    hide MutateCells, PutCell;
  }

  /** Whatever is held was put there by its last prepare, and there are never more commits under a
      key than prepares. */
  lemma {:induction false} HeldComesFromLastPrepare(universe: map<string, string>, steps: seq<Step>, k: BatchKey, n: nat)
    requires n <= |steps| && SupportedRun(universe, EMPTY, steps)
    ensures var held := PlainAfter(NOTHING, EMPTY, steps, n).held;
            && (k in held ==> exists j :: HeldSince(steps, k, held[k], j, n))
            && CountCommits(steps, k, n) + (if k in held then 1 else 0) <= CountPrepares(steps, k, n)
  {
    hide Advance, Allows, Next, Supported, Related;
    if n > 0 {
      HeldComesFromLastPrepare(universe, steps, k, n - 1);
      var p, step, outcome := PlainAfter(NOTHING, EMPTY, steps, n - 1), steps[n - 1], OutcomeAt(EMPTY, steps, n - 1);
      RunRefines(universe, steps, n - 1);
      AdvanceHolds(p, step, outcome, k);
      var q := PlainAfter(NOTHING, EMPTY, steps, n);
      if k in q.held {
        if Prepares(steps, n - 1, k) {
          assert HeldSince(steps, k, q.held[k], n - 1, n);
        } else {
          var j :| HeldSince(steps, k, p.held[k], j, n - 1);
          assert HeldSince(steps, k, q.held[k], j, n);
        }
      }
    }
  }

  /** Step `n` commits what step `j` prepared: nothing prepared or committed the key in between, the
      expiry fixed at `j` has not come, and the map moves by exactly those mutations. */
  predicate AppliesFrom(steps: seq<Step>, j: nat, n: nat)
    requires n < |steps| && steps[n].CommitStep?
  {
    && j < n && Prepares(steps, j, steps[n].key)
    && (forall i :: j < i < n ==> !Prepares(steps, i, steps[n].key) && !Commits(steps, i, steps[n].key))
    && steps[n].at < SaturatingAdd(steps[j].clock, steps[j].lifetime) as real
    && MutateCells(PlainAfter(NOTHING, EMPTY, steps, n).cells, steps[n].ring, steps[j].mutations, steps[n].supply, |steps[j].mutations|)
       == Ok(PlainAfter(NOTHING, EMPTY, steps, n + 1).cells)
  }

  lemma CommitDone(p: Plain, step: Step)
    requires step.CommitStep? && Allows(p, step, Done)
    ensures step.key in p.held
    ensures var h := p.held[step.key];
            && step.at < h.expiry as real
            && MutateCells(p.cells, step.ring, h.mutations, step.supply, |h.mutations|) == Ok(Advance(p, step, Done).cells)
  {
    hide MutateCells;
  }

  /** A commit that succeeds applies exactly the mutations last prepared under its key, not yet
      committed since, strictly before the expiry fixed at that prepare, whatever resealed the batch
      or rewrote its expiry column in between. */
  lemma CommitAppliesLastPrepare(universe: map<string, string>, steps: seq<Step>, n: nat)
    requires n < |steps| && SupportedRun(universe, EMPTY, steps)
    requires steps[n].CommitStep? && OutcomeAt(EMPTY, steps, n) == Done
    ensures exists j :: AppliesFrom(steps, j, n)
  {
    hide Next, Supported, Related, MutateCells, Advance, Allows, Run, OutcomeAt;
    var p, k := PlainAfter(NOTHING, EMPTY, steps, n), steps[n].key;
    RunRefines(universe, steps, n);
    CommitDone(p, steps[n]);
    HeldComesFromLastPrepare(universe, steps, k, n);
    var j :| HeldSince(steps, k, p.held[k], j, n);
    assert AppliesFrom(steps, j, n);
  }

  /** No key is ever committed more often than it was prepared. */
  lemma NeverCommittedTwice(universe: map<string, string>, steps: seq<Step>, k: BatchKey, n: nat)
    requires n <= |steps| && SupportedRun(universe, EMPTY, steps)
    ensures CountCommits(steps, k, n) <= CountPrepares(steps, k, n)
  {
    HeldComesFromLastPrepare(universe, steps, k, n);
  }

  // ---- When each call on a batch succeeds ----

  /** The lesser of the two times' sum and the largest 64-bit integer. */
  predicate Expiry(clock: nat, lifetime: nat, expiry: int) {
    && expiry <= clock + lifetime && expiry <= 0x7FFF_FFFF_FFFF_FFFF
    && (expiry == clock + lifetime || expiry == 0x7FFF_FFFF_FFFF_FFFF)
  }

  /** A batch row as its prepare leaves it: sealed under the active key, open to anyone who holds that
      key, with the mutations and the expiry inside. */
  predicate HoldsBatch(row: BatchRow, ring: Keyring, k: BatchKey, actor: string, clock: nat, lifetime: nat, mutations: seq<Mutation>) {
    && row.actor == actor && row.envelope.keyId == ring.active
    && var inside := OpenBatch(ring.keys, k.tenant, k.id, actor, row.envelope);
       && inside.Ok? && inside.value.Batch? && inside.value.mutations == mutations
       && Expiry(clock, lifetime, inside.value.expiry) && row.expiresAt == inside.value.expiry as real
  }

  predicate ForeignTarget(mutations: seq<Mutation>, tenant: string) {
    exists m :: m in mutations && m.Target().tenant != tenant
  }

  /** Which answer a prepare gives, in the order the checks are made; accepted, it adds one row. */
  lemma PrepareAnswers(db: Db, ring: Keyring, k: BatchKey, mutations: seq<Mutation>, actor: string, clock: nat, lifetime: nat, draw: Draw)
    ensures var (after, outcome) := Next(db, InsertStep(ring, k, mutations, actor, clock, lifetime, draw));
            if mutations == [] then (after, outcome) == (db, Refused(Invalid(EmptyBatch)))
            else if ForeignTarget(mutations, k.tenant) then (after, outcome) == (db, Refused(Invalid(CrossTenantBatch)))
            else if clock > 0x7FFF_FFFF_FFFF_FFFF || lifetime > 0x7FFF_FFFF_FFFF_FFFF then (after, outcome) == (db, Refused(Unavailable))
            else if ring.active !in ring.keys || draw.NoEntropy? || |draw.dek| != 32 then (after, outcome) == (db, Refused(StoreError.Crypto))
            else if k in db.batches then (after, outcome) == (db, Refused(Conflict))
            else
              && outcome == Done && k in after.batches && after == Db(db.secrets, db.batches[k := after.batches[k]], db.audit)
              && HoldsBatch(after.batches[k], ring, k, actor, clock, lifetime, mutations)
  {
    OneTenantIff(mutations, k.tenant);
    hide OneTenant, ForeignTarget, BatchAssociatedData;
  }

  lemma OneTenantIff(mutations: seq<Mutation>, tenant: string)
    ensures OneTenant(tenant, mutations) <==> !ForeignTarget(mutations, tenant)
  {
    if !OneTenant(tenant, mutations) {
      var i :| 0 <= i < |mutations| && mutations[i].Target().tenant != tenant;
      assert mutations[i] in mutations;
    }
  }

  /** An abort takes out the batch exactly while its expiry column is ahead and its key is held, and
      otherwise finds nothing and changes nothing. */
  lemma AbortAnswers(db: Db, ring: Keyring, k: BatchKey, at: real)
    ensures var (after, outcome) := Next(db, AbortStep(ring, k, at));
            && (outcome == Done <==> k in db.batches && db.batches[k].expiresAt > at && db.batches[k].envelope.keyId in ring.keys)
            && (outcome == Done || outcome == Refused(NotFound))
            && after == Db(db.secrets, if outcome == Done then db.batches - {k} else db.batches, db.audit)
  {
  }

  /** A purge drops exactly its tenant's batches whose expiry column is not ahead. */
  lemma PurgeDrops(db: Db, tenant: string, at: real, k: BatchKey)
    ensures var (after, outcome) := Next(db, PurgeStep(tenant, at));
            && outcome == Done && after.secrets == db.secrets && after.audit == db.audit
            && (k in after.batches <==> k in db.batches && (k.tenant != tenant || db.batches[k].expiresAt > at))
            && (k in after.batches ==> after.batches[k] == db.batches[k])
  {
  }

  lemma {:induction false} ResealLeavesOthers(db: Db, ring: Keyring, order: seq<BatchKey>, draws: seq<Draw>, n: nat, k: BatchKey)
    requires n <= |order| && (forall i :: 0 <= i < |order| ==> order[i] in db.batches) && k in db.batches && k !in order
    requires ResealRows(db, ring, order, draws, n).Ok?
    ensures k in ResealRows(db, ring, order, draws, n).value.batches
    ensures ResealRows(db, ring, order, draws, n).value.batches[k] == db.batches[k]
  {
    hide ResealBatch;
    if n > 0 {
      ResealLeavesOthers(db, ring, order, draws, n - 1, k);
    }
  }

  /** A reseal that succeeds drops exactly the batches of any tenant whose expiry column is not ahead;
      one that stays keeps its actor and expiry, and is under the active key, untouched if it was. */
  lemma ResealLeaves(universe: map<string, string>, db: Db, ring: Keyring, at: real, order: seq<BatchKey>, draws: seq<Draw>, k: BatchKey)
    requires Agrees(ring.keys, universe) && Next(db, ResealStep(ring, at, order, draws)).1 == Done
    ensures var after := Next(db, ResealStep(ring, at, order, draws)).0;
            && after.secrets == db.secrets && after.audit == db.audit
            && (k in after.batches <==> k in db.batches && db.batches[k].expiresAt > at)
            && (k in after.batches ==>
                  && after.batches[k].actor == db.batches[k].actor && after.batches[k].expiresAt == db.batches[k].expiresAt
                  && after.batches[k].envelope.keyId == ring.active
                  && (db.batches[k].envelope.keyId == ring.active ==> after.batches[k] == db.batches[k]))
  {
    var kept := PurgeAll(db, at);
    StaleIsThere(kept, ring.active, order);
    if k in kept.batches && k !in order {
      ResealLeavesOthers(kept, ring, order, draws, |order|, k);
    }
    assert k in order <==> k in StaleBatches(kept, ring.active);
    hide ResealRows;
    ResealMovesEverything(universe, db, ring, at, order, draws);
  }

  lemma StaleIsThere(db: Db, active: string, order: seq<BatchKey>)
    requires Enumerates(order, StaleBatches(db, active))
    ensures forall i :: 0 <= i < |order| ==> order[i] in db.batches
  {
    forall i | 0 <= i < |order|
      ensures order[i] in db.batches
    {
      assert order[i] in StaleBatches(db, active);
    }
  }

  lemma ResealOneIff(universe: map<string, string>, ring: Keyring, k: BatchKey, h: Held, row: BatchRow, draw: Draw)
    requires Agrees(ring.keys, universe) && CanSeal(ring, draw) && h.actor == row.actor
    requires OpenBatch(universe, k.tenant, k.id, h.actor, row.envelope) == Ok(Batch(h.expiry, h.mutations))
    ensures ResealBatch(ring, k.tenant, k.id, row.actor, row.envelope, draw).Ok? <==> row.envelope.keyId in ring.keys
  {
    OpensWhenHeld(universe, ring.keys, k, h, row);
    hide OpenBatch;
  }

  lemma {:induction false} ResealRowsIff(universe: map<string, string>, db: Db, held: map<BatchKey, Held>, ring: Keyring,
                                         order: seq<BatchKey>, draws: seq<Draw>, n: nat)
    requires n <= |order| && (forall i :: 0 <= i < |order| ==> order[i] in db.batches)
    requires BatchesMatch(universe, db, held) && Agrees(ring.keys, universe) && forall i :: 0 <= i < |order| ==> CanSeal(ring, DrawAt(draws, i))
    ensures match ResealRows(db, ring, order, draws, n)
            case Ok(_) => forall i :: 0 <= i < n ==> db.batches[order[i]].envelope.keyId in ring.keys
            case Err(error) => error == StoreError.Crypto && exists i :: 0 <= i < n && db.batches[order[i]].envelope.keyId !in ring.keys
  {
    hide ResealBatch, OpenBatch, CanSeal;
    if n > 0 {
      ResealRowsIff(universe, db, held, ring, order, draws, n - 1);
      var k := order[n - 1];
      ResealOneIff(universe, ring, k, held[k], db.batches[k], DrawAt(draws, n - 1));
    }
  }

  /** Every stale batch still ahead of its expiry is under a key of the ring. */
  predicate StaleKeysHeld(db: Db, ring: Keyring, at: real) {
    forall k | k in db.batches && db.batches[k].expiresAt > at ::
      db.batches[k].envelope.keyId == ring.active || db.batches[k].envelope.keyId in ring.keys
  }

  lemma StaleKeysIff(db: Db, ring: Keyring, at: real, order: seq<BatchKey>)
    requires Enumerates(order, StaleBatches(PurgeAll(db, at), ring.active))
    ensures forall i :: 0 <= i < |order| ==> order[i] in PurgeAll(db, at).batches
    ensures StaleKeysHeld(db, ring, at) <==> forall i :: 0 <= i < |order| ==> PurgeAll(db, at).batches[order[i]].envelope.keyId in ring.keys
  {
    StaleIsThere(PurgeAll(db, at), ring.active, order);
    forall k | k in db.batches && db.batches[k].expiresAt > at
      ensures db.batches[k].envelope.keyId != ring.active <==> k in order
    {
      assert k in order <==> k in StaleBatches(PurgeAll(db, at), ring.active);
    }
    forall i | 0 <= i < |order|
      ensures PurgeAll(db, at).batches[order[i]].envelope.keyId != ring.active
    {
      assert order[i] in StaleBatches(PurgeAll(db, at), ring.active);
    }
  }

  /** A reseal that can seal succeeds if and only if it holds the key of every stale batch still ahead of
      its expiry; else it is refused for that, and nothing changes, not even what had expired. */
  lemma ResealAnswers(universe: map<string, string>, db: Db, p: Plain, ring: Keyring, at: real, order: seq<BatchKey>, draws: seq<Draw>)
    requires Related(universe, db, p) && Agrees(ring.keys, universe)
    requires Enumerates(order, StaleBatches(PurgeAll(db, at), ring.active)) && forall i :: 0 <= i < |order| ==> CanSeal(ring, DrawAt(draws, i))
    ensures var (after, outcome) := Next(db, ResealStep(ring, at, order, draws));
            if StaleKeysHeld(db, ring, at) then outcome == Done else outcome == Refused(StoreError.Crypto) && after == db
  {
    assert BatchesMatch(universe, PurgeAll(db, at), p.held);
    StaleKeysIff(db, ring, at, order);
    hide ResealRows, CellsMatch, OpenBatch, CanSeal, StaleBatches, Enumerates, StaleKeysHeld, BatchesMatch, PurgeAll;
    ResealRowsIff(universe, PurgeAll(db, at), p.held, ring, order, draws, |order|);
  }

  /** And a rewrap, over the versions: what it reports is how many there were. */
  lemma RewrapAnswers(universe: map<string, string>, db: Db, ring: Keyring, order: seq<StoredVersion>, draws: seq<Draw>, actor: string)
    requires Agrees(ring.keys, universe) && AllLegible(ReaderOf(universe), db.secrets)
    requires Enumerates(order, Stale(db, ring.active)) && forall i :: 0 <= i < |order| ==> CanSeal(ring, DrawAt(draws, i))
    ensures var (after, outcome) := Next(db, RewrapStep(ring, order, draws, actor));
            if forall v | v in Stale(db, ring.active) :: IsStored(db, v) && Movable(universe, db, ring, v)
            then outcome == Rewrapped(|Stale(db, ring.active)|)
            else outcome.Refused? && after == db
  {
    RotationSucceedsIff(universe, db, ring, order, draws, actor);
    EnumerationSize(order, Stale(db, ring.active));
    hide RewrapRows, Stale, Movable, CanSeal, AllLegible;
  }

  /** A prepare followed at once by an abort: taken out again exactly before the expiry, for whoever
      holds the sealing key. */
  lemma PreparedIsAborted(db: Db, ring: Keyring, k: BatchKey, mutations: seq<Mutation>, actor: string, clock: nat, lifetime: nat, draw: Draw,
                          ring': Keyring, at: real)
    requires Next(db, InsertStep(ring, k, mutations, actor, clock, lifetime, draw)).1 == Done
    ensures var held := Next(db, InsertStep(ring, k, mutations, actor, clock, lifetime, draw)).0;
            var (after, outcome) := Next(held, AbortStep(ring', k, at));
            if at < (clock + lifetime) as real && at < 0x7FFF_FFFF_FFFF_FFFF as real && ring.active in ring'.keys
            then outcome == Done && after == db
            else outcome == Refused(NotFound) && after == held
  {
    PrepareAnswers(db, ring, k, mutations, actor, clock, lifetime, draw);
    var held := Next(db, InsertStep(ring, k, mutations, actor, clock, lifetime, draw)).0;
    AbortAnswers(held, ring', k, at);
    hide Next, OpenBatch, ForeignTarget;
    assert k !in db.batches;
    assert held.batches - {k} == db.batches;
  }

  /** Which answer a commit gives, over the simple store: what is held decides once the row is there,
      its expiry column is ahead and its key is held. */
  lemma CommitAnswers(universe: map<string, string>, db: Db, p: Plain, ring: Keyring, k: BatchKey, at: real, supply: seq<Seed>)
    requires Related(universe, db, p) && Agrees(ring.keys, universe) && FreshSupply(db, supply)
    ensures var outcome := Next(db, CommitStep(ring, k, at, supply)).1;
            if k !in db.batches || db.batches[k].expiresAt <= at then outcome == Refused(NotFound)
            else
              && k in p.held
              && var h := p.held[k];
                 if db.batches[k].envelope.keyId !in ring.keys then outcome == Refused(Unavailable)
                 else if h.expiry as real <= at then outcome == Refused(NotFound)
                 else match MutateCells(p.cells, ring, h.mutations, supply, |h.mutations|)
                      case Ok(_) => outcome == Done
                      case Err(error) => outcome == Refused(error)
  {
    if k in db.batches && at < db.batches[k].expiresAt {
      var row, h := db.batches[k], p.held[k];
      var taken := Db(db.secrets, db.batches - {k}, db.audit);
      OpensWhenHeld(universe, ring.keys, k, h, row);
      assert FreshSupply(taken, supply);
      hide CellsMatch, OpenBatch, FreshSupply, BatchesMatch;
      ApplyKeeps(universe, taken, p.cells, ring, h.mutations, row.actor, supply, |h.mutations|);
    }
  }

  lemma OpensWhenHeld(universe: map<string, string>, keys: map<string, string>, k: BatchKey, h: Held, row: BatchRow)
    requires Agrees(keys, universe) && h.actor == row.actor
    requires OpenBatch(universe, k.tenant, k.id, h.actor, row.envelope) == Ok(Batch(h.expiry, h.mutations))
    ensures OpenBatch(keys, k.tenant, k.id, row.actor, row.envelope) ==
            if row.envelope.keyId in keys then Ok(Batch(h.expiry, h.mutations)) else Err(KeyNotFound)
  {
  }

  /** What one mutation of a batch comes to: a put what that put alone would, a delete its removal and
      log row, or its own refusal when nothing is there. */
  lemma MutationAnswers(db: Db, ring: Keyring, m: Mutation, actor: string, seed: Seed)
    ensures match m
            case Put(secret) => ApplyOne(db, ring, m, actor, seed) == PutTx(db, ring, secret, actor, seed)
            case Delete(r) =>
              ApplyOne(db, ring, m, actor, seed) ==
              if r in db.secrets
              then Ok(Db(db.secrets - {r}, db.batches, db.audit + [AuditRow(r.tenant, Some(db.secrets[r].id), actor, DeleteAction)]))
              else Err(DeleteTargetMissing)
  {
    hide PutTx;
  }

  /** A batch that is refused is refused for the first of its mutations that is, after those before it. */
  lemma {:induction false} FirstRefusal(db: Db, ring: Keyring, ms: seq<Mutation>, actor: string, supply: seq<Seed>, n: nat)
    requires n <= |ms| && Apply(db, ring, ms, actor, supply, n).Err?
    ensures exists i :: 0 <= i < n && Apply(db, ring, ms, actor, supply, i).Ok?
              && ApplyOne(Apply(db, ring, ms, actor, supply, i).value, ring, ms[i], actor, At(supply, i)) == Apply(db, ring, ms, actor, supply, n)
  {
    hide ApplyOne, At;
    if Apply(db, ring, ms, actor, supply, n - 1).Err? {
      FirstRefusal(db, ring, ms, actor, supply, n - 1);
    } else {
      assert Apply(db, ring, ms, actor, supply, n - 1).Ok?;
    }
  }

  // ---- A commit is its mutations run one by one ----

  /** The public operation a mutation stands for. */
  function Single(ring: Keyring, m: Mutation, actor: string, seed: Seed): Step {
    match m
    case Put(secret) => PutStep(ring, secret, seed)
    case Delete(r) => DeleteStep(r, actor)
  }

  function Singles(ring: Keyring, ms: seq<Mutation>, actor: string, supply: seq<Seed>): (steps: seq<Step>)
    ensures |steps| == |ms| && forall i :: 0 <= i < |ms| ==> steps[i] == Single(ring, ms[i], actor, At(supply, i))
  {
    seq(|ms|, i requires 0 <= i < |ms| => Single(ring, ms[i], actor, At(supply, i)))
  }

  /** Two databases that differ only in who the audit log names. */
  predicate SameButActors(a: Db, b: Db) {
    && a.secrets == b.secrets && a.batches == b.batches && |a.audit| == |b.audit|
    && forall i :: 0 <= i < |a.audit| ==>
         a.audit[i].tenant == b.audit[i].tenant && a.audit[i].id == b.audit[i].id && a.audit[i].action == b.audit[i].action
  }

  lemma OneMutationAlone(a: Db, b: Db, ring: Keyring, m: Mutation, actor: string, seed: Seed)
    requires SameButActors(a, b)
    ensures match ApplyOne(a, ring, m, actor, seed)
            case Ok(after) => Next(b, Single(ring, m, actor, seed)).1 == Done && SameButActors(after, Next(b, Single(ring, m, actor, seed)).0)
            case Err(_) => Next(b, Single(ring, m, actor, seed)).1.Refused?
  {
    assert a.Ids() == b.Ids();
    hide AssociatedData, ValidateRef, Db.Ids;
  }

  /** A batch that applies leaves the secrets, their versions and the audit trail exactly as its
      puts and deletes would have, run separately in order; each of those would have succeeded. */
  lemma {:induction false} BatchIsItsMutations(db: Db, ring: Keyring, ms: seq<Mutation>, actor: string, supply: seq<Seed>, n: nat)
    requires n <= |ms| && Apply(db, ring, ms, actor, supply, n).Ok?
    ensures var alone := Singles(ring, ms, actor, supply);
            && SameButActors(Apply(db, ring, ms, actor, supply, n).value, Run(db, alone, n))
            && forall i :: 0 <= i < n ==> OutcomeAt(db, alone, i) == Done
  {
    hide ApplyOne, Next, Single, SameButActors, At;
    if n == 0 {
      SameAsItself(db);
    } else {
      BatchIsItsMutations(db, ring, ms, actor, supply, n - 1);
      var alone := Singles(ring, ms, actor, supply);
      OneMutationAlone(Apply(db, ring, ms, actor, supply, n - 1).value, Run(db, alone, n - 1), ring, ms[n - 1], actor, At(supply, n - 1));
    }
  }

  lemma SameAsItself(db: Db)
    ensures SameButActors(db, db)
  {
  }

  /** The log only grew, by rows of one actor. */
  predicate LoggedBy(before: seq<AuditRow>, after: seq<AuditRow>, actor: string) {
    before <= after && forall i :: |before| <= i < |after| ==> after[i].actor == actor
  }

  lemma {:induction false} ApplyLogs(db: Db, ring: Keyring, ms: seq<Mutation>, actor: string, supply: seq<Seed>, n: nat)
    requires n <= |ms| && Apply(db, ring, ms, actor, supply, n).Ok?
    ensures LoggedBy(db.audit, Apply(db, ring, ms, actor, supply, n).value.audit, actor)
  {
    hide Encrypt, ValidateRef, Db.Ids, At;
    if n > 0 {
      ApplyLogs(db, ring, ms, actor, supply, n - 1);
    }
  }

  /** All or nothing: a commit that succeeds runs its mutations, takes its own batch out and adds to the
      log the rows they would have and one of its own, in the name of the batch's actor; one that is refused changes nothing, except that a batch past the
      expiry sealed inside it is gone. */
  lemma CommitAllOrNothing(db: Db, ring: Keyring, k: BatchKey, at: real, supply: seq<Seed>)
    ensures var (after, result) := CommitTx(db, ring, k, at, supply);
            match result
            case Ok(_) =>
              && k in db.batches
              && var row := db.batches[k];
                 && OpenBatch(ring.keys, k.tenant, k.id, row.actor, row.envelope).Ok?
                 && var batch := OpenBatch(ring.keys, k.tenant, k.id, row.actor, row.envelope).value;
                    && batch.Batch? && at < batch.expiry as real
                    && var alone := Run(Db(db.secrets, db.batches - {k}, db.audit), Singles(ring, batch.mutations, row.actor, supply), |batch.mutations|);
                       && after.batches == db.batches - {k} && |after.audit| == |alone.audit| + 1
                       && SameButActors(after.(audit := after.audit[..|alone.audit|]), alone)
                       && LoggedBy(db.audit, after.audit, row.actor)
                       && after.audit[|alone.audit|] == AuditRow(k.tenant, None, row.actor, CommitAction)
            case Err(error) =>
              || after == db
              || (&& after == Db(db.secrets, db.batches - {k}, db.audit) && error == NotFound && k in db.batches
                  && var sealed := OpenBatch(ring.keys, k.tenant, k.id, db.batches[k].actor, db.batches[k].envelope);
                     sealed.Ok? && sealed.value.Batch? && sealed.value.expiry as real <= at)
  {
    var (after, result) := CommitTx(db, ring, k, at, supply);
    hide OpenBatch, Apply, Run, Singles;
    if result.Ok? {
      var row := db.batches[k];
      var ms := OpenBatch(ring.keys, k.tenant, k.id, row.actor, row.envelope).value.mutations;
      var taken := Db(db.secrets, db.batches - {k}, db.audit);
      BatchIsItsMutations(taken, ring, ms, row.actor, supply, |ms|);
      SinglesKeepBatches(taken, ring, ms, row.actor, supply, |ms|);
      ApplyLogs(taken, ring, ms, row.actor, supply, |ms|);
      var applied := Apply(taken, ring, ms, row.actor, supply, |ms|).value;
      assert after.audit[..|applied.audit|] == applied.audit;
    }
  }

  lemma {:induction false} SinglesKeepBatches(db: Db, ring: Keyring, ms: seq<Mutation>, actor: string, supply: seq<Seed>, n: nat)
    requires n <= |ms|
    ensures Run(db, Singles(ring, ms, actor, supply), n).batches == db.batches
  {
    hide AssociatedData, At;
    if n > 0 {
      SinglesKeepBatches(db, ring, ms, actor, supply, n - 1);
    }
  }
}
