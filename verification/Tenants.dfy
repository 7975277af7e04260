/** Tenants do not meet: what a transaction for one tenant answers and leaves depends on that
    tenant's part of the tables alone, and no other part moves. */
module Tenants {
  import opened Basics
  import opened Core
  import opened Crypto
  import opened Custody
  import opened PlainStore
  import opened CustodyRefinement
  import opened CustodyRuns
  import opened Batches
  import Http

  // ---- One tenant's part of the tables ----

  function LogOf(audit: seq<AuditRow>, t: string): seq<AuditRow> {
    if audit == [] then []
    else
      var row := audit[|audit| - 1];
      LogOf(audit[..|audit| - 1], t) + if row.tenant == t then [row] else []
  }

  function Part(db: Db, t: string): Db {
    Db(map r | r in db.secrets && r.tenant == t :: db.secrets[r],
       map k | k in db.batches && k.tenant == t :: db.batches[k],
       LogOf(db.audit, t))
  }

  lemma LogAppended(audit: seq<AuditRow>, row: AuditRow, t: string)
    ensures LogOf(audit + [row], t) == LogOf(audit, t) + if row.tenant == t then [row] else []
  {
    assert (audit + [row])[..|audit|] == audit;
  }

  lemma PartRecords(db: Db, tenant: string, id: Option<Uuid>, actor: string, action: Action, t: string)
    ensures var after := db.Record(tenant, id, actor, action);
            Part(after, t) == if tenant == t then Part(db, t).Record(tenant, id, actor, action) else Part(db, t)
  {
    LogAppended(db.audit, AuditRow(tenant, id, actor, action), t);
  }

  lemma PartWrites(db: Db, r: SecretRef, row: SecretRow, t: string)
    ensures Part(db.WithRow(r, row), t) == if r.tenant == t then Part(db, t).WithRow(r, row) else Part(db, t)
  {
  }

  lemma PartDeletes(db: Db, r: SecretRef, t: string)
    ensures Part(Db(db.secrets - {r}, db.batches, db.audit), t)
            == Db(Part(db, t).secrets - {r}, Part(db, t).batches, Part(db, t).audit)
    ensures r.tenant != t ==> Part(Db(db.secrets - {r}, db.batches, db.audit), t) == Part(db, t)
  {
  }

  lemma PartIds(db: Db, t: string)
    ensures Part(db, t).Ids() <= db.Ids()
  {
  }

  /** One step for tenant `t` on the whole tables, and on `t`'s part alone. */
  predicate StaysIn(before: Db, result: Result<Db, StoreError>, alone: Result<Db, StoreError>, t: string, other: string)
    requires t != other
  {
    match result
    case Ok(after) => alone == Ok(Part(after, t)) && Part(after, other) == Part(before, other)
    case Err(error) => alone == Err(error)
  }

  /** Two tables that agree at the reference, and where a new row's id is new, answer a put alike and
      write the same row. */
  lemma PutLooksOnce(a: Db, b: Db, ring: Keyring, input: PutSecret, actor: string, seed: Seed)
    requires (input.reference in a.secrets <==> input.reference in b.secrets)
    requires input.reference in a.secrets ==> a.secrets[input.reference] == b.secrets[input.reference]
    requires seed.draw.Draw? ==> seed.id !in a.Ids() && seed.id !in b.Ids()
    ensures match PutTx(a, ring, input, actor, seed)
            case Err(error) => PutTx(b, ring, input, actor, seed) == Err(error)
            case Ok(after) =>
              var r := input.reference;
              && r in after.secrets
              && var row := after.secrets[r];
                 && after == a.WithRow(r, row).Record(r.tenant, Some(row.id), actor, PutAction)
                 && PutTx(b, ring, input, actor, seed) == Ok(b.WithRow(r, row).Record(r.tenant, Some(row.id), actor, PutAction))
  {
    hide AssociatedData, ValidateRef, Db.Ids;
  }

  lemma PutStaysIn(db: Db, ring: Keyring, input: PutSecret, actor: string, seed: Seed, t: string, other: string)
    requires input.reference.tenant == t && t != other && (seed.draw.Draw? ==> seed.id !in db.Ids())
    ensures StaysIn(db, PutTx(db, ring, input, actor, seed), PutTx(Part(db, t), ring, input, actor, seed), t, other)
  {
    var r := input.reference;
    PartIds(db, t);
    assert r in Part(db, t).secrets <==> r in db.secrets;
    assert r in db.secrets ==> Part(db, t).secrets[r] == db.secrets[r];
    hide Part, PutTx, Db.Ids, Db.Record, Db.WithRow;
    PutLooksOnce(db, Part(db, t), ring, input, actor, seed);
    if PutTx(db, ring, input, actor, seed).Ok? {
      var row := PutTx(db, ring, input, actor, seed).value.secrets[r];
      PartWrites(db, r, row, t);
      PartWrites(db, r, row, other);
      PartRecords(db.WithRow(r, row), r.tenant, Some(row.id), actor, PutAction, t);
      PartRecords(db.WithRow(r, row), r.tenant, Some(row.id), actor, PutAction, other);
    }
  }

  lemma DeleteStaysIn(db: Db, r: SecretRef, actor: string, t: string, other: string)
    requires r.tenant == t && t != other
    ensures StaysIn(db, DeleteTx(db, r, actor), DeleteTx(Part(db, t), r, actor), t, other)
  {
    assert r in Part(db, t).secrets <==> r in db.secrets;
    if r in db.secrets {
      assert Part(db, t).secrets[r] == db.secrets[r];
      hide Part;
      PartDeletes(db, r, t);
      PartDeletes(db, r, other);
      var after := Db(db.secrets - {r}, db.batches, db.audit);
      PartRecords(after, r.tenant, Some(db.secrets[r].id), actor, DeleteAction, t);
      PartRecords(after, r.tenant, Some(db.secrets[r].id), actor, DeleteAction, other);
    }
  }

  lemma RevokeStaysIn(db: Db, r: SecretRef, actor: string, t: string, other: string)
    requires r.tenant == t && t != other
    ensures StaysIn(db, RevokeTx(db, r, actor), RevokeTx(Part(db, t), r, actor), t, other)
  {
    assert r in Part(db, t).secrets <==> r in db.secrets;
    if r in db.secrets {
      assert Part(db, t).secrets[r] == db.secrets[r];
      hide Part;
      var row := db.secrets[r].(state := Revoked);
      PartWrites(db, r, row, t);
      PartWrites(db, r, row, other);
      PartRecords(db.WithRow(r, row), r.tenant, Some(row.id), actor, RevokeAction, t);
      PartRecords(db.WithRow(r, row), r.tenant, Some(row.id), actor, RevokeAction, other);
    }
  }

  lemma MutationStaysIn(db: Db, ring: Keyring, m: Mutation, actor: string, seed: Seed, t: string, other: string)
    requires m.Target().tenant == t && t != other && (seed.draw.Draw? ==> seed.id !in db.Ids())
    ensures StaysIn(db, ApplyOne(db, ring, m, actor, seed), ApplyOne(Part(db, t), ring, m, actor, seed), t, other)
  {
    hide PutTx, Part;
    match m
    case Put(secret) => PutStaysIn(db, ring, secret, actor, seed, t, other);
    case Delete(r) => DeleteStaysIn(db, r, actor, t, other);
  }

  lemma {:induction false} ApplyStaysIn(db: Db, ring: Keyring, ms: seq<Mutation>, actor: string, supply: seq<Seed>, n: nat,
                                        t: string, other: string)
    requires n <= |ms| && OneTenant(t, ms) && t != other && FreshSupply(db, supply)
    ensures StaysIn(db, Apply(db, ring, ms, actor, supply, n), Apply(Part(db, t), ring, ms, actor, supply, n), t, other)
  {
    hide ApplyOne, Part, FreshSupply, Known;
    if n > 0 {
      ApplyStaysIn(db, ring, ms, actor, supply, n - 1, t, other);
      if Apply(db, ring, ms, actor, supply, n - 1).Ok? {
        var before := Apply(db, ring, ms, actor, supply, n - 1).value;
        NextSeedFresh(db, ring, ms, actor, supply, n - 1);
        assert At(supply, n - 1).draw.Draw? ==> At(supply, n - 1).id !in before.Ids() by {
          KnownHoldsIds(before);
        }
        assert ms[n - 1].Target().tenant == t;
        MutationStaysIn(before, ring, ms[n - 1], actor, At(supply, n - 1), t, other);
      }
    }
  }

  lemma KnownHoldsIds(db: Db)
    ensures db.Ids() <= CustodyRefinement.Known(db)
  {
  }

  // ---- Whole steps ----

  /** The step is one the service makes for a principal of tenant `t`. */
  predicate For(step: Step, t: string) {
    match step
    case PutStep(_, input, _) => input.reference.tenant == t
    case DeleteStep(r, _) => r.tenant == t
    case RevokeStep(r, _) => r.tenant == t
    case PurgeStep(tenant, _) => tenant == t
    case InsertStep(_, k, _, _, _, _, _) => k.tenant == t
    case CommitStep(_, k, _, _) => k.tenant == t
    case AbortStep(_, k, _) => k.tenant == t
    case FailedStep => true
    case _ => false
  }

  /** Every batch that opens names its own tenant only. */
  predicate BatchesOwnTenant(universe: map<string, string>, db: Db) {
    forall k | k in db.batches :: BatchOwnTenant(universe, k, db.batches[k])
  }

  predicate BatchOwnTenant(universe: map<string, string>, k: BatchKey, row: BatchRow) {
    match OpenBatch(universe, k.tenant, k.id, row.actor, row.envelope)
    case Ok(Batch(_, ms)) => OneTenant(k.tenant, ms)
    case _ => true
  }

  lemma PartBatches(db: Db, t: string, k: BatchKey)
    requires k.tenant == t
    ensures k in Part(db, t).batches <==> k in db.batches
    ensures k in db.batches ==> Part(db, t).batches[k] == db.batches[k]
    ensures Part(Db(db.secrets, db.batches - {k}, db.audit), t) == Db(Part(db, t).secrets, Part(db, t).batches - {k}, Part(db, t).audit)
  {
  }

  lemma PartOtherBatches(db: Db, other: string, k: BatchKey)
    requires k.tenant != other
    ensures Part(Db(db.secrets, db.batches - {k}, db.audit), other) == Part(db, other)
  {
  }

  lemma OpensAlike(universe: map<string, string>, ring: Keyring, k: BatchKey, row: BatchRow)
    requires Agrees(ring.keys, universe) && BatchOwnTenant(universe, k, row)
    ensures match OpenBatch(ring.keys, k.tenant, k.id, row.actor, row.envelope)
            case Ok(Batch(_, ms)) => OneTenant(k.tenant, ms)
            case _ => true
  {
  }

  lemma CommitStaysIn(universe: map<string, string>, db: Db, ring: Keyring, k: BatchKey, at: real, supply: seq<Seed>, t: string, other: string)
    requires k.tenant == t && t != other && FreshSupply(db, supply) && Agrees(ring.keys, universe) && BatchesOwnTenant(universe, db)
    ensures var (after, result) := CommitTx(db, ring, k, at, supply);
            CommitTx(Part(db, t), ring, k, at, supply) == (Part(after, t), result) && Part(after, other) == Part(db, other)
  {
    PartBatches(db, t, k);
    if k in db.batches && at < db.batches[k].expiresAt {
      var row := db.batches[k];
      assert BatchOwnTenant(universe, k, row);
      OpensAlike(universe, ring, k, row);
      PartOtherBatches(db, other, k);
      hide Part, OpenBatch, BatchesOwnTenant, FreshSupply;
      var taken := Db(db.secrets, db.batches - {k}, db.audit);
      match OpenBatch(ring.keys, k.tenant, k.id, row.actor, row.envelope)
      case Ok(Batch(_, ms)) =>
        FreshForTaken(db, k, supply);
        ApplyStaysIn(taken, ring, ms, row.actor, supply, |ms|, t, other);
        if Apply(taken, ring, ms, row.actor, supply, |ms|).Ok? {
          var applied := Apply(taken, ring, ms, row.actor, supply, |ms|).value;
          PartRecords(applied, k.tenant, None, row.actor, CommitAction, t);
          PartRecords(applied, k.tenant, None, row.actor, CommitAction, other);
        }
      case _ =>
    }
  }

  lemma FreshForTaken(db: Db, k: BatchKey, supply: seq<Seed>)
    requires FreshSupply(db, supply)
    ensures FreshSupply(Db(db.secrets, db.batches - {k}, db.audit), supply)
  {
  }

  lemma PurgeStaysIn(db: Db, at: real, t: string, other: string)
    requires t != other
    ensures Purge(Part(db, t), t, at) == Part(Purge(db, t, at), t) && Part(Purge(db, t, at), other) == Part(db, other)
  {
    hide LogOf;
    assert Purge(Part(db, t), t, at).batches == Part(Purge(db, t, at), t).batches;
    assert Part(Purge(db, t, at), other).batches == Part(db, other).batches;
  }

  lemma InsertStaysIn(db: Db, k: BatchKey, actor: string, sealed: SealedBatch, t: string, other: string)
    requires k.tenant == t && t != other
    ensures StaysIn(db, InsertBatch(db, k, actor, sealed), InsertBatch(Part(db, t), k, actor, sealed), t, other)
  {
    hide LogOf;
    if k !in db.batches {
      var after := InsertBatch(db, k, actor, sealed).value;
      assert Part(after, t).batches == Part(db, t).batches[k := after.batches[k]];
      assert Part(after, other).batches == Part(db, other).batches;
    }
  }

  lemma AbortStaysIn(db: Db, ring: Keyring, k: BatchKey, at: real, t: string, other: string)
    requires k.tenant == t && t != other
    ensures var (after, result) := Abort(db, ring, k, at);
            Abort(Part(db, t), ring, k, at) == (Part(after, t), result) && Part(after, other) == Part(db, other)
  {
    PartBatches(db, t, k);
    PartOtherBatches(db, other, k);
    hide Part;
  }

  lemma BatchStepStaysIn(db: Db, step: Step, t: string, other: string)
    requires For(step, t) && t != other && (step.PurgeStep? || step.InsertStep? || step.AbortStep? || step.FailedStep?)
    ensures var (after, outcome) := Next(db, step);
            Next(Part(db, t), step) == (Part(after, t), outcome) && Part(after, other) == Part(db, other)
  {
    hide SealPrepared, Part, Purge, InsertBatch, Abort;
    match step
    case PurgeStep(_, at) => PurgeStaysIn(db, at, t, other);
    case InsertStep(ring, k, mutations, actor, clock, lifetime, draw) =>
      var sealed := SealPrepared(ring, k.tenant, k.id, mutations, actor, clock, lifetime, draw);
      if sealed.Ok? {
        InsertStaysIn(db, k, actor, sealed.value, t, other);
      }
    case AbortStep(ring, k, at) => AbortStaysIn(db, ring, k, at, t, other);
    case FailedStep =>
  }

  lemma SecretStepStaysIn(universe: map<string, string>, db: Db, step: Step, t: string, other: string)
    requires For(step, t) && t != other && (step.PutStep? || step.DeleteStep? || step.RevokeStep?) && Supported(universe, db, step)
    ensures var (after, outcome) := Next(db, step);
            Next(Part(db, t), step) == (Part(after, t), outcome) && Part(after, other) == Part(db, other)
  {
    hide PutTx, DeleteTx, RevokeTx, Part;
    match step
    case PutStep(ring, input, seed) =>
      assert [seed][0] == seed;
      PutStaysIn(db, ring, input, input.owner, seed, t, other);
    case DeleteStep(r, actor) => DeleteStaysIn(db, r, actor, t, other);
    case RevokeStep(r, actor) => RevokeStaysIn(db, r, actor, t, other);
  }

  /** A transaction made for tenant `t` answers and leaves exactly what it would if the tables held
      `t` alone, and leaves every other tenant's part as it was. */
  lemma StepStaysIn(universe: map<string, string>, db: Db, step: Step, t: string, other: string)
    requires For(step, t) && t != other && Supported(universe, db, step) && BatchesOwnTenant(universe, db)
    ensures var (after, outcome) := Next(db, step);
            Next(Part(db, t), step) == (Part(after, t), outcome) && Part(after, other) == Part(db, other)
  {
    match step {
      case CommitStep(ring, k, at, supply) =>
        hide CommitTx, Part, FreshSupply, BatchesOwnTenant;
        CommitStaysIn(universe, db, ring, k, at, supply, t, other);
      case PutStep(_, _, _) => hide *; SecretStepStaysIn(universe, db, step, t, other);
      case DeleteStep(_, _) => hide *; SecretStepStaysIn(universe, db, step, t, other);
      case RevokeStep(_, _) => hide *; SecretStepStaysIn(universe, db, step, t, other);
      case _ => BatchStepStaysIn(db, step, t, other);
    }
  }

  // ---- Every held batch names its own tenant, over whole runs ----

  predicate HeldOwnTenant(held: map<BatchKey, Held>) {
    forall k | k in held :: OneTenant(k.tenant, held[k].mutations)
  }

  lemma AdvanceKeepsOwnTenant(p: Plain, step: Step, outcome: Outcome)
    requires HeldOwnTenant(p.held) && Allows(p, step, outcome)
    ensures HeldOwnTenant(Advance(p, step, outcome).held)
  {
    hide OneTenant, MutateCells, PutCell;
  }

  lemma {:induction false} RunHeldOwnTenant(universe: map<string, string>, steps: seq<Step>, n: nat)
    requires n <= |steps| && SupportedRun(universe, EMPTY, steps)
    ensures HeldOwnTenant(PlainAfter(NOTHING, EMPTY, steps, n).held)
  {
    hide Advance, Allows, Next, Supported, Related, HeldOwnTenant;
    if n == 0 {
      NothingHeld();
    } else {
      RunHeldOwnTenant(universe, steps, n - 1);
      RunRefines(universe, steps, n - 1);
      AdvanceKeepsOwnTenant(PlainAfter(NOTHING, EMPTY, steps, n - 1), steps[n - 1], OutcomeAt(EMPTY, steps, n - 1));
    }
  }

  lemma NothingHeld()
    ensures HeldOwnTenant(NOTHING.held)
  {
  }

  lemma HeldToBatches(universe: map<string, string>, db: Db, held: map<BatchKey, Held>)
    requires BatchesMatch(universe, db, held) && HeldOwnTenant(held)
    ensures BatchesOwnTenant(universe, db)
  {
    hide OpenBatch, OneTenant;
    forall k | k in db.batches
      ensures BatchOwnTenant(universe, k, db.batches[k])
    {
      assert k in held;
    }
  }

  /** Over every run from the empty tables, each held batch names its own tenant only, and a step
      made for one tenant reads and changes that tenant's part alone. */
  lemma TenantsStayApart(universe: map<string, string>, steps: seq<Step>, n: nat, t: string, other: string)
    requires n < |steps| && SupportedRun(universe, EMPTY, steps) && For(steps[n], t) && t != other
    ensures BatchesOwnTenant(universe, Run(EMPTY, steps, n))
    ensures var db := Run(EMPTY, steps, n);
            Next(Part(db, t), steps[n]) == (Part(Run(EMPTY, steps, n + 1), t), OutcomeAt(EMPTY, steps, n))
            && Part(Run(EMPTY, steps, n + 1), other) == Part(db, other)
  {
    hide Advance, Allows, Next, Supported, CellsMatch, BatchesMatch, HeldOwnTenant, BatchesOwnTenant, Part, For;
    RunHeldOwnTenant(universe, steps, n);
    RunRefines(universe, steps, n);
    HeldToBatches(universe, Run(EMPTY, steps, n), PlainAfter(NOTHING, EMPTY, steps, n).held);
    StepStaysIn(universe, Run(EMPTY, steps, n), steps[n], t, other);
  }

  // ---- Requests ----

  /** What a request of the service is supplied with, as its transactions need it. */
  predicate SuppliedRequest(universe: map<string, string>, db: Db, ring: Keyring, request: Http.Request) {
    && Agrees(ring.keys, universe)
    && (request.WorkloadPut? ==> FreshSupply(db, [request.seed]))
    && (request.WorkloadCommit? ==> FreshSupply(db, request.supply))
  }

  lemma PartSecret(db: Db, r: SecretRef)
    ensures r in Part(db, r.tenant).secrets <==> r in db.secrets
    ensures r in db.secrets ==> Part(db, r.tenant).secrets[r] == db.secrets[r]
  {
  }

  lemma PartList(db: Db, t: string, owner: Option<string>)
    ensures List(Part(db, t), t, owner) == List(db, t, owner)
  {
    var part := Part(db, t);
    forall m | m in List(db, t, owner)
      ensures m in List(part, t, owner)
    {
      var r :| r in db.secrets && r.tenant == t && (owner.None? || db.secrets[r].owner == owner.value) && MetadataOf(r, db.secrets[r]) == m;
      PartSecret(db, r);
    }
    forall m | m in List(part, t, owner)
      ensures m in List(db, t, owner)
    {
      var r :| r in part.secrets && r.tenant == t && (owner.None? || part.secrets[r].owner == owner.value) && MetadataOf(r, part.secrets[r]) == m;
      PartSecret(db, r);
    }
  }

  lemma PartOwned(db: Db, p: Http.Principal, r: SecretRef)
    ensures Http.Owned(Part(db, p.tenant), p, r) <==> Http.Owned(db, p, r)
    ensures Http.Owned(db, p, r) ==> r in db.secrets
  {
    Http.OwnedIff(db, p, r);
    Http.OwnedIff(Part(db, p.tenant), p, r);
    if r.tenant == p.tenant {
      PartSecret(db, r);
    }
  }

  lemma ReadStaysIn(db: Db, ring: Keyring, p: Http.Principal, request: Http.Request)
    requires Http.Authorize(Http.Known(p), request).Ok?
    requires request.UserList? || request.UserDetail? || request.WorkloadGet? || request.WorkloadExists? || request.WorkloadList?
    ensures Http.Serve(Part(db, p.tenant), ring, p, request) == (Part(db, p.tenant), Http.Serve(db, ring, p, request).1)
    ensures Http.Serve(db, ring, p, request).0 == db
  {
    PartList(db, p.tenant, Some(p.subject));
    PartList(db, p.tenant, None);
    match request {
      case UserDetail(r) => PartSecret(db, r); PartOwned(db, p, r); hide Part, List, Http.Owned;
      case WorkloadGet(r) => PartSecret(db, r); hide Part, List, Decrypt;
      case WorkloadExists(r) => PartSecret(db, r); hide Part, List;
      case _ => hide Part, List;
    }
  }

  lemma RevokeRequestStaysIn(db: Db, ring: Keyring, p: Http.Principal, request: Http.Request, other: string)
    requires request.UserRevoke? && request.reference.tenant == p.tenant != other
    ensures var (after, response) := Http.Serve(db, ring, p, request);
            && Http.Serve(Part(db, p.tenant), ring, p, request) == (Part(after, p.tenant), response)
            && Part(after, other) == Part(db, other)
  {
    var r := request.reference;
    PartOwned(db, p, r);
    RevokeStaysIn(db, r, p.subject, p.tenant, other);
    if r in db.secrets {
      var after := RevokeTx(db, r, p.subject).value;
      assert r in after.secrets;
      PartSecret(after, r);
    }
    hide Part, Http.Owned, RevokeTx;
  }

  lemma DeleteRequestStaysIn(db: Db, ring: Keyring, p: Http.Principal, request: Http.Request, other: string)
    requires (request.UserDelete? || request.WorkloadDelete?) && request.reference.tenant == p.tenant != other
    ensures var (after, response) := Http.Serve(db, ring, p, request);
            && Http.Serve(Part(db, p.tenant), ring, p, request) == (Part(after, p.tenant), response)
            && Part(after, other) == Part(db, other)
  {
    var r := request.reference;
    hide Part, Http.Owned, DeleteTx;
    PartOwned(db, p, r);
    DeleteStaysIn(db, r, if request.WorkloadDelete? && request.actor.Some? then request.actor.value else p.subject, p.tenant, other);
  }

  lemma PutRequestStaysIn(db: Db, ring: Keyring, p: Http.Principal, request: Http.Request, other: string)
    requires request.WorkloadPut? && request.input.reference.tenant == p.tenant != other
    requires request.seed.draw.Draw? ==> request.seed.id !in db.Ids()
    ensures var (after, response) := Http.Serve(db, ring, p, request);
            && Http.Serve(Part(db, p.tenant), ring, p, request) == (Part(after, p.tenant), response)
            && Part(after, other) == Part(db, other)
  {
    var put := if request.input.owner == "" then request.input.(owner := p.subject) else request.input;
    PutStaysIn(db, ring, put, put.owner, request.seed, p.tenant, other);
    PutLeavesRow(db, ring, put, put.owner, request.seed);
    if PutTx(db, ring, put, put.owner, request.seed).Ok? {
      PartSecret(PutTx(db, ring, put, put.owner, request.seed).value, put.reference);
    }
    hide Part, PutTx;
  }

  lemma PutLeavesRow(db: Db, ring: Keyring, input: PutSecret, actor: string, seed: Seed)
    ensures PutTx(db, ring, input, actor, seed).Ok? ==> input.reference in PutTx(db, ring, input, actor, seed).value.secrets
  {
    hide Encrypt, ValidateRef, Db.Ids;
  }

  lemma ChangeStaysIn(universe: map<string, string>, db: Db, ring: Keyring, p: Http.Principal, request: Http.Request, other: string)
    requires Http.Authorize(Http.Known(p), request).Ok? && other != p.tenant && SuppliedRequest(universe, db, ring, request)
    requires request.UserRevoke? || request.UserDelete? || request.WorkloadPut? || request.WorkloadDelete?
    ensures var (after, response) := Http.Serve(db, ring, p, request);
            && Http.Serve(Part(db, p.tenant), ring, p, request) == (Part(after, p.tenant), response)
            && Part(after, other) == Part(db, other)
  {
    assert request.WorkloadPut? ==> FreshSupply(db, [request.seed]) && [request.seed][0] == request.seed;
    hide Http.Serve, Part, SuppliedRequest;
    match request {
      case UserRevoke(_) => RevokeRequestStaysIn(db, ring, p, request, other);
      case UserDelete(_) => DeleteRequestStaysIn(db, ring, p, request, other);
      case WorkloadPut(_, _) => PutRequestStaysIn(db, ring, p, request, other);
      case WorkloadDelete(_, _) => DeleteRequestStaysIn(db, ring, p, request, other);
    }
  }

  lemma PurgedKeepsSupport(universe: map<string, string>, db: Db, t: string, at: real, supply: seq<Seed>)
    requires BatchesOwnTenant(universe, db) && FreshSupply(db, supply)
    ensures BatchesOwnTenant(universe, Purge(db, t, at)) && FreshSupply(Purge(db, t, at), supply)
  {
    hide OpenBatch, OneTenant;
  }

  lemma BatchRequestStaysIn(universe: map<string, string>, db: Db, ring: Keyring, p: Http.Principal, request: Http.Request, other: string)
    requires Http.Authorize(Http.Known(p), request).Ok? && other != p.tenant && SuppliedRequest(universe, db, ring, request)
    requires BatchesOwnTenant(universe, db)
    requires request.WorkloadPrepare? || request.WorkloadCommit? || request.WorkloadAbort?
    ensures var (after, response) := Http.Serve(db, ring, p, request);
            && Http.Serve(Part(db, p.tenant), ring, p, request) == (Part(after, p.tenant), response)
            && Part(after, other) == Part(db, other)
  {
    var t := p.tenant;
    hide Part, Purge, InsertBatch, SealPrepared, CommitTx, Abort, BatchesOwnTenant, FreshSupply, OneTenant;
    match request {
      case WorkloadPrepare(_, id, mutations, actor, clock, lifetime, purgeAt, draw) =>
        PurgeStaysIn(db, purgeAt, t, other);
        var sealed := SealPrepared(ring, t, id, mutations, actor, clock, lifetime, draw);
        if sealed.Ok? {
          InsertStaysIn(Purge(db, t, purgeAt), BatchKey(t, id), actor, sealed.value, t, other);
        }
      case WorkloadCommit(_, id, purgeAt, at, supply) =>
        PurgeStaysIn(db, purgeAt, t, other);
        PurgedKeepsSupport(universe, db, t, purgeAt, supply);
        CommitStaysIn(universe, Purge(db, t, purgeAt), ring, BatchKey(t, id), at, supply, t, other);
      case WorkloadAbort(_, id, at) => AbortStaysIn(db, ring, BatchKey(t, id), at, t, other);
    }
  }

  /** A request by a principal of tenant `t` is answered from `t`'s secrets and batches alone, adds to
      `t`'s log alone and changes nothing of another tenant; one that names another tenant is
      refused. */
  lemma RequestStaysIn(universe: map<string, string>, db: Db, ring: Keyring, p: Http.Principal, request: Http.Request, other: string)
    requires other != p.tenant && SuppliedRequest(universe, db, ring, request) && BatchesOwnTenant(universe, db)
    ensures var (after, response) := Http.Handle(db, ring, Http.Known(p), request);
            && Http.Handle(Part(db, p.tenant), ring, Http.Known(p), request) == (Part(after, p.tenant), response)
            && Part(after, other) == Part(db, other)
    ensures Http.Names(request) == Some(other) ==> Http.Handle(db, ring, Http.Known(p), request).1.Failure?
  {
    hide Http.Serve, Part, BatchesOwnTenant, SuppliedRequest;
    if Http.Authorize(Http.Known(p), request).Ok? {
      match request {
        case UserList => ReadStaysIn(db, ring, p, request);
        case UserDetail(_) => ReadStaysIn(db, ring, p, request);
        case WorkloadGet(_) => ReadStaysIn(db, ring, p, request);
        case WorkloadExists(_) => ReadStaysIn(db, ring, p, request);
        case WorkloadList(_, _) => ReadStaysIn(db, ring, p, request);
        case UserRevoke(_) => ChangeStaysIn(universe, db, ring, p, request, other);
        case UserDelete(_) => ChangeStaysIn(universe, db, ring, p, request, other);
        case WorkloadPut(_, _) => ChangeStaysIn(universe, db, ring, p, request, other);
        case WorkloadDelete(_, _) => ChangeStaysIn(universe, db, ring, p, request, other);
        case _ => BatchRequestStaysIn(universe, db, ring, p, request, other);
      }
    }
  }
}
