/** The service's handlers as functions over the store: who may call, which tenant and owner a request
    may name, and how a store refusal is answered. A request is one step here; where the service
    runs it as two transactions, module Custody has them apart. */
module Http {
  import opened Basics
  import opened Core
  import opened Crypto
  import opened Custody

  datatype Principal = Principal(subject: string, tenant: string, actions: set<string>) {
    predicate Permits(action: string) {
      action in actions || "*" in actions
    }
  }

  /** What the authority makes of the request's token. */
  datatype Caller = Known(principal: Principal) | Unknown | AuthorityDown

  datatype Refusal =
    | Unauthorized
    | Forbidden
    | MissingAction
    | NoRecord
    | NotOwned
    | NoDeleteTarget
    | Duplicate
    | BadReference
    | LongReference
    | NoMutations
    | OtherTenant
    | TooLarge
    | Down

  function Status(refusal: Refusal): nat {
    match refusal
    case Unauthorized => 401
    case Forbidden => 403
    case MissingAction => 403
    case NoRecord => 404
    case NotOwned => 404
    case NoDeleteTarget => 404
    case Duplicate => 409
    case BadReference => 400
    case LongReference => 400
    case NoMutations => 400
    case OtherTenant => 400
    case TooLarge => 413
    case Down => 503
  }

  function RefusalOf(error: StoreError): Refusal {
    match error
    case NotFound => NoRecord
    case DeleteTargetMissing => NoDeleteTarget
    case Conflict => Duplicate
    case Invalid(MalformedReference) => BadReference
    case Invalid(InvalidReference) => LongReference
    case Invalid(EmptyBatch) => NoMutations
    case Invalid(CrossTenantBatch) => OtherTenant
    case Unavailable => Down
    case Crypto => Down
  }

  /** A caller can tell every store refusal from every other, except an unavailable store from a failed
      seal; and the status alone says whether something was missing, taken, wrong or down. */
  lemma RefusalTellsTheError(a: StoreError, b: StoreError)
    ensures RefusalOf(a) == RefusalOf(b) ==> a == b || ({a, b} == {StoreError.Unavailable, StoreError.Crypto})
    ensures Status(RefusalOf(a)) == 404 <==> a == NotFound || a == DeleteTargetMissing
    ensures Status(RefusalOf(a)) == 409 <==> a == Conflict
    ensures Status(RefusalOf(a)) == 400 <==> a.Invalid?
    ensures Status(RefusalOf(a)) == 503 <==> a == StoreError.Unavailable || a == StoreError.Crypto
  {
  }

  /** Each status is for its own refusals. */
  lemma StatusIff(refusal: Refusal)
    ensures Status(refusal) == 400 <==> refusal in {BadReference, LongReference, NoMutations, OtherTenant}
    ensures Status(refusal) == 401 <==> refusal == Unauthorized
    ensures Status(refusal) == 403 <==> refusal == Forbidden || refusal == MissingAction
    ensures Status(refusal) == 404 <==> refusal in {NoRecord, NotOwned, NoDeleteTarget}
    ensures Status(refusal) == 409 <==> refusal == Duplicate
    ensures Status(refusal) == 413 <==> refusal == TooLarge
    ensures Status(refusal) == 503 <==> refusal == Down
  {
  }

  datatype Request =
    | UserList
    | UserDetail(reference: SecretRef)
    | UserRevoke(reference: SecretRef)
    | UserDelete(reference: SecretRef)
    | WorkloadPut(input: PutSecret, seed: Seed)
    | WorkloadGet(reference: SecretRef)
    | WorkloadExists(reference: SecretRef)
    | WorkloadList(tenant: string, namespace: string)
    | WorkloadDelete(reference: SecretRef, actor: Option<string>)
    | WorkloadPrepare(tenant: string, id: Uuid, mutations: seq<Mutation>, preparer: string, clock: nat, lifetime: nat, purgeAt: real, draw: Draw)
    | WorkloadCommit(tenant: string, id: Uuid, purgeAt: real, at: real, supply: seq<Seed>)
    | WorkloadAbort(tenant: string, id: Uuid, at: real)

  datatype Response =
    | Metadata(metadata: SecretMetadata)
    | Revealed(stored: StoredSecret)
    | Existence(found: bool)
    | Listing(secrets: set<SecretMetadata>)
    | NoContent
    | Failure(refusal: Refusal)

  /** The action a route asks for. */
  function ActionOf(request: Request): string {
    match request
    case UserList => "secret:list"
    case UserDetail(_) => "secret:read_metadata"
    case UserRevoke(_) => "secret:revoke"
    case UserDelete(_) => "secret:delete"
    case WorkloadPut(_, _) => "secret:write"
    case WorkloadGet(_) => "secret:read_value"
    case WorkloadExists(_) => "secret:read_metadata"
    case WorkloadList(_, _) => "secret:list"
    case WorkloadDelete(_, _) => "secret:delete"
    case WorkloadPrepare(_, _, _, _, _, _, _, _) => "secret:prepare"
    case WorkloadCommit(_, _, _, _, _) => "secret:commit"
    case WorkloadAbort(_, _, _) => "secret:abort"
  }

  /** The tenant a request names; a user listing names none and means the caller's own. */
  function Names(request: Request): Option<string> {
    match request
    case UserList => None
    case UserDetail(r) => Some(r.tenant)
    case UserRevoke(r) => Some(r.tenant)
    case UserDelete(r) => Some(r.tenant)
    case WorkloadPut(input, _) => Some(input.reference.tenant)
    case WorkloadGet(r) => Some(r.tenant)
    case WorkloadExists(r) => Some(r.tenant)
    case WorkloadList(tenant, _) => Some(tenant)
    case WorkloadDelete(r, _) => Some(r.tenant)
    case WorkloadPrepare(tenant, _, _, _, _, _, _, _) => Some(tenant)
    case WorkloadCommit(tenant, _, _, _, _) => Some(tenant)
    case WorkloadAbort(tenant, _, _) => Some(tenant)
  }

  /** The principal, once its action and the addressed tenant are checked. */
  function Authorize(caller: Caller, request: Request): Result<Principal, Refusal> {
    match caller
    case Unknown => Err(Unauthorized)
    case AuthorityDown => Err(Down)
    case Known(p) =>
      if !p.Permits(ActionOf(request)) then Err(MissingAction)
      else if Names(request).Some? && Names(request).value != p.tenant then Err(Forbidden)
      else Ok(p)
  }

  /** `assert_owner`: the caller's own listing holds the reference. */
  predicate Owned(db: Db, p: Principal, r: SecretRef) {
    exists m :: m in List(db, p.tenant, Some(p.subject)) && m.reference == r
  }

  lemma OwnedIff(db: Db, p: Principal, r: SecretRef)
    ensures Owned(db, p, r) <==> r in db.secrets && r.tenant == p.tenant && db.secrets[r].owner == p.subject
    ensures forall m | m in List(db, p.tenant, Some(p.subject)) && m.reference == r :: m == MetadataOf(r, db.secrets[r])
  {
    if r in db.secrets && r.tenant == p.tenant && db.secrets[r].owner == p.subject {
      assert MetadataOf(r, db.secrets[r]) in List(db, p.tenant, Some(p.subject));
    }
  }

  function Answer(db: Db, result: Result<Db, StoreError>, response: Db --> Response): (Db, Response)
    requires result.Ok? ==> response.requires(result.value)
  {
    match result
    case Ok(after) => (after, response(after))
    case Err(error) => (db, Failure(RefusalOf(error)))
  }

  function Serve(db: Db, ring: Keyring, p: Principal, request: Request): (Db, Response) {
    match request
    case UserList => (db, Listing(List(db, p.tenant, Some(p.subject))))
    case UserDetail(r) =>
      if !Owned(db, p, r) then (db, Failure(NotOwned))
      else
        OwnedIff(db, p, r);
        (db, Metadata(MetadataOf(r, db.secrets[r])))
    case UserRevoke(r) =>
      if !Owned(db, p, r) then (db, Failure(NotOwned))
      else Answer(db, RevokeTx(db, r, p.subject), (after: Db) requires r in after.secrets => Metadata(MetadataOf(r, after.secrets[r])))
    case UserDelete(r) =>
      if !Owned(db, p, r) then (db, Failure(NotOwned))
      else Answer(db, DeleteTx(db, r, p.subject), _ => NoContent)
    case WorkloadPut(input, seed) =>
      var put := if input.owner == "" then input.(owner := p.subject) else input;
      Answer(db, PutTx(db, ring, put, put.owner, seed),
             (after: Db) requires put.reference in after.secrets => Metadata(MetadataOf(put.reference, after.secrets[put.reference])))
    case WorkloadGet(r) =>
      (match Get(db, ring.keys, r)
       case Ok(stored) => (db, Revealed(stored))
       case Err(error) => (db, Failure(RefusalOf(error))))
    case WorkloadExists(r) => (db, Existence(Exists(db, r)))
    case WorkloadList(tenant, namespace) =>
      (db, Listing(set m | m in List(db, tenant, None) && m.reference.namespace == namespace))
    case WorkloadDelete(r, actor) =>
      Answer(db, DeleteTx(db, r, if actor.Some? then actor.value else p.subject), _ => NoContent)
    case WorkloadPrepare(tenant, id, mutations, actor, clock, lifetime, purgeAt, draw) =>
      (match SealPrepared(ring, tenant, id, mutations, actor, clock, lifetime, draw)
       case Err(error) => (db, Failure(RefusalOf(error)))
       case Ok(sealed) =>
         var purged := Purge(db, tenant, purgeAt);
         Answer(purged, InsertBatch(purged, BatchKey(tenant, id), actor, sealed), _ => NoContent))
    case WorkloadCommit(tenant, id, purgeAt, at, supply) =>
      (match CommitTx(Purge(db, tenant, purgeAt), ring, BatchKey(tenant, id), at, supply)
       case (after, Ok(_)) => (after, NoContent)
       case (after, Err(error)) => (after, Failure(RefusalOf(error))))
    case WorkloadAbort(tenant, id, at) =>
      (match Abort(db, ring, BatchKey(tenant, id), at)
       case (after, Ok(_)) => (after, NoContent)
       case (after, Err(error)) => (after, Failure(RefusalOf(error))))
  }

  function Handle(db: Db, ring: Keyring, caller: Caller, request: Request): (Db, Response) {
    match Authorize(caller, request)
    case Err(refusal) => (db, Failure(refusal))
    case Ok(p) => Serve(db, ring, p, request)
  }

  // ---- User routes see only what the caller owns ----

  /** The rows of one owner in one tenant. */
  function OwnRows(db: Db, p: Principal): map<SecretRef, SecretRow> {
    map r | r in db.secrets && r.tenant == p.tenant && db.secrets[r].owner == p.subject :: db.secrets[r]
  }

  predicate UserRoute(request: Request) {
    request.UserList? || request.UserDetail? || request.UserRevoke? || request.UserDelete?
  }

  /** What a request appended to the log. */
  function Logged(before: Db, after: Db): seq<AuditRow> {
    if |before.audit| <= |after.audit| then after.audit[|before.audit|..] else []
  }

  lemma SameOwnRows(a: Db, b: Db, p: Principal, r: SecretRef)
    requires OwnRows(a, p) == OwnRows(b, p)
    ensures Owned(a, p, r) <==> Owned(b, p, r)
    ensures Owned(a, p, r) ==> r in a.secrets && r in b.secrets && a.secrets[r] == b.secrets[r]
  {
    OwnedIff(a, p, r);
    OwnedIff(b, p, r);
    assert r in OwnRows(a, p) <==> r in OwnRows(b, p);
    assert r in OwnRows(a, p) ==> OwnRows(a, p)[r] == OwnRows(b, p)[r];
  }

  lemma ListIsOwnRows(db: Db, p: Principal)
    ensures List(db, p.tenant, Some(p.subject)) == set r | r in OwnRows(db, p) :: MetadataOf(r, OwnRows(db, p)[r])
  {
    var mine := OwnRows(db, p);
    forall m | m in List(db, p.tenant, Some(p.subject))
      ensures m in set r | r in mine :: MetadataOf(r, mine[r])
    {
      var r :| r in db.secrets && r.tenant == p.tenant && db.secrets[r].owner == p.subject && MetadataOf(r, db.secrets[r]) == m;
      assert r in mine;
    }
  }

  lemma RevokedOwnRows(db: Db, p: Principal, r: SecretRef)
    requires Owned(db, p, r)
    ensures r in db.secrets && r in OwnRows(db, p)
    ensures OwnRows(RevokeTx(db, r, p.subject).value, p) == OwnRows(db, p)[r := db.secrets[r].(state := Revoked)]
    ensures OwnRows(DeleteTx(db, r, p.subject).value, p) == OwnRows(db, p) - {r}
  {
    OwnedIff(db, p, r);
  }

  /** Two stores that agree on the caller's own rows answer every user route alike, log the same, and
      agree on them again afterwards, whatever else they hold. */
  lemma UserRoutesSeeOwnRows(a: Db, b: Db, ring: Keyring, ring': Keyring, p: Principal, request: Request)
    requires UserRoute(request) && OwnRows(a, p) == OwnRows(b, p)
    ensures var (a', answer) := Handle(a, ring, Known(p), request);
            var (b', answer') := Handle(b, ring', Known(p), request);
            && answer == answer' && OwnRows(a', p) == OwnRows(b', p) && Logged(a, a') == Logged(b, b')
  {
    hide PutTx, CommitTx, Get, Abort, Purge, SealPrepared, InsertBatch;
    ListIsOwnRows(a, p);
    ListIsOwnRows(b, p);
    if !request.UserList? {
      var r := request.reference;
      SameOwnRows(a, b, p, r);
      if Owned(a, p, r) {
        RevokedOwnRows(a, p, r);
        RevokedOwnRows(b, p, r);
      }
      hide Owned, OwnRows, List;
    }
  }

  /** Rows of other owners are not touched by a user route, nor are other tenants'. */
  lemma UserRoutesChangeOwnRows(db: Db, ring: Keyring, p: Principal, request: Request, q: SecretRef)
    requires UserRoute(request) && !Owned(db, p, q)
    ensures var (after, _) := Handle(db, ring, Known(p), request);
            && (q in after.secrets <==> q in db.secrets) && (q in db.secrets ==> after.secrets[q] == db.secrets[q])
            && after.batches == db.batches
  {
    hide Owned, List, PutTx, CommitTx, Get, Abort, Purge, SealPrepared, InsertBatch;
  }

  /** Another owner's secret is answered exactly as no secret at all. */
  lemma ForeignIsAbsent(db: Db, ring: Keyring, p: Principal, request: Request, q: SecretRef)
    requires UserRoute(request) && !Owned(db, p, q)
    ensures Handle(db, ring, Known(p), request).1 == Handle(db.(secrets := db.secrets - {q}), ring, Known(p), request).1
    ensures !request.UserList? && request.reference == q ==> Handle(db, ring, Known(p), request).1.Failure?
  {
    OwnedIff(db, p, q);
    var without := db.(secrets := db.secrets - {q});
    assert OwnRows(db, p) == OwnRows(without, p);
    hide OwnRows, Owned, List;
    UserRoutesSeeOwnRows(db, without, ring, ring, p, request);
  }

  const READING: set<string> := {"secret:read_value"}
  const LISTING: set<string> := {"secret:list"}
  const CHECKING: set<string> := {"secret:read_metadata"}
  const DESCRIBING: set<string> := {"secret:read_metadata", "secret:revoke", "secret:write"}
  const REMOVING: set<string> := {"secret:delete", "secret:commit"}
  const WRITING: set<string> := {"secret:write", "secret:commit"}
  const REVOKING: set<string> := {"secret:revoke"}
  const PREPARING: set<string> := {"secret:prepare"}
  const RELEASING: set<string> := {"secret:prepare", "secret:commit", "secret:abort"}

  predicate Removed(before: Db, after: Db, r: SecretRef) {
    r in before.secrets && r !in after.secrets
  }

  /** The row is new or changed, and in this state. */
  predicate Became(before: Db, after: Db, r: SecretRef, state: SecretState) {
    r in after.secrets && after.secrets[r].state == state && (r in before.secrets ==> after.secrets[r] != before.secrets[r])
  }

  predicate MayOneOf(caller: Caller, actions: set<string>) {
    caller.Known? && exists action :: action in actions && caller.principal.Permits(action)
  }

  /** Whatever changes a secret takes the action for that change: for its removal, for an active row
      that is new or changed, for a row become revoked. */
  ghost predicate ChangesAllowed(before: Db, after: Db, caller: Caller) {
    forall r: SecretRef ::
      && (Removed(before, after, r) ==> MayOneOf(caller, REMOVING))
      && (Became(before, after, r, Active) ==> MayOneOf(caller, WRITING))
      && (Became(before, after, r, Revoked) ==> MayOneOf(caller, REVOKING))
  }

  /** Each kind of answer is given only under an action for it. */
  predicate AnswerAllowed(response: Response, caller: Caller) {
    && (response.Revealed? ==> MayOneOf(caller, READING))
    && (response.Listing? ==> MayOneOf(caller, LISTING))
    && (response.Existence? ==> MayOneOf(caller, CHECKING))
    && (response.Metadata? ==> MayOneOf(caller, DESCRIBING))
  }

  /** What a caller may not do, it does not do: it is told nothing but under an action for that answer,
      each change of a secret is made only under an action for that change, a batch is held only under
      the one that prepares, and one is gone only under one that touches batches. */
  lemma EffectsNeedActions(db: Db, ring: Keyring, caller: Caller, request: Request)
    ensures var (after, response) := Handle(db, ring, caller, request);
            && AnswerAllowed(response, caller) && ChangesAllowed(db, after, caller)
            && (!(after.batches.Keys <= db.batches.Keys) ==> MayOneOf(caller, PREPARING))
            && (!(db.batches.Keys <= after.batches.Keys) ==> MayOneOf(caller, RELEASING))
            && (!caller.Known? ==> after == db && response.Failure?)
  {
    hide Serve, ActionOf;
    if Authorize(caller, request).Ok? {
      hide Became, Removed;
      var p := caller.principal;
      MayByRoute(caller, request, READING);
      MayByRoute(caller, request, LISTING);
      MayByRoute(caller, request, CHECKING);
      MayByRoute(caller, request, DESCRIBING);
      MayByRoute(caller, request, REMOVING);
      MayByRoute(caller, request, WRITING);
      MayByRoute(caller, request, REVOKING);
      MayByRoute(caller, request, PREPARING);
      MayByRoute(caller, request, RELEASING);
      hide MayOneOf, Principal.Permits;
      ServedSecrets(db, ring, p, request);
      ServedBatches(db, ring, p, request);
      AnsweredUnder(db, ring, p, request);
    }
  }

  lemma MayByRoute(caller: Caller, request: Request, actions: set<string>)
    requires Authorize(caller, request).Ok?
    ensures ActionOf(request) in actions ==> MayOneOf(caller, actions)
  {
    hide ActionOf, Names;
    assert caller.principal.Permits(ActionOf(request));
  }

  lemma AnsweredUnder(db: Db, ring: Keyring, p: Principal, request: Request)
    ensures var response, action := Serve(db, ring, p, request).1, ActionOf(request);
            && (response.Revealed? ==> action in READING) && (response.Listing? ==> action in LISTING)
            && (response.Existence? ==> action in CHECKING) && (response.Metadata? ==> action in DESCRIBING)
  {
    hide PutTx, CommitTx, Get, SealPrepared, List, Owned, Abort, Purge, InsertBatch;
  }

  /** What a served request does to secrets, by its action. */
  lemma ServedSecrets(db: Db, ring: Keyring, p: Principal, request: Request)
    ensures var after, action := Serve(db, ring, p, request).0, ActionOf(request);
            forall r: SecretRef ::
              && (Removed(db, after, r) ==> action in REMOVING)
              && (Became(db, after, r, Active) ==> action in WRITING)
              && (Became(db, after, r, Revoked) ==> action in REVOKING)
  {
    if request.WorkloadCommit? {
      hide Serve;
      CommitNeverRevokes(db, ring, p, request);
    }
    hide CommitTx, Get, SealPrepared, List, Owned, Encrypt, ValidateRef, Db.Ids, Abort;
  }

  /** Every revoked row was there already. */
  predicate NoneRevoked(before: Db, after: Db) {
    forall r | r in after.secrets && after.secrets[r].state == Revoked :: r in before.secrets && before.secrets[r] == after.secrets[r]
  }

  lemma CommitNeverRevokes(db: Db, ring: Keyring, p: Principal, request: Request)
    requires request.WorkloadCommit?
    ensures NoneRevoked(db, Serve(db, ring, p, request).0)
  {
    var k, purged := BatchKey(request.tenant, request.id), Purge(db, request.tenant, request.purgeAt);
    assert purged.secrets == db.secrets;
    if k in purged.batches {
      match OpenBatch(ring.keys, k.tenant, k.id, purged.batches[k].actor, purged.batches[k].envelope)
      case Ok(Batch(_, ms)) =>
        ApplyNeverRevokes(Db(purged.secrets, purged.batches - {k}, purged.audit), ring, ms, purged.batches[k].actor, request.supply, |ms|);
      case _ =>
    }
    hide OpenBatch, Apply, Purge;
  }

  lemma OneNeverRevokes(db: Db, ring: Keyring, m: Mutation, actor: string, seed: Seed)
    ensures ApplyOne(db, ring, m, actor, seed).Ok? ==> NoneRevoked(db, ApplyOne(db, ring, m, actor, seed).value)
  {
    hide Encrypt, ValidateRef, Db.Ids;
  }

  lemma {:induction false} ApplyNeverRevokes(db: Db, ring: Keyring, ms: seq<Mutation>, actor: string, supply: seq<Seed>, n: nat)
    requires n <= |ms|
    ensures Apply(db, ring, ms, actor, supply, n).Ok? ==> NoneRevoked(db, Apply(db, ring, ms, actor, supply, n).value)
  {
    hide ApplyOne, At;
    if n > 0 {
      ApplyNeverRevokes(db, ring, ms, actor, supply, n - 1);
      if Apply(db, ring, ms, actor, supply, n - 1).Ok? {
        OneNeverRevokes(Apply(db, ring, ms, actor, supply, n - 1).value, ring, ms[n - 1], actor, At(supply, n - 1));
      }
    }
  }

  /** And to batches. */
  lemma ServedBatches(db: Db, ring: Keyring, p: Principal, request: Request)
    ensures var after, action := Serve(db, ring, p, request).0, ActionOf(request);
            && (!(after.batches.Keys <= db.batches.Keys) ==> action in PREPARING)
            && (!(db.batches.Keys <= after.batches.Keys) ==> action in RELEASING)
  {
    match request {
      case WorkloadCommit(tenant, id, purgeAt, at, supply) =>
        CommitOnlyRemoves(Purge(db, tenant, purgeAt), ring, BatchKey(tenant, id), at, supply);
      case WorkloadPut(_, _) => PutKeepsBatches(db, ring, request, p);
      case _ =>
    }
    hide PutTx, CommitTx, Get, SealPrepared, List, Owned;
  }

  lemma PutKeepsBatches(db: Db, ring: Keyring, request: Request, p: Principal)
    requires request.WorkloadPut?
    ensures Serve(db, ring, p, request).0.batches == db.batches
  {
    hide Encrypt, ValidateRef, Db.Ids;
  }

  lemma CommitOnlyRemoves(db: Db, ring: Keyring, k: BatchKey, at: real, supply: seq<Seed>)
    ensures CommitTx(db, ring, k, at, supply).0.batches.Keys <= db.batches.Keys
  {
    hide OpenBatch, Apply;
    if k in db.batches {
      match OpenBatch(ring.keys, k.tenant, k.id, db.batches[k].actor, db.batches[k].envelope)
      case Ok(Batch(_, ms)) => ApplyKeepsBatches(Db(db.secrets, db.batches - {k}, db.audit), ring, ms, db.batches[k].actor, supply, |ms|);
      case _ =>
    }
  }

  lemma {:induction false} ApplyKeepsBatches(db: Db, ring: Keyring, ms: seq<Mutation>, actor: string, supply: seq<Seed>, n: nat)
    requires n <= |ms|
    ensures Apply(db, ring, ms, actor, supply, n).Ok? ==> Apply(db, ring, ms, actor, supply, n).value.batches == db.batches
  {
    hide Encrypt, ValidateRef, Db.Ids, At;
    if n > 0 {
      ApplyKeepsBatches(db, ring, ms, actor, supply, n - 1);
    }
  }
}
