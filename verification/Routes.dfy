/** What each route of the service answers and leaves, for every caller, read off the tables. */
module Routes {
  import opened Basics
  import opened Core
  import opened Crypto
  import opened Custody
  import opened PlainStore
  import opened CustodyRefinement
  import CustodyRuns
  import opened Batches
  import opened Http

  // ---- What is said of a row, and who may ask ----

  /** The entry says of the reference's row what the row holds, field by field. */
  predicate Describes(m: SecretMetadata, r: SecretRef, row: SecretRow) {
    && m.id == row.id && m.reference == r && m.owner == row.owner && m.disclosure == row.disclosure
    && m.state == row.state && m.version == row.current && m.labels == row.labels
  }

  predicate DescribesOneOf(m: SecretMetadata, db: Db, refs: set<SecretRef>) {
    m.reference in refs && m.reference in db.secrets && Describes(m, m.reference, db.secrets[m.reference])
  }

  /** One entry for each of the references, saying what its row holds, and no other. */
  ghost predicate Lists(db: Db, refs: set<SecretRef>, entries: set<SecretMetadata>) {
    && (forall m | m in entries :: DescribesOneOf(m, db, refs))
    && (forall r | r in refs :: exists m :: m in entries && m.reference == r)
  }

  /** The principal may do the action, for the tenant named if one is. */
  predicate May(caller: Caller, action: string, tenant: Option<string>) {
    && caller.Known? && (action in caller.principal.actions || "*" in caller.principal.actions)
    && (tenant == None || tenant == Some(caller.principal.tenant))
  }

  /** A caller that may not is refused for the first thing that is wrong, and nothing changes. */
  predicate TurnedAway(db: Db, after: Db, response: Response, caller: Caller, action: string) {
    && after == db
    && match caller
       case Unknown => response == Failure(Unauthorized)
       case AuthorityDown => response == Failure(Down)
       case Known(p) => response == Failure(if action in p.actions || "*" in p.actions then Forbidden else MissingAction)
  }

  lemma TurnsAway(db: Db, ring: Keyring, caller: Caller, request: Request, action: string, tenant: Option<string>)
    requires ActionOf(request) == action && Names(request) == tenant
    ensures if May(caller, action, tenant) then Handle(db, ring, caller, request) == Serve(db, ring, caller.principal, request)
            else var (after, response) := Handle(db, ring, caller, request); TurnedAway(db, after, response, caller, action)
  {
    hide Serve, ActionOf, Names;
  }

  predicate Mine(db: Db, p: Principal, r: SecretRef) {
    r in db.secrets && r.tenant == p.tenant && db.secrets[r].owner == p.subject
  }

  function OwnRefs(db: Db, p: Principal): set<SecretRef> {
    set r | r in db.secrets && Mine(db, p, r)
  }

  function RefsIn(db: Db, tenant: string, namespace: string): set<SecretRef> {
    set r | r in db.secrets && r.tenant == tenant && r.namespace == namespace
  }

  // ---- User routes ----

  /** A user's listing has one entry for each row of the caller's tenant and subject. */
  lemma UserListAnswers(db: Db, ring: Keyring, caller: Caller)
    ensures var (after, response) := Handle(db, ring, caller, UserList);
            if !May(caller, "secret:list", None) then TurnedAway(db, after, response, caller, "secret:list")
            else
              && after == db && response.Listing?
              && Lists(db, OwnRefs(db, caller.principal), response.secrets)
  {
    TurnsAway(db, ring, caller, UserList, "secret:list", None);
    if May(caller, "secret:list", None) {
      ListedOf(db, caller.principal.tenant, Some(caller.principal.subject), OwnRefs(db, caller.principal));
    }
    hide Handle, List, Lists;
  }

  lemma ListedOf(db: Db, tenant: string, owner: Option<string>, refs: set<SecretRef>)
    requires forall r :: r in refs <==> r in db.secrets && r.tenant == tenant && (owner.None? || db.secrets[r].owner == owner.value)
    ensures Lists(db, refs, List(db, tenant, owner))
  {
    var entries := List(db, tenant, owner);
    forall r | r in refs
      ensures exists m :: m in entries && m.reference == r
    {
      assert MetadataOf(r, db.secrets[r]) in entries;
    }
  }

  /** A detail is the entry for the caller's own row; anything else of the caller's tenant is not owned. */
  lemma UserDetailAnswers(db: Db, ring: Keyring, caller: Caller, r: SecretRef)
    ensures var (after, response) := Handle(db, ring, caller, UserDetail(r));
            if !May(caller, "secret:read_metadata", Some(r.tenant)) then TurnedAway(db, after, response, caller, "secret:read_metadata")
            else if Mine(db, caller.principal, r) then after == db && response.Metadata? && Describes(response.metadata, r, db.secrets[r])
            else (after, response) == (db, Failure(NotOwned))
  {
    TurnsAway(db, ring, caller, UserDetail(r), "secret:read_metadata", Some(r.tenant));
    if caller.Known? {
      OwnedIff(db, caller.principal, r);
    }
    hide Handle, Owned, List;
  }

  /** A revoke of the caller's own row marks it, logs it in the caller's name and answers it as it is
      then; anything else of the caller's tenant is not owned and nothing changes. */
  lemma UserRevokeAnswers(db: Db, ring: Keyring, caller: Caller, r: SecretRef)
    ensures var (after, response) := Handle(db, ring, caller, UserRevoke(r));
            if !May(caller, "secret:revoke", Some(r.tenant)) then TurnedAway(db, after, response, caller, "secret:revoke")
            else if Mine(db, caller.principal, r) then
              var row := db.secrets[r];
              && after == Db(db.secrets[r := row.(state := Revoked)], db.batches,
                             db.audit + [AuditRow(r.tenant, Some(row.id), caller.principal.subject, RevokeAction)])
              && response.Metadata? && Describes(response.metadata, r, row.(state := Revoked))
            else (after, response) == (db, Failure(NotOwned))
  {
    TurnsAway(db, ring, caller, UserRevoke(r), "secret:revoke", Some(r.tenant));
    if caller.Known? {
      OwnedIff(db, caller.principal, r);
    }
    hide Handle, Owned, List;
  }

  /** A delete of the caller's own row takes it out with its versions and logs it in the caller's name;
      anything else of the caller's tenant is not owned and nothing changes. */
  lemma UserDeleteAnswers(db: Db, ring: Keyring, caller: Caller, r: SecretRef)
    ensures var (after, response) := Handle(db, ring, caller, UserDelete(r));
            if !May(caller, "secret:delete", Some(r.tenant)) then TurnedAway(db, after, response, caller, "secret:delete")
            else if Mine(db, caller.principal, r) then
              && after == Db(db.secrets - {r}, db.batches,
                             db.audit + [AuditRow(r.tenant, Some(db.secrets[r].id), caller.principal.subject, DeleteAction)])
              && response == NoContent
            else (after, response) == (db, Failure(NotOwned))
  {
    TurnsAway(db, ring, caller, UserDelete(r), "secret:delete", Some(r.tenant));
    if caller.Known? {
      OwnedIff(db, caller.principal, r);
    }
    hide Handle, Owned, List;
  }

  // ---- Workload routes ----

  /** A put with no owner is the caller's own. */
  function OwnerOf(input: PutSecret, p: Principal): string {
    if |input.owner| > 0 then input.owner else p.subject
  }

  /** Why a put is refused: what is wrong with the reference first, then anything in its way. */
  function WhyNotPut(db: Db, ring: Keyring, r: SecretRef, draw: Draw): Option<Refusal> {
    var parts := {r.tenant, r.namespace, r.key};
    if exists part | part in parts :: part == "" || '\0' in part then Some(BadReference)
    else if exists part | part in parts :: |part| > 255 then Some(LongReference)
    else if ring.active !in ring.keys || draw.NoEntropy? || |draw.dek| != 32 then Some(Down)
    else if r in db.secrets && db.secrets[r].current >= 0x7FFF_FFFF_FFFF_FFFF then Some(Down)
    else None
  }

  /** A put adds one version to its reference's row, or makes the row, active and as the input says,
      the value readable under it, logs it in the owner's name and answers the row; refused, it changes
      nothing. */
  lemma WorkloadPutAnswers(db: Db, ring: Keyring, caller: Caller, input: PutSecret, seed: Seed)
    requires input.reference in db.secrets ==> Numbered(db.secrets[input.reference])
    requires input.reference !in db.secrets && seed.draw.Draw? ==> seed.id !in db.Ids()
    ensures var r := input.reference;
            var (after, response) := Handle(db, ring, caller, WorkloadPut(input, seed));
            if !May(caller, "secret:write", Some(r.tenant)) then TurnedAway(db, after, response, caller, "secret:write")
            else
              var put, why := input.(owner := OwnerOf(input, caller.principal)), WhyNotPut(db, ring, r, seed.draw);
              if why.Some? then (after, response) == (db, Failure(why.value)) else PutAnswered(db, after, ring, put, seed, response)
  {
    TurnsAway(db, ring, caller, WorkloadPut(input, seed), "secret:write", Some(input.reference.tenant));
    if caller.Known? {
      PutServed(db, ring, caller.principal, input, seed);
    }
    hide Handle, Serve, PutAnswered, WhyNotPut;
  }

  lemma PutServed(db: Db, ring: Keyring, p: Principal, input: PutSecret, seed: Seed)
    requires input.reference in db.secrets ==> Numbered(db.secrets[input.reference])
    requires input.reference !in db.secrets && seed.draw.Draw? ==> seed.id !in db.Ids()
    ensures var put, why := input.(owner := OwnerOf(input, p)), WhyNotPut(db, ring, input.reference, seed.draw);
            var (after, response) := Serve(db, ring, p, WorkloadPut(input, seed));
            if why.Some? then (after, response) == (db, Failure(why.value)) else PutAnswered(db, after, ring, put, seed, response)
  {
    var put := input.(owner := OwnerOf(input, p));
    PutOrNot(db, ring, put, seed);
    hide PutTx, WhyNotPut, Numbered, Db.Ids, Decrypt;
  }

  lemma PutOrNot(db: Db, ring: Keyring, put: PutSecret, seed: Seed)
    requires put.reference in db.secrets ==> Numbered(db.secrets[put.reference])
    requires put.reference !in db.secrets && seed.draw.Draw? ==> seed.id !in db.Ids()
    ensures var r, why := put.reference, WhyNotPut(db, ring, put.reference, seed.draw);
            match PutTx(db, ring, put, put.owner, seed)
            case Err(error) => why == Some(RefusalOf(error))
            case Ok(after) =>
              && why == None && r in after.secrets
              && PutAnswered(db, after, ring, put, seed, Metadata(MetadataOf(r, after.secrets[r])))
  {
    var r := put.reference;
    PutEffect(db, ring, put, put.owner, seed);
    PutReadsBack(db, ring, put, seed);
    WhyNotPutIs(db, ring, r, seed.draw);
    hide PutTx, ValidateRef, WhyNotPut, Numbered, Db.Ids, Encrypt, Decrypt, CanSeal;
  }

  lemma WhyNotPutIs(db: Db, ring: Keyring, r: SecretRef, draw: Draw)
    ensures WhyNotPut(db, ring, r, draw) ==
            if ValidateRef(r).Err? then Some(RefusalOf(ValidateRef(r).error))
            else if !CanSeal(ring, draw) || (r in db.secrets && db.secrets[r].current + 1 > MAX_I64) then Some(Down)
            else None
    ensures ValidateRef(r).Err? ==> ValidateRef(r).error.Invalid?
  {
    ValidateRefIff(r);
  }

  lemma PutReadsBack(db: Db, ring: Keyring, put: PutSecret, seed: Seed)
    requires put.reference in db.secrets ==> Numbered(db.secrets[put.reference])
    requires put.reference !in db.secrets && seed.draw.Draw? ==> seed.id !in db.Ids()
    ensures PutTx(db, ring, put, put.owner, seed).Ok? ==>
      var r, after := put.reference, PutTx(db, ring, put, put.owner, seed).value;
      && r in after.secrets && after.secrets[r].current in after.secrets[r].versions
      && var row := after.secrets[r];
         Decrypt(ring.keys, r, row.current, row.disclosure, row.versions[row.current]) == Ok(put.value)
  {
    var r := put.reference;
    var version := if r in db.secrets then db.secrets[r].current + 1 else 1;
    PutEffect(db, ring, put, put.owner, seed);
    if PutTx(db, ring, put, put.owner, seed).Ok? {
      SealedReadsBack(ring.keys, ring, r, version, put.disclosure, put.value, seed.draw);
    }
    hide PutTx, ValidateRef, CanSeal, Numbered, Db.Ids, Encrypt, Decrypt;
  }

  predicate PutAnswered(db: Db, after: Db, ring: Keyring, put: PutSecret, seed: Seed, response: Response) {
    var r := put.reference;
    && r in after.secrets && after.secrets == db.secrets[r := after.secrets[r]] && after.batches == db.batches
    && var row := after.secrets[r];
       && response.Metadata? && Describes(response.metadata, r, row)
       && row.owner == put.owner && row.disclosure == put.disclosure && row.labels == put.labels && row.state == Active
       && row.id == (if r in db.secrets then db.secrets[r].id else seed.id)
       && row.current == (if r in db.secrets then db.secrets[r].current + 1 else 1) && row.current in row.versions
       && Decrypt(ring.keys, r, row.current, row.disclosure, row.versions[row.current]) == Ok(put.value)
       && after.audit == db.audit + [AuditRow(r.tenant, Some(row.id), put.owner, PutAction)]
  }

  /** A get reveals the current value of an active row with its entry, Down without its key. */
  lemma WorkloadGetAnswers(universe: map<string, string>, db: Db, p: Plain, ring: Keyring, caller: Caller, r: SecretRef)
    requires Related(universe, db, p) && Agrees(ring.keys, universe)
    ensures var (after, response) := Handle(db, ring, caller, WorkloadGet(r));
            if !May(caller, "secret:read_value", Some(r.tenant)) then TurnedAway(db, after, response, caller, "secret:read_value")
            else
              && after == db
              && if r !in p.cells || !p.cells[r].active then response == Failure(NoRecord)
                 else if db.secrets[r].versions[db.secrets[r].current].keyId !in ring.keys then response == Failure(Down)
                 else response.Revealed? && response.stored.value == p.cells[r].value && Describes(response.stored.metadata, r, db.secrets[r])
  {
    TurnsAway(db, ring, caller, WorkloadGet(r), "secret:read_value", Some(r.tenant));
    CustodyRuns.GetReadsTheMap(universe, db, p, ring.keys, r);
    GotDescribes(db, ring.keys, r);
    if r in p.cells {
      assert Matches(ReaderOf(universe), r, db.secrets[r], p.cells[r]);
    }
    hide Handle, Get, Related, BatchesMatch, ReaderOf, Decrypt;
  }

  lemma GotDescribes(db: Db, keys: map<string, string>, r: SecretRef)
    ensures Get(db, keys, r).Ok? ==> r in db.secrets && Describes(Get(db, keys, r).value.metadata, r, db.secrets[r])
  {
    hide Decrypt;
  }

  lemma WorkloadExistsAnswers(db: Db, ring: Keyring, caller: Caller, r: SecretRef)
    ensures var (after, response) := Handle(db, ring, caller, WorkloadExists(r));
            if !May(caller, "secret:read_metadata", Some(r.tenant)) then TurnedAway(db, after, response, caller, "secret:read_metadata")
            else (after, response) == (db, Existence(r in db.secrets && db.secrets[r].state == Active))
  {
    TurnsAway(db, ring, caller, WorkloadExists(r), "secret:read_metadata", Some(r.tenant));
    hide Handle;
  }

  /** A workload's listing has one entry for each row of the tenant and namespace, whoever owns it and
      revoked or not. */
  lemma WorkloadListAnswers(db: Db, ring: Keyring, caller: Caller, tenant: string, namespace: string)
    ensures var (after, response) := Handle(db, ring, caller, WorkloadList(tenant, namespace));
            if !May(caller, "secret:list", Some(tenant)) then TurnedAway(db, after, response, caller, "secret:list")
            else
              && after == db && response.Listing?
              && Lists(db, RefsIn(db, tenant, namespace), response.secrets)
  {
    TurnsAway(db, ring, caller, WorkloadList(tenant, namespace), "secret:list", Some(tenant));
    var refs := set r | r in db.secrets && r.tenant == tenant;
    ListedOf(db, tenant, None, refs);
    var some := RefsIn(db, tenant, namespace);
    var entries := set m | m in List(db, tenant, None) && m.reference.namespace == namespace;
    hide List;
    forall r | r in some
      ensures exists m :: m in entries && m.reference == r
    {
      assert r in refs;
      var m :| m in List(db, tenant, None) && m.reference == r;
      assert m in entries;
    }
    assert Lists(db, some, entries);
    hide Handle, Lists;
  }

  /** A workload's delete is of any row of its tenant, in the actor's name or else its own. */
  lemma WorkloadDeleteAnswers(db: Db, ring: Keyring, caller: Caller, r: SecretRef, actor: Option<string>)
    ensures var (after, response) := Handle(db, ring, caller, WorkloadDelete(r, actor));
            if !May(caller, "secret:delete", Some(r.tenant)) then TurnedAway(db, after, response, caller, "secret:delete")
            else if r !in db.secrets then (after, response) == (db, Failure(NoRecord))
            else
              var doer := match actor case Some(name) => name case None => caller.principal.subject;
              && after == Db(db.secrets - {r}, db.batches, db.audit + [AuditRow(r.tenant, Some(db.secrets[r].id), doer, DeleteAction)])
              && response == NoContent
  {
    TurnsAway(db, ring, caller, WorkloadDelete(r, actor), "secret:delete", Some(r.tenant));
    hide Handle;
  }

  // ---- Batches ----

  /** The store with the tenant's expired batches gone. */
  ghost predicate Purged(db: Db, after: Db, tenant: string, at: real) {
    && after.secrets == db.secrets && after.audit == db.audit
    && (forall k :: k in after.batches <==> k in db.batches && (k.tenant != tenant || db.batches[k].expiresAt > at))
    && (forall k | k in after.batches :: after.batches[k] == db.batches[k])
  }

  /** What a step's answer is on the wire. */
  function AnswerOf(outcome: Outcome): Response {
    match outcome
    case Refused(Invalid(EmptyBatch)) => Failure(NoMutations)
    case Refused(Invalid(CrossTenantBatch)) => Failure(OtherTenant)
    case Refused(Invalid(MalformedReference)) => Failure(BadReference)
    case Refused(Invalid(InvalidReference)) => Failure(LongReference)
    case Refused(Conflict) => Failure(Duplicate)
    case Refused(NotFound) => Failure(NoRecord)
    case Refused(DeleteTargetMissing) => Failure(NoDeleteTarget)
    case Refused(_) => Failure(Down)
    case _ => NoContent
  }

  lemma PurgeIs(db: Db, tenant: string, at: real)
    ensures Purged(db, Next(db, PurgeStep(tenant, at)).0, tenant, at)
  {
    forall k: BatchKey
      ensures var after := Next(db, PurgeStep(tenant, at)).0;
              (k in after.batches <==> k in db.batches && (k.tenant != tenant || db.batches[k].expiresAt > at))
              && (k in after.batches ==> after.batches[k] == db.batches[k])
    {
      PurgeDrops(db, tenant, at, k);
    }
    hide Next;
    PurgeDrops(db, tenant, at, BatchKey(tenant, NIL_UUID));
  }

  /** The answer and the store a prepare's own step leaves after a purge; a prepare refused by its own
      checks leaves even the purge undone. */
  predicate Prepared(db: Db, after: Db, response: Response, tenant: string, purgeAt: real, insert: Step) {
    var purged := Next(db, PurgeStep(tenant, purgeAt)).0;
    var (inserted, outcome) := Next(purged, insert);
    && response == AnswerOf(outcome)
    && after == if outcome == Done || outcome == Refused(Conflict) then inserted else db
  }

  /** A prepare makes its checks, purges the tenant and then inserts. */
  lemma WorkloadPrepareAnswers(db: Db, ring: Keyring, caller: Caller, tenant: string, id: Uuid, mutations: seq<Mutation>, actor: string,
                               clock: nat, lifetime: nat, purgeAt: real, draw: Draw)
    ensures var request := WorkloadPrepare(tenant, id, mutations, actor, clock, lifetime, purgeAt, draw);
            var insert := InsertStep(ring, BatchKey(tenant, id), mutations, actor, clock, lifetime, draw);
            var (after, response) := Handle(db, ring, caller, request);
            if !May(caller, "secret:prepare", Some(tenant)) then TurnedAway(db, after, response, caller, "secret:prepare")
            else
              && Prepared(db, after, response, tenant, purgeAt, insert)
              && Purged(db, Next(db, PurgeStep(tenant, purgeAt)).0, tenant, purgeAt)
  {
    TurnsAway(db, ring, caller, WorkloadPrepare(tenant, id, mutations, actor, clock, lifetime, purgeAt, draw), "secret:prepare", Some(tenant));
    if caller.Known? {
      PrepareServed(db, ring, caller.principal, tenant, id, mutations, actor, clock, lifetime, purgeAt, draw);
    }
    PurgeIs(db, tenant, purgeAt);
    hide Handle, Serve, Next, Purged, Prepared;
  }

  lemma PrepareServed(db: Db, ring: Keyring, p: Principal, tenant: string, id: Uuid, mutations: seq<Mutation>, actor: string,
                      clock: nat, lifetime: nat, purgeAt: real, draw: Draw)
    ensures var (after, response) := Serve(db, ring, p, WorkloadPrepare(tenant, id, mutations, actor, clock, lifetime, purgeAt, draw));
            Prepared(db, after, response, tenant, purgeAt, InsertStep(ring, BatchKey(tenant, id), mutations, actor, clock, lifetime, draw))
  {
    SealRefusals(ring, tenant, id, mutations, actor, clock, lifetime, draw);
    hide SealPrepared, Purge;
  }

  /** So a prepare under an id whose batch has expired takes its place. */
  lemma ExpiredIsPreparedAgain(db: Db, ring: Keyring, caller: Caller, tenant: string, id: Uuid, mutations: seq<Mutation>, actor: string,
                               clock: nat, lifetime: nat, purgeAt: real, draw: Draw)
    requires BatchKey(tenant, id) in db.batches && db.batches[BatchKey(tenant, id)].expiresAt <= purgeAt
    requires May(caller, "secret:prepare", Some(tenant)) && mutations != [] && !ForeignTarget(mutations, tenant)
    requires clock <= MAX_I64 && lifetime <= MAX_I64 && CanSeal(ring, draw)
    ensures var k := BatchKey(tenant, id);
            var (after, response) := Handle(db, ring, caller, WorkloadPrepare(tenant, id, mutations, actor, clock, lifetime, purgeAt, draw));
            response == NoContent && k in after.batches && HoldsBatch(after.batches[k], ring, k, actor, clock, lifetime, mutations)
  {
    var k := BatchKey(tenant, id);
    WorkloadPrepareAnswers(db, ring, caller, tenant, id, mutations, actor, clock, lifetime, purgeAt, draw);
    PrepareAnswers(Next(db, PurgeStep(tenant, purgeAt)).0, ring, k, mutations, actor, clock, lifetime, draw);
    hide Handle, Next, HoldsBatch, ForeignTarget;
    assert k !in Next(db, PurgeStep(tenant, purgeAt)).0.batches;
  }

  lemma SealRefusals(ring: Keyring, tenant: string, id: Uuid, mutations: seq<Mutation>, actor: string, clock: nat, lifetime: nat, draw: Draw)
    ensures SealPrepared(ring, tenant, id, mutations, actor, clock, lifetime, draw) != Err(Conflict)
  {
  }

  /** The answer and the store of a commit's own step after a purge. */
  predicate Committed(db: Db, after: Db, response: Response, tenant: string, purgeAt: real, commit: Step) {
    var (committed, outcome) := Next(Next(db, PurgeStep(tenant, purgeAt)).0, commit);
    response == AnswerOf(outcome) && after == committed
  }

  lemma CommitServed(db: Db, ring: Keyring, p: Principal, tenant: string, id: Uuid, purgeAt: real, at: real, supply: seq<Seed>)
    ensures var (after, response) := Serve(db, ring, p, WorkloadCommit(tenant, id, purgeAt, at, supply));
            Committed(db, after, response, tenant, purgeAt, CommitStep(ring, BatchKey(tenant, id), at, supply))
  {
    hide CommitTx, Purge;
  }

  /** A commit purges the tenant first, whatever it then answers. */
  lemma WorkloadCommitAnswers(db: Db, ring: Keyring, caller: Caller, tenant: string, id: Uuid, purgeAt: real, at: real, supply: seq<Seed>)
    ensures var (after, response) := Handle(db, ring, caller, WorkloadCommit(tenant, id, purgeAt, at, supply));
            if !May(caller, "secret:commit", Some(tenant)) then TurnedAway(db, after, response, caller, "secret:commit")
            else
              && Committed(db, after, response, tenant, purgeAt, CommitStep(ring, BatchKey(tenant, id), at, supply))
              && Purged(db, Next(db, PurgeStep(tenant, purgeAt)).0, tenant, purgeAt)
  {
    TurnsAway(db, ring, caller, WorkloadCommit(tenant, id, purgeAt, at, supply), "secret:commit", Some(tenant));
    PurgeIs(db, tenant, purgeAt);
    if caller.Known? {
      CommitServed(db, ring, caller.principal, tenant, id, purgeAt, at, supply);
    }
    hide Handle, Serve, Next, Purged, Committed;
  }

  lemma WorkloadAbortAnswers(db: Db, ring: Keyring, caller: Caller, tenant: string, id: Uuid, at: real)
    ensures var k := BatchKey(tenant, id);
            var (after, response) := Handle(db, ring, caller, WorkloadAbort(tenant, id, at));
            if !May(caller, "secret:abort", Some(tenant)) then TurnedAway(db, after, response, caller, "secret:abort")
            else if k in db.batches && db.batches[k].expiresAt > at && db.batches[k].envelope.keyId in ring.keys then
              after == Db(db.secrets, db.batches - {k}, db.audit) && response == NoContent
            else (after, response) == (db, Failure(NoRecord))
  {
    TurnsAway(db, ring, caller, WorkloadAbort(tenant, id, at), "secret:abort", Some(tenant));
    hide Handle;
  }
}
