/** The simple store custody promises to be: a map from references to cells and a map of held
    batches, with no rows, versions tables, envelopes or keys. */
module PlainStore {
  import opened Basics
  import opened Core
  import opened Crypto
  import opened Custody

  datatype Cell = Cell(
    value: string,
    owner: string,
    disclosure: Disclosure,
    labels: map<string, string>,
    active: bool,
    version: int)

  datatype Held = Held(actor: string, expiry: int, mutations: seq<Mutation>)

  datatype Plain = Plain(cells: map<SecretRef, Cell>, held: map<BatchKey, Held>)

  type Cells = map<SecretRef, Cell>

  predicate CanSeal(ring: Keyring, draw: Draw) {
    ring.active in ring.keys && draw.Usable()
  }

  function PutCell(cells: Cells, ring: Keyring, input: PutSecret, draw: Draw): Result<Cells, StoreError> {
    var r := input.reference;
    var version := if r in cells then cells[r].version + 1 else 1;
    match ValidateRef(r)
    case Err(error) => Err(error)
    case Ok(_) =>
      if !CanSeal(ring, draw) then Err(StoreError.Crypto)
      else if version > MAX_I64 then Err(Unavailable)
      else Ok(cells[r := Cell(input.value, input.owner, input.disclosure, input.labels, true, version)])
  }

  function MutateCell(cells: Cells, ring: Keyring, m: Mutation, draw: Draw): Result<Cells, StoreError> {
    match m
    case Put(secret) => PutCell(cells, ring, secret, draw)
    case Delete(r) => if r in cells then Ok(cells - {r}) else Err(DeleteTargetMissing)
  }

  /** The first `n` mutations folded over the map, or the first refusal. */
  function MutateCells(cells: Cells, ring: Keyring, mutations: seq<Mutation>, supply: seq<Seed>, n: nat): Result<Cells, StoreError>
    requires n <= |mutations|
  {
    if n == 0 then Ok(cells)
    else
      match MutateCells(cells, ring, mutations, supply, n - 1)
      case Err(error) => Err(error)
      case Ok(before) => MutateCell(before, ring, mutations[n - 1], At(supply, n - 1).draw)
  }

  /** The value and metadata a reader is owed. */
  predicate Answers(cells: Cells, r: SecretRef, stored: StoredSecret) {
    && r in cells && cells[r].active
    && var c := cells[r];
       && stored.value == c.value
       && stored.metadata == SecretMetadata(stored.metadata.id, r, c.owner, c.disclosure, Active, c.version, c.labels)
  }

  /** What one step with this outcome does to the simple store: nothing at all unless it put,
      deleted, revoked, held or took out something. */
  function Advance(p: Plain, step: Step, outcome: Outcome): Plain {
    if outcome != Done then p
    else
      match step
      case PutStep(ring, input, seed) =>
        (match PutCell(p.cells, ring, input, seed.draw)
         case Ok(cells) => p.(cells := cells)
         case Err(_) => p)
      case DeleteStep(r, _) => p.(cells := p.cells - {r})
      case RevokeStep(r, _) => if r in p.cells then p.(cells := p.cells[r := p.cells[r].(active := false)]) else p
      case InsertStep(_, k, mutations, actor, clock, lifetime, _) =>
        p.(held := p.held[k := Held(actor, SaturatingAdd(clock, lifetime), mutations)])
      case CommitStep(ring, k, _, supply) =>
        if k !in p.held then p
        else
          (match MutateCells(p.cells, ring, p.held[k].mutations, supply, |p.held[k].mutations|)
           case Ok(cells) => Plain(cells, p.held - {k})
           case Err(_) => p)
      case AbortStep(_, k, _) => p.(held := p.held - {k})
      case _ => p
  }

  function BatchRefusal(mutations: seq<Mutation>, tenant: string, clock: nat, lifetime: nat, ring: Keyring, draw: Draw): Option<StoreError> {
    if mutations == [] then Some(Invalid(EmptyBatch))
    else if !OneTenant(tenant, mutations) then Some(Invalid(CrossTenantBatch))
    else if clock > MAX_I64 || lifetime > MAX_I64 then Some(Unavailable)
    else if !CanSeal(ring, draw) then Some(StoreError.Crypto)
    else None
  }

  /** The answers the simple store allows for a step. A batch may be gone early, because a purge or
      an edited expiry column can drop one that is held. */
  predicate Allows(p: Plain, step: Step, outcome: Outcome) {
    match step
    case PutStep(ring, input, seed) =>
      (match PutCell(p.cells, ring, input, seed.draw)
       case Ok(_) => outcome == Done
       case Err(error) => outcome == Refused(error))
    case DeleteStep(r, _) => outcome == if r in p.cells then Done else Refused(NotFound)
    case RevokeStep(r, _) => outcome == if r in p.cells then Done else Refused(NotFound)
    case InsertStep(ring, k, mutations, _, clock, lifetime, draw) =>
      (match BatchRefusal(mutations, k.tenant, clock, lifetime, ring, draw)
       case Some(error) => outcome == Refused(error)
       case None => outcome == Done || (outcome == Refused(Conflict) && k in p.held))
    case CommitStep(ring, k, at, supply) =>
      || outcome == Refused(NotFound)
      || (&& k in p.held
          && var h := p.held[k];
             || outcome == Refused(Unavailable)
             || (&& at < h.expiry as real
                 && match MutateCells(p.cells, ring, h.mutations, supply, |h.mutations|)
                    case Ok(_) => outcome == Done
                    case Err(error) => outcome == Refused(error)))
    case AbortStep(_, k, _) => outcome == Refused(NotFound) || (outcome == Done && k in p.held)
    case RewrapStep(_, _, _, _) => outcome != Done
    case _ => true
  }
}
