/** The custody service as a storage backend: each operation is one or more requests, any of which may
    be lost on its way there or back, proved against the plain map of module Port. */
module Remote {
  import opened Basics
  import opened Core
  import opened Crypto
  import opened Custody
  import opened Names
  import opened AddressCodecs
  import Port
  import Http
  import PlainStore
  import CustodyRefinement
  import ValueBound
  import Wire
  import Routes

  // ---- Answers ----

  /** The client's and the port's reading of a response: none or 5xx is unavailable, 404 not found,
      any other 4xx denied. */
  function Classified(response: Option<Http.Response>): Result<Http.Response, Port.StorageError> {
    match response
    case None => Err(Port.Unavailable)
    case Some(Failure(refusal)) =>
      var status := Http.Status(refusal);
      Err(if status == 404 then Port.NotFound else if status < 500 then Port.Denied else Port.Unavailable)
    case Some(answer) => Ok(answer)
  }

  /** `{id}.{version}`: a record deleted and put again does not repeat one. */
  function VersionText(id: Uuid, version: int): Port.Version {
    Hex(id) + ("." + Decimal(version))
  }

  lemma VersionTextInjective(id: Uuid, n: int, id': Uuid, n': int)
    requires Bytes(id) && Bytes(id') && VersionText(id, n) == VersionText(id', n')
    ensures id == id' && n == n'
  {
    hide Hex, Decimal;
    SameCut(Hex(id), Hex(id'), "." + Decimal(n), "." + Decimal(n'));
    SameCut(".", ".", Decimal(n), Decimal(n'));
    HexInjective(id, id');
    DecimalInjective(n, n');
  }

  // ---- The map custody holds ----

  predicate RowHolds(keys: map<string, string>, r: SecretRef, row: SecretRow, s: Port.Stored) {
    && row.state == Active && row.current >= 1 && row.current in row.versions
    && Decrypt(keys, r, row.current, row.disclosure, row.versions[row.current]) == Ok(s.value)
    && s.version == VersionText(row.id, row.current)
  }

  /** Custody holds exactly the map's values at the addresses' references, none of them revoked. */
  ghost predicate Holds(db: Db, keys: map<string, string>, v: Port.Vault) {
    && (forall a: Address :: a in v <==> Reference(a) in db.secrets)
    && (forall a: Address :: a in v ==> RowHolds(keys, Reference(a), db.secrets[Reference(a)], v[a]))
  }

  lemma HoldsAt(db: Db, keys: map<string, string>, v: Port.Vault, a: Address)
    requires Holds(db, keys, v)
    ensures a in v <==> Reference(a) in db.secrets
    ensures a in v ==> RowHolds(keys, Reference(a), db.secrets[Reference(a)], v[a])
  {
  }

  /** The address whose reference this is, if it is one's. */
  function Decode(r: SecretRef): Option<Address> {
    match SplitOnce(r.key, '/')
    case None => None
    case Some((user, _)) =>
      if ParseScopeName(r.tenant).Ok? && ParseScopeName(r.namespace).Ok? && ParseScopeName(user).Ok?
      then AddressOf(Scope(r.tenant, r.namespace, user), r)
      else None
  }

  lemma DecodeIff(r: SecretRef, a: Address)
    ensures Decode(r) == Some(a) <==> r == Reference(a)
  {
    hide FirstAt, SplitOnce, ParseName, ParseScopeName;
    AddressOfIff(a.scope, r, a);
    if r == Reference(a) {
      ScopeNamePlain(a.scope.user);
      SplitOnceIff(r.key, '/', a.scope.user, a.name);
    }
    if Decode(r) == Some(a) {
      var user := SplitOnce(r.key, '/').value.0;
      AddressOfIff(Scope(r.tenant, r.namespace, user), r, a);
    }
  }

  /** A record the port can read: active, under a held key, no larger than a port value. */
  predicate PortReadable(keys: map<string, string>, r: SecretRef, row: SecretRow) {
    && row.state == Active && row.current >= 1 && row.current in row.versions
    && var value := Decrypt(keys, r, row.current, row.disclosure, row.versions[row.current]);
       value.Ok? && |value.value| <= Port.MAX_VALUE_BYTES
  }

  function Addresses(db: Db): set<Address> {
    set r | r in db.secrets && Decode(r).Some? :: Decode(r).value
  }

  lemma AddressesAre(db: Db, a: Address)
    ensures a in Addresses(db) <==> Reference(a) in db.secrets
  {
    hide Decode, Reference;
    DecodeIff(Reference(a), a);
    if a in Addresses(db) {
      var r :| r in db.secrets && Decode(r).Some? && Decode(r).value == a;
      DecodeIff(r, a);
    }
  }

  function StoredIn(db: Db, keys: map<string, string>, r: SecretRef): Port.Stored
    requires r in db.secrets && PortReadable(keys, r, db.secrets[r])
  {
    var row := db.secrets[r];
    Port.Stored(Decrypt(keys, r, row.current, row.disclosure, row.versions[row.current]).value, VersionText(row.id, row.current))
  }

  predicate AddressReadable(db: Db, keys: map<string, string>, a: Address) {
    Reference(a) in db.secrets && PortReadable(keys, Reference(a), db.secrets[Reference(a)])
  }

  lemma HeldAsRead(db: Db, keys: map<string, string>, a: Address)
    requires AddressReadable(db, keys, a)
    ensures RowHolds(keys, Reference(a), db.secrets[Reference(a)], StoredIn(db, keys, Reference(a)))
    ensures forall s: Port.Stored :: RowHolds(keys, Reference(a), db.secrets[Reference(a)], s) ==> s == StoredIn(db, keys, Reference(a))
  {
    hide Decrypt, VersionText, Reference;
  }

  /** Custody whose addressed records are all readable, none revoked, holds exactly one map. */
  lemma HoldsOneMap(db: Db, keys: map<string, string>) returns (v: Port.Vault)
    requires forall a | a in Addresses(db) :: AddressReadable(db, keys, a)
    ensures Holds(db, keys, v) && forall w | Holds(db, keys, w) :: w == v
  {
    hide AddressReadable, Addresses, RowHolds, StoredIn, Reference;
    v := ReadMap(db, keys);
    forall a: Address
      ensures a in v <==> Reference(a) in db.secrets
      ensures a in v ==> RowHolds(keys, Reference(a), db.secrets[Reference(a)], v[a])
    {
      AddressesAre(db, a);
      if a in v {
        HeldAsRead(db, keys, a);
      }
    }
    forall w | Holds(db, keys, w)
      ensures w == v
    {
      forall a: Address
        ensures a in w <==> a in v
        ensures a in w ==> w[a] == v[a]
      {
        HoldsAt(db, keys, w, a);
        if a in v {
          HeldAsRead(db, keys, a);
        }
      }
    }
  }

  function ReadMap(db: Db, keys: map<string, string>): (v: Port.Vault)
    requires forall a | a in Addresses(db) :: AddressReadable(db, keys, a)
    ensures v.Keys == Addresses(db) && forall a | a in v :: AddressReadable(db, keys, a) && v[a] == StoredIn(db, keys, Reference(a))
  {
    map a | a in Addresses(db) :: assert AddressReadable(db, keys, a); StoredIn(db, keys, Reference(a))
  }

  lemma RowWritten(db: Db, after: Db, keys: map<string, string>, v: Port.Vault, a: Address, s: Port.Stored)
    requires Holds(db, keys, v) && Reference(a) in after.secrets
    requires after.secrets == db.secrets[Reference(a) := after.secrets[Reference(a)]]
    requires RowHolds(keys, Reference(a), after.secrets[Reference(a)], s)
    ensures Holds(after, keys, v[a := s])
  {
    hide RowHolds, Reference;
    forall b: Address
      ensures b in v[a := s] <==> Reference(b) in after.secrets
      ensures b in v[a := s] ==> RowHolds(keys, Reference(b), after.secrets[Reference(b)], v[a := s][b])
    {
      HoldsAt(db, keys, v, b);
      if Reference(a) == Reference(b) {
        ReferenceInjective(a, b);
      }
    }
  }

  lemma RowDeleted(db: Db, after: Db, keys: map<string, string>, v: Port.Vault, a: Address)
    requires Holds(db, keys, v) && after.secrets == db.secrets - {Reference(a)}
    ensures Holds(after, keys, v - {a})
  {
    hide RowHolds, Reference;
    forall b: Address
      ensures b in v - {a} <==> Reference(b) in after.secrets
      ensures b in v - {a} ==> RowHolds(keys, Reference(b), after.secrets[Reference(b)], (v - {a})[b])
    {
      HoldsAt(db, keys, v, b);
      if Reference(a) == Reference(b) {
        ReferenceInjective(a, b);
      }
    }
  }

  lemma SameSecretsHold(db: Db, after: Db, keys: map<string, string>, v: Port.Vault)
    requires Holds(db, keys, v) && after.secrets == db.secrets
    ensures Holds(after, keys, v)
  {
    hide RowHolds, Reference;
  }

  lemma GetHolds(db: Db, keys: map<string, string>, v: Port.Vault, a: Address)
    requires Holds(db, keys, v)
    ensures match Get(db, keys, Reference(a))
            case Ok(stored) =>
              && a in v && stored.value == v[a].value && stored.metadata.reference == Reference(a)
              && VersionText(stored.metadata.id, stored.metadata.version) == v[a].version
            case Err(error) => a !in v && error == NotFound
    ensures Exists(db, Reference(a)) <==> a in v
  {
    HoldsAt(db, keys, v, a);
    hide Decrypt, Reference, Holds;
  }

  // ---- What a put leaves ----

  /** When a put is accepted: the reference is good, the keyring can seal, the version fits and a new
      row's id is new. */
  predicate PutAccepted(db: Db, ring: Keyring, r: SecretRef, seed: Seed) {
    && ValidateRef(r).Ok? && PlainStore.CanSeal(ring, seed.draw)
    && if r in db.secrets then CustodyRefinement.Numbered(db.secrets[r]) && db.secrets[r].current < MAX_I64 else seed.id !in db.Ids()
  }

  lemma PutLeaves(db: Db, ring: Keyring, input: PutSecret, actor: string, seed: Seed)
    ensures PutAccepted(db, ring, input.reference, seed) ==> PutTx(db, ring, input, actor, seed).Ok?
    ensures PutTx(db, ring, input, actor, seed).Ok? ==>
      var r, after := input.reference, PutTx(db, ring, input, actor, seed).value;
      && r in after.secrets && after.secrets == db.secrets[r := after.secrets[r]] && after.batches == db.batches
      && var row := after.secrets[r];
         && row.state == Active && row.current in row.versions
         && row.owner == input.owner && row.disclosure == input.disclosure && row.labels == input.labels
         && row.current == (if r in db.secrets then db.secrets[r].current + 1 else 1)
         && row.id == (if r in db.secrets then db.secrets[r].id else seed.id)
         && Decrypt(ring.keys, r, row.current, row.disclosure, row.versions[row.current]) == Ok(input.value)
  {
    var r := input.reference;
    var version := if r in db.secrets then db.secrets[r].current + 1 else 1;
    if Encrypt(ring, r, version, input.disclosure, input.value, seed.draw).Ok? {
      CustodyRefinement.SealedReadsBack(ring.keys, ring, r, version, input.disclosure, input.value, seed.draw);
    }
    assert PlainStore.CanSeal(ring, seed.draw) <==> Encrypt(ring, r, version, input.disclosure, input.value, seed.draw).Ok?;
    hide Encrypt, Decrypt, Db.Ids, ValidateRef, PlainStore.CanSeal;
  }

  // ---- What a rename's commit leaves ----

  /** The record moved whole: gone from `from`, at `to` with its value, disclosure and labels under the
      owner, and every other row as it was. */
  predicate FullyMoved(before: Db, after: Db, keys: map<string, string>, from: SecretRef, to: SecretRef, owner: string) {
    && from != to && from in before.secrets && to in after.secrets
    && after.secrets == (before.secrets - {from})[to := after.secrets[to]]
    && var was, now := before.secrets[from], after.secrets[to];
       && was.current in was.versions && now.current in now.versions
       && now.current == (if to in before.secrets then before.secrets[to].current + 1 else 1)
       && now.owner == owner && now.disclosure == was.disclosure && now.labels == was.labels && now.state == Active == was.state
       && Decrypt(keys, from, was.current, was.disclosure, was.versions[was.current]).Ok?
       && Decrypt(keys, to, now.current, now.disclosure, now.versions[now.current])
          == Decrypt(keys, from, was.current, was.disclosure, was.versions[was.current])
  }

  function RenameBatch(stored: StoredSecret, to: SecretRef, owner: string): seq<Mutation> {
    [Put(PutSecret(to, owner, stored.value, stored.metadata.disclosure, stored.metadata.labels)), Delete(stored.metadata.reference)]
  }

  lemma BatchUnfolds(db: Db, ring: Keyring, stored: StoredSecret, to: SecretRef, owner: string, actor: string, supply: seq<Seed>)
    ensures var ms := RenameBatch(stored, to, owner);
            Apply(db, ring, ms, actor, supply, 2) ==
            match PutTx(db, ring, ms[0].secret, actor, At(supply, 0))
            case Err(error) => Err(error)
            case Ok(middle) => ApplyOne(middle, ring, ms[1], actor, At(supply, 1))
  {
    var ms := RenameBatch(stored, to, owner);
    hide PutTx, DeleteTx;
    assert Apply(db, ring, ms, actor, supply, 0) == Ok(db);
    assert Apply(db, ring, ms, actor, supply, 1) == ApplyOne(db, ring, ms[0], actor, At(supply, 0));
  }

  /** The batch applied: either the record moved whole or the transaction is refused. */
  lemma BatchMoves(db: Db, ring: Keyring, from: SecretRef, stored: StoredSecret, to: SecretRef, owner: string, supply: seq<Seed>)
    requires Get(db, ring.keys, from) == Ok(stored) && from != to
    ensures var ms := RenameBatch(stored, to, owner);
            && (Apply(db, ring, ms, owner, supply, 2).Ok? ==>
                  FullyMoved(db, Apply(db, ring, ms, owner, supply, 2).value, ring.keys, from, to, owner))
            && (PutAccepted(db, ring, to, At(supply, 0)) ==> Apply(db, ring, ms, owner, supply, 2).Ok?)
  {
    var ms := RenameBatch(stored, to, owner);
    assert from in db.secrets && stored.metadata == MetadataOf(from, db.secrets[from]);
    var row := db.secrets[from];
    assert Decrypt(ring.keys, from, row.current, row.disclosure, row.versions[row.current]) == Ok(stored.value);
    BatchUnfolds(db, ring, stored, to, owner, owner, supply);
    PutLeaves(db, ring, ms[0].secret, owner, At(supply, 0));
    hide PutTx, Get, Apply, Decrypt, PutAccepted, At;
  }

  lemma PreparedOpens(ring: Keyring, k: BatchKey, actor: string, sealed: SealedBatch, mutations: seq<Mutation>,
                      clock: nat, lifetime: nat, draw: Draw)
    requires SealPrepared(ring, k.tenant, k.id, mutations, actor, clock, lifetime, draw) == Ok(sealed)
    ensures OpenBatch(ring.keys, k.tenant, k.id, actor, sealed.envelope) == Ok(Batch(sealed.expiry, mutations))
    ensures sealed.expiry == SaturatingAdd(clock, lifetime)
  {
    hide BatchAssociatedData;
  }

  /** A commit of the batch a rename prepared moves the record whole or leaves every secret as it
      was. */
  lemma CommitMoves(db: Db, ring: Keyring, k: BatchKey, sealed: SealedBatch, from: SecretRef, stored: StoredSecret, to: SecretRef, owner: string,
                    purgeAt: real, at: real, supply: seq<Seed>)
    requires Get(db, ring.keys, from) == Ok(stored) && from != to
    requires k in db.batches && db.batches[k] == BatchRow(owner, sealed.envelope, sealed.expiry as real)
    requires OpenBatch(ring.keys, k.tenant, k.id, owner, sealed.envelope) == Ok(Batch(sealed.expiry, RenameBatch(stored, to, owner)))
    ensures var (after, result) := CommitTx(Purge(db, k.tenant, purgeAt), ring, k, at, supply);
            && (if result.Ok? then FullyMoved(db, after, ring.keys, from, to, owner) else after.secrets == db.secrets)
            && (purgeAt < sealed.expiry as real && at < sealed.expiry as real && PutAccepted(db, ring, to, At(supply, 0)) ==> result.Ok?)
  {
    var purged := Purge(db, k.tenant, purgeAt);
    var ms := RenameBatch(stored, to, owner);
    assert |ms| == 2 && purged.secrets == db.secrets;
    assert k in purged.batches ==> purged.batches[k] == db.batches[k];
    assert purgeAt < sealed.expiry as real ==> k in purged.batches;
    var taken := Db(purged.secrets, purged.batches - {k}, purged.audit);
    SameRowsMove(db, taken, ring, from, stored, to, At(supply, 0));
    hide Purge, OpenBatch, Get, PutAccepted, At, RenameBatch;
    BatchMoves(taken, ring, from, stored, to, owner, supply);
    hide Apply;
    if Apply(taken, ring, ms, owner, supply, 2).Ok? {
      MovedAlike(db, taken, Apply(taken, ring, ms, owner, supply, 2).value, ring.keys, from, to, owner);
    }
    hide FullyMoved;
  }

  lemma SameRowsMove(db: Db, other: Db, ring: Keyring, from: SecretRef, stored: StoredSecret, to: SecretRef, seed: Seed)
    requires other.secrets == db.secrets && Get(db, ring.keys, from) == Ok(stored)
    ensures Get(other, ring.keys, from) == Ok(stored)
    ensures PutAccepted(db, ring, to, seed) ==> PutAccepted(other, ring, to, seed)
  {
    assert other.Ids() == db.Ids();
    hide Decrypt, PlainStore.CanSeal;
  }

  lemma MovedAlike(db: Db, other: Db, after: Db, keys: map<string, string>, from: SecretRef, to: SecretRef, owner: string)
    requires other.secrets == db.secrets && FullyMoved(other, after, keys, from, to, owner)
    ensures FullyMoved(db, after, keys, from, to, owner)
    ensures forall more: Db | more.secrets == after.secrets :: FullyMoved(db, more, keys, from, to, owner)
  {
    hide Decrypt;
  }

  /** Moving the record moves the address in the map; only its version is new. */
  lemma MoveHolds(before: Db, after: Db, keys: map<string, string>, v: Port.Vault, from: Address, to: Address)
    requires Holds(before, keys, v) && to !in v
    requires FullyMoved(before, after, keys, Reference(from), Reference(to), from.scope.user)
    ensures from in v
    ensures var now := after.secrets[Reference(to)];
            Holds(after, keys, (v - {from})[to := Port.Stored(v[from].value, VersionText(now.id, now.current))])
  {
    HoldsAt(before, keys, v, from);
    HoldsAt(before, keys, v, to);
    var now := after.secrets[Reference(to)];
    var s := Port.Stored(v[from].value, VersionText(now.id, now.current));
    assert RowHolds(keys, Reference(to), now, s);
    hide Reference, RowHolds;
    var middle := Db(before.secrets - {Reference(from)}, before.batches, before.audit);
    RowDeleted(before, middle, keys, v, from);
    RowWritten(middle, after, keys, v - {from}, to, s);
  }

  // ---- The service and the network ----

  /** The service behind a network that loses requests and responses; `losses` counts the exchanges
      that went wrong. */
  class Service {
    const ring: Keyring
    const caller: Http.Caller
    const lifetime: nat
    var db: Db
    var losses: nat

    constructor (ring: Keyring, caller: Http.Caller, lifetime: nat, db: Db)
      ensures this.ring == ring && this.caller == caller && this.lifetime == lifetime && this.db == db && losses == 0
    {
      this.ring, this.caller, this.lifetime, this.db := ring, caller, lifetime, db;
      losses := 0;
    }

    /** One request. When nothing goes wrong the service handles it and its response arrives; else
        it is lost, or handled with its response lost, or met by a database fault that rolls back,
        having at most dropped some batches. */
    method Send(request: Http.Request) returns (r: Option<Http.Response>)
      modifies this`db, this`losses
      ensures losses == old(losses) ==> r.Some? && (db, r.value) == Wire.Receive(old(db), ring, caller, request)
      ensures losses != old(losses) ==>
        && losses == old(losses) + 1 && (r == None || r == Some(Http.Failure(Http.Down)))
        && (db == Wire.Receive(old(db), ring, caller, request).0 || SameSecrets(old(db), db))
    {
      hide Http.Handle, Wire.Fits;
      if * {
        var (after, response) := Wire.Receive(db, ring, caller, request);
        db := after;
        return Some(response);
      }
      losses := losses + 1;
      if * {
        return None;
      }
      if * {
        db := Wire.Receive(db, ring, caller, request).0;
        return None;
      }
      var dropped: set<BatchKey> := *;
      db := db.(batches := db.batches - dropped);
      return Some(Http.Failure(Http.Down));
    }
  }

  predicate SameSecrets(before: Db, after: Db) {
    after.secrets == before.secrets && after.audit == before.audit
  }

  /** Preparing and aborting touch batches alone. */
  lemma BatchesOnly(db: Db, ring: Keyring, caller: Http.Caller, request: Http.Request)
    requires request.WorkloadPrepare? || request.WorkloadAbort?
    ensures SameSecrets(db, Wire.Receive(db, ring, caller, request).0)
  {
    hide SealPrepared, Wire.Fits;
  }

  /** An answer that is neither a loss nor a refusal is the one the service gave. */
  lemma Arrived(r: Option<Http.Response>)
    ensures Classified(r).Ok? ==> r.Some? && !r.value.Failure? && Classified(r).value == r.value
    ensures r == None || r == Some(Http.Failure(Http.Down)) ==> Classified(r) == Err(Port.Unavailable)
  {
  }

  // ---- What each request does to the map ----

  const ACTIONS: set<string> := {"secret:read_value", "secret:read_metadata", "secret:list", "secret:write", "secret:delete",
                                 "secret:prepare", "secret:commit", "secret:abort"}

  /** A workload token of the tenant with every action the backend uses. */
  predicate Granted(caller: Http.Caller, tenant: string) {
    caller.Known? && caller.principal.tenant == tenant && forall action | action in ACTIONS :: caller.principal.Permits(action)
  }

  /** What a caller that may not is answered, whatever custody holds. */
  function Rebuff(caller: Http.Caller): Port.StorageError {
    if caller.AuthorityDown? then Port.Unavailable else Port.Denied
  }

  lemma Rebuffed(db: Db, ring: Keyring, caller: Http.Caller, request: Http.Request, action: string, tenant: string)
    requires Http.ActionOf(request) == action && Http.Names(request) == Some(tenant) && !Routes.May(caller, action, Some(tenant))
    ensures Http.Handle(db, ring, caller, request).0 == db
    ensures Classified(Some(Http.Handle(db, ring, caller, request).1)) == Err(Rebuff(caller))
  {
    Routes.TurnsAway(db, ring, caller, request, action, Some(tenant));
    hide Http.Handle, Http.ActionOf, Http.Names;
  }

  function PutInput(a: Address, value: string): PutSecret {
    PutSecret(Reference(a), a.scope.user, value, WorkloadOnly, map[])
  }

  lemma GrantedAuthorizes(caller: Http.Caller, tenant: string, request: Http.Request)
    requires Granted(caller, tenant) && Http.ActionOf(request) in ACTIONS
    ensures Http.Names(request) == Some(tenant) ==> Http.Authorize(caller, request) == Ok(caller.principal)
  {
  }

  lemma PutHandled(db: Db, ring: Keyring, caller: Http.Caller, a: Address, value: string, seed: Seed)
    ensures var (after, response) := Http.Handle(db, ring, caller, Http.WorkloadPut(PutInput(a, value), seed));
            && (response.Failure? ==> after == db)
            && (!response.Failure? ==>
                  && PutTx(db, ring, PutInput(a, value), a.scope.user, seed) == Ok(after) && Reference(a) in after.secrets
                  && response == Http.Metadata(MetadataOf(Reference(a), after.secrets[Reference(a)])))
            && (Granted(caller, a.scope.tenant) && PutAccepted(db, ring, Reference(a), seed) ==> !response.Failure?)
  {
    var request := Http.WorkloadPut(PutInput(a, value), seed);
    ScopeNamePlain(a.scope.user);
    assert a.scope.user != "";
    PutLeaves(db, ring, PutInput(a, value), a.scope.user, seed);
    if Granted(caller, a.scope.tenant) {
      GrantedAuthorizes(caller, a.scope.tenant, request);
    }
    hide PutTx, Granted, PutAccepted, Decrypt, Http.ActionOf, ParseScopeName;
  }

  /** The put's row is the address's new value in the map. */
  lemma PutHolds(db: Db, after: Db, ring: Keyring, v: Port.Vault, a: Address, value: Port.SecretValue, seed: Seed)
    requires Holds(db, ring.keys, v) && PutTx(db, ring, PutInput(a, value), a.scope.user, seed) == Ok(after)
    ensures Reference(a) in after.secrets
    ensures var row := after.secrets[Reference(a)];
            var version := VersionText(row.id, row.current);
            && Holds(after, ring.keys, v[a := Port.Stored(value, version)])
            && (row.current == 1 <==> a !in v)
  {
    PutLeaves(db, ring, PutInput(a, value), a.scope.user, seed);
    HoldsAt(db, ring.keys, v, a);
    hide PutTx, Decrypt, Reference, Holds;
    var row := after.secrets[Reference(a)];
    RowWritten(db, after, ring.keys, v, a, Port.Stored(value, VersionText(row.id, row.current)));
  }

  lemma DeleteHandled(db: Db, ring: Keyring, caller: Http.Caller, a: Address)
    ensures var (after, response) := Http.Handle(db, ring, caller, Http.WorkloadDelete(Reference(a), Some(a.scope.user)));
            && (response.Failure? ==> after == db)
            && (!response.Failure? ==> response == Http.NoContent && Reference(a) in db.secrets && after.secrets == db.secrets - {Reference(a)})
            && (Granted(caller, a.scope.tenant) ==> response == if Reference(a) in db.secrets then Http.NoContent else Http.Failure(Http.NoRecord))
  {
    if Granted(caller, a.scope.tenant) {
      GrantedAuthorizes(caller, a.scope.tenant, Http.WorkloadDelete(Reference(a), Some(a.scope.user)));
    }
    hide Granted, Http.ActionOf;
  }

  /** A listing's row: an active record of the scope whose key is one of the scope user's names. */
  function RowFor(scope: Scope, m: SecretMetadata): Option<Port.Listed> {
    if m.state != Active then None
    else
      match AddressOf(scope, m.reference)
      case None => None
      case Some(a) => Some(Port.Listed(a, Some(VersionText(m.id, m.version))))
  }

  function Rows(scope: Scope): SecretMetadata -> Option<Port.Listed> {
    (m: SecretMetadata) => RowFor(scope, m)
  }

  lemma RowAddress(scope: Scope, m: SecretMetadata)
    requires RowFor(scope, m).Some?
    ensures var row := RowFor(scope, m).value;
            m.reference == Reference(row.address) && row.address.scope == scope && row.version == Some(VersionText(m.id, m.version))
  {
    AddressOfIff(scope, m.reference, RowFor(scope, m).value.address);
    hide AddressOf, Reference;
  }

  predicate OneEach(rows: seq<SecretMetadata>) {
    forall i, j :: 0 <= i < j < |rows| ==> rows[i].reference != rows[j].reference
  }

  lemma RecordsApart(scope: Scope, rows: seq<SecretMetadata>)
    requires OneEach(rows)
    ensures Port.NamesApart(Rows(scope), rows)
  {
    hide RowFor, Reference;
    forall i, j | 0 <= i < j < |rows| && RowFor(scope, rows[i]).Some? && RowFor(scope, rows[j]).Some?
      ensures RowFor(scope, rows[i]).value.address.name != RowFor(scope, rows[j]).value.address.name
    {
      RowAddress(scope, rows[i]);
      RowAddress(scope, rows[j]);
    }
  }

  /** The namespace's records in the order the service returned them. */
  ghost predicate Returns(db: Db, tenant: string, namespace: string, rows: seq<SecretMetadata>) {
    && OneEach(rows)
    && forall m :: m in rows <==> m in List(db, tenant, None) && m.reference.namespace == namespace
  }

  lemma ReturnsOneEach(db: Db, tenant: string, namespace: string, rows: seq<SecretMetadata>)
    requires Returns(db, tenant, namespace, rows)
    ensures OneEach(rows)
  {
  }

  lemma ReturnedIsStored(db: Db, tenant: string, namespace: string, rows: seq<SecretMetadata>, m: SecretMetadata)
    requires Returns(db, tenant, namespace, rows) && m in rows
    ensures m.reference in db.secrets && m == MetadataOf(m.reference, db.secrets[m.reference])
  {
    assert m in List(db, tenant, None);
  }

  lemma StoredIsReturned(db: Db, scope: Scope, rows: seq<SecretMetadata>, a: Address)
    requires Returns(db, scope.tenant, scope.namespace, rows) && a.scope == scope && Reference(a) in db.secrets
    ensures MetadataOf(Reference(a), db.secrets[Reference(a)]) in rows
  {
    assert MetadataOf(Reference(a), db.secrets[Reference(a)]) in List(db, scope.tenant, None);
  }

  lemma RowIsHeld(db: Db, keys: map<string, string>, v: Port.Vault, scope: Scope, rows: seq<SecretMetadata>, m: SecretMetadata)
    requires Holds(db, keys, v) && Returns(db, scope.tenant, scope.namespace, rows) && m in rows && RowFor(scope, m).Some?
    ensures Port.RowOf(v, scope, RowFor(scope, m).value)
  {
    hide RowFor, Returns, Reference, Holds;
    RowAddress(scope, m);
    ReturnedIsStored(db, scope.tenant, scope.namespace, rows, m);
    HoldsAt(db, keys, v, RowFor(scope, m).value.address);
  }

  lemma HeldIsFound(db: Db, keys: map<string, string>, v: Port.Vault, rows: seq<SecretMetadata>, a: Address)
    requires Holds(db, keys, v) && Returns(db, a.scope.tenant, a.scope.namespace, rows) && a in v
    ensures Port.Reaches(Rows(a.scope), rows, a)
  {
    HoldsAt(db, keys, v, a);
    StoredIsReturned(db, a.scope, rows, a);
    AddressOfIff(a.scope, Reference(a), a);
    var m := MetadataOf(Reference(a), db.secrets[Reference(a)]);
    hide Returns, Reference, Holds, AddressOf, Decrypt;
    var j :| 0 <= j < |rows| && rows[j] == m;
    assert Rows(a.scope)(rows[j]) == Some(Port.Listed(a, Some(VersionText(m.id, m.version))));
  }

  /** Filtered, decoded and sorted, what the service returned is exactly the scope's part of the
      map. */
  lemma RowsListHeld(db: Db, keys: map<string, string>, v: Port.Vault, scope: Scope, rows: seq<SecretMetadata>)
    requires Holds(db, keys, v) && Returns(db, scope.tenant, scope.namespace, rows)
    ensures Port.Lists(v, scope, Port.SortRows(Port.RowsOf(Rows(scope), rows, |rows|)))
  {
    hide RowFor, Returns, OneEach, Holds, Reference, Port.NamesApart, Port.RowOf, Port.Reaches;
    ReturnsOneEach(db, scope.tenant, scope.namespace, rows);
    RecordsApart(scope, rows);
    forall j | 0 <= j < |rows| && Rows(scope)(rows[j]).Some?
      ensures Port.RowOf(v, scope, Rows(scope)(rows[j]).value)
    {
      RowIsHeld(db, keys, v, scope, rows, rows[j]);
    }
    forall a | a in v && a.scope == scope
      ensures Port.Reaches(Rows(scope), rows, a)
    {
      HeldIsFound(db, keys, v, rows, a);
    }
    Port.RowsList(v, scope, Rows(scope), rows);
  }

  // ---- What is listed, revoked records or not ----

  /** The addresses whose records are active, each under its record's version; values play no part in a
      listing. */
  ghost function ActiveMap(db: Db): (v: Port.Vault)
    ensures forall a: Address :: a in v <==> Reference(a) in db.secrets && db.secrets[Reference(a)].state == Active
    ensures forall a | a in v :: v[a].version == VersionText(db.secrets[Reference(a)].id, db.secrets[Reference(a)].current)
  {
    forall a: Address
      ensures a in Addresses(db) <==> Reference(a) in db.secrets
    {
      AddressesAre(db, a);
    }
    hide Addresses, Reference;
    map a | a in Addresses(db) && db.secrets[Reference(a)].state == Active ::
      Port.Stored("", VersionText(db.secrets[Reference(a)].id, db.secrets[Reference(a)].current))
  }

  lemma RowIsActive(db: Db, scope: Scope, rows: seq<SecretMetadata>, m: SecretMetadata)
    requires Returns(db, scope.tenant, scope.namespace, rows) && m in rows && RowFor(scope, m).Some?
    ensures Port.RowOf(ActiveMap(db), scope, RowFor(scope, m).value)
  {
    RowAddress(scope, m);
    ReturnedIsStored(db, scope.tenant, scope.namespace, rows, m);
    assert m.state == Active;
    hide Returns, Reference, ActiveMap, AddressOf;
  }

  lemma ActiveIsFound(db: Db, rows: seq<SecretMetadata>, a: Address)
    requires Returns(db, a.scope.tenant, a.scope.namespace, rows) && a in ActiveMap(db)
    ensures Port.Reaches(Rows(a.scope), rows, a)
  {
    StoredIsReturned(db, a.scope, rows, a);
    AddressOfIff(a.scope, Reference(a), a);
    var m := MetadataOf(Reference(a), db.secrets[Reference(a)]);
    hide Returns, Reference, ActiveMap, AddressOf;
    var j :| 0 <= j < |rows| && rows[j] == m;
    assert Rows(a.scope)(rows[j]) == Some(Port.Listed(a, Some(VersionText(m.id, m.version))));
  }

  /** Whatever custody holds, what is listed is exactly the scope's active records. */
  lemma RowsListActive(db: Db, scope: Scope, rows: seq<SecretMetadata>)
    requires Returns(db, scope.tenant, scope.namespace, rows)
    ensures Port.Lists(ActiveMap(db), scope, Port.SortRows(Port.RowsOf(Rows(scope), rows, |rows|)))
  {
    hide RowFor, Returns, OneEach, ActiveMap, Reference, Port.NamesApart, Port.RowOf, Port.Reaches;
    ReturnsOneEach(db, scope.tenant, scope.namespace, rows);
    RecordsApart(scope, rows);
    forall j | 0 <= j < |rows| && Rows(scope)(rows[j]).Some?
      ensures Port.RowOf(ActiveMap(db), scope, Rows(scope)(rows[j]).value)
    {
      RowIsActive(db, scope, rows, rows[j]);
    }
    forall a | a in ActiveMap(db) && a.scope == scope
      ensures Port.Reaches(Rows(scope), rows, a)
    {
      ActiveIsFound(db, rows, a);
    }
    Port.RowsList(ActiveMap(db), scope, Rows(scope), rows);
  }

  // ---- The backend ----

  /** The draws, identifiers and times one rename meets at the service. */
  datatype Moments = Moments(
    id: Uuid,
    clock: nat,
    draw: Draw,
    preparePurge: real,
    commitPurge: real,
    commitAt: real,
    supply: seq<Seed>,
    abortAt: real)

  /** Nothing stands in a rename's way but the records: the caller may, the batch's id is new, both
      seals succeed and the commit comes before the batch expires. */
  predicate Unhindered(db: Db, ring: Keyring, caller: Http.Caller, lifetime: nat, to: Address, m: Moments) {
    && Granted(caller, to.scope.tenant) && BatchKey(to.scope.tenant, m.id) !in db.batches
    && PlainStore.CanSeal(ring, m.draw) && m.clock <= MAX_I64 && lifetime <= MAX_I64
    && PutAccepted(db, ring, Reference(to), At(m.supply, 0))
    && m.commitPurge < SaturatingAdd(m.clock, lifetime) as real && m.commitAt < SaturatingAdd(m.clock, lifetime) as real
  }

  lemma ExistsHandled(db: Db, ring: Keyring, caller: Http.Caller, a: Address)
    ensures var (after, response) := Http.Handle(db, ring, caller, Http.WorkloadExists(Reference(a)));
            && after == db && (!response.Failure? ==> response == Http.Existence(Exists(db, Reference(a))))
            && (Granted(caller, a.scope.tenant) ==> !response.Failure?)
  {
    if Granted(caller, a.scope.tenant) {
      GrantedAuthorizes(caller, a.scope.tenant, Http.WorkloadExists(Reference(a)));
    }
    hide Granted, Http.ActionOf, Exists;
  }

  lemma GetHandled(db: Db, ring: Keyring, caller: Http.Caller, a: Address)
    ensures var (after, response) := Http.Handle(db, ring, caller, Http.WorkloadGet(Reference(a)));
            && after == db && (response.Revealed? || response.Failure?)
            && (response.Revealed? ==> Get(db, ring.keys, Reference(a)) == Ok(response.stored) && response.stored.metadata.reference == Reference(a)
                                       && Exists(db, Reference(a)))
  {
    hide Http.Authorize, Decrypt;
  }

  function PrepareRequest(k: BatchKey, ms: seq<Mutation>, owner: string, lifetime: nat, m: Moments): Http.Request {
    Http.WorkloadPrepare(k.tenant, k.id, ms, owner, m.clock, lifetime, m.preparePurge, m.draw)
  }

  /** A prepare that is answered holds the batch under its key, sealed for it. */
  lemma PrepareHandled(db: Db, ring: Keyring, caller: Http.Caller, k: BatchKey, ms: seq<Mutation>, owner: string, lifetime: nat, m: Moments)
    ensures var (after, response) := Http.Handle(db, ring, caller, PrepareRequest(k, ms, owner, lifetime, m));
            && SameSecrets(db, after) && (response.Failure? || response == Http.NoContent)
            && (response == Http.NoContent ==>
                  var sealed := SealPrepared(ring, k.tenant, k.id, ms, owner, m.clock, lifetime, m.draw);
                  && sealed.Ok? && k in after.batches
                  && after.batches[k] == BatchRow(owner, sealed.value.envelope, sealed.value.expiry as real))
  {
    hide SealPrepared, Http.Authorize;
  }

  predicate Preparable(db: Db, ring: Keyring, caller: Http.Caller, k: BatchKey, ms: seq<Mutation>, lifetime: nat, m: Moments) {
    && Granted(caller, k.tenant) && k !in db.batches && PlainStore.CanSeal(ring, m.draw)
    && m.clock <= MAX_I64 && lifetime <= MAX_I64 && ms != [] && OneTenant(k.tenant, ms)
  }

  lemma PrepareSucceeds(db: Db, ring: Keyring, caller: Http.Caller, k: BatchKey, ms: seq<Mutation>, owner: string, lifetime: nat, m: Moments)
    requires Preparable(db, ring, caller, k, ms, lifetime, m)
    ensures Http.Handle(db, ring, caller, PrepareRequest(k, ms, owner, lifetime, m)).1 == Http.NoContent
  {
    GrantedAuthorizes(caller, k.tenant, PrepareRequest(k, ms, owner, lifetime, m));
    assert SealPrepared(ring, k.tenant, k.id, ms, owner, m.clock, lifetime, m.draw).Ok?;
    assert k !in Purge(db, k.tenant, m.preparePurge).batches;
    hide SealPrepared, Http.Authorize, Granted, Purge;
  }

  lemma CommitHandled(db: Db, ring: Keyring, caller: Http.Caller, k: BatchKey, m: Moments)
    ensures var (after, response) := Http.Handle(db, ring, caller, Http.WorkloadCommit(k.tenant, k.id, m.commitPurge, m.commitAt, m.supply));
            var (after', result) := CommitTx(Purge(db, k.tenant, m.commitPurge), ring, k, m.commitAt, m.supply);
            && (response.Failure? || response == Http.NoContent)
            && ((after == db && response.Failure?) || (after == after' && (response == Http.NoContent <==> result.Ok?)))
            && (Granted(caller, k.tenant) ==> after == after' && (response == Http.NoContent <==> result.Ok?))
  {
    if Granted(caller, k.tenant) {
      GrantedAuthorizes(caller, k.tenant, Http.WorkloadCommit(k.tenant, k.id, m.commitPurge, m.commitAt, m.supply));
    }
    hide CommitTx, Purge, Granted, Http.ActionOf;
  }

  /** A read's answer from what custody holds, for a caller that may read. */
  function Fetched(db: Db, keys: map<string, string>, r: SecretRef): Result<StoredSecret, Port.StorageError> {
    match Get(db, keys, r)
    case Ok(stored) => Ok(stored)
    case Err(NotFound) => Err(Port.NotFound)
    case Err(_) => Err(Port.Unavailable)
  }

  /** What the port shows of what was fetched. */
  function Shown(fetched: Result<StoredSecret, Port.StorageError>): Result<Port.Revealed, Port.StorageError> {
    match fetched
    case Err(error) => Err(error)
    case Ok(stored) =>
      if |stored.value| > Port.MAX_VALUE_BYTES then Err(Port.Unavailable)
      else Ok(Port.Revealed(stored.value, Some(VersionText(stored.metadata.id, stored.metadata.version))))
  }

  lemma FetchHandled(db: Db, ring: Keyring, caller: Http.Caller, a: Address)
    requires Granted(caller, a.scope.tenant)
    ensures var response := Http.Handle(db, ring, caller, Http.WorkloadGet(Reference(a))).1;
            match Fetched(db, ring.keys, Reference(a))
            case Ok(stored) => response == Http.Revealed(stored)
            case Err(error) => Classified(Some(response)) == Err(error)
  {
    GrantedAuthorizes(caller, a.scope.tenant, Http.WorkloadGet(Reference(a)));
    hide Granted, Http.Authorize, Decrypt;
  }

  /** The batch is still there to commit, and its put will be accepted. */
  predicate InTime(db: Db, ring: Keyring, caller: Http.Caller, k: BatchKey, expiry: int, to: SecretRef, m: Moments) {
    && Granted(caller, k.tenant) && PutAccepted(db, ring, to, At(m.supply, 0))
    && m.commitPurge < expiry as real && m.commitAt < expiry as real
  }

  class RemoteBackend {
    const service: Service

    constructor (service: Service)
      ensures this.service == service
    {
      this.service := service;
    }

    method Fetch(a: Address) returns (r: Result<StoredSecret, Port.StorageError>)
      modifies service`db, service`losses
      ensures SameSecrets(old(service.db), service.db) && service.losses >= old(service.losses)
      ensures service.losses != old(service.losses) ==> r == Err(Port.Unavailable)
      ensures service.losses == old(service.losses) && Granted(service.caller, a.scope.tenant) ==>
        r == Fetched(old(service.db), service.ring.keys, Reference(a))
      ensures service.losses == old(service.losses) && !Routes.May(service.caller, "secret:read_value", Some(a.scope.tenant)) ==>
        r == Err(Rebuff(service.caller))
      ensures r.Ok? ==>
        && service.losses == old(service.losses) && service.db == old(service.db)
        && Get(service.db, service.ring.keys, Reference(a)) == Ok(r.value)
        && r.value.metadata.reference == Reference(a) && Exists(service.db, Reference(a))
    {
      GetHandled(service.db, service.ring, service.caller, a);
      if Granted(service.caller, a.scope.tenant) {
        FetchHandled(service.db, service.ring, service.caller, a);
      }
      if !Routes.May(service.caller, "secret:read_value", Some(a.scope.tenant)) {
        Rebuffed(service.db, service.ring, service.caller, Http.WorkloadGet(Reference(a)), "secret:read_value", a.scope.tenant);
      }
      Wire.NamedRequestsFit(a);
      hide Http.Handle, Wire.Fits, Granted, Get, Exists, Fetched, Routes.May;
      var response := service.Send(Http.WorkloadGet(Reference(a)));
      Arrived(response);
      var outcome := Classified(response);
      return if outcome.Ok? then Ok(outcome.value.stored) else Err(outcome.error);
    }

    method Check(a: Address) returns (r: Result<bool, Port.StorageError>)
      modifies service`db, service`losses
      ensures SameSecrets(old(service.db), service.db) && service.losses >= old(service.losses)
      ensures service.losses != old(service.losses) ==> r == Err(Port.Unavailable)
      ensures service.losses == old(service.losses) && Granted(service.caller, a.scope.tenant) ==> r.Ok?
      ensures r.Ok? ==> service.losses == old(service.losses) && service.db == old(service.db) && r.value == Exists(service.db, Reference(a))
    {
      ExistsHandled(service.db, service.ring, service.caller, a);
      Wire.NamedRequestsFit(a);
      hide Http.Handle, Wire.Fits, Granted, Exists;
      var response := service.Send(Http.WorkloadExists(Reference(a)));
      Arrived(response);
      var outcome := Classified(response);
      return if outcome.Ok? then Ok(outcome.value.found) else Err(outcome.error);
    }

    method Prepare(k: BatchKey, ms: seq<Mutation>, owner: string, m: Moments) returns (r: Result<(), Port.StorageError>)
      modifies service`db, service`losses
      ensures SameSecrets(old(service.db), service.db) && service.losses >= old(service.losses)
      ensures service.losses != old(service.losses) ==> r == Err(Port.Unavailable)
      ensures r.Ok? ==>
        var sealed := SealPrepared(service.ring, k.tenant, k.id, ms, owner, m.clock, service.lifetime, m.draw);
        && service.losses == old(service.losses) && sealed.Ok? && k in service.db.batches
        && service.db.batches[k] == BatchRow(owner, sealed.value.envelope, sealed.value.expiry as real)
      ensures service.losses == old(service.losses) ==>
        var fits := Wire.Fits(PrepareRequest(k, ms, owner, service.lifetime, m));
        && (!fits ==> r == Err(Port.Denied))
        && (fits && Preparable(old(service.db), service.ring, service.caller, k, ms, service.lifetime, m) ==> r.Ok?)
    {
      PrepareHandled(service.db, service.ring, service.caller, k, ms, owner, service.lifetime, m);
      if Preparable(service.db, service.ring, service.caller, k, ms, service.lifetime, m) {
        PrepareSucceeds(service.db, service.ring, service.caller, k, ms, owner, service.lifetime, m);
      }
      hide Http.Handle, Wire.Fits, Preparable, SealPrepared;
      var response := service.Send(PrepareRequest(k, ms, owner, service.lifetime, m));
      Arrived(response);
      var outcome := Classified(response);
      return if outcome.Ok? then Ok(()) else Err(outcome.error);
    }

    /** The commit of what a rename prepared, and the abort when it is not answered. */
    method Commit(k: BatchKey, m: Moments, ghost sealed: SealedBatch, ghost from: SecretRef, ghost stored: StoredSecret,
                  ghost to: SecretRef, ghost owner: string)
      returns (r: Result<(), Port.StorageError>)
      requires Get(service.db, service.ring.keys, from) == Ok(stored) && from != to
      requires k in service.db.batches && service.db.batches[k] == BatchRow(owner, sealed.envelope, sealed.expiry as real)
      requires OpenBatch(service.ring.keys, k.tenant, k.id, owner, sealed.envelope) == Ok(Batch(sealed.expiry, RenameBatch(stored, to, owner)))
      modifies service`db, service`losses
      ensures service.losses >= old(service.losses)
      ensures service.db.secrets == old(service.db).secrets || FullyMoved(old(service.db), service.db, service.ring.keys, from, to, owner)
      ensures r.Ok? ==> FullyMoved(old(service.db), service.db, service.ring.keys, from, to, owner)
      ensures r.Err? && r.error != Port.Unavailable ==> service.db.secrets == old(service.db).secrets
      ensures service.losses == old(service.losses) && InTime(old(service.db), service.ring, service.caller, k, sealed.expiry, to, m) ==> r.Ok?
    {
      ghost var held := service.db;
      CommitHandled(held, service.ring, service.caller, k, m);
      CommitMoves(held, service.ring, k, sealed, from, stored, to, owner, m.commitPurge, m.commitAt, m.supply);
      Wire.BatchCallsFit(Http.WorkloadCommit(k.tenant, k.id, m.commitPurge, m.commitAt, m.supply));
      hide Http.Handle, Wire.Fits, Granted, CommitTx, Purge, PutAccepted, Get, OpenBatch, RenameBatch, FullyMoved;
      var response := service.Send(Http.WorkloadCommit(k.tenant, k.id, m.commitPurge, m.commitAt, m.supply));
      Arrived(response);
      var outcome := Classified(response);
      if outcome.Err? {
        ghost var after := service.db;
        BatchesOnly(after, service.ring, service.caller, Http.WorkloadAbort(k.tenant, k.id, m.abortAt));
        var aborted := service.Send(Http.WorkloadAbort(k.tenant, k.id, m.abortAt));
        if FullyMoved(held, after, service.ring.keys, from, to, owner) {
          MovedStays(held, after, service.db, service.ring.keys, from, to, owner);
        }
        return Err(outcome.error);
      }
      return Ok(());
    }

    /** The batch of a rename, prepared and committed. */
    method Move(target: Address, destination: Address, stored: StoredSecret, m: Moments) returns (r: Result<(), Port.StorageError>)
      requires target.scope == destination.scope && Get(service.db, service.ring.keys, Reference(target)) == Ok(stored)
      requires stored.metadata.reference == Reference(target) && Reference(target) != Reference(destination)
      modifies service`db, service`losses
      ensures service.losses >= old(service.losses)
      ensures AllOrNothing(old(service.db), service.db, service.ring.keys, target, destination, r)
      ensures service.losses == old(service.losses) ==>
        var wide := TooWide(target, destination.name, stored);
        && (wide ==> r == Err(Port.Denied))
        && (!wide && Unhindered(old(service.db), service.ring, service.caller, service.lifetime, destination, m) ==> r.Ok?)
    {
      ghost var before := service.db;
      var from, to, owner := Reference(target), Reference(destination), target.scope.user;
      var k := BatchKey(target.scope.tenant, m.id);
      var ms := RenameBatch(stored, to, owner);
      Wire.RenameFits(target, destination.name, stored, PrepareRequest(k, ms, owner, service.lifetime, m));
      hide Granted, PutAccepted, Get, FullyMoved, SealPrepared, OpenBatch, Preparable, Reference, RenameBatch, InTime, Wire.Fits,
        Wire.RenameBytes;
      UnhinderedPrepares(before, service.ring, service.caller, service.lifetime, target, stored, destination, m);
      UnhinderedIsInTime(before, service.ring, service.caller, service.lifetime, destination, m);
      hide Unhindered;
      var prepared := Prepare(k, ms, owner, m);
      if prepared.Err? {
        return Err(prepared.error);
      }
      ghost var held := service.db;
      ghost var sealed := SealPrepared(service.ring, k.tenant, k.id, ms, owner, m.clock, service.lifetime, m.draw).value;
      PreparedOpens(service.ring, k, owner, sealed, ms, m.clock, service.lifetime, m.draw);
      SameHeld(before, held, service.ring, service.caller, k, sealed.expiry, from, to, m);
      r := Commit(k, m, sealed, from, stored, to, owner);
      if FullyMoved(held, service.db, service.ring.keys, from, to, owner) {
        MovedSince(before, held, service.db, service.ring.keys, from, to, owner);
      }
    }

    /** All or nothing, whatever is lost: custody's secrets are as they were, or the record moved
        whole. Ok means it moved; a refusal other than Unavailable means nothing changed; and with no
        loss and nothing in its way the rename is the map's, unless the record is too wide to send. */
    method Rename(target: Port.Target, newName: SecretName, m: Moments) returns (r: Result<(), Port.StorageError>)
      modifies service`db, service`losses
      ensures var destination := Address(target.address.scope, newName);
              && AllOrNothing(old(service.db), service.db, service.ring.keys, target.address, destination, r)
              && (service.losses == old(service.losses)
                  && Unhindered(old(service.db), service.ring, service.caller, service.lifetime, destination, m) ==>
                    CleanRename(old(service.db), service.ring.keys, target.address, newName, r))
      ensures service.losses == old(service.losses) && !Routes.May(service.caller, "secret:read_value", Some(target.address.scope.tenant)) ==>
        r == Err(Rebuff(service.caller))
    {
      hide Routes.May;
      ghost var before := service.db;
      var destination := Address(target.address.scope, newName);
      hide Granted, PutAccepted, Get, Exists, FullyMoved, Reference, Fetched, TooWide;
      UnhinderedIsGranted(before, service.ring, service.caller, service.lifetime, destination, m);
      FetchedIs(before, service.ring.keys, Reference(target.address));
      hide Unhindered;
      var stored := Fetch(target.address);
      if stored.Err? {
        return Err(stored.error);
      }
      var taken := Check(destination);
      if taken.Err? {
        return Err(taken.error);
      }
      if taken.value {
        return Err(Port.Conflict);
      }
      r := Move(target.address, destination, stored.value, m);
    }

    /** A read's answer is the map's; a value too large for the port is unavailable. */
    method Read(target: Port.Target) returns (r: Result<Port.Revealed, Port.StorageError>)
      modifies service`db, service`losses
      ensures SameSecrets(old(service.db), service.db)
      ensures service.losses != old(service.losses) ==> r == Err(Port.Unavailable)
      ensures service.losses == old(service.losses) && Granted(service.caller, target.address.scope.tenant) ==>
        && r == Shown(Fetched(old(service.db), service.ring.keys, Reference(target.address)))
        && forall v | Holds(old(service.db), service.ring.keys, v) :: r == Port.ReadOf(v, target.address)
      ensures service.losses == old(service.losses) && !Routes.May(service.caller, "secret:read_value", Some(target.address.scope.tenant)) ==>
        r == Err(Rebuff(service.caller))
    {
      hide Routes.May;
      ghost var before := service.db;
      forall v | Holds(before, service.ring.keys, v)
        ensures FetchedOf(before, service.ring.keys, v, target.address)
      {
        FetchedFrom(before, service.ring.keys, v, target.address);
      }
      hide Granted, Get, Exists, Reference, Holds, Fetched;
      var stored := Fetch(target.address);
      if stored.Err? {
        return Err(stored.error);
      }
      if |stored.value.value| > Port.MAX_VALUE_BYTES {
        return Err(Port.Unavailable);
      }
      return Ok(Port.Revealed(stored.value.value, Some(VersionText(stored.value.metadata.id, stored.value.metadata.version))));
    }

    /** A write above the client's bound is refused without a request; one that is answered Ok is the
        map's; one that is not may or may not have been made, and if it was, whole. What it writes is a
        record of the client's own. */
    method Write(target: Port.Target, value: Port.SecretValue, seed: Seed) returns (r: Result<Port.Written, Port.StorageError>)
      modifies service`db, service`losses
      ensures |value| > ValueBound.MaxValueBytes() ==> r == Err(Port.TooLarge) && service.db == old(service.db)
      ensures r.Err? && r.error != Port.Unavailable ==> service.db.secrets == old(service.db).secrets
      ensures service.losses == old(service.losses) && |value| <= ValueBound.MaxValueBytes() ==>
        && (Granted(service.caller, target.address.scope.tenant) && PutAccepted(old(service.db), service.ring, Reference(target.address), seed) ==> r.Ok?)
        && (!Routes.May(service.caller, "secret:write", Some(target.address.scope.tenant)) ==> r == Err(Rebuff(service.caller)))
      ensures forall v | Holds(old(service.db), service.ring.keys, v) ::
        Wrote(service.db, service.ring.keys, v, target.address, value, r)
      ensures OwnKept(old(service.db), service.db, service.ring.keys)
      ensures r.Ok? ==> OwnRecord(service.db, service.ring.keys, target.address)
    {
      hide ValueBound.MaxValueBytes, OwnRecord, Wire.Fits;
      ghost var before := service.db;
      var a := target.address;
      if |value| > ValueBound.MaxValueBytes() {
        return Err(Port.TooLarge);
      }
      ghost var handled := Http.Handle(before, service.ring, service.caller, Http.WorkloadPut(PutInput(a, value), seed));
      PutHandled(before, service.ring, service.caller, a, value, seed);
      Wire.OwnPutFits(a, value, seed);
      if !Routes.May(service.caller, "secret:write", Some(a.scope.tenant)) {
        Rebuffed(before, service.ring, service.caller, Http.WorkloadPut(PutInput(a, value), seed), "secret:write", a.scope.tenant);
      }
      hide Routes.May;
      hide Http.Handle, Granted, PutAccepted, PutTx, Reference;
      var response := service.Send(Http.WorkloadPut(PutInput(a, value), seed));
      Arrived(response);
      var outcome := Classified(response);
      ghost var after := service.db;
      if outcome.Err? {
        r := Err(outcome.error);
      } else {
        var metadata := outcome.value.metadata;
        var version := VersionText(metadata.id, metadata.version);
        r := Ok(if metadata.version == 1 then Port.Created(Some(version)) else Port.Replaced(Some(version)));
      }
      forall v | Holds(before, service.ring.keys, v)
        ensures Wrote(after, service.ring.keys, v, a, value, r)
      {
        if !handled.1.Failure? {
          PutHolds(before, handled.0, service.ring, v, a, value, seed);
        }
        WroteWhole(before, handled.0, after, service.ring, v, a, value, seed, handled.1, r);
      }
      if after.secrets == before.secrets {
        FewerOwn(before, after, service.ring.keys, Reference(a));
      }
      if !handled.1.Failure? {
        PutOwn(before, handled.0, service.ring, a, value, seed);
      }
    }

    /** A delete that is answered Ok or NotFound is the map's; one that is not may have been made. */
    method Delete(target: Port.Target) returns (r: Result<(), Port.StorageError>)
      modifies service`db, service`losses
      ensures r.Err? && r.error != Port.Unavailable ==> service.db.secrets == old(service.db).secrets
      ensures forall v | Holds(old(service.db), service.ring.keys, v) ::
        && (Holds(service.db, service.ring.keys, v) || Holds(service.db, service.ring.keys, v - {target.address}))
        && (r.Ok? ==> target.address in v && Holds(service.db, service.ring.keys, v - {target.address}))
        && (service.losses == old(service.losses) && Granted(service.caller, target.address.scope.tenant) ==>
              r == if target.address in v then Ok(()) else Err(Port.NotFound))
      ensures OwnKept(old(service.db), service.db, service.ring.keys)
      ensures service.losses == old(service.losses) && !Routes.May(service.caller, "secret:delete", Some(target.address.scope.tenant)) ==>
        r == Err(Rebuff(service.caller))
    {
      ghost var before := service.db;
      var a := target.address;
      var request := Http.WorkloadDelete(Reference(a), Some(a.scope.user));
      ghost var handled := Http.Handle(before, service.ring, service.caller, request);
      DeleteHandled(before, service.ring, service.caller, a);
      Wire.NamedRequestsFit(a);
      if !Routes.May(service.caller, "secret:delete", Some(a.scope.tenant)) {
        Rebuffed(before, service.ring, service.caller, request, "secret:delete", a.scope.tenant);
      }
      hide Routes.May;
      hide Http.Handle, Wire.Fits, Granted, OwnRecord;
      var response := service.Send(request);
      Arrived(response);
      var outcome := Classified(response);
      r := if outcome.Ok? then Ok(()) else Err(outcome.error);
      ghost var after := service.db;
      FewerOwn(before, after, service.ring.keys, Reference(a));
      forall v | Holds(before, service.ring.keys, v)
        ensures Holds(after, service.ring.keys, v) || Holds(after, service.ring.keys, v - {a})
        ensures after.secrets == before.secrets - {Reference(a)} ==> Holds(after, service.ring.keys, v - {a})
        ensures a in v <==> Reference(a) in before.secrets
      {
        HoldsAt(before, service.ring.keys, v, a);
        hide Holds, Reference;
        if after.secrets == before.secrets {
          SameSecretsHold(before, after, service.ring.keys, v);
        }
        if after.secrets == before.secrets - {Reference(a)} {
          RowDeleted(before, after, service.ring.keys, v, a);
        }
      }
    }

    /** An answered listing is exactly the scope's active records, in order and each once; where custody
        holds the map, that is the map's listing. */
    method List(scope: Scope, rows: seq<SecretMetadata>) returns (r: Result<seq<Port.Listed>, Port.StorageError>)
      requires Returns(service.db, scope.tenant, scope.namespace, rows)
      modifies service`db, service`losses
      ensures SameSecrets(old(service.db), service.db)
      ensures service.losses != old(service.losses) ==> r == Err(Port.Unavailable)
      ensures service.losses == old(service.losses) && Granted(service.caller, scope.tenant) ==> r.Ok?
      ensures service.losses == old(service.losses) && !Routes.May(service.caller, "secret:list", Some(scope.tenant)) ==>
        r == Err(Rebuff(service.caller))
      ensures r.Ok? ==> forall v | Holds(old(service.db), service.ring.keys, v) :: Port.Lists(v, scope, r.value)
      ensures r.Ok? ==> Port.Lists(ActiveMap(old(service.db)), scope, r.value)
    {
      ghost var before := service.db;
      var request := Http.WorkloadList(scope.tenant, scope.namespace);
      ListHandled(before, service.ring, service.caller, scope);
      ListFits(scope);
      if !Routes.May(service.caller, "secret:list", Some(scope.tenant)) {
        Rebuffed(before, service.ring, service.caller, request, "secret:list", scope.tenant);
      }
      hide Routes.May, Http.Handle, Wire.Fits, Granted, RowFor, ActiveMap, Holds, Returns, Port.SortRows, Port.Lists;
      var response := service.Send(request);
      Arrived(response);
      var outcome := Classified(response);
      if outcome.Err? {
        return Err(outcome.error);
      }
      var listed: seq<Port.Listed> := [];
      for i := 0 to |rows|
        invariant listed == Port.RowsOf(Rows(scope), rows, i)
        invariant service.db == before && service.losses == old(service.losses)
      {
        var row := RowFor(scope, rows[i]);
        if row.Some? {
          listed := listed + [row.value];
        }
      }
      forall v | Holds(before, service.ring.keys, v)
        ensures Port.Lists(v, scope, Port.SortRows(listed))
      {
        RowsListHeld(before, service.ring.keys, v, scope, rows);
      }
      RowsListActive(before, scope, rows);
      return Ok(Port.SortRows(listed));
    }
  }

  lemma ListHandled(db: Db, ring: Keyring, caller: Http.Caller, scope: Scope)
    ensures var (after, response) := Http.Handle(db, ring, caller, Http.WorkloadList(scope.tenant, scope.namespace));
            && after == db && (Granted(caller, scope.tenant) ==> !response.Failure?)
  {
    if Granted(caller, scope.tenant) {
      GrantedAuthorizes(caller, scope.tenant, Http.WorkloadList(scope.tenant, scope.namespace));
    }
    hide Granted, Http.ActionOf, List;
  }

  lemma ListFits(scope: Scope)
    ensures Wire.Fits(Http.WorkloadList(scope.tenant, scope.namespace))
  {
    Wire.NamedRequestsFit(Address(scope, DEFAULT));
    hide Wire.Fits;
  }

  predicate FetchedOf(db: Db, keys: map<string, string>, v: Port.Vault, a: Address) {
    match Fetched(db, keys, Reference(a))
    case Ok(stored) => a in v && stored.value == v[a].value && VersionText(stored.metadata.id, stored.metadata.version) == v[a].version
    case Err(error) => a !in v && error == Port.NotFound
  }

  lemma FetchedFrom(db: Db, keys: map<string, string>, v: Port.Vault, a: Address)
    requires Holds(db, keys, v)
    ensures FetchedOf(db, keys, v, a)
  {
    GetHolds(db, keys, v, a);
    hide Get, Holds, Reference;
  }

  /** What a write leaves of the map: nothing changed, or the address holds the value under some
      version; and when it is answered, the version and whether it was new are as answered. */
  ghost predicate Wrote(after: Db, keys: map<string, string>, v: Port.Vault, a: Address, value: Port.SecretValue,
                        r: Result<Port.Written, Port.StorageError>)
  {
    match r
    case Ok(written) =>
      && written.version.Some? && written == Port.WrittenAt(v, a, written.version.value)
      && Holds(after, keys, v[a := Port.Stored(value, written.version.value)])
    case Err(_) => Holds(after, keys, v) || exists version :: Holds(after, keys, v[a := Port.Stored(value, version)])
  }

  lemma WroteWhole(before: Db, handled: Db, after: Db, ring: Keyring, v: Port.Vault, a: Address, value: Port.SecretValue, seed: Seed,
                   response: Http.Response, r: Result<Port.Written, Port.StorageError>)
    requires Holds(before, ring.keys, v)
    requires !response.Failure? ==>
      && Reference(a) in handled.secrets && response == Http.Metadata(MetadataOf(Reference(a), handled.secrets[Reference(a)]))
      && var row := handled.secrets[Reference(a)];
         Holds(handled, ring.keys, v[a := Port.Stored(value, VersionText(row.id, row.current))]) && (row.current == 1 <==> a !in v)
    requires response.Failure? ==> handled == before
    requires after == handled || after.secrets == before.secrets
    requires r.Ok? ==>
      && !response.Failure? && after == handled
      && var version := VersionText(response.metadata.id, response.metadata.version);
         r.value == if response.metadata.version == 1 then Port.Created(Some(version)) else Port.Replaced(Some(version))
    ensures Wrote(after, ring.keys, v, a, value, r)
  {
    hide Holds, Reference;
    if after.secrets == before.secrets {
      SameSecretsHold(before, after, ring.keys, v);
    }
  }

  predicate AllOrNothing(before: Db, after: Db, keys: map<string, string>, from: Address, to: Address, r: Result<(), Port.StorageError>) {
    var moved := FullyMoved(before, after, keys, Reference(from), Reference(to), from.scope.user);
    && (after.secrets == before.secrets || moved)
    && (r.Ok? ==> moved)
    && (r.Err? && r.error != Port.Unavailable ==> after.secrets == before.secrets)
  }

  lemma SameHeld(before: Db, held: Db, ring: Keyring, caller: Http.Caller, k: BatchKey, expiry: int, from: SecretRef, to: SecretRef, m: Moments)
    requires SameSecrets(before, held)
    ensures Get(held, ring.keys, from) == Get(before, ring.keys, from)
    ensures InTime(before, ring, caller, k, expiry, to, m) ==> InTime(held, ring, caller, k, expiry, to, m)
  {
    SameGet(before, held, ring, from, to, At(m.supply, 0));
    hide Granted, PutAccepted, Get;
  }

  lemma MovedStays(before: Db, after: Db, later: Db, keys: map<string, string>, from: SecretRef, to: SecretRef, owner: string)
    requires FullyMoved(before, after, keys, from, to, owner) && later.secrets == after.secrets
    ensures FullyMoved(before, later, keys, from, to, owner)
  {
    hide Decrypt;
  }

  lemma MovedSince(before: Db, held: Db, after: Db, keys: map<string, string>, from: SecretRef, to: SecretRef, owner: string)
    requires FullyMoved(held, after, keys, from, to, owner) && held.secrets == before.secrets
    ensures FullyMoved(before, after, keys, from, to, owner)
  {
    hide Decrypt;
  }

  /** Too wide for the service to read: the record's value, disclosure and labels with both names. */
  predicate TooWide(from: Address, newName: SecretName, stored: StoredSecret) {
    Wire.RenameBytes(from, newName, stored) > ValueBound.SERVICE_BODY_LIMIT
  }

  /** The rename's answer with no loss and nothing in its way. */
  predicate CleanRename(before: Db, keys: map<string, string>, from: Address, newName: SecretName, r: Result<(), Port.StorageError>) {
    match Fetched(before, keys, Reference(from))
    case Err(error) => r == Err(error)
    case Ok(stored) =>
      if Exists(before, Reference(Address(from.scope, newName))) then r == Err(Port.Conflict)
      else if TooWide(from, newName, stored) then r == Err(Port.Denied) else r.Ok?
  }

  lemma FetchedIs(db: Db, keys: map<string, string>, r: SecretRef)
    ensures Get(db, keys, r).Ok? ==> Fetched(db, keys, r) == Ok(Get(db, keys, r).value)
  {
    hide Get;
  }

  lemma UnhinderedIsGranted(db: Db, ring: Keyring, caller: Http.Caller, lifetime: nat, to: Address, m: Moments)
    ensures Unhindered(db, ring, caller, lifetime, to, m) ==> Granted(caller, to.scope.tenant)
  {
    hide Granted, PutAccepted;
  }

  lemma UnhinderedPrepares(db: Db, ring: Keyring, caller: Http.Caller, lifetime: nat, from: Address, stored: StoredSecret, to: Address, m: Moments)
    requires stored.metadata.reference == Reference(from) && from.scope == to.scope
    ensures Unhindered(db, ring, caller, lifetime, to, m) ==>
      Preparable(db, ring, caller, BatchKey(to.scope.tenant, m.id), RenameBatch(stored, Reference(to), to.scope.user), lifetime, m)
  {
    hide Granted, PutAccepted, PlainStore.CanSeal;
  }

  lemma UnhinderedIsInTime(db: Db, ring: Keyring, caller: Http.Caller, lifetime: nat, to: Address, m: Moments)
    ensures Unhindered(db, ring, caller, lifetime, to, m) ==>
      InTime(db, ring, caller, BatchKey(to.scope.tenant, m.id), SaturatingAdd(m.clock, lifetime), Reference(to), m)
  {
    hide Granted, PutAccepted, PlainStore.CanSeal;
  }

  lemma SameGet(before: Db, held: Db, ring: Keyring, from: SecretRef, to: SecretRef, seed: Seed)
    requires SameSecrets(before, held)
    ensures Get(held, ring.keys, from) == Get(before, ring.keys, from)
    ensures PutAccepted(before, ring, to, seed) ==> PutAccepted(held, ring, to, seed)
  {
    assert held.Ids() == before.Ids();
    hide Decrypt, PlainStore.CanSeal;
  }

  /** A record that is read, whose new name is free, and that is too wide to move. */
  predicate StuckBehindTheLimit(before: Db, keys: map<string, string>, from: Address, newName: SecretName) {
    && !Exists(before, Reference(Address(from.scope, newName)))
    && var stored := Fetched(before, keys, Reference(from));
       stored.Ok? && TooWide(from, newName, stored.value)
  }

  /** Where custody holds the map, that answer and what it leaves are the map's rename; only a record
      too wide to send is refused where the map would move it, and stays. */
  lemma RenameRefines(before: Db, after: Db, keys: map<string, string>, v: Port.Vault, from: Address, newName: SecretName,
                      r: Result<(), Port.StorageError>) returns (next: Port.Vault)
    requires Holds(before, keys, v) && CleanRename(before, keys, from, newName, r)
    requires if r.Ok? then FullyMoved(before, after, keys, Reference(from), Reference(Address(from.scope, newName)), from.scope.user)
             else after.secrets == before.secrets
    ensures Holds(after, keys, next)
    ensures if StuckBehindTheLimit(before, keys, from, newName)
            then r == Err(Port.Denied) && next == v && from in v && Address(from.scope, newName) !in v
            else Port.Renames(v, from, Address(from.scope, newName), next, r)
  {
    var to := Address(from.scope, newName);
    hide FullyMoved, Reference, Holds, Port.Renames, Fetched, Exists, TooWide;
    FetchedFrom(before, keys, v, from);
    GetHolds(before, keys, v, to);
    if r.Ok? {
      next := MovedVault(before, after, keys, v, from, to, r);
    } else {
      next := v;
      SameSecretsHold(before, after, keys, v);
      if !StuckBehindTheLimit(before, keys, from, newName) {
        RefusedRename(v, from, to, r);
      }
    }
  }

  lemma RefusedRename(v: Port.Vault, from: Address, to: Address, r: Result<(), Port.StorageError>)
    requires (r == Err(Port.NotFound) && from !in v) || (r == Err(Port.Conflict) && to in v)
    ensures Port.Renames(v, from, to, v, r)
  {
  }

  lemma MovedVault(before: Db, after: Db, keys: map<string, string>, v: Port.Vault, from: Address, to: Address, r: Result<(), Port.StorageError>)
    returns (next: Port.Vault)
    requires Holds(before, keys, v) && to !in v && r.Ok?
    requires FullyMoved(before, after, keys, Reference(from), Reference(to), from.scope.user)
    ensures Holds(after, keys, next) && Port.Renames(v, from, to, next, r)
  {
    MoveHolds(before, after, keys, v, from, to);
    var now := after.secrets[Reference(to)];
    next := (v - {from})[to := Port.Stored(v[from].value, VersionText(now.id, now.current))];
    hide Holds, FullyMoved, Reference;
  }

  // ---- The client's own records ----

  /** A record as the client writes it: for workloads only, without labels, its value in the bound. */
  predicate OwnRow(keys: map<string, string>, r: SecretRef, row: SecretRow) {
    && row.disclosure == WorkloadOnly && row.labels == map[] && row.current in row.versions
    && var value := Decrypt(keys, r, row.current, row.disclosure, row.versions[row.current]);
       value.Ok? ==> |value.value| <= ValueBound.MaxValueBytes()
  }

  predicate OwnRecord(db: Db, keys: map<string, string>, a: Address) {
    Reference(a) in db.secrets ==> OwnRow(keys, Reference(a), db.secrets[Reference(a)])
  }

  /** Records of the client's own stay its own. */
  ghost predicate OwnKept(before: Db, after: Db, keys: map<string, string>) {
    forall a: Address :: OwnRecord(before, keys, a) ==> OwnRecord(after, keys, a)
  }

  lemma FewerOwn(before: Db, after: Db, keys: map<string, string>, r: SecretRef)
    requires after.secrets == before.secrets - {r} || after.secrets == before.secrets
    ensures OwnKept(before, after, keys)
  {
    hide OwnRow, Reference;
  }

  lemma PutOwn(before: Db, after: Db, ring: Keyring, a: Address, value: string, seed: Seed)
    requires |value| <= ValueBound.MaxValueBytes() && PutTx(before, ring, PutInput(a, value), a.scope.user, seed) == Ok(after)
    ensures OwnRecord(after, ring.keys, a) && OwnKept(before, after, ring.keys)
  {
    PutLeaves(before, ring, PutInput(a, value), a.scope.user, seed);
    hide PutTx, Decrypt, Reference, ValueBound.MaxValueBytes;
    assert OwnRow(ring.keys, Reference(a), after.secrets[Reference(a)]);
    hide OwnRow;
  }

  lemma MovedOwn(before: Db, after: Db, keys: map<string, string>, from: Address, to: Address)
    requires FullyMoved(before, after, keys, Reference(from), Reference(to), from.scope.user)
    ensures OwnRecord(before, keys, from) ==> OwnRecord(after, keys, to) && OwnKept(before, after, keys)
  {
    hide Decrypt, Reference, ValueBound.MaxValueBytes;
    if OwnRecord(before, keys, from) {
      assert OwnRow(keys, Reference(to), after.secrets[Reference(to)]);
      hide OwnRow;
    }
  }

  /** A rename of a record of the client's own leaves one. */
  lemma RenameKeepsOwn(before: Db, after: Db, keys: map<string, string>, from: Address, to: Address, r: Result<(), Port.StorageError>)
    requires AllOrNothing(before, after, keys, from, to, r) && OwnRecord(before, keys, from)
    ensures OwnKept(before, after, keys) && (r.Ok? ==> OwnRecord(after, keys, to))
  {
    hide FullyMoved, Reference, OwnRecord;
    if FullyMoved(before, after, keys, Reference(from), Reference(to), from.scope.user) {
      MovedOwn(before, after, keys, from, to);
    } else {
      FewerOwn(before, after, keys, Reference(from));
    }
  }

  /** What the bound is for: a record of the client's own is never too wide to rename, to any name. */
  lemma OwnRecordFits(db: Db, keys: map<string, string>, from: Address, newName: SecretName)
    requires OwnRecord(db, keys, from)
    ensures !StuckBehindTheLimit(db, keys, from, newName)
  {
    var stored := Fetched(db, keys, Reference(from));
    if stored.Ok? {
      Wire.NoLabels();
      hide Decrypt, Reference, ValueBound.MaxValueBytes, ValueBound.RenameBody;
      ValueBound.AcceptedValueFits(from, newName, stored.value.value);
    }
  }

  /** What one put into empty custody leaves to be fetched. */
  lemma OnePut(ring: Keyring, input: PutSecret, owner: string, seed: Seed)
    requires PlainStore.CanSeal(ring, seed.draw) && ValidateRef(input.reference).Ok?
    ensures var put := PutTx(Db(map[], map[], []), ring, input, owner, seed);
            && put.Ok? && (forall r :: Exists(put.value, r) ==> r == input.reference)
            && var stored := Fetched(put.value, ring.keys, input.reference);
               stored.Ok? && stored.value.value == input.value
               && stored.value.metadata.disclosure == input.disclosure && stored.value.metadata.labels == input.labels
  {
    var empty := Db(map[], map[], []);
    assert PutAccepted(empty, ring, input.reference, seed);
    PutLeaves(empty, ring, input, owner, seed);
    hide PutTx, Decrypt, ValidateRef, PlainStore.CanSeal;
  }

  /** A record put by someone else as user-revealable, at the bound and under names at theirs, is read
      but not moved. */
  lemma RevealableStays(ring: Keyring, owner: string, seed: Seed) returns (input: PutSecret, from: Address, newName: SecretName)
    requires PlainStore.CanSeal(ring, seed.draw)
    ensures |input.value| == ValueBound.MaxValueBytes() && input.reference == Reference(from)
    ensures var put := PutTx(Db(map[], map[], []), ring, input, owner, seed);
            && put.Ok? && StuckBehindTheLimit(put.value, ring.keys, from, newName)
            && forall r | CleanRename(put.value, ring.keys, from, newName, r) :: r == Err(Port.Denied)
  {
    hide PutTx, Reference, ValueBound.MaxValueBytes, ValueBound.RenameBody, ValidateRef, PlainStore.CanSeal, ValueBound.AtBounds, ParseName,
      Exists, Fetched;
    from, newName := ValueBound.BoundsMet();
    input := PutSecret(Reference(from), owner, Repeat(ValueBound.MaxValueBytes()), UserRevealable, map[]);
    ReferenceAccepted(from);
    OnePut(ring, input, owner, seed);
    ValueBound.RevealableRenameOverflows(from, newName, input.value);
    Wire.NoLabels();
    if Reference(Address(from.scope, newName)) == Reference(from) {
      ReferenceInjective(Address(from.scope, newName), from);
    }
  }
}
